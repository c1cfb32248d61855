/** The record assembler of `gff_to_gbk` (lines 129-173): for each contig of the
    nucleotide FASTA, one GenBank record whose features are, gene by gene, a gene
    feature followed by one feature per CDS of that gene. */
module GenomesToGbk {
  import opened Wrappers
  import opened Strand
  import opened Identifiers
  import opened Fasta
  import opened Gff
  import opened Genbank

  /** Why a run writes no GenBank file: `strand_change` left `new_strand` unassigned
      for this feature, and the UnboundLocalError ended `gff_to_gbk`. */
  datatype Error = InvalidStrand(featureId: string, strand: StrandInput)

  /** What line 168 hands to `create_cds_feature` next to the tables: the CDS key, the
      shifted start, the end and the normalised strand. */
  datatype CdsRequest = CdsRequest(key: string, start: int, end: int, strand: Option<int>)

  /** `create_cds_feature` with the annotation and GO tables already bound: any
      function of the request and of the protein table. */
  type CdsBuilder = (CdsRequest, map<string, seq<char>>) -> Feature

  /** `record_info` with the species information already bound: any function of the
      contig id and sequence. */
  type RecordBuilder = (string, seq<char>) -> Record

  /** Both strand markers a gene needs are recognised: its own and every CDS's. */
  predicate ValidGene(gene: Gene) {
    Recognised(gene.feature.strand) && forall c :: c in gene.cds ==> Recognised(c.strand)
  }

  /** `strand_change` on a feature's strand column, with the failure named after the
      feature. */
  function NormalisedStrand(f: GffFeature): (r: Result<Option<int>, Error>)
    ensures r.Ok? <==> Recognised(f.strand)
    ensures r.Ok? ==> IsStrand(r.value) && StrandChange(f.strand) == Assigned(r.value)
    ensures r.Err? ==> r.error == InvalidStrand(f.id, f.strand)
  {
    match StrandChange(f.strand)
    case Assigned(s) => Ok(s)
    case Unassigned => Err(InvalidStrand(f.id, f.strand))
  }

  /** Lines 149-156: the gene feature, start shifted to zero-based, end kept. The
      half-open location covers as many bases as the 1-based inclusive GFF row, and a
      row starting at 1 or later starts at 0 or later. */
  function GeneFeature(gene: GffFeature, tag: string, strand: Option<int>): (f: Feature)
    ensures f.kind == "gene" && LocusTag in f.qualifiers && f.qualifiers[LocusTag] == Text(tag)
    ensures f.location.end - f.location.start == gene.end - gene.start + 1
    ensures gene.start >= 1 ==> f.location.start >= 0
  {
    Feature("gene", Location(gene.start - 1, gene.end, strand), map[LocusTag := Text(tag)])
  }

  /** The request line 168 builds for a CDS with an already normalised strand. */
  function RequestFor(cds: GffFeature, strand: Option<int>): CdsRequest {
    CdsRequest(CdsKey(cds.id), cds.start - 1, cds.end, strand)
  }

  /** Lines 163-169 for one CDS: the created feature with the gene's locus tag written
      over whatever `create_cds_feature` put there. */
  function CdsFeature(cds: GffFeature, tag: string, proteins: map<string, seq<char>>, createCds: CdsBuilder): (r: Result<seq<Feature>, Error>)
    ensures r.Ok? <==> Recognised(cds.strand)
    ensures r.Ok? ==> |r.value| == 1 && LocusTag in r.value[0].qualifiers && r.value[0].qualifiers[LocusTag] == Text(tag)
    ensures r.Err? ==> r.error == InvalidStrand(cds.id, cds.strand)
  {
    match NormalisedStrand(cds)
    case Err(e) => Err(e)
    case Ok(strand) => Ok([SetQualifier(createCds(RequestFor(cds, strand), proteins), LocusTag, Text(tag))])
  }

  function CdsStep(tag: string, proteins: map<string, seq<char>>, createCds: CdsBuilder): GffFeature -> Result<seq<Feature>, Error> {
    cds => CdsFeature(cds, tag, proteins, createCds)
  }

  /** Lines 140-171 for one gene: its feature, then its CDS features in start order. */
  function GeneFeatures(gene: Gene, proteins: map<string, seq<char>>, createCds: CdsBuilder): (r: Result<seq<Feature>, Error>)
    ensures !Recognised(gene.feature.strand) ==> r == Err(InvalidStrand(gene.feature.id, gene.feature.strand))
    ensures r.Ok? ==> Recognised(gene.feature.strand) && |r.value| >= 1 &&
                      r.value[0] == GeneFeature(gene.feature, GeneLocusTag(gene.feature.id), NormalisedStrand(gene.feature).value)
  {
    var tag := GeneLocusTag(gene.feature.id);
    match NormalisedStrand(gene.feature)
    case Err(e) => Err(e)
    case Ok(strand) =>
      Then(Ok([GeneFeature(gene.feature, tag, strand)]),
           FlatMap(OrderByStart(gene.cds), CdsStep(tag, proteins, createCds)))
  }

  function GeneStep(proteins: map<string, seq<char>>, createCds: CdsBuilder): Gene -> Result<seq<Feature>, Error> {
    gene => GeneFeatures(gene, proteins, createCds)
  }

  /** Lines 138-171: the features appended to the record of contig `regionId`. */
  function ContigFeatures(regionId: string, genes: seq<Gene>, proteins: map<string, seq<char>>, createCds: CdsBuilder): (r: Result<seq<Feature>, Error>)
    ensures (forall g :: g in genes ==> g.feature.chrom != regionId) ==> r == Ok([])
  {
    var onContig := GenesOn(regionId, genes);
    assert onContig != [] ==> onContig[0] in genes && onContig[0].feature.chrom == regionId;
    FlatMap(onContig, GeneStep(proteins, createCds))
  }

  /** A record as `record_info` made it, with `features` appended to its list. */
  function WithFeatures(record: Record, features: seq<Feature>): Record {
    record.(features := record.features + features)
  }

  /** Lines 137-173 for one contig: its record, as a one-element run. */
  function ContigRecord(entry: FastaRecord, genes: seq<Gene>, proteins: map<string, seq<char>>,
                        recordInfo: RecordBuilder, createCds: CdsBuilder): Result<seq<Record>, Error> {
    match ContigFeatures(entry.id, genes, proteins, createCds)
    case Err(e) => Err(e)
    case Ok(fs) => Ok([WithFeatures(recordInfo(entry.id, entry.sequence), fs)])
  }

  function ContigStep(genes: seq<Gene>, proteins: map<string, seq<char>>,
                      recordInfo: RecordBuilder, createCds: CdsBuilder): FastaRecord -> Result<seq<Record>, Error> {
    entry => ContigRecord(entry, genes, proteins, recordInfo, createCds)
  }

  /** What `gff_to_gbk` hands to the GenBank writer: `seq_objects`, or the error that
      stopped it before line 176. */
  function GenomeRecords(contigFasta: seq<FastaRecord>, proteinFasta: seq<FastaRecord>, genes: seq<Gene>,
                         recordInfo: RecordBuilder, createCds: CdsBuilder): (r: Result<seq<Record>, Error>)
    ensures r.Ok? ==> |r.value| == |OrderedEntries(contigFasta)|
  {
    var entries := OrderedEntries(contigFasta);
    var step := ContigStep(genes, FastaTable(proteinFasta), recordInfo, createCds);
    if FlatMap(entries, step).Ok? then
      FlatMapSingletons(entries, step);
      FlatMap(entries, step)
    else
      FlatMap(entries, step)
  }

  /** `create_cds_feature` puts the CDS at the location it is handed. The function is
      defined in `emapper2gbk/utils`, which is not part of this model, so this is a
      hypothesis of the coordinate lemmas and not a fact about the builder. */
  ghost predicate PlacesAtRequest(createCds: CdsBuilder) {
    forall req, proteins :: createCds(req, proteins).location == Location(req.start, req.end, req.strand)
  }

  /** The feature an unassignable strand is reported for: the gene itself, or one of
      its CDS rows. */
  ghost predicate Blames(e: Error, gene: Gene) {
    (e == InvalidStrand(gene.feature.id, gene.feature.strand) && !Recognised(gene.feature.strand)) ||
    (exists c :: c in gene.cds && e == InvalidStrand(c.id, c.strand) && !Recognised(c.strand))
  }

  /** A gene's CDS rows in start order are its CDS rows: membership is kept. */
  lemma OrderedChildren(gene: Gene)
    ensures |OrderByStart(gene.cds)| == |gene.cds|
    ensures forall c :: c in OrderByStart(gene.cds) <==> c in gene.cds
  {
    var children := OrderByStart(gene.cds);
    assert |multiset(children)| == |multiset(gene.cds)|;
    forall c ensures c in children <==> c in gene.cds {
      assert c in children <==> c in multiset(children);
      assert c in gene.cds <==> c in multiset(gene.cds);
    }
  }

  /** Lines 164-168 for one CDS: its feature sits at the shifted start and the kept end
      when the builder keeps the location it is handed. */
  lemma CdsFeatureLocation(cds: GffFeature, tag: string, proteins: map<string, seq<char>>, createCds: CdsBuilder)
    ensures var r := CdsFeature(cds, tag, proteins, createCds);
            r.Ok? && PlacesAtRequest(createCds) ==>
              r.value[0].location == Location(cds.start - 1, cds.end, NormalisedStrand(cds).value)
  {
  }

  /** Lines 140-171 succeed for a gene exactly when its own strand and the strand of
      every CDS below it are recognised by `strand_change`. */
  lemma GeneFeaturesOk(gene: Gene, proteins: map<string, seq<char>>, createCds: CdsBuilder)
    ensures GeneFeatures(gene, proteins, createCds).Ok? <==> ValidGene(gene)
  {
    var children := OrderByStart(gene.cds);
    var tag := GeneLocusTag(gene.feature.id);
    var step := CdsStep(tag, proteins, createCds);
    OrderedChildren(gene);
    forall i | 0 <= i < |children| ensures step(children[i]).Ok? <==> Recognised(children[i].strand) {
      CdsFeatureLocation(children[i], tag, proteins, createCds);
    }
    assert FlatMap(children, step).Ok? <==> forall c :: c in gene.cds ==> Recognised(c.strand);
  }

  /** A successful gene yields its gene feature followed by exactly one feature per CDS,
      in start order, each the feature built for that CDS. */
  lemma GeneFeaturesShape(gene: Gene, proteins: map<string, seq<char>>, createCds: CdsBuilder)
    requires GeneFeatures(gene, proteins, createCds).Ok?
    ensures var fs := GeneFeatures(gene, proteins, createCds).value;
            var children := OrderByStart(gene.cds);
            var tag := GeneLocusTag(gene.feature.id);
            |fs| == 1 + |children| &&
            NormalisedStrand(gene.feature).Ok? &&
            fs[0] == GeneFeature(gene.feature, tag, NormalisedStrand(gene.feature).value) &&
            forall k :: 0 <= k < |children| ==>
              CdsFeature(children[k], tag, proteins, createCds).Ok? &&
              fs[k + 1] == CdsFeature(children[k], tag, proteins, createCds).value[0]
  {
    var children := OrderByStart(gene.cds);
    var tag := GeneLocusTag(gene.feature.id);
    var step := CdsStep(tag, proteins, createCds);
    var strand := NormalisedStrand(gene.feature).value;
    var geneFeature := GeneFeature(gene.feature, tag, strand);
    assert GeneFeatures(gene, proteins, createCds) == Then(Ok([geneFeature]), FlatMap(children, step));
    forall i | 0 <= i < |children| && step(children[i]).Ok? ensures |step(children[i]).value| == 1 {
      CdsFeatureLocation(children[i], tag, proteins, createCds);
    }
    FlatMapSingletons(children, step);
    var rest := FlatMap(children, step).value;
    var fs := GeneFeatures(gene, proteins, createCds).value;
    assert fs == [geneFeature] + rest;
    forall k | 0 <= k < |children|
      ensures CdsFeature(children[k], tag, proteins, createCds).Ok? &&
              fs[k + 1] == CdsFeature(children[k], tag, proteins, createCds).value[0]
    {
      assert fs[k + 1] == rest[k] == step(children[k]).value[0];
    }
  }

  /** Line 169: every feature of a gene, the gene feature and each CDS feature alike,
      carries the gene's normalised id as its locus tag, whatever `create_cds_feature`
      put there. */
  lemma GeneFeaturesLocusTag(gene: Gene, proteins: map<string, seq<char>>, createCds: CdsBuilder)
    requires GeneFeatures(gene, proteins, createCds).Ok?
    ensures var fs := GeneFeatures(gene, proteins, createCds).value;
            forall i :: 0 <= i < |fs| ==>
              LocusTag in fs[i].qualifiers && fs[i].qualifiers[LocusTag] == Text(GeneLocusTag(gene.feature.id))
  {
    GeneFeaturesShape(gene, proteins, createCds);
    var fs := GeneFeatures(gene, proteins, createCds).value;
    var children := OrderByStart(gene.cds);
    var tag := GeneLocusTag(gene.feature.id);
    forall i | 0 < i < |fs| ensures LocusTag in fs[i].qualifiers && fs[i].qualifiers[LocusTag] == Text(tag) {
      CdsFeatureLocation(children[i - 1], tag, proteins, createCds);
      assert fs[(i - 1) + 1] == fs[i];
    }
  }

  /** Lines 149-152 and 164-168, with no hypothesis on the builder: the gene feature
      starts one before its GFF row and ends where the row ends, and each CDS feature is
      what `create_cds_feature` built from the `cds-`-stripped id, the row start minus
      one, the row end and the normalised strand, with the gene's tag written over. */
  lemma GeneFeaturesRequests(gene: Gene, proteins: map<string, seq<char>>, createCds: CdsBuilder)
    requires GeneFeatures(gene, proteins, createCds).Ok?
    ensures var fs := GeneFeatures(gene, proteins, createCds).value;
            |fs| >= 1 &&
            fs[0].location == Location(gene.feature.start - 1, gene.feature.end, NormalisedStrand(gene.feature).value) &&
            (gene.feature.start >= 1 ==> fs[0].location.start >= 0)
    ensures var fs := GeneFeatures(gene, proteins, createCds).value;
            var children := OrderByStart(gene.cds);
            |fs| == 1 + |children| &&
            forall k :: 0 <= k < |children| ==>
              NormalisedStrand(children[k]).Ok? &&
              fs[k + 1] == SetQualifier(createCds(CdsRequest(CdsKey(children[k].id), children[k].start - 1, children[k].end,
                                                             NormalisedStrand(children[k]).value), proteins),
                                        LocusTag, Text(GeneLocusTag(gene.feature.id)))
  {
    GeneFeaturesShape(gene, proteins, createCds);
  }

  /** Lines 164-168 under the hypothesis that `create_cds_feature` keeps the location it
      is handed: each CDS feature starts one before its GFF row and ends where the row
      ends. */
  lemma GeneFeaturesCoordinates(gene: Gene, proteins: map<string, seq<char>>, createCds: CdsBuilder)
    requires GeneFeatures(gene, proteins, createCds).Ok?
    requires PlacesAtRequest(createCds)
    ensures var fs := GeneFeatures(gene, proteins, createCds).value;
            var children := OrderByStart(gene.cds);
            |fs| == 1 + |children| &&
            forall k :: 0 <= k < |children| ==>
              fs[k + 1].location == Location(children[k].start - 1, children[k].end, NormalisedStrand(children[k]).value)
  {
    GeneFeaturesShape(gene, proteins, createCds);
    BuiltLocations(GeneFeatures(gene, proteins, createCds).value, OrderByStart(gene.cds), GeneLocusTag(gene.feature.id),
                   proteins, createCds);
  }

  /** A builder that keeps the location it is handed places each CDS feature built for a
      row at that row's coordinates. */
  lemma BuiltLocations(fs: seq<Feature>, children: seq<GffFeature>, tag: string, proteins: map<string, seq<char>>,
                       createCds: CdsBuilder)
    requires PlacesAtRequest(createCds)
    requires |fs| == 1 + |children|
    requires forall k :: 0 <= k < |children| ==>
               CdsFeature(children[k], tag, proteins, createCds).Ok? &&
               fs[k + 1] == CdsFeature(children[k], tag, proteins, createCds).value[0]
    ensures forall k :: 0 <= k < |children| ==>
              NormalisedStrand(children[k]).Ok? &&
              fs[k + 1].location == Location(children[k].start - 1, children[k].end, NormalisedStrand(children[k]).value)
  {
    forall k | 0 <= k < |children|
      ensures NormalisedStrand(children[k]).Ok? &&
              fs[k + 1].location == Location(children[k].start - 1, children[k].end, NormalisedStrand(children[k]).value)
    {
      CdsFeatureLocation(children[k], tag, proteins, createCds);
    }
  }

  /** GFF rows start at 1 or later, so every feature of a gene, the gene feature and
      (when the builder keeps the location it is handed) each CDS feature, starts at 0
      or later. */
  lemma GeneFeaturesStartsNonNegative(gene: Gene, proteins: map<string, seq<char>>, createCds: CdsBuilder)
    requires GeneFeatures(gene, proteins, createCds).Ok?
    requires PlacesAtRequest(createCds)
    requires gene.feature.start >= 1 && forall c :: c in gene.cds ==> c.start >= 1
    ensures var fs := GeneFeatures(gene, proteins, createCds).value;
            forall i :: 0 <= i < |fs| ==> fs[i].location.start >= 0
  {
    GeneFeaturesRequests(gene, proteins, createCds);
    GeneFeaturesCoordinates(gene, proteins, createCds);
    OrderedChildren(gene);
    var fs := GeneFeatures(gene, proteins, createCds).value;
    var children := OrderByStart(gene.cds);
    forall i | 0 < i < |fs| ensures fs[i].location.start >= 0 {
      assert fs[(i - 1) + 1] == fs[i];
      assert children[i - 1] in gene.cds;
    }
  }

  /** A gene of rows 5 to 100 on the forward strand, with no CDS, becomes one gene
      feature at zero-based 4 to 100 on strand +1, whatever its id. */
  lemma ForwardGeneExample(id: string, chrom: string, proteins: map<string, seq<char>>, createCds: CdsBuilder)
    ensures GeneFeatures(Gene(GffFeature(id, chrom, 5, 100, Str("+")), []), proteins, createCds) ==
            Ok([Feature("gene", Location(4, 100, Some(1)), map[LocusTag := Text(GeneLocusTag(id))])])
  {
    var gene := GffFeature(id, chrom, 5, 100, Str("+"));
    assert StrandChange(gene.strand) == Assigned(Some(1));
    assert NormalisedStrand(gene) == Ok(Some(1));
    assert OrderByStart([]) == [];
    assert FlatMap([], CdsStep(GeneLocusTag(id), proteins, createCds)) == Ok([]);
    assert [GeneFeature(gene, GeneLocusTag(id), Some(1))] + [] == [GeneFeature(gene, GeneLocusTag(id), Some(1))];
  }

  /** A failing gene reports a feature of its own whose strand is not recognised: the
      gene row first, otherwise the first bad CDS in start order. */
  lemma GeneFeaturesError(gene: Gene, proteins: map<string, seq<char>>, createCds: CdsBuilder)
    requires GeneFeatures(gene, proteins, createCds).Err?
    ensures Blames(GeneFeatures(gene, proteins, createCds).error, gene)
    ensures !Recognised(gene.feature.strand) ==>
              GeneFeatures(gene, proteins, createCds) == Err(InvalidStrand(gene.feature.id, gene.feature.strand))
  {
    if Recognised(gene.feature.strand) {
      var children := OrderByStart(gene.cds);
      var step := CdsStep(GeneLocusTag(gene.feature.id), proteins, createCds);
      var i := FlatMapFirstError(children, step);
      OrderedChildren(gene);
      assert children[i] in gene.cds;
    }
  }

  /** The features of a contig follow the database order of the genes: a split of the
      gene list splits the features the same way. */
  lemma ContigFeaturesAppend(regionId: string, a: seq<Gene>, b: seq<Gene>, proteins: map<string, seq<char>>, createCds: CdsBuilder)
    ensures ContigFeatures(regionId, a + b, proteins, createCds) ==
            Then(ContigFeatures(regionId, a, proteins, createCds), ContigFeatures(regionId, b, proteins, createCds))
  {
    GenesOnAppend(regionId, a, b);
    FlatMapAppend(GenesOn(regionId, a), GenesOn(regionId, b), GeneStep(proteins, createCds));
  }

  /** Line 138 for one gene: on this contig it contributes its own features, elsewhere
      nothing. */
  lemma ContigFeaturesSingle(regionId: string, gene: Gene, proteins: map<string, seq<char>>, createCds: CdsBuilder)
    ensures ContigFeatures(regionId, [gene], proteins, createCds) ==
            if gene.feature.chrom == regionId then GeneFeatures(gene, proteins, createCds) else Ok([])
  {
    assert [gene][..0] == [];
    if gene.feature.chrom == regionId {
      assert GenesOn(regionId, [gene]) == [gene];
      FlatMapSingle(gene, GeneStep(proteins, createCds));
    } else {
      assert GenesOn(regionId, [gene]) == [];
    }
  }

  /** A contig's features are built exactly when every gene on it is valid; genes on
      other contigs are never looked at. */
  lemma ContigFeaturesOk(regionId: string, genes: seq<Gene>, proteins: map<string, seq<char>>, createCds: CdsBuilder)
    ensures ContigFeatures(regionId, genes, proteins, createCds).Ok? <==>
            forall g :: g in genes && g.feature.chrom == regionId ==> ValidGene(g)
  {
    var onContig := GenesOn(regionId, genes);
    forall g ensures GeneFeatures(g, proteins, createCds).Ok? <==> ValidGene(g) {
      GeneFeaturesOk(g, proteins, createCds);
    }
    assert (forall i :: 0 <= i < |onContig| ==> GeneStep(proteins, createCds)(onContig[i]).Ok?) <==>
           (forall g :: g in onContig ==> ValidGene(g));
  }

  /** A failing contig reports a feature of one of its own genes. */
  lemma ContigFeaturesError(regionId: string, genes: seq<Gene>, proteins: map<string, seq<char>>, createCds: CdsBuilder)
    requires ContigFeatures(regionId, genes, proteins, createCds).Err?
    ensures exists g :: g in genes && g.feature.chrom == regionId &&
                        Blames(ContigFeatures(regionId, genes, proteins, createCds).error, g)
  {
    var onContig := GenesOn(regionId, genes);
    var i := FlatMapFirstError(onContig, GeneStep(proteins, createCds));
    GeneFeaturesError(onContig[i], proteins, createCds);
    assert onContig[i] in onContig;
  }

  /** The contigs of the OrderedDict are the ids of the nucleotide FASTA, no more and
      no fewer. */
  lemma ContigIds(contigFasta: seq<FastaRecord>)
    ensures forall id :: id in Keys(OrderedEntries(contigFasta)) <==> id in Keys(contigFasta)
  {
    var entries := OrderedEntries(contigFasta);
    OrderedEntriesKeys(contigFasta);
    forall id ensures id in Keys(entries) <==> id in Keys(contigFasta) {
      if id in Keys(entries) {
        var i :| 0 <= i < |entries| && Keys(entries)[i] == id;
        var k := IndexOf(contigFasta, entries[i].id);
        assert Keys(contigFasta)[k] == id;
      }
      if id in Keys(contigFasta) {
        var k :| 0 <= k < |contigFasta| && Keys(contigFasta)[k] == id;
        assert contigFasta[k].id in Keys(entries);
      }
    }
  }

  /** Lines 136-173 on success: one record per OrderedDict entry, in its order, each
      the record `record_info` built for that contig with the contig's features appended. */
  lemma GenomeRecordsShape(contigFasta: seq<FastaRecord>, proteinFasta: seq<FastaRecord>, genes: seq<Gene>,
                           recordInfo: RecordBuilder, createCds: CdsBuilder)
    requires GenomeRecords(contigFasta, proteinFasta, genes, recordInfo, createCds).Ok?
    ensures var recs := GenomeRecords(contigFasta, proteinFasta, genes, recordInfo, createCds).value;
            var entries := OrderedEntries(contigFasta);
            |recs| == |entries| &&
            forall i :: 0 <= i < |entries| ==>
              ContigFeatures(entries[i].id, genes, FastaTable(proteinFasta), createCds).Ok? &&
              recs[i] == WithFeatures(recordInfo(entries[i].id, entries[i].sequence),
                                      ContigFeatures(entries[i].id, genes, FastaTable(proteinFasta), createCds).value)
  {
    var entries := OrderedEntries(contigFasta);
    var step := ContigStep(genes, FastaTable(proteinFasta), recordInfo, createCds);
    FlatMapSingletons(entries, step);
  }

  /** The run writes a file exactly when every gene lying on a contig of the FASTA has
      recognised strands, its own and its CDS rows'; genes on other sequences never
      matter. */
  lemma GenomeRecordsOk(contigFasta: seq<FastaRecord>, proteinFasta: seq<FastaRecord>, genes: seq<Gene>,
                        recordInfo: RecordBuilder, createCds: CdsBuilder)
    ensures GenomeRecords(contigFasta, proteinFasta, genes, recordInfo, createCds).Ok? <==>
            forall g :: g in genes && g.feature.chrom in Keys(contigFasta) ==> ValidGene(g)
  {
    var entries := OrderedEntries(contigFasta);
    var proteins := FastaTable(proteinFasta);
    var step := ContigStep(genes, proteins, recordInfo, createCds);
    ContigIds(contigFasta);
    forall i | 0 <= i < |entries|
      ensures step(entries[i]).Ok? <==> forall g :: g in genes && g.feature.chrom == entries[i].id ==> ValidGene(g)
    {
      ContigFeaturesOk(entries[i].id, genes, proteins, createCds);
    }
    if GenomeRecords(contigFasta, proteinFasta, genes, recordInfo, createCds).Ok? {
      forall g | g in genes && g.feature.chrom in Keys(contigFasta) ensures ValidGene(g) {
        assert g.feature.chrom in Keys(entries);
        var i :| 0 <= i < |entries| && Keys(entries)[i] == g.feature.chrom;
        assert step(entries[i]).Ok?;
      }
    } else {
      var i :| 0 <= i < |entries| && !step(entries[i]).Ok?;
      var g :| g in genes && g.feature.chrom == entries[i].id && !ValidGene(g);
      assert Keys(entries)[i] == g.feature.chrom;
    }
  }

  /** A failed run reports a feature with an unrecognised strand that belongs to a gene
      lying on a contig of the FASTA. */
  lemma GenomeRecordsError(contigFasta: seq<FastaRecord>, proteinFasta: seq<FastaRecord>, genes: seq<Gene>,
                           recordInfo: RecordBuilder, createCds: CdsBuilder)
    requires GenomeRecords(contigFasta, proteinFasta, genes, recordInfo, createCds).Err?
    ensures exists g :: g in genes && g.feature.chrom in Keys(contigFasta) &&
                        Blames(GenomeRecords(contigFasta, proteinFasta, genes, recordInfo, createCds).error, g)
  {
    var entries := OrderedEntries(contigFasta);
    var proteins := FastaTable(proteinFasta);
    var i := FlatMapFirstError(entries, ContigStep(genes, proteins, recordInfo, createCds));
    ContigFeaturesError(entries[i].id, genes, proteins, createCds);
    ContigIds(contigFasta);
    assert Keys(entries)[i] == entries[i].id;
  }

  /** Genes on a sequence that is not a contig of the FASTA produce no feature: adding
      one anywhere in the database changes nothing. */
  lemma GenomeRecordsIgnoresGene(contigFasta: seq<FastaRecord>, proteinFasta: seq<FastaRecord>,
                                 before: seq<Gene>, gene: Gene, after: seq<Gene>,
                                 recordInfo: RecordBuilder, createCds: CdsBuilder)
    requires gene.feature.chrom !in Keys(contigFasta)
    ensures GenomeRecords(contigFasta, proteinFasta, before + [gene] + after, recordInfo, createCds) ==
            GenomeRecords(contigFasta, proteinFasta, before + after, recordInfo, createCds)
  {
    var entries := OrderedEntries(contigFasta);
    var proteins := FastaTable(proteinFasta);
    ContigIds(contigFasta);
    forall i | 0 <= i < |entries|
      ensures ContigStep(before + [gene] + after, proteins, recordInfo, createCds)(entries[i]) ==
              ContigStep(before + after, proteins, recordInfo, createCds)(entries[i])
    {
      var id := entries[i].id;
      assert Keys(entries)[i] == id;
      ContigFeaturesAppend(id, before + [gene], after, proteins, createCds);
      ContigFeaturesAppend(id, before, [gene], proteins, createCds);
      ContigFeaturesAppend(id, before, after, proteins, createCds);
      ContigFeaturesSingle(id, gene, proteins, createCds);
      match ContigFeatures(id, before, proteins, createCds)
      case Err(e) =>
      case Ok(v) => assert v + [] == v;
    }
    FlatMapAgree(entries, ContigStep(before + [gene] + after, proteins, recordInfo, createCds),
                 ContigStep(before + after, proteins, recordInfo, createCds));
  }

  /** The CDS loop of lines 162-171: each CDS of `children`, in order, becomes a
      feature carrying the gene's locus tag and is appended to `features`. */
  method AppendCdsFeatures(children: seq<GffFeature>, idGene: string, proteins: map<string, seq<char>>,
                           createCds: CdsBuilder, features: seq<Feature>)
    returns (result: Result<seq<Feature>, Error>)
    ensures result == Then(Ok(features), FlatMap(children, CdsStep(idGene, proteins, createCds)))
  {
    ghost var cdsStep := CdsStep(idGene, proteins, createCds);
    var appended := features;
    assert features + [] == features;
    for k := 0 to |children|
      invariant Ok(appended) == Then(Ok(features), FlatMap(children[..k], cdsStep))
    {
      var cds := children[k];
      var cdsId := CdsKey(cds.id);
      var cdsStrand := StrandChange(cds.strand);
      FlatMapStep(children, k, cdsStep);
      ThenAssoc(Ok(features), FlatMap(children[..k], cdsStep), cdsStep(cds));
      if cdsStrand.Unassigned? {
        FlatMapPrefixError(children, k + 1, cdsStep);
        return Err(InvalidStrand(cds.id, cds.strand));
      }
      var newCdsFeature := createCds(CdsRequest(cdsId, cds.start - 1, cds.end, cdsStrand.strand), proteins);
      newCdsFeature := SetQualifier(newCdsFeature, LocusTag, Text(idGene));
      appended := appended + [newCdsFeature];
    }
    assert children[..|children|] == children;
    result := Ok(appended);
  }

  /** One pass of the gene loop body, lines 140-171: the gene's feature, then its CDS
      features in start order, appended to `features`; an unnormalisable strand ends
      the pass. */
  method AppendGeneFeatures(gene: Gene, proteins: map<string, seq<char>>, createCds: CdsBuilder, features: seq<Feature>)
    returns (result: Result<seq<Feature>, Error>)
    ensures result == Then(Ok(features), GeneFeatures(gene, proteins, createCds))
  {
    var idGene := GeneLocusTag(gene.feature.id);
    var strand := StrandChange(gene.feature.strand);
    if strand.Unassigned? {
      return Err(InvalidStrand(gene.feature.id, gene.feature.strand));
    }
    var geneFeature := GeneFeature(gene.feature, idGene, strand.strand);
    var children := OrderByStart(gene.cds);
    result := AppendCdsFeatures(children, idGene, proteins, createCds, features + [geneFeature]);
    ThenAssoc(Ok(features), Ok([geneFeature]), FlatMap(children, CdsStep(idGene, proteins, createCds)));
  }

  /** The gene loop of lines 138-171 for contig `regionId`, appending to `features`. */
  method AppendContigFeatures(regionId: string, genes: seq<Gene>, proteins: map<string, seq<char>>,
                              createCds: CdsBuilder, features: seq<Feature>)
    returns (result: Result<seq<Feature>, Error>)
    ensures result == Then(Ok(features), ContigFeatures(regionId, genes, proteins, createCds))
  {
    var geneRegionId := GenesOn(regionId, genes);
    ghost var geneStep := GeneStep(proteins, createCds);
    var appended := features;
    assert features + [] == features;
    for gi := 0 to |geneRegionId|
      invariant Ok(appended) == Then(Ok(features), FlatMap(geneRegionId[..gi], geneStep))
    {
      FlatMapStep(geneRegionId, gi, geneStep);
      ThenAssoc(Ok(features), FlatMap(geneRegionId[..gi], geneStep), geneStep(geneRegionId[gi]));
      var next := AppendGeneFeatures(geneRegionId[gi], proteins, createCds, appended);
      if next.Err? {
        FlatMapPrefixError(geneRegionId, gi + 1, geneStep);
        return Err(next.error);
      }
      appended := next.value;
    }
    assert geneRegionId[..|geneRegionId|] == geneRegionId;
    result := Ok(appended);
  }

  /** Lines 98-173: the two FASTA loops, then the contig loop, which appends one record
      per OrderedDict entry to `seq_objects`; an unnormalisable strand ends the run. */
  method GffToGbk(contigFasta: seq<FastaRecord>, proteinFasta: seq<FastaRecord>, genes: seq<Gene>,
                  recordInfo: RecordBuilder, createCds: CdsBuilder)
    returns (result: Result<seq<Record>, Error>)
    ensures result == GenomeRecords(contigFasta, proteinFasta, genes, recordInfo, createCds)
  {
    var contigs := CollectContigs(contigFasta);
    var proteins := CollectProteins(proteinFasta);
    ghost var contigStep := ContigStep(genes, proteins, recordInfo, createCds);
    var seqObjects: seq<Record> := [];
    for ci := 0 to |contigs|
      invariant FlatMap(contigs[..ci], contigStep) == Ok(seqObjects)
    {
      FlatMapStep(contigs, ci, contigStep);
      var regionId := contigs[ci].id;
      var record := recordInfo(regionId, contigs[ci].sequence);
      var features := AppendContigFeatures(regionId, genes, proteins, createCds, record.features);
      if features.Err? {
        FlatMapPrefixError(contigs, ci + 1, contigStep);
        return Err(features.error);
      }
      seqObjects := seqObjects + [record.(features := features.value)];
    }
    assert contigs[..|contigs|] == contigs;
    result := Ok(seqObjects);
  }
}
