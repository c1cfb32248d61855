# emapper2gbk: GFF + FASTA to GenBank record assembly

This project models the core of `emapper2gbk/genomes_to_gbk.py` in Dafny. That core turns a genome's contigs (a nucleotide FASTA), its protein sequences (a protein FASTA) and its gene annotation (a GFF file) into one GenBank record per contig. It is verified in Dafny.

What is modelled:

- **`strand_change`**: the strand normaliser. `'+'`, `'-'`, `'.'`, `'?'`, `1` and `-1` have a value. Every other input leaves `new_strand` unassigned. Python then raises `UnboundLocalError`, and here that is an explicit `Unassigned` outcome.
- **Identifier normalisation**:
  - The gene locus tag is built in three steps. Every `"gene-"` is removed in one left-to-right pass, as `str.replace` does. An all-digit remainder gets a `"gene_"` prefix. Otherwise an id containing a pipe keeps its text before the first pipe.
  - The CDS key is the id with every `"cds-"` removed per line 163, and nothing else is done to it.
- **The two FASTA tables**:
  - the insertion-ordered contig table (an `OrderedDict`): a re-assigned id keeps its first position and takes its last sequence;
  - the protein dict: the last record wins.
  - Both are built by loops (`Fasta.CollectContigs`, `Fasta.CollectProteins`). Each loop is proved equal to a specification function, and that function's properties are proved.
- **The record assembly loop**:
  - For each contig, `record_info` builds a record. Then, for each gene on that contig in database order, a gene feature is appended, followed by one feature per CDS of the gene in start order. Each CDS feature carries the gene's locus tag, written over whatever `create_cds_feature` set.
  - Starts are shifted by −1 and ends are kept.
  - A strand that cannot be normalised ends the whole run, because the exception is not caught.
  - The three loops are the methods `GenomesToGbk.GffToGbk` (contigs), `AppendContigFeatures` (genes) and `AppendCdsFeatures` (CDS rows). `AppendGeneFeatures` is the loop-free body of the gene loop. Each method is proved equal to the specification function `GenomesToGbk.GenomeRecords` or one of its parts. The lemmas state the shape of that function's result, when it fails, and what it ignores.

Foreign code is passed in as parameters:

- `create_cds_feature`, with its annotation and GO tables already bound, is any function `CdsBuilder` from the request (CDS key, shifted start, end, strand) and the protein table to a feature.
- `record_info`, with its taxonomy data already bound, is any function `RecordBuilder` from contig id and sequence to a record.
- The gffutils database is a sequence of genes in database order. Each gene carries its CDS descendants.

`strand_change`'s integer branch (lines 70-74) accepts only −1 and +1, so `Int(0)` is refused even though `'?'` yields 0 (`Strand.IntegerStrands`).

## Model

| member | source | states |
|---|---|---|
| `Strand.StrandChange` | emapper2gbk/genomes_to_gbk.py:56-76 | a value is assigned exactly for "+", "-", ".", "?", 1 and -1; "." and only "." gives None; "?" and only "?" gives 0; an integer that is accepted comes back unchanged; every assigned value lies in -1..1 |
| `Strand.SymbolRoundTrip` | emapper2gbk/genomes_to_gbk.py:61-69 | every strand value is recovered from its one-character GFF symbol |
| `Strand.StrandRoundTrip` | emapper2gbk/genomes_to_gbk.py:61-69 | every recognised symbol is the symbol of the value it is normalised to |
| `Strand.IntegerStrands` | emapper2gbk/genomes_to_gbk.py:70-76 | an integer is accepted iff it is 1 or -1, and then agrees with its symbol; the unknown strand 0 that "?" yields is refused as an integer |
| `Identifiers.RemoveAll` | emapper2gbk/genomes_to_gbk.py:140 | `str.replace(pattern, '')`: never longer than its input; what it removes is stated by `RemoveAllAbsent`, `RemoveAllLeading`, `RemoveAllFirstOccurrence`, `RemoveAllInterior`, `RemoveAllKeepsOtherChars` and `RemoveAllSinglePass` |
| `Identifiers.RemoveAllAbsent` | emapper2gbk/genomes_to_gbk.py:140 | `replace` leaves a string without an occurrence of the pattern unchanged |
| `Identifiers.RemoveAllMissingChar` | emapper2gbk/genomes_to_gbk.py:140 | a string that lacks one of the pattern's characters is unchanged |
| `Identifiers.RemoveAllKeepsOtherChars` | emapper2gbk/genomes_to_gbk.py:140 | removal only deletes: the result is a sub-multiset of the input, and every character outside the pattern keeps its count |
| `Identifiers.RemoveAllLeading` | emapper2gbk/genomes_to_gbk.py:140 | a leading occurrence is dropped and the scan resumes right after it |
| `Identifiers.RemoveAllFirstOccurrence` | emapper2gbk/genomes_to_gbk.py:140 | an occurrence anywhere is removed, not only a leading one: with no occurrence starting inside a, a + pattern + b becomes a followed by the removal applied to b |
| `Identifiers.RemoveAllInterior` | emapper2gbk/genomes_to_gbk.py:140 | an occurrence between two texts that each lack a pattern character is exactly what is removed: a + pattern + b becomes a + b |
| `Identifiers.RemoveLeadingOnly` | emapper2gbk/genomes_to_gbk.py:140 | one leading occurrence before text lacking a pattern character is exactly what is removed |
| `Identifiers.RemoveAllSinglePass` | emapper2gbk/genomes_to_gbk.py:140 | the scan is single-pass: "gegene-ne-" becomes "gene-", an occurrence formed by the removal stays |
| `Identifiers.IsNumeric` | emapper2gbk/genomes_to_gbk.py:141 | `isnumeric` on ASCII: a numeric id holds neither a pipe nor a dash, so the pipe branch and a further "gene-" removal cannot touch it (used by `NumericTagIsStable`, `PipeSplitCanLeaveNumber`) |
| `Identifiers.BeforeFirstPipe` | emapper2gbk/genomes_to_gbk.py:144 | the result is a prefix without a pipe, followed in the input by a pipe when the input has one, and the whole input otherwise |
| `Identifiers.BeforeFirstPipeAt` | emapper2gbk/genomes_to_gbk.py:144 | with k the index of the first pipe, the result is the first k characters |
| `Identifiers.GeneLocusTag` | emapper2gbk/genomes_to_gbk.py:140-146 | in every branch the tag contains no pipe |
| `Identifiers.GeneLocusTagShape` | emapper2gbk/genomes_to_gbk.py:140-146 | with s the id stripped of every "gene-": the tag is "gene_" + s when s is numeric, else a pipe-free prefix of s that is all of s or ends where s has a pipe |
| `Identifiers.NumericTagIsStable` | emapper2gbk/genomes_to_gbk.py:141-142 | a tag "gene_" + digits normalises to itself |
| `Identifiers.NumericGeneId` | emapper2gbk/genomes_to_gbk.py:140-142 | "gene-" + digits becomes "gene_" + the same digits |
| `Identifiers.PipedGeneId` | emapper2gbk/genomes_to_gbk.py:143-144 | "gene-" + name + a pipe + rest becomes the name |
| `Identifiers.PlainGeneId` | emapper2gbk/genomes_to_gbk.py:145-146 | "gene-" + a plain non-numeric name becomes the name |
| `Identifiers.PipeSplitCanLeaveNumber` | emapper2gbk/genomes_to_gbk.py:141-144 | the numeric test precedes the pipe split, so "gene-" + digits + a pipe + rest yields the bare, numeric digits |
| `Identifiers.CdsKey` | emapper2gbk/genomes_to_gbk.py:163 | the CDS key is never longer than the id; its content is stated by `CdsKeyKeepsOtherChars` and `PrefixedCdsKey` |
| `Identifiers.CdsKeyKeepsOtherChars` | emapper2gbk/genomes_to_gbk.py:163 | the CDS key is no longer than the id and keeps every character outside "cds-" as often as it occurs (digits and pipes included) |
| `Identifiers.PrefixedCdsKey` | emapper2gbk/genomes_to_gbk.py:163 | "cds-" + text free of "-" gives exactly that text: no numeric prefix, no pipe split |
| `Fasta.Assign` | emapper2gbk/genomes_to_gbk.py:101 | OrderedDict assignment keeps keys distinct, updates a present key in place and appends a new key last |
| `Fasta.OrderedEntries` | emapper2gbk/genomes_to_gbk.py:98-101 | the contig table never holds an id twice |
| `Fasta.OrderedEntriesKeys` | emapper2gbk/genomes_to_gbk.py:98-101 | every FASTA id is a key of the contig table and every key is a FASTA id |
| `Fasta.OrderedEntriesLast` | emapper2gbk/genomes_to_gbk.py:99-101 | each entry is the last FASTA record carrying its id |
| `Fasta.OrderedEntriesFirstOccurrenceOrder` | emapper2gbk/genomes_to_gbk.py:98-101 | entries are in first-occurrence order of their ids in the FASTA |
| `Fasta.FastaTable` | emapper2gbk/genomes_to_gbk.py:104-107 | every id of the protein FASTA is a key of the dict; which value it holds is stated by `FastaTableLast` |
| `Fasta.FastaTableLast` | emapper2gbk/genomes_to_gbk.py:104-107 | each protein id maps to the sequence of its last record, and every key is an id of the file |
| `Fasta.CollectContigs` | emapper2gbk/genomes_to_gbk.py:98-101 | the loop builds exactly the ordered contig table |
| `Fasta.CollectProteins` | emapper2gbk/genomes_to_gbk.py:104-107 | the loop builds exactly the protein table |
| `Gff.GenesOn` | emapper2gbk/genomes_to_gbk.py:138 | a gene is selected iff it is in the database and its chrom is the contig id; no more genes than the database has |
| `Gff.GenesOnAppend` | emapper2gbk/genomes_to_gbk.py:138 | the selection distributes over concatenation, so database order is kept |
| `Gff.InsertByStart` | emapper2gbk/genomes_to_gbk.py:162 | inserting into a start-sorted list keeps it sorted and adds exactly one element |
| `Gff.OrderByStart` | emapper2gbk/genomes_to_gbk.py:162 | the CDS rows come out sorted by start and are a permutation of the gene's CDS rows |
| `Gff.OrderBySortedInput` | emapper2gbk/genomes_to_gbk.py:162 | rows already in start order come back unchanged |
| `GenomesToGbk.NormalisedStrand` | emapper2gbk/genomes_to_gbk.py:151 | a feature's strand normalises iff it is recognised, to a valid strand; otherwise the error names that feature's id and strand |
| `GenomesToGbk.OrderedChildren` | emapper2gbk/genomes_to_gbk.py:162 | ordering a gene's CDS rows keeps their number and membership |
| `GenomesToGbk.GeneFeature` | emapper2gbk/genomes_to_gbk.py:149-156 | the gene feature has kind "gene" and the gene's tag; its half-open location covers as many bases as the 1-based inclusive row; a row starting at 1 or later starts at 0 or later (see also `GeneFeaturesRequests`) |
| `GenomesToGbk.CdsFeature` | emapper2gbk/genomes_to_gbk.py:163-169 | a CDS gives a feature iff its strand is recognised, exactly one, carrying the gene's locus tag whatever the builder set; otherwise the error names that CDS row |
| `GenomesToGbk.CdsFeatureLocation` | emapper2gbk/genomes_to_gbk.py:164-168 | under the hypothesis `PlacesAtRequest` (the builder keeps the location it is handed), a CDS feature sits at (start-1, end, normalised strand) |
| `GenomesToGbk.GeneFeatures` | emapper2gbk/genomes_to_gbk.py:140-171 | a bad gene strand fails with that gene named; on success the gene's own feature comes first; the full shape, success condition, tags and locations are stated by `GeneFeaturesShape`, `GeneFeaturesOk`, `GeneFeaturesLocusTag`, `GeneFeaturesRequests`, `GeneFeaturesCoordinates` and `GeneFeaturesError` |
| `GenomesToGbk.GeneFeaturesOk` | emapper2gbk/genomes_to_gbk.py:149-171 | a gene's features are built iff its own strand and every CDS strand are recognised |
| `GenomesToGbk.GeneFeaturesShape` | emapper2gbk/genomes_to_gbk.py:139-171 | a gene yields 1 + (number of CDS) features: its gene feature, then the feature of each CDS in start order |
| `GenomesToGbk.GeneFeaturesLocusTag` | emapper2gbk/genomes_to_gbk.py:156-169 | every feature of a gene, gene and CDS alike, has the gene's normalised id as locus tag |
| `GenomesToGbk.GeneFeaturesRequests` | emapper2gbk/genomes_to_gbk.py:149-168 | with no hypothesis on the builder: the gene feature sits at (row start - 1, row end, normalised strand), and each CDS feature is the builder's feature for the `cds-`-stripped id, row start - 1, row end and normalised strand, with the gene's tag written over |
| `GenomesToGbk.GeneFeaturesCoordinates` | emapper2gbk/genomes_to_gbk.py:164-168 | under the hypothesis `PlacesAtRequest` only: each CDS feature, in start order, sits at (row start - 1, row end, normalised strand) |
| `GenomesToGbk.BuiltLocations` | emapper2gbk/genomes_to_gbk.py:164-168 | under `PlacesAtRequest`, any list of features built by `CdsFeature` from a list of CDS rows puts each one at its row's (start - 1, end, normalised strand) |
| `GenomesToGbk.GeneFeaturesStartsNonNegative` | emapper2gbk/genomes_to_gbk.py:149-168 | when the gene row and every CDS row start at 1 or later, every feature of the gene starts at 0 or later; the CDS part holds under `PlacesAtRequest` |
| `GenomesToGbk.ForwardGeneExample` | emapper2gbk/genomes_to_gbk.py:149-158 | a forward gene of rows 5..100 without CDS becomes one gene feature at (4, 100, +1) tagged with its normalised id |
| `GenomesToGbk.GeneFeaturesError` | emapper2gbk/genomes_to_gbk.py:151-166 | a failing gene reports one of its own rows with an unrecognised strand, the gene row itself when that is bad |
| `GenomesToGbk.ContigFeatures` | emapper2gbk/genomes_to_gbk.py:138-171 | a contig with no gene in the database gets no feature; the rest is stated by `ContigFeaturesAppend`, `ContigFeaturesSingle`, `ContigFeaturesOk` and `ContigFeaturesError` |
| `GenomesToGbk.ContigFeaturesAppend` | emapper2gbk/genomes_to_gbk.py:138-139 | a contig's features split along any split of the gene list: database order is kept |
| `GenomesToGbk.ContigFeaturesSingle` | emapper2gbk/genomes_to_gbk.py:138-171 | one gene contributes its own features on its contig and nothing on any other |
| `GenomesToGbk.ContigFeaturesOk` | emapper2gbk/genomes_to_gbk.py:138-171 | a contig's features are built iff every gene on that contig is valid |
| `GenomesToGbk.ContigFeaturesError` | emapper2gbk/genomes_to_gbk.py:138-171 | a failing contig reports a bad row of a gene on that contig |
| `GenomesToGbk.ContigIds` | emapper2gbk/genomes_to_gbk.py:136 | the contigs iterated over are exactly the ids of the nucleotide FASTA |
| `GenomesToGbk.GenomeRecords` | emapper2gbk/genomes_to_gbk.py:136-173 | on success there are as many records as contig-table entries; their content, the success condition, the error and the genes ignored are stated by `GenomeRecordsShape`, `GenomeRecordsOk`, `GenomeRecordsError` and `GenomeRecordsIgnoresGene` |
| `GenomesToGbk.GenomeRecordsShape` | emapper2gbk/genomes_to_gbk.py:136-173 | on success there is one record per contig-table entry, in its order, each `record_info`'s record with that contig's features appended |
| `GenomesToGbk.GenomeRecordsOk` | emapper2gbk/genomes_to_gbk.py:136-173 | the run succeeds iff every gene lying on a FASTA contig is valid |
| `GenomesToGbk.GenomeRecordsError` | emapper2gbk/genomes_to_gbk.py:136-173 | a failed run reports a bad row of a gene that lies on a FASTA contig |
| `GenomesToGbk.GenomeRecordsIgnoresGene` | emapper2gbk/genomes_to_gbk.py:136-138 | adding a gene whose chrom is no FASTA id anywhere in the database changes nothing |
| `GenomesToGbk.AppendCdsFeatures` | emapper2gbk/genomes_to_gbk.py:162-171 | the CDS loop appends exactly the features of the gene's CDS rows, or stops at the first bad strand |
| `GenomesToGbk.AppendGeneFeatures` | emapper2gbk/genomes_to_gbk.py:139-171 | one pass of the gene loop appends exactly that gene's features, or fails as the specification does |
| `GenomesToGbk.AppendContigFeatures` | emapper2gbk/genomes_to_gbk.py:138-171 | the gene loop appends exactly the contig's features, or stops at the first bad gene |
| `GenomesToGbk.GffToGbk` | emapper2gbk/genomes_to_gbk.py:98-173 | the whole procedure returns exactly the records `GenomeRecords` specifies, or its error |

## Left out

- gffutils (`create_db`, `features_of_type`, `children`) is an SQLite-backed library. It is replaced by a sequence of genes in database order, each carrying its CDS descendants. Its merge strategy and attribute sorting are not modelled.
- `children(..., order_by='start')` gives no order for equal starts. The model uses a stable sort, so CDS rows with equal starts keep file order.
- `SeqIO.parse` and `SeqIO.write` are file I/O. The FASTA reader is a sequence of (id, sequence) records, and the writer's input is the returned record list.
- Biopython `SeqFeature`, `FeatureLocation` and `SeqRecord` are reduced to plain datatypes. `FeatureLocation`'s own checks (such as end ≥ start) are not modelled.
- `create_taxonomic_data` queries the EBI taxonomy service over the network. Its result is bound inside the `record_info` parameter.
- `emapper2gbk/utils` is not part of this model. `create_cds_feature` and `record_info` are arbitrary function parameters. The CDS coordinates are proved under the hypothesis `PlacesAtRequest`, that the builder keeps the location it is handed.
- `read_annotation`, `create_GO_namespaces_alternatives`, `get_basename` and `is_valid_file` are in `emapper2gbk/utils` too. The `annotation_data`/`gobasic` dispatch (lines 114-126) only chooses between these foreign parsers and is left out.
- `main` (lines 179-186) is left out: file checks, `print` and `sys.exit`.
- Logging is left out.
- `Identifiers.IsNumeric` accepts only non-empty ASCII digits. Python's `str.isnumeric` also accepts other Unicode numerals.
- Strand.StrandChange: Python booleans are integers, so `strand_change(True)` returns True. This is not modelled; integers and strings are the only inputs.
- GenomesToGbk.GffToGbk: `record.features` is changed in place on the object `record_info` returned. The model appends to a local feature sequence and stores it back into the record value before line 173. Aliasing between records is not captured.
- GenomesToGbk.GffToGbk: the run ends at the first `UnboundLocalError` and returns its error. The partial `seq_objects` built before it is discarded, just as the source writes no file.
