/** The part of the gffutils database that `gff_to_gbk` queries: gene rows in database
    order (line 138) and, per gene, its CDS descendants ordered by start (line 162). */
module Gff {
  import opened Strand

  /** A GFF row as gffutils exposes it: id, seqid (`chrom`), 1-based start, end and the
      strand column. */
  datatype GffFeature = GffFeature(id: string, chrom: string, start: int, end: int, strand: StrandInput)

  /** A gene row and the CDS rows below it, in file order. */
  datatype Gene = Gene(feature: GffFeature, cds: seq<GffFeature>)

  /** Line 138: the genes whose `chrom` is `regionId`, in database order. */
  function GenesOn(regionId: string, genes: seq<Gene>): (r: seq<Gene>)
    ensures forall g :: g in r <==> g in genes && g.feature.chrom == regionId
    ensures |r| <= |genes|
  {
    if |genes| == 0 then []
    else
      var rest := GenesOn(regionId, genes[..|genes| - 1]);
      var g := genes[|genes| - 1];
      assert genes == genes[..|genes| - 1] + [g];
      if g.feature.chrom == regionId then rest + [g] else rest
  }

  /** The selection distributes over concatenation: the order of the database is kept. */
  lemma {:induction false} GenesOnAppend(regionId: string, a: seq<Gene>, b: seq<Gene>)
    ensures GenesOn(regionId, a + b) == GenesOn(regionId, a) + GenesOn(regionId, b)
    decreases |b|
  {
    if |b| == 0 {
      assert a + b == a;
    } else {
      var b' := b[..|b| - 1];
      assert (a + b)[..|a + b| - 1] == a + b';
      assert (a + b)[|a + b| - 1] == b[|b| - 1];
      GenesOnAppend(regionId, a, b');
    }
  }

  predicate SortedByStart(s: seq<GffFeature>) {
    forall i, j :: 0 <= i < j < |s| ==> s[i].start <= s[j].start
  }

  /** Places `x` in front of the first element whose start is not smaller than its own. */
  function InsertByStart(x: GffFeature, s: seq<GffFeature>): (r: seq<GffFeature>)
    requires SortedByStart(s)
    ensures SortedByStart(r)
    ensures multiset(r) == multiset(s) + multiset{x}
    ensures |r| == |s| + 1 && (r[0] == x || (s != [] && r[0] == s[0]))
  {
    if s == [] || x.start <= s[0].start then [x] + s
    else
      assert s == [s[0]] + s[1..];
      var rest := InsertByStart(x, s[1..]);
      assert forall j :: 0 < j < |s| ==> s[0].start <= s[j].start;
      assert s[0].start <= rest[0].start;
      [s[0]] + rest
  }

  /** `children(gene, featuretype="CDS", order_by='start')`: the CDS rows of a gene in
      ascending start order; rows with equal starts keep their file order. */
  function OrderByStart(s: seq<GffFeature>): (r: seq<GffFeature>)
    ensures SortedByStart(r)
    ensures multiset(r) == multiset(s)
    ensures |r| == |s|
  {
    if |s| == 0 then []
    else
      assert s == [s[0]] + s[1..];
      InsertByStart(s[0], OrderByStart(s[1..]))
  }

  /** Rows already in start order come back unchanged, so ordering is idempotent. */
  lemma {:induction false} OrderBySortedInput(s: seq<GffFeature>)
    requires SortedByStart(s)
    ensures OrderByStart(s) == s
  {
    if |s| > 0 {
      assert SortedByStart(s[1..]);
      OrderBySortedInput(s[1..]);
      assert s == [s[0]] + s[1..];
    }
  }
}
