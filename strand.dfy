/** The strand normaliser `strand_change`: a GFF strand symbol or a signed integer is
    turned into the integer strand Biopython locations carry (None = unstranded). */
module Strand {
  import opened Wrappers

  /** The two kinds of value `strand_change` inspects with isinstance. */
  datatype StrandInput = Str(symbol: string) | Int(number: int)

  /** The value of `new_strand` when line 76 reads it: `Assigned(s)` once a branch assigned
      `s`, `Unassigned` when no branch did, where Python raises UnboundLocalError. */
  datatype StrandResult = Assigned(strand: Option<int>) | Unassigned

  /** The inputs some branch of `strand_change` assigns. */
  predicate Recognised(input: StrandInput) {
    match input
    case Str(s) => s == "+" || s == "-" || s == "." || s == "?"
    case Int(i) => i == 1 || i == -1
  }

  /** A strand value Biopython accepts: -1, 0, +1 or None. */
  predicate IsStrand(strand: Option<int>) {
    strand.Some? ==> -1 <= strand.value <= 1
  }

  /** `strand_change`, following the source's shape: a string runs through two
      independent if-chains (the second one may overwrite the first), an integer
      through one; `new_strand` starts unassigned. */
  function StrandChange(input: StrandInput): (r: StrandResult)
    ensures r.Assigned? <==> Recognised(input)
    ensures r.Assigned? ==> IsStrand(r.strand)
    ensures r == Assigned(None) <==> input == Str(".")
    ensures r == Assigned(Some(0)) <==> input == Str("?")
    ensures input.Int? && r.Assigned? ==> r.strand == Some(input.number)
  {
    match input
    case Str(s) =>
      var afterFirst := if s == "-" then Assigned(Some(-1))
                        else if s == "+" then Assigned(Some(1))
                        else Unassigned;
      if s == "." then Assigned(None)
      else if s == "?" then Assigned(Some(0))
      else afterFirst
    case Int(i) =>
      if i == -1 then Assigned(Some(i))
      else if i == 1 then Assigned(Some(i))
      else Unassigned
  }

  /** The GFF column-7 symbol of a strand value: the inverse of the text branch. */
  function StrandSymbol(strand: Option<int>): (s: string)
    requires IsStrand(strand)
    ensures |s| == 1
  {
    match strand
    case None => "."
    case Some(v) => if v == 1 then "+" else if v == -1 then "-" else "?"
  }

  /** Every strand value comes back from its own symbol. */
  lemma SymbolRoundTrip(strand: Option<int>)
    requires IsStrand(strand)
    ensures StrandChange(Str(StrandSymbol(strand))) == Assigned(strand)
  {
    match strand
    case None =>
    case Some(v) =>
      if v == 1 {
      } else if v == -1 {
      } else {
        assert v == 0;
      }
  }

  /** Every recognised symbol is the symbol of the value it is normalised to. */
  lemma StrandRoundTrip(s: string)
    requires Recognised(Str(s))
    ensures StrandSymbol(StrandChange(Str(s)).strand) == s
  {
  }

  /** Normalising is idempotent on the two integer strands, but the unknown strand 0
      that '?' yields is refused when it is handed back as an integer. */
  lemma IntegerStrands(v: int)
    ensures StrandChange(Int(v)).Assigned? <==> v == 1 || v == -1
    ensures (v == 1 || v == -1) ==> StrandChange(Int(v)) == StrandChange(Str(StrandSymbol(Some(v))))
    ensures StrandChange(Str("?")) == Assigned(Some(0)) && StrandChange(Int(0)) == Unassigned
  {
  }
}
