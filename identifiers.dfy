/** Identifier normalisation of `gff_to_gbk`: the gene locus tag (lines 140-146) and the
    CDS lookup key (line 163), both built on Python's `str.replace(pattern, '')`. */
module Identifiers {

  const GenePrefix: string := "gene-"
  const NumericTagPrefix: string := "gene_"
  const CdsPrefix: string := "cds-"

  /** `pattern` occurs in `s` starting at index `i`. */
  predicate OccursAt(s: string, pattern: string, i: int) {
    0 <= i && i + |pattern| <= |s| && s[i..i + |pattern|] == pattern
  }

  predicate Occurs(s: string, pattern: string) {
    exists i :: 0 <= i <= |s| && OccursAt(s, pattern, i)
  }

  /** `s.replace(pattern, '')`: one left-to-right scan that drops every non-overlapping
      occurrence of `pattern`; what remains is not scanned again. */
  function RemoveAll(s: string, pattern: string): (r: string)
    requires |pattern| > 0
    ensures |r| <= |s|
    decreases |s|
  {
    if |s| < |pattern| then s
    else if s[..|pattern|] == pattern then RemoveAll(s[|pattern|..], pattern)
    else [s[0]] + RemoveAll(s[1..], pattern)
  }

  /** A string in which the pattern does not occur is left unchanged. */
  lemma {:induction false} RemoveAllAbsent(s: string, pattern: string)
    requires |pattern| > 0
    requires !Occurs(s, pattern)
    ensures RemoveAll(s, pattern) == s
    decreases |s|
  {
    if |s| >= |pattern| {
      assert !OccursAt(s, pattern, 0);
      assert !Occurs(s[1..], pattern) by {
        forall i | 0 <= i <= |s[1..]| ensures !OccursAt(s[1..], pattern, i) {
          assert !OccursAt(s, pattern, i + 1);
          if i + |pattern| <= |s[1..]| {
            assert s[1..][i..i + |pattern|] == s[i + 1..i + 1 + |pattern|];
          }
        }
      }
      RemoveAllAbsent(s[1..], pattern);
    }
  }

  /** In particular a string lacking one of the pattern's characters is untouched. */
  lemma RemoveAllMissingChar(s: string, pattern: string, c: char)
    requires |pattern| > 0
    requires c in pattern && c !in s
    ensures RemoveAll(s, pattern) == s
  {
    var k :| 0 <= k < |pattern| && pattern[k] == c;
    assert !Occurs(s, pattern) by {
      forall i | 0 <= i <= |s| ensures !OccursAt(s, pattern, i) {
        if i + |pattern| <= |s| {
          assert s[i..i + |pattern|][k] == s[i + k] != c;
        }
      }
    }
    RemoveAllAbsent(s, pattern);
  }

  /** Removal only deletes characters: every character of the result comes from the
      input, and characters that do not appear in the pattern are all kept. */
  lemma {:induction false} RemoveAllKeepsOtherChars(s: string, pattern: string)
    requires |pattern| > 0
    ensures multiset(RemoveAll(s, pattern)) <= multiset(s)
    ensures forall c :: c !in pattern ==> multiset(RemoveAll(s, pattern))[c] == multiset(s)[c]
    decreases |s|
  {
    if |s| < |pattern| {
    } else if s[..|pattern|] == pattern {
      var rest := s[|pattern|..];
      RemoveAllKeepsOtherChars(rest, pattern);
      assert RemoveAll(s, pattern) == RemoveAll(rest, pattern);
      assert s == pattern + rest;
      assert multiset(s) == multiset(pattern) + multiset(rest);
      forall c | c !in pattern
        ensures multiset(RemoveAll(s, pattern))[c] == multiset(s)[c]
      {
        assert multiset(pattern)[c] == 0;
      }
    } else {
      var rest := s[1..];
      RemoveAllKeepsOtherChars(rest, pattern);
      assert RemoveAll(s, pattern) == [s[0]] + RemoveAll(rest, pattern);
      assert s == [s[0]] + rest;
      assert multiset(s) == multiset([s[0]]) + multiset(rest);
      assert multiset(RemoveAll(s, pattern)) == multiset([s[0]]) + multiset(RemoveAll(rest, pattern));
    }
  }

  /** A leading occurrence is dropped and the scan resumes right after it. */
  lemma RemoveAllLeading(pattern: string, s: string)
    requires |pattern| > 0
    ensures RemoveAll(pattern + s, pattern) == RemoveAll(s, pattern)
  {
    assert (pattern + s)[..|pattern|] == pattern;
    assert (pattern + s)[|pattern|..] == s;
  }

  /** An occurrence anywhere is removed, not only a leading one: the text before the
      first occurrence is kept and the scan resumes right after it. */
  lemma {:induction false} RemoveAllFirstOccurrence(a: string, pattern: string, b: string)
    requires |pattern| > 0
    requires forall i :: 0 <= i < |a| ==> !OccursAt(a + pattern + b, pattern, i)
    ensures RemoveAll(a + pattern + b, pattern) == a + RemoveAll(b, pattern)
    decreases |a|
  {
    if |a| == 0 {
      assert a + pattern + b == pattern + b;
      RemoveAllLeading(pattern, b);
    } else {
      var s := a + pattern + b;
      var a' := a[1..];
      assert s[1..] == a' + pattern + b;
      assert !OccursAt(s, pattern, 0);
      assert s[..|pattern|] != pattern;
      assert RemoveAll(s, pattern) == [s[0]] + RemoveAll(s[1..], pattern);
      forall i | 0 <= i < |a'| ensures !OccursAt(s[1..], pattern, i) {
        assert !OccursAt(s, pattern, i + 1);
        assert s[1..][i..i + |pattern|] == s[i + 1..i + 1 + |pattern|];
      }
      RemoveAllFirstOccurrence(a', pattern, b);
      assert [a[0]] + (a' + RemoveAll(b, pattern)) == a + RemoveAll(b, pattern);
    }
  }

  /** The first position of a character that occurs in `p`. */
  lemma {:induction false} FirstIndexOf(p: string, c: char) returns (j: nat)
    requires c in p
    ensures j < |p| && p[j] == c
    ensures forall k :: 0 <= k < j ==> p[k] != c
  {
    if p[0] == c {
      j := 0;
    } else {
      assert c in p[1..];
      var j' := FirstIndexOf(p[1..], c);
      j := j' + 1;
    }
  }

  /** An occurrence between two texts that lack one of the pattern's characters is
      exactly what gets removed, wherever it sits. */
  lemma RemoveAllInterior(a: string, pattern: string, b: string, c: char)
    requires |pattern| > 0
    requires c in pattern && c !in a && c !in b
    ensures RemoveAll(a + pattern + b, pattern) == a + b
  {
    var s := a + pattern + b;
    var j := FirstIndexOf(pattern, c);
    forall i | 0 <= i < |a| ensures !OccursAt(s, pattern, i) {
      assert s[i + j] != c by {
        if i + j < |a| {
          assert s[i + j] == a[i + j];
        } else {
          assert s[i + j] == pattern[i + j - |a|];
        }
      }
      assert s[i..i + |pattern|][j] == s[i + j];
    }
    RemoveAllFirstOccurrence(a, pattern, b);
    RemoveAllMissingChar(b, pattern, c);
  }

  /** A single leading occurrence in front of text that lacks one of the pattern's
      characters is exactly what gets removed. */
  lemma RemoveLeadingOnly(pattern: string, s: string, c: char)
    requires |pattern| > 0
    requires c in pattern && c !in s
    ensures RemoveAll(pattern + s, pattern) == s
  {
    RemoveAllLeading(pattern, s);
    RemoveAllMissingChar(s, pattern, c);
  }

  /** The scan is single-pass: removing can join the pieces around an occurrence into a
      new occurrence, which stays. */
  lemma RemoveAllSinglePass()
    ensures RemoveAll("gegene-ne-", GenePrefix) == GenePrefix
  {
    var s := "gegene-ne-";
    assert s[..5][2] != GenePrefix[2];
    assert s[1..][..5][1] != GenePrefix[1];
    assert s[1..][1..] == "gene-ne-";
    assert s[1..][1..][..5] == GenePrefix;
    assert s[1..][1..][5..] == "ne-";
  }

  predicate IsDigit(c: char) {
    '0' <= c <= '9'
  }

  /** `str.isnumeric`, restricted to ASCII: non-empty and made of decimal digits. */
  predicate IsNumeric(s: string)
    ensures IsNumeric(s) ==> '|' !in s && '-' !in s
  {
    |s| > 0 && forall i :: 0 <= i < |s| ==> IsDigit(s[i])
  }

  /** `s.split("|")[0]`: the text before the first pipe, or all of `s` without one. */
  function BeforeFirstPipe(s: string): (r: string)
    ensures r <= s
    ensures '|' !in r
    ensures '|' in s ==> |r| < |s| && s[|r|] == '|'
    ensures '|' !in s ==> r == s
  {
    if s == [] then []
    else if s[0] == '|' then []
    else [s[0]] + BeforeFirstPipe(s[1..])
  }

  /** The text before the first pipe, located by its index. */
  lemma {:induction false} BeforeFirstPipeAt(s: string, k: nat)
    requires k < |s| && s[k] == '|'
    requires forall i :: 0 <= i < k ==> s[i] != '|'
    ensures BeforeFirstPipe(s) == s[..k]
  {
    if k > 0 {
      BeforeFirstPipeAt(s[1..], k - 1);
      assert s[..k] == [s[0]] + s[1..][..k - 1];
    }
  }

  /** The gene locus tag of lines 140-146. */
  function GeneLocusTag(id: string): (r: string)
    ensures '|' !in r
  {
    var s := RemoveAll(id, GenePrefix);
    if IsNumeric(s) then NumericTagPrefix + s
    else if '|' in s then BeforeFirstPipe(s)
    else s
  }

  /** The three outcomes of the locus tag, stated without the branches: with `s` the id
      stripped of every "gene-", the tag is "gene_" followed by an all-digit `s`, or else
      the part of `s` up to its first pipe (all of `s` when it has none). */
  lemma GeneLocusTagShape(id: string)
    ensures var s := RemoveAll(id, GenePrefix);
            var r := GeneLocusTag(id);
            (IsNumeric(s) && r == NumericTagPrefix + s) ||
            (!IsNumeric(s) && r <= s && (|r| == |s| || s[|r|] == '|') && '|' !in r)
  {
  }

  /** A numeric tag is a fixed point: normalising "gene_" + digits again changes nothing,
      since "gene-" cannot occur in it and it is no longer numeric. */
  lemma NumericTagIsStable(digits: string)
    requires IsNumeric(digits)
    ensures GeneLocusTag(NumericTagPrefix + digits) == NumericTagPrefix + digits
  {
    var t := NumericTagPrefix + digits;
    assert '-' in GenePrefix;
    assert '-' !in t by {
      forall i | 0 <= i < |t| ensures t[i] != '-' {
        if i >= 5 { assert t[i] == digits[i - 5]; }
      }
    }
    RemoveAllMissingChar(t, GenePrefix, '-');
    assert !IsDigit(t[0]);
    assert '|' !in t by {
      forall i | 0 <= i < |t| ensures t[i] != '|' {
        if i >= 5 { assert t[i] == digits[i - 5]; }
      }
    }
  }

  /** The CDS key of line 163: every "cds-" removed, nothing else. */
  function CdsKey(id: string): (k: string)
    ensures |k| <= |id|
  {
    RemoveAll(id, CdsPrefix)
  }

  /** The CDS key only deletes characters of "cds-" occurrences: every other
      character of the id, digits and pipes included, is kept as often as it occurs. */
  lemma CdsKeyKeepsOtherChars(id: string)
    ensures |CdsKey(id)| <= |id|
    ensures multiset(CdsKey(id)) <= multiset(id)
    ensures forall c :: c !in CdsPrefix ==> multiset(CdsKey(id))[c] == multiset(id)[c]
  {
    RemoveAllKeepsOtherChars(id, CdsPrefix);
  }

  /** "gene-" followed by digits becomes "gene_" followed by the same digits. */
  lemma NumericGeneId(digits: string)
    requires IsNumeric(digits)
    ensures GeneLocusTag(GenePrefix + digits) == NumericTagPrefix + digits
  {
    assert '-' !in digits by {
      forall i | 0 <= i < |digits| ensures digits[i] != '-' {
        assert IsDigit(digits[i]);
      }
    }
    RemoveLeadingOnly(GenePrefix, digits, '-');
  }

  /** "gene-" followed by a name, a pipe and anything else becomes the name. */
  lemma PipedGeneId(name: string, rest: string)
    requires '-' !in name && '-' !in rest && '|' !in name
    ensures GeneLocusTag(GenePrefix + name + "|" + rest) == name
  {
    var s := name + "|" + rest;
    assert GenePrefix + name + "|" + rest == GenePrefix + s;
    assert '-' !in s;
    RemoveLeadingOnly(GenePrefix, s, '-');
    assert s[|name|] == '|';
    assert !IsDigit(s[|name|]);
    forall i | 0 <= i < |name| ensures s[i] != '|' {
      assert s[i] == name[i];
    }
    BeforeFirstPipeAt(s, |name|);
    assert s[..|name|] == name;
  }

  /** "gene-" followed by a plain, non-numeric name becomes the name. */
  lemma PlainGeneId(name: string)
    requires '-' !in name && '|' !in name && !IsNumeric(name)
    ensures GeneLocusTag(GenePrefix + name) == name
  {
    RemoveLeadingOnly(GenePrefix, name, '-');
  }

  /** The numeric test comes before the pipe split, so "gene-123|x" and every id of
      that form yield a bare number as the tag. */
  lemma PipeSplitCanLeaveNumber(digits: string, rest: string)
    requires IsNumeric(digits) && '-' !in rest
    ensures GeneLocusTag(GenePrefix + digits + "|" + rest) == digits
    ensures IsNumeric(GeneLocusTag(GenePrefix + digits + "|" + rest))
  {
    assert '-' !in digits && '|' !in digits by {
      forall i | 0 <= i < |digits| ensures digits[i] != '-' && digits[i] != '|' {
        assert IsDigit(digits[i]);
      }
    }
    PipedGeneId(digits, rest);
  }

  /** The CDS key of "cds-" followed by text free of "-" is that text, digits and pipes
      included: no numeric tag, no pipe split. */
  lemma PrefixedCdsKey(rest: string)
    requires '-' !in rest
    ensures CdsKey(CdsPrefix + rest) == rest
  {
    RemoveLeadingOnly(CdsPrefix, rest, '-');
  }
}
