/** The two tables `gff_to_gbk` fills from FASTA files: the OrderedDict of contig
    sequences (lines 98-101) and the plain dict of protein sequences (lines 104-107). */
module Fasta {

  /** One record as the FASTA reader hands it over: its id and its sequence. */
  datatype FastaRecord = FastaRecord(id: string, sequence: seq<char>)

  /** The ids of a run of records, in order. */
  function Keys(entries: seq<FastaRecord>): seq<string> {
    seq(|entries|, i requires 0 <= i < |entries| => entries[i].id)
  }

  /** No id appears twice: the shape of an OrderedDict's items. */
  predicate DistinctKeys(entries: seq<FastaRecord>) {
    forall i, j :: 0 <= i < j < |entries| ==> entries[i].id != entries[j].id
  }

  /** Index of the first record with this id, or |records| when there is none. */
  function IndexOf(records: seq<FastaRecord>, id: string): (n: nat)
    ensures n <= |records|
    ensures n < |records| ==> records[n].id == id
    ensures forall k :: 0 <= k < n ==> records[k].id != id
  {
    if |records| == 0 then 0
    else if records[0].id == id then 0
    else 1 + IndexOf(records[1..], id)
  }

  /** Record `k` is the last one carrying its id. */
  predicate LastWithId(records: seq<FastaRecord>, k: int) {
    0 <= k < |records| && forall k' :: k < k' < |records| ==> records[k'].id != records[k].id
  }

  /** OrderedDict assignment `d[id] = sequence` on the items of `d`: a key already
      present keeps its position and takes the new value, a new key goes last. */
  function Assign(entries: seq<FastaRecord>, id: string, sequence: seq<char>): (r: seq<FastaRecord>)
    requires DistinctKeys(entries)
    ensures DistinctKeys(r)
    ensures id in Keys(entries) ==>
              |r| == |entries| &&
              forall i :: 0 <= i < |r| ==>
                r[i] == if entries[i].id == id then FastaRecord(id, sequence) else entries[i]
    ensures id !in Keys(entries) ==> r == entries + [FastaRecord(id, sequence)]
  {
    if entries == [] then [FastaRecord(id, sequence)]
    else if entries[0].id == id then
      assert Keys(entries)[0] == id;
      assert forall i :: 1 <= i < |entries| ==> entries[i].id != id;
      [FastaRecord(id, sequence)] + entries[1..]
    else
      assert Keys(entries) == [entries[0].id] + Keys(entries[1..]);
      [entries[0]] + Assign(entries[1..], id, sequence)
  }

  /** The items of `genome_nucleic_sequence` after the loop of lines 99-101 has
      assigned every record in turn. */
  function OrderedEntries(records: seq<FastaRecord>): (r: seq<FastaRecord>)
    ensures DistinctKeys(r)
  {
    if |records| == 0 then []
    else
      var last := records[|records| - 1];
      Assign(OrderedEntries(records[..|records| - 1]), last.id, last.sequence)
  }

  /** The dict `gene_protein_seq` after the loop of lines 106-107: each id maps to
      the sequence assigned last. */
  function FastaTable(records: seq<FastaRecord>): (t: map<string, seq<char>>)
    ensures forall k :: 0 <= k < |records| ==> records[k].id in t
  {
    if |records| == 0 then map[]
    else
      var last := records[|records| - 1];
      FastaTable(records[..|records| - 1])[last.id := last.sequence]
  }

  /** First-occurrence index is unchanged by appending a record, except for the id
      that first appears in the appended record. */
  lemma {:induction false} IndexOfAppend(records: seq<FastaRecord>, x: FastaRecord, id: string)
    ensures IndexOf(records + [x], id) ==
              if IndexOf(records, id) < |records| then IndexOf(records, id)
              else if x.id == id then |records|
              else |records| + 1
  {
    if |records| > 0 {
      assert (records + [x])[1..] == records[1..] + [x];
      IndexOfAppend(records[1..], x, id);
    }
  }

  /** The table's keys are exactly the ids of the file: each record's id is a key and
      each key occurs in the file. */
  lemma {:induction false} OrderedEntriesKeys(records: seq<FastaRecord>)
    ensures forall k :: 0 <= k < |records| ==> records[k].id in Keys(OrderedEntries(records))
    ensures forall i :: 0 <= i < |OrderedEntries(records)| ==>
              IndexOf(records, OrderedEntries(records)[i].id) < |records|
  {
    if |records| > 0 {
      var prefix := records[..|records| - 1];
      var x := records[|records| - 1];
      assert records == prefix + [x];
      OrderedEntriesKeys(prefix);
      var before := OrderedEntries(prefix);
      var after := OrderedEntries(records);
      forall id ensures IndexOf(records, id) == IndexOf(prefix + [x], id) { }
      forall id {
        IndexOfAppend(prefix, x, id);
      }
      if x.id in Keys(before) {
        assert Keys(after) == Keys(before);
      } else {
        assert after == before + [FastaRecord(x.id, x.sequence)];
        assert Keys(after) == Keys(before) + [x.id];
      }
      forall k | 0 <= k < |records| ensures records[k].id in Keys(after) {
        if k < |prefix| {
          assert records[k] == prefix[k];
        }
      }
    }
  }

  /** Every item holds the sequence of the last record with its id: re-assigning a
      key replaces its value. */
  lemma {:induction false} OrderedEntriesLast(records: seq<FastaRecord>)
    ensures forall i :: 0 <= i < |OrderedEntries(records)| ==>
              exists k :: LastWithId(records, k) && records[k] == OrderedEntries(records)[i]
  {
    if |records| > 0 {
      var prefix := records[..|records| - 1];
      var x := records[|records| - 1];
      var n := |records| - 1;
      OrderedEntriesLast(prefix);
      var before := OrderedEntries(prefix);
      var after := OrderedEntries(records);
      assert LastWithId(records, n);
      forall i | 0 <= i < |after| ensures exists k :: LastWithId(records, k) && records[k] == after[i] {
        if after[i].id == x.id {
          if x.id in Keys(before) {
            assert after[i] == FastaRecord(x.id, x.sequence);
          } else {
            assert after[i] == after[|before|];
          }
          assert after[i] == records[n];
        } else {
          assert i < |before| && after[i] == before[i];
          var k :| LastWithId(prefix, k) && prefix[k] == before[i];
          assert records[k] == prefix[k];
          assert LastWithId(records, k);
        }
      }
    } else {
      assert OrderedEntries(records) == [];
    }
  }

  /** Items are in first-occurrence order of their ids: a duplicate id keeps the
      position of its first record. */
  lemma {:induction false} OrderedEntriesFirstOccurrenceOrder(records: seq<FastaRecord>)
    ensures forall i, j :: 0 <= i < j < |OrderedEntries(records)| ==>
              IndexOf(records, OrderedEntries(records)[i].id) < IndexOf(records, OrderedEntries(records)[j].id)
  {
    if |records| > 0 {
      var prefix := records[..|records| - 1];
      var x := records[|records| - 1];
      assert records == prefix + [x];
      OrderedEntriesFirstOccurrenceOrder(prefix);
      OrderedEntriesKeys(prefix);
      var before := OrderedEntries(prefix);
      var after := OrderedEntries(records);
      forall id ensures IndexOf(records, id) ==
          if IndexOf(prefix, id) < |prefix| then IndexOf(prefix, id)
          else if x.id == id then |prefix|
          else |prefix| + 1
      {
        IndexOfAppend(prefix, x, id);
      }
      if x.id in Keys(before) {
        forall i | 0 <= i < |after| ensures after[i].id == before[i].id { }
      } else {
        assert after == before + [FastaRecord(x.id, x.sequence)];
        forall k | 0 <= k < |prefix| ensures prefix[k].id != x.id {
          assert prefix[k].id in Keys(before);
        }
        assert IndexOf(prefix, x.id) == |prefix|;
      }
    }
  }

  /** Each id of the protein file maps to the sequence of its last record, and every
      key of the dict is an id of the file. */
  lemma {:induction false} FastaTableLast(records: seq<FastaRecord>)
    ensures forall k :: LastWithId(records, k) ==>
              records[k].id in FastaTable(records) && FastaTable(records)[records[k].id] == records[k].sequence
    ensures forall id :: id in FastaTable(records) ==> IndexOf(records, id) < |records|
  {
    if |records| > 0 {
      var prefix := records[..|records| - 1];
      var x := records[|records| - 1];
      assert records == prefix + [x];
      FastaTableLast(prefix);
      forall k | LastWithId(records, k)
        ensures records[k].id in FastaTable(records) && FastaTable(records)[records[k].id] == records[k].sequence
      {
        if k < |prefix| {
          assert records[k] == prefix[k];
          assert LastWithId(prefix, k);
        }
      }
      forall id | id in FastaTable(records) ensures IndexOf(records, id) < |records| {
        IndexOfAppend(prefix, x, id);
      }
    }
  }

  /** The loop of lines 98-101. */
  method CollectContigs(records: seq<FastaRecord>) returns (entries: seq<FastaRecord>)
    ensures entries == OrderedEntries(records)
  {
    entries := [];
    for i := 0 to |records|
      invariant entries == OrderedEntries(records[..i])
    {
      assert records[..i + 1][..i] == records[..i];
      entries := Assign(entries, records[i].id, records[i].sequence);
    }
    assert records[..|records|] == records;
  }

  /** The loop of lines 104-107. */
  method CollectProteins(records: seq<FastaRecord>) returns (table: map<string, seq<char>>)
    ensures table == FastaTable(records)
  {
    table := map[];
    for i := 0 to |records|
      invariant table == FastaTable(records[..i])
    {
      assert records[..i + 1][..i] == records[..i];
      table := table[records[i].id := records[i].sequence];
    }
    assert records[..|records|] == records;
  }
}
