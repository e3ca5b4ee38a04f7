/** A deduplicating string table that only ever appends: the shape of both
    the source-file table and the identifier-name table. */
module Interning {

  /** `entries` in insertion order (position = index) and the reverse
      lookup from string to index. */
  datatype Table = Table(entries: seq<string>, index: map<string, int>)

  const EmptyTable := Table([], map[])

  /** The index map and the entry list describe each other exactly. */
  predicate Valid(t: Table) {
    && (forall s :: s in t.index ==> 0 <= t.index[s] < |t.entries| && t.entries[t.index[s]] == s)
    && (forall i :: 0 <= i < |t.entries| ==> t.entries[i] in t.index && t.index[t.entries[i]] == i)
  }

  lemma EmptyTableIsValid()
    ensures Valid(EmptyTable)
  {
  }

  /** `getNameIndex` / `getSourceIndex`: the index of `s`, or -1. */
  function IndexOf(t: Table, s: string): (i: int)
    ensures Valid(t) ==> (i >= 0 <==> s in t.entries)
    ensures Valid(t) && i >= 0 ==> i < |t.entries| && t.entries[i] == s
    ensures Valid(t) && i < 0 ==> i == -1
  {
    if s in t.index then t.index[s] else -1
  }

  /** `addName` / `addSource`: the index of `s`, appending it first when it
      is new. */
  function Intern(t: Table, s: string): (r: (Table, int))
    requires Valid(t)
    ensures Valid(r.0)
    ensures 0 <= r.1 < |r.0.entries| && r.0.entries[r.1] == s
    ensures s in t.entries ==> r.0 == t && r.1 == IndexOf(t, s)
    ensures s !in t.entries ==>
      && r.0.entries == t.entries + [s]
      && r.1 == |t.entries|
      && r.0.index == t.index[s := |t.entries|]
  {
    var i := IndexOf(t, s);
    if i < 0 then
      (Table(t.entries + [s], t.index[s := |t.entries|]), |t.entries|)
    else
      (t, i)
  }

  /** A valid table never holds the same string twice. */
  lemma ValidEntriesAreDistinct(t: Table)
    requires Valid(t)
    ensures forall i, j :: 0 <= i < j < |t.entries| ==> t.entries[i] != t.entries[j]
  {
  }

  /** Interning the same string twice gives the same index and leaves the
      table as the first call left it. */
  lemma {:induction false} InternTwice(t: Table, s: string)
    requires Valid(t)
    ensures Intern(Intern(t, s).0, s) == Intern(t, s)
  {
  }
}
