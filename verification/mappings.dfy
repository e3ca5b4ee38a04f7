/** Positions, mappings and the per-line segment store of a source map. */
module Mappings {

  /** A (line, column) location; -1 in a field means "no position". */
  datatype Position = Position(line: int, column: int)

  /** One segment: a generated position, the original position it comes
      from, and indices into the source and name tables (-1 when absent). */
  datatype Mapping = Mapping(generated: Position, original: Position, source: int, name: int)

  const NoPosition := Position(-1, -1)

  /** What a lookup on a line that does not exist yields. */
  const AbsentMapping := Mapping(NoPosition, NoPosition, -1, -1)

  /** All segments of one generated line, in insertion (or, after a sort,
      column) order. */
  datatype MappingLine = MappingLine(lineNumber: int, segments: seq<Mapping>)

  /** `MappingLine::addMapping`: append one segment at the end of the line. */
  function AddToLine(line: MappingLine, m: Mapping): (r: MappingLine)
    ensures r.lineNumber == line.lineNumber
    ensures |r.segments| == |line.segments| + 1
    ensures r.segments[..|line.segments|] == line.segments
    ensures r.segments[|line.segments|] == m
  {
    line.(segments := line.segments + [m])
  }

  predicate SortedByColumn(s: seq<Mapping>) {
    forall i, j :: 0 <= i < j < |s| ==> s[i].generated.column <= s[j].generated.column
  }

  /** The segments of `s` whose generated column is `column`, in order. */
  function WithColumn(s: seq<Mapping>, column: int): (r: seq<Mapping>)
    ensures |r| <= |s|
  {
    if s == [] then []
    else if s[0].generated.column == column then [s[0]] + WithColumn(s[1..], column)
    else WithColumn(s[1..], column)
  }

  /** Places `m` in front of the first segment whose column is not smaller. */
  function Insert(m: Mapping, s: seq<Mapping>): (r: seq<Mapping>)
    ensures multiset(r) == multiset(s) + multiset{m}
  {
    if s == [] || m.generated.column <= s[0].generated.column then [m] + s
    else
      assert s == [s[0]] + s[1..];
      [s[0]] + Insert(m, s[1..])
  }

  lemma {:induction false} InsertKeepsSorted(m: Mapping, s: seq<Mapping>)
    requires SortedByColumn(s)
    ensures SortedByColumn(Insert(m, s))
  {
    if s != [] && m.generated.column > s[0].generated.column {
      var t := Insert(m, s[1..]);
      InsertKeepsSorted(m, s[1..]);
      forall k | 0 <= k < |t|
        ensures s[0].generated.column <= t[k].generated.column
      {
        assert t[k] in multiset(t);
        if t[k] != m {
          assert t[k] in multiset(s[1..]);
          var idx :| 0 <= idx < |s[1..]| && s[1..][idx] == t[k];
          assert s[idx + 1] == t[k];
        }
      }
    }
  }

  /** `MappingLine::sort`: a stable sort of the segments on generated column. */
  function SortSegments(s: seq<Mapping>): (r: seq<Mapping>)
    ensures SortedByColumn(r)
    ensures multiset(r) == multiset(s)
    ensures |r| == |s|
  {
    if s == [] then []
    else
      assert s == [s[0]] + s[1..];
      InsertKeepsSorted(s[0], SortSegments(s[1..]));
      Insert(s[0], SortSegments(s[1..]))
  }

  function SortLine(line: MappingLine): (r: MappingLine)
    ensures r.lineNumber == line.lineNumber
    ensures SortedByColumn(r.segments)
    ensures multiset(r.segments) == multiset(line.segments)
  {
    line.(segments := SortSegments(line.segments))
  }

  lemma {:induction false} InsertKeepsColumnOrder(m: Mapping, s: seq<Mapping>, column: int)
    ensures WithColumn(Insert(m, s), column)
         == (if m.generated.column == column then [m] else []) + WithColumn(s, column)
  {
    if s == [] || m.generated.column <= s[0].generated.column {
      assert ([m] + s)[1..] == s;
    } else {
      assert ([s[0]] + Insert(m, s[1..]))[1..] == Insert(m, s[1..]);
      InsertKeepsColumnOrder(m, s[1..], column);
      if s[0].generated.column == column {
        // s[0] sorts before m, so m's column differs from `column`
        assert m.generated.column != column;
      }
    }
  }

  /** Stability: segments with equal columns keep their relative order. */
  lemma {:induction false} SortIsStable(s: seq<Mapping>, column: int)
    ensures WithColumn(SortSegments(s), column) == WithColumn(s, column)
  {
    if s != [] {
      SortIsStable(s[1..], column);
      InsertKeepsColumnOrder(s[0], SortSegments(s[1..]), column);
    }
  }

  /** Sorting an already sorted line changes nothing. */
  lemma {:induction false} SortSortedIsIdentity(s: seq<Mapping>)
    requires SortedByColumn(s)
    ensures SortSegments(s) == s
  {
    if s != [] {
      assert SortedByColumn(s[1..]);
      SortSortedIsIdentity(s[1..]);
    }
  }

  lemma {:induction false} SortIsIdempotent(s: seq<Mapping>)
    ensures SortSegments(SortSegments(s)) == SortSegments(s)
  {
    SortSortedIsIdentity(SortSegments(s));
  }

  /** Sorting keeps exactly the same segments. */
  lemma {:induction false} SortKeepsMembers(s: seq<Mapping>)
    ensures forall m :: m in SortSegments(s) <==> m in s
  {
    var r := SortSegments(s);
    forall m
      ensures m in r <==> m in s
    {
      assert m in r <==> m in multiset(r);
      assert m in s <==> m in multiset(s);
    }
  }
}
