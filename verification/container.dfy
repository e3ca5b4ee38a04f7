/** The mapping container: two interning tables, the generated lines with
    their segments, the highest materialised line and the segment count. */
module MappingContainer {
  import opened Mappings
  import Interning

  datatype Container = Container(
    names: Interning.Table,
    sources: Interning.Table,
    lines: seq<MappingLine>,
    generatedLines: int,   // highest materialised generated line; -1 before the first
    segmentCount: int)     // number of mappings ever added

  /** A freshly constructed container. */
  const Empty := Container(Interning.EmptyTable, Interning.EmptyTable, [], -1, 0)

  /** Line i is stored at index i, and there are `generatedLines + 1` lines. */
  predicate LinesIndexed(c: Container) {
    && |c.lines| == c.generatedLines + 1
    && forall i :: 0 <= i < |c.lines| ==> c.lines[i].lineNumber == i
  }

  /** Every segment sits in the line of its generated position. */
  predicate SegmentsOnTheirLine(lines: seq<MappingLine>) {
    forall i, j :: 0 <= i < |lines| && 0 <= j < |lines[i].segments| ==>
      lines[i].segments[j].generated.line == i
  }

  function CountSegments(lines: seq<MappingLine>): nat {
    if lines == [] then 0
    else CountSegments(lines[..|lines| - 1]) + |lines[|lines| - 1].segments|
  }

  /** The container's invariant. */
  predicate Valid(c: Container) {
    && Interning.Valid(c.names)
    && Interning.Valid(c.sources)
    && LinesIndexed(c)
    && SegmentsOnTheirLine(c.lines)
    && c.segmentCount == CountSegments(c.lines)
  }

  lemma EmptyIsValid()
    ensures Valid(Empty)
  {
  }

  // ---------------------------------------------------------------------
  // Interning

  /** `addName`: the index of `name` in the name table, added if new. */
  function AddName(c: Container, name: string): (r: (Container, int))
    requires Interning.Valid(c.names)
    ensures 0 <= r.1 < |r.0.names.entries| && r.0.names.entries[r.1] == name
    ensures name in c.names.entries ==> r.0 == c && r.1 == GetNameIndex(c, name)
    ensures name !in c.names.entries ==>
      r.0.names.entries == c.names.entries + [name] && r.1 == |c.names.entries|
    ensures r.0.sources == c.sources && r.0.lines == c.lines
    ensures r.0.generatedLines == c.generatedLines && r.0.segmentCount == c.segmentCount
    ensures Valid(c) ==> Valid(r.0)
  {
    var (t, i) := Interning.Intern(c.names, name);
    (c.(names := t), i)
  }

  /** `addSource`: the index of `source` in the source table, added if new. */
  function AddSource(c: Container, source: string): (r: (Container, int))
    requires Interning.Valid(c.sources)
    ensures 0 <= r.1 < |r.0.sources.entries| && r.0.sources.entries[r.1] == source
    ensures source in c.sources.entries ==> r.0 == c && r.1 == GetSourceIndex(c, source)
    ensures source !in c.sources.entries ==>
      r.0.sources.entries == c.sources.entries + [source] && r.1 == |c.sources.entries|
    ensures r.0.names == c.names && r.0.lines == c.lines
    ensures r.0.generatedLines == c.generatedLines && r.0.segmentCount == c.segmentCount
    ensures Valid(c) ==> Valid(r.0)
  {
    var (t, i) := Interning.Intern(c.sources, source);
    (c.(sources := t), i)
  }

  /** `getNameIndex`: the index of `name`, or -1 when it was never added. */
  function GetNameIndex(c: Container, name: string): (i: int)
    ensures Interning.Valid(c.names) ==> (i >= 0 <==> name in c.names.entries)
    ensures Interning.Valid(c.names) && i >= 0 ==> i < |c.names.entries| && c.names.entries[i] == name
    ensures Interning.Valid(c.names) && i < 0 ==> i == -1
  {
    Interning.IndexOf(c.names, name)
  }

  /** `getSourceIndex`: the index of `source`, or -1 when it was never added. */
  function GetSourceIndex(c: Container, source: string): (i: int)
    ensures Interning.Valid(c.sources) ==> (i >= 0 <==> source in c.sources.entries)
    ensures Interning.Valid(c.sources) && i >= 0 ==> i < |c.sources.entries| && c.sources.entries[i] == source
    ensures Interning.Valid(c.sources) && i < 0 ==> i == -1
  {
    Interning.IndexOf(c.sources, source)
  }

  // ---------------------------------------------------------------------
  // Accessors

  function GetGeneratedLines(c: Container): int {
    c.generatedLines
  }

  function GetTotalSegments(c: Container): int {
    c.segmentCount
  }

  function GetNamesVector(c: Container): seq<string> {
    c.names.entries
  }

  function GetSourcesVector(c: Container): seq<string> {
    c.sources.entries
  }

  function GetMappingLinesVector(c: Container): seq<MappingLine> {
    c.lines
  }

  // ---------------------------------------------------------------------
  // Lines

  lemma {:induction false} CountSegmentsAppend(lines: seq<MappingLine>, line: MappingLine)
    ensures CountSegments(lines + [line]) == CountSegments(lines) + |line.segments|
  {
    assert (lines + [line])[..|lines|] == lines;
  }

  lemma {:induction false} CountSegmentsUpdate(lines: seq<MappingLine>, k: nat, line: MappingLine)
    requires k < |lines|
    ensures CountSegments(lines[k := line])
         == CountSegments(lines) - |lines[k].segments| + |line.segments|
    decreases |lines|
  {
    var n := |lines|;
    if k < n - 1 {
      assert lines[k := line][..n - 1] == lines[..n - 1][k := line];
      CountSegmentsUpdate(lines[..n - 1], k, line);
    } else {
      assert lines[k := line][..n - 1] == lines[..n - 1];
    }
  }

  /** `addLine`: materialise the next generated line, empty. */
  function AddLine(c: Container): (r: Container)
    ensures r.generatedLines == c.generatedLines + 1
    ensures r.lines == c.lines + [MappingLine(r.generatedLines, [])]
    ensures LinesIndexed(c) ==> LinesIndexed(r)
    ensures Valid(c) ==> Valid(r)
    ensures r.names == c.names && r.sources == c.sources && r.segmentCount == c.segmentCount
  {
    var n := c.generatedLines + 1;
    var lines := c.lines + [MappingLine(n, [])];
    CountSegmentsAppend(c.lines, MappingLine(n, []));
    assert SegmentsOnTheirLine(c.lines) ==> SegmentsOnTheirLine(lines) by {
      if SegmentsOnTheirLine(c.lines) {
        forall i, j | 0 <= i < |lines| && 0 <= j < |lines[i].segments|
          ensures lines[i].segments[j].generated.line == i
        {
          assert i < |c.lines| && lines[i] == c.lines[i];
        }
      }
    }
    c.(generatedLines := n, lines := lines)
  }

  /** `createLinesIfUndefined`: add empty lines, one number at a time, until
      line `generatedLine` exists. */
  function CreateLinesIfUndefined(c: Container, generatedLine: int): (r: Container)
    ensures r.generatedLines == if c.generatedLines < generatedLine then generatedLine else c.generatedLines
    ensures |r.lines| == |c.lines| + (r.generatedLines - c.generatedLines)
    ensures r.lines[..|c.lines|] == c.lines
    ensures forall i :: |c.lines| <= i < |r.lines| ==>
      r.lines[i] == MappingLine(c.generatedLines + 1 + (i - |c.lines|), [])
    ensures LinesIndexed(c) ==> LinesIndexed(r)
    ensures Valid(c) ==> Valid(r)
    ensures r.names == c.names && r.sources == c.sources && r.segmentCount == c.segmentCount
    decreases generatedLine - c.generatedLines
  {
    if c.generatedLines < generatedLine then
      var r := CreateLinesIfUndefined(AddLine(c), generatedLine);
      assert r.lines[..|c.lines| + 1][..|c.lines|] == r.lines[..|c.lines|];
      r
    else
      c
  }

  /** Appending a mapping to the line it names keeps the invariant. */
  lemma AppendKeepsValid(c: Container, k: nat, m: Mapping)
    requires k < |c.lines| && m.generated.line == k
    ensures Valid(c) ==>
      Valid(c.(lines := c.lines[k := AddToLine(c.lines[k], m)], segmentCount := c.segmentCount + 1))
  {
    var lines := c.lines[k := AddToLine(c.lines[k], m)];
    if Valid(c) {
      CountSegmentsUpdate(c.lines, k, lines[k]);
      forall i, j | 0 <= i < |lines| && 0 <= j < |lines[i].segments|
        ensures lines[i].segments[j].generated.line == i
      {
        if i == k && j == |c.lines[k].segments| {
          assert lines[i].segments[j] == m;
        } else {
          assert lines[i].segments[j] == c.lines[i].segments[j];
        }
      }
    }
  }

  /** `addMapping`: make sure the generated line exists, append the mapping
      to it, and count it. */
  function AddMapping(c: Container, generated: Position, original: Position, source: int, name: int): (r: Container)
    requires LinesIndexed(c)
    requires generated.line >= 0
    ensures r.generatedLines == if c.generatedLines < generated.line then generated.line else c.generatedLines
    ensures LinesIndexed(r)
    ensures forall i :: 0 <= i < |r.lines| && i != generated.line ==>
      r.lines[i] == if i < |c.lines| then c.lines[i] else MappingLine(i, [])
    ensures r.lines[generated.line].segments
         == (if generated.line < |c.lines| then c.lines[generated.line].segments else [])
            + [Mapping(generated, original, source, name)]
    ensures r.segmentCount == c.segmentCount + 1
    ensures r.names == c.names && r.sources == c.sources
    ensures Valid(c) ==> Valid(r)
  {
    var c1 := CreateLinesIfUndefined(c, generated.line);
    var k := generated.line;
    var m := Mapping(generated, original, source, name);
    var lines := c1.lines[k := AddToLine(c1.lines[k], m)];
    assert forall i :: 0 <= i < |c.lines| ==> c1.lines[i] == c.lines[i] by {
      forall i | 0 <= i < |c.lines|
        ensures c1.lines[i] == c.lines[i]
      {
        assert c1.lines[..|c.lines|][i] == c1.lines[i];
      }
    }
    AppendKeepsValid(c1, k, m);
    c1.(lines := lines, segmentCount := c1.segmentCount + 1)
  }

  /** Every mapping of `ms` names a non-negative generated line. */
  predicate OnMaterialisableLines(ms: seq<Mapping>) {
    forall k :: 0 <= k < |ms| ==> ms[k].generated.line >= 0
  }

  /** Add the mappings of `ms` one after the other. */
  function AddAll(c: Container, ms: seq<Mapping>): (r: Container)
    requires LinesIndexed(c)
    requires OnMaterialisableLines(ms)
    ensures LinesIndexed(r)
    ensures r.segmentCount == c.segmentCount + |ms|
    ensures r.names == c.names && r.sources == c.sources
    ensures Valid(c) ==> Valid(r)
    decreases |ms|
  {
    if ms == [] then c
    else
      var m := ms[0];
      AddAll(AddMapping(c, m.generated, m.original, m.source, m.name), ms[1..])
  }

  /** The highest line among `generatedLines` and the lines of `ms`. */
  function HighestLine(generatedLines: int, ms: seq<Mapping>): int {
    if ms == [] then generatedLines
    else if ms[|ms| - 1].generated.line > HighestLine(generatedLines, ms[..|ms| - 1])
    then ms[|ms| - 1].generated.line
    else HighestLine(generatedLines, ms[..|ms| - 1])
  }

  lemma {:induction false} HighestLineFirst(g: int, ms: seq<Mapping>)
    requires ms != []
    ensures HighestLine(g, ms)
         == HighestLine(if ms[0].generated.line > g then ms[0].generated.line else g, ms[1..])
    decreases |ms|
  {
    if |ms| > 1 {
      assert ms[..|ms| - 1][1..] == ms[1..][..|ms[1..]| - 1];
      HighestLineFirst(g, ms[..|ms| - 1]);
    }
  }

  /** Adding mappings counts each of them once and raises the line count to
      the highest line they name. */
  lemma {:induction false} AddAllCounts(c: Container, ms: seq<Mapping>)
    requires LinesIndexed(c)
    requires OnMaterialisableLines(ms)
    ensures GetTotalSegments(AddAll(c, ms)) == GetTotalSegments(c) + |ms|
    ensures GetGeneratedLines(AddAll(c, ms)) == HighestLine(GetGeneratedLines(c), ms)
    decreases |ms|
  {
    if ms != [] {
      var m := ms[0];
      var c1 := AddMapping(c, m.generated, m.original, m.source, m.name);
      AddAllCounts(c1, ms[1..]);
      HighestLineFirst(c.generatedLines, ms);
    }
  }

  // ---------------------------------------------------------------------
  // Sorting

  lemma {:induction false} CountSegmentsSameSizes(a: seq<MappingLine>, b: seq<MappingLine>)
    requires |a| == |b|
    requires forall i :: 0 <= i < |a| ==> |a[i].segments| == |b[i].segments|
    ensures CountSegments(a) == CountSegments(b)
    decreases |a|
  {
    if a != [] {
      CountSegmentsSameSizes(a[..|a| - 1], b[..|b| - 1]);
    }
  }

  /** `sort`: sort the segments of every line on generated column. */
  function Sort(c: Container): (r: Container)
    ensures |r.lines| == |c.lines|
    ensures forall i :: 0 <= i < |r.lines| ==>
      && r.lines[i].lineNumber == c.lines[i].lineNumber
      && SortedByColumn(r.lines[i].segments)
      && multiset(r.lines[i].segments) == multiset(c.lines[i].segments)
    ensures r.names == c.names && r.sources == c.sources
    ensures r.generatedLines == c.generatedLines && r.segmentCount == c.segmentCount
    ensures Valid(c) ==> Valid(r)
  {
    var lines := seq(|c.lines|, i requires 0 <= i < |c.lines| => SortLine(c.lines[i]));
    assert forall i :: 0 <= i < |lines| ==> |lines[i].segments| == |c.lines[i].segments| by {
      forall i | 0 <= i < |lines|
        ensures |lines[i].segments| == |c.lines[i].segments|
      {
        assert |multiset(lines[i].segments)| == |multiset(c.lines[i].segments)|;
      }
    }
    CountSegmentsSameSizes(lines, c.lines);
    assert SegmentsOnTheirLine(c.lines) ==> SegmentsOnTheirLine(lines) by {
      if SegmentsOnTheirLine(c.lines) {
        forall i, j | 0 <= i < |lines| && 0 <= j < |lines[i].segments|
          ensures lines[i].segments[j].generated.line == i
        {
          SortKeepsMembers(c.lines[i].segments);
          assert lines[i].segments[j] in c.lines[i].segments;
        }
      }
    }
    c.(lines := lines)
  }

  /** Sorting twice is sorting once. */
  lemma SortTwice(c: Container)
    ensures Sort(Sort(c)) == Sort(c)
  {
    var once := Sort(c);
    var twice := Sort(once);
    forall i | 0 <= i < |c.lines|
      ensures twice.lines[i] == once.lines[i]
    {
      SortSortedIsIdentity(once.lines[i].segments);
    }
  }
}
