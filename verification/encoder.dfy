/** `toVLQMappings`: writing the container as a "mappings" string. The
    lines are sorted first; lines are separated by `;` and the segments of a
    line by `,`. Every segment is written as deltas against running
    "previous" values: the generated column against the previous segment of
    the same line (starting from 0 on every line), the source, original
    position and name against the last segment that had them, across
    lines. */
module Encoder {
  import opened Vlq
  import opened Mappings
  import opened Decoder
  import MappingContainer

  /** The running values the encoder keeps across lines. */
  datatype Previous = Previous(source: int, originalLine: int, originalColumn: int, name: int)

  const Start := Previous(0, 0, 0, 0)

  /** How many fields the encoder writes for `m`: the generated column, then
      source, original line and original column when it has a source, then
      the name when it has a name, independently of the source. */
  function FieldShape(m: Mapping): nat {
    1 + (if m.source > -1 then 3 else 0) + (if m.name > -1 then 1 else 0)
  }

  /** The deltas written for `m`, when the previous segment of its line
      ended at `column`. Adding each delta to its running value gives back
      the mapping's own value. */
  function SegmentFields(m: Mapping, column: int, prev: Previous): (fs: seq<int>)
    ensures |fs| == FieldShape(m)
    ensures column + fs[0] == m.generated.column
    ensures m.source > -1 ==>
      && prev.source + fs[1] == m.source
      && prev.originalLine + fs[2] == m.original.line
      && prev.originalColumn + fs[3] == m.original.column
    ensures m.name > -1 ==> prev.name + fs[|fs| - 1] == m.name
  {
    [m.generated.column - column]
    + (if m.source > -1
       then [m.source - prev.source, m.original.line - prev.originalLine, m.original.column - prev.originalColumn]
       else [])
    + (if m.name > -1 then [m.name - prev.name] else [])
  }

  /** The running values after writing `m`. */
  function Advance(m: Mapping, prev: Previous): Previous {
    var p := if m.source > -1 then prev.(source := m.source, originalLine := m.original.line,
                                          originalColumn := m.original.column)
             else prev;
    if m.name > -1 then p.(name := m.name) else p
  }

  /** The running values after writing all of `segs`. */
  function AdvanceAll(segs: seq<Mapping>, prev: Previous): Previous
    decreases |segs|
  {
    if segs == [] then prev else AdvanceAll(segs[1..], Advance(segs[0], prev))
  }

  lemma {:induction false} ValidMappingCharsConcat(a: string, b: string)
    requires ValidMappingChars(a) && ValidMappingChars(b)
    ensures ValidMappingChars(a + b)
  {
    assert forall i :: |a| <= i < |a + b| ==> (a + b)[i] == b[i - |a|];
  }

  /** The characters of consecutive fields. */
  function RenderFields(fs: seq<int>): (s: string)
    ensures ValidMappingChars(s)
    decreases |fs|
  {
    if fs == [] then []
    else
      var s := EncodeVlq(fs[0]);
      assert ValidMappingChars(s);
      ValidMappingCharsConcat(s, RenderFields(fs[1..]));
      s + RenderFields(fs[1..])
  }

  /** The segments of one line, separated by `,`, the first written against
      column `column`. */
  function RenderSegments(segs: seq<Mapping>, column: int, prev: Previous): (s: string)
    ensures ValidMappingChars(s)
    decreases |segs|
  {
    if segs == [] then []
    else
      var first := RenderFields(SegmentFields(segs[0], column, prev));
      if |segs| == 1 then first
      else
        var rest := RenderSegments(segs[1..], segs[0].generated.column, Advance(segs[0], prev));
        ValidMappingCharsConcat(first, [','] + rest);
        ValidMappingCharsConcat([','], rest);
        first + ([','] + rest)
  }

  /** The lines, separated by `;`; every line's columns start from 0. */
  function RenderLines(lines: seq<MappingLine>, prev: Previous): (s: string)
    ensures ValidMappingChars(s)
    decreases |lines|
  {
    if lines == [] then []
    else
      var first := RenderSegments(lines[0].segments, 0, prev);
      if |lines| == 1 then first
      else
        var rest := RenderLines(lines[1..], AdvanceAll(lines[0].segments, prev));
        ValidMappingCharsConcat(first, [';'] + rest);
        ValidMappingCharsConcat([';'], rest);
        first + ([';'] + rest)
  }

  function EncodeLines(lines: seq<MappingLine>): (s: string)
    ensures ValidMappingChars(s)
  {
    RenderLines(lines, Start)
  }

  /** `toVLQMappings`: the container after its lines are sorted, and the
      string written from the sorted lines. */
  function ToVLQMappings(c: MappingContainer.Container): (r: (MappingContainer.Container, string))
    ensures r.0 == MappingContainer.Sort(c)
    ensures r.1 == EncodeLines(r.0.lines)
    ensures forall i :: 0 <= i < |r.0.lines| ==> SortedByColumn(r.0.lines[i].segments)
    ensures ValidMappingChars(r.1)
  {
    var sorted := MappingContainer.Sort(c);
    (sorted, EncodeLines(sorted.lines))
  }

  lemma RenderFourZeros()
    ensures RenderFields([0, 0, 0, 0]) == "AAAA"
  {
    assert EncodeVlq(0) == "A";
    assert RenderFields([0]) == "A";
    assert RenderFields([0, 0]) == "AA";
    assert RenderFields([0, 0, 0]) == "AAA";
  }

  lemma OriginFields()
    ensures SegmentFields(Mapping(Position(0, 0), Position(0, 0), 0, -1), 0, Start) == [0, 0, 0, 0]
  {
    var fs := SegmentFields(Mapping(Position(0, 0), Position(0, 0), 0, -1), 0, Start);
    assert |fs| == 4 && fs[0] == 0 && fs[1] == 0 && fs[2] == 0 && fs[3] == 0;
  }

  /** "AAAA": the mapping from (0, 0) to (0, 0) of source 0 without a name. */
  lemma EncodeAAAA()
    ensures EncodeLines([MappingLine(0, [Mapping(Position(0, 0), Position(0, 0), 0, -1)])]) == "AAAA"
  {
    var m := Mapping(Position(0, 0), Position(0, 0), 0, -1);
    assert RenderSegments([m], 0, Start) == "AAAA" by {
      OriginFields();
      RenderFourZeros();
    }
    var lines := [MappingLine(0, [m])];
    assert lines[0].segments == [m];
    assert RenderLines(lines, Start) == RenderSegments([m], 0, Start);
  }
}
