/** Reading back what `toVLQMappings` writes. For a container whose lines
    are all non-empty and whose mappings carry a name only together with a
    source, decoding the written string with identity source and name lists
    and zero offsets gives back exactly the sorted segments of every line.

    The proof follows the two stages of the reference decoder: lexing the
    written string gives the encoder's fields and separators as tokens
    (`LinesTokens`), and interpreting those tokens from the initial state
    reproduces the mappings, because the decoder's five accumulators always
    hold the encoder's running values. */
module RoundTrip {
  import opened Vlq
  import opened Results
  import opened Mappings
  import opened Decoder
  import opened Encoder
  import opened WrittenTokens
  import opened MappingContainer
  import Interning

  // ---------------------------------------------------------------------
  // Interpreting the encoder's tokens

  /** The decoder state that holds the encoder's running values: the
      column of the previous segment of the line and the `Previous` values. */
  function StateOf(line: int, column: int, prev: Previous, count: nat): (st: DecodeState)
    requires count <= 5
    ensures WellFormedState(st) && st.count == count
  {
    DecodeState(line, [column, prev.source, prev.originalLine, prev.originalColumn, prev.name], count)
  }

  /** The state after reading the fields `fs`: each field is added to the
      accumulator of its position. */
  function AddFields(st: DecodeState, fs: seq<int>): (r: DecodeState)
    requires WellFormedState(st) && st.count + |fs| <= 5
    ensures WellFormedState(r) && r.line == st.line && r.count == st.count + |fs|
    ensures forall i :: 0 <= i < 5 ==>
      r.segment[i] == if st.count <= i < st.count + |fs| then st.segment[i] + fs[i - st.count] else st.segment[i]
    decreases |fs|
  {
    if fs == [] then st else AddFields(AddField(st, fs[0]), fs[1..])
  }

  lemma {:induction false} InterpretFields(fs: seq<int>, rest: seq<Token>, st: DecodeState, columnOffset: int,
                                           sources: seq<int>, names: seq<int>)
    requires WellFormedState(st) && st.count + |fs| <= 5
    ensures Interpret(FieldTokens(fs) + rest, st, columnOffset, sources, names)
         == Interpret(rest, AddFields(st, fs), columnOffset, sources, names)
    decreases |fs|
  {
    if fs == [] {
      assert FieldTokens(fs) + rest == rest;
    } else {
      var toks := FieldTokens(fs) + rest;
      Assoc([Field(fs[0])], FieldTokens(fs[1..]), rest);
      assert toks[0] == Field(fs[0]) && toks[1..] == FieldTokens(fs[1..]) + rest;
      InterpretFields(fs[1..], rest, AddField(st, fs[0]), columnOffset, sources, names);
    }
  }

  /** What the round trip asks of a mapping on generated line `line`: a
      name only with a source, no original position without a source, and
      source and name indices that the decoder's lists map to themselves. */
  predicate Encodable(m: Mapping, line: int, sources: seq<int>, names: seq<int>) {
    && m.generated.line == line
    && m.source >= -1 && m.name >= -1
    && (m.name > -1 ==> m.source > -1)
    && (m.source == -1 ==> m.original == NoPosition)
    && (m.source > -1 ==> m.source < |sources| && sources[m.source] == m.source)
    && (m.name > -1 ==> m.name < |names| && names[m.name] == m.name)
  }

  /** Reading the fields written for `m` moves the decoder's accumulators
      to `m`'s column and the encoder's running values after `m`. */
  lemma {:induction false} SegmentState(m: Mapping, line: int, column: int, prev: Previous, sources: seq<int>, names: seq<int>)
    requires Encodable(m, line, sources, names)
    ensures FieldShape(m) <= 5
    ensures AddFields(StateOf(line, column, prev, 0), SegmentFields(m, column, prev))
         == StateOf(line, m.generated.column, Advance(m, prev), FieldShape(m))
  {
    var r := AddFields(StateOf(line, column, prev, 0), SegmentFields(m, column, prev));
    var e := StateOf(line, m.generated.column, Advance(m, prev), FieldShape(m));
    assert r.segment == e.segment by {
      forall i | 0 <= i < 5
        ensures r.segment[i] == e.segment[i]
      {
      }
    }
  }

  /** ... and the segment then resolves to `m` itself. */
  lemma {:induction false} ResolveEncoded(m: Mapping, line: int, prev: Previous, sources: seq<int>, names: seq<int>)
    requires Encodable(m, line, sources, names)
    ensures Resolve(StateOf(line, m.generated.column, Advance(m, prev), FieldShape(m)), sources, names) == Ok(m)
  {
  }

  /** `ms` in front of a successful result. */
  function Prepend(ms: seq<Mapping>, r: Result<seq<Mapping>>): Result<seq<Mapping>> {
    match r
    case Ok(rest) => Ok(ms + rest)
    case Err(e) => Err(e)
  }

  lemma {:induction false} PrependTwice(m: Mapping, ms: seq<Mapping>, r: Result<seq<Mapping>>)
    ensures Prepend([m], Prepend(ms, r)) == Prepend([m] + ms, r)
  {
    if r.Ok? {
      Assoc([m], ms, r.value);
    }
  }

  predicate LineEncodable(segs: seq<Mapping>, line: int, sources: seq<int>, names: seq<int>) {
    forall k :: 0 <= k < |segs| ==> Encodable(segs[k], line, sources, names)
  }

  /** Reading the fields written for `m`. */
  lemma {:induction false} ReadSegment(m: Mapping, line: int, column: int, prev: Previous, after: seq<Token>,
                    sources: seq<int>, names: seq<int>)
    requires Encodable(m, line, sources, names)
    ensures FieldShape(m) <= 5
    ensures Interpret(FieldTokens(SegmentFields(m, column, prev)) + after, StateOf(line, column, prev, 0), 0, sources, names)
         == Interpret(after, StateOf(line, m.generated.column, Advance(m, prev), FieldShape(m)), 0, sources, names)
  {
    SegmentState(m, line, column, prev, sources, names);
    InterpretFields(SegmentFields(m, column, prev), after, StateOf(line, column, prev, 0), 0, sources, names);
  }

  /** After the fields of `m`, the end of input or a delimiter yields `m`. */
  lemma {:induction false} EndSegmentOf(m: Mapping, line: int, prev: Previous, after: seq<Token>, sources: seq<int>, names: seq<int>)
    requires Encodable(m, line, sources, names) && FieldShape(m) <= 5
    requires after == [] || !after[0].Field?
    ensures var st := StateOf(line, m.generated.column, Advance(m, prev), FieldShape(m));
      Interpret(after, st, 0, sources, names)
      == if after == [] then Ok([m])
         else Prepend([m], Interpret(after[1..], EndSegment(st, after[0] == Semicolon, 0), 0, sources, names))
  {
    ResolveEncoded(m, line, prev, sources, names);
  }

  /** The result of interpreting one written line `segs` followed by
      `tail`, which is the end of input or a `;` and more. */
  function LineResult(segs: seq<Mapping>, line: int, prev: Previous, tail: seq<Token>,
                      sources: seq<int>, names: seq<int>): Result<seq<Mapping>>
    requires tail == [] || tail[0] == Semicolon
  {
    if tail == [] then Ok(segs)
    else Prepend(segs, Interpret(tail[1..], StateOf(line + 1, 0, AdvanceAll(segs, prev), 0), 0, sources, names))
  }

  lemma {:induction false} InterpretLastSegment(m: Mapping, line: int, column: int, prev: Previous, tail: seq<Token>,
                             sources: seq<int>, names: seq<int>)
    requires Encodable(m, line, sources, names)
    requires tail == [] || tail[0] == Semicolon
    ensures Interpret(SegmentsTokens([m], column, prev) + tail, StateOf(line, column, prev, 0), 0, sources, names)
         == LineResult([m], line, prev, tail, sources, names)
  {
    var p := Advance(m, prev);
    var fields := FieldTokens(SegmentFields(m, column, prev));
    assert SegmentsTokens([m], column, prev) == fields + [] == fields;
    ReadSegment(m, line, column, prev, tail, sources, names);
    EndSegmentOf(m, line, prev, tail, sources, names);
    var st := StateOf(line, m.generated.column, p, FieldShape(m));
    assert Interpret(fields + tail, StateOf(line, column, prev, 0), 0, sources, names)
        == Interpret(tail, st, 0, sources, names);
    if tail != [] {
      assert EndSegment(st, true, 0) == StateOf(line + 1, 0, p, 0);
      assert AdvanceAll([m], prev) == p by {
        assert [m][1..] == [];
      }
    }
  }

  lemma {:induction false} InterpretLineStep(segs: seq<Mapping>, line: int, column: int, prev: Previous, tail: seq<Token>,
                          sources: seq<int>, names: seq<int>)
    requires |segs| > 1 && Encodable(segs[0], line, sources, names)
    requires tail == [] || tail[0] == Semicolon
    requires var p := Advance(segs[0], prev);
      Interpret(SegmentsTokens(segs[1..], segs[0].generated.column, p) + tail,
                StateOf(line, segs[0].generated.column, p, 0), 0, sources, names)
      == LineResult(segs[1..], line, p, tail, sources, names)
    ensures Interpret(SegmentsTokens(segs, column, prev) + tail, StateOf(line, column, prev, 0), 0, sources, names)
         == LineResult(segs, line, prev, tail, sources, names)
  {
    var m := segs[0];
    var p := Advance(m, prev);
    var more := SegmentsTokens(segs[1..], m.generated.column, p);
    var after := [Comma] + (more + tail);
    assert SegmentsTokens(segs, column, prev) + tail == FieldTokens(SegmentFields(m, column, prev)) + after by {
      Assoc(FieldTokens(SegmentFields(m, column, prev)), [Comma] + more, tail);
      Assoc([Comma], more, tail);
    }
    ReadSegment(m, line, column, prev, after, sources, names);
    EndSegmentOf(m, line, prev, after, sources, names);
    assert after[1..] == more + tail;
    assert EndSegment(StateOf(line, m.generated.column, p, FieldShape(m)), false, 0) == StateOf(line, m.generated.column, p, 0);
    assert [m] + segs[1..] == segs;
    assert AdvanceAll(segs, prev) == AdvanceAll(segs[1..], p);
    if tail != [] {
      PrependTwice(m, segs[1..], Interpret(tail[1..], StateOf(line + 1, 0, AdvanceAll(segs, prev), 0), 0, sources, names));
    }
  }

  /** Interpreting one written line, followed by the end of input or by a
      `;` and more: the line's segments come back, and the next line starts
      at column 0 with the encoder's running values. */
  lemma {:induction false} InterpretLine(segs: seq<Mapping>, line: int, column: int, prev: Previous,
                                         tail: seq<Token>, sources: seq<int>, names: seq<int>)
    requires segs != [] && LineEncodable(segs, line, sources, names)
    requires tail == [] || tail[0] == Semicolon
    ensures Interpret(SegmentsTokens(segs, column, prev) + tail, StateOf(line, column, prev, 0), 0, sources, names)
         == LineResult(segs, line, prev, tail, sources, names)
    decreases |segs|
  {
    assert Encodable(segs[0], line, sources, names);
    if |segs| == 1 {
      assert segs == [segs[0]];
      InterpretLastSegment(segs[0], line, column, prev, tail, sources, names);
    } else {
      assert LineEncodable(segs[1..], line, sources, names) by {
        assert forall k :: 0 <= k < |segs| - 1 ==> segs[1..][k] == segs[k + 1];
      }
      InterpretLine(segs[1..], line, segs[0].generated.column, Advance(segs[0], prev), tail, sources, names);
      InterpretLineStep(segs, line, column, prev, tail, sources, names);
    }
  }

  predicate LinesEncodable(lines: seq<MappingLine>, first: int, sources: seq<int>, names: seq<int>) {
    forall i :: 0 <= i < |lines| ==>
      lines[i].segments != [] && LineEncodable(lines[i].segments, first + i, sources, names)
  }

  /** All segments, line after line. */
  function Flatten(lines: seq<MappingLine>): seq<Mapping>
    decreases |lines|
  {
    if lines == [] then [] else lines[0].segments + Flatten(lines[1..])
  }

  lemma {:induction false} InterpretLines(lines: seq<MappingLine>, first: int, prev: Previous,
                                          sources: seq<int>, names: seq<int>)
    requires lines != [] && LinesEncodable(lines, first, sources, names)
    ensures Interpret(LinesTokens(lines, prev), StateOf(first, 0, prev, 0), 0, sources, names) == Ok(Flatten(lines))
    decreases |lines|
  {
    var segs := lines[0].segments;
    assert segs != [] && LineEncodable(segs, first, sources, names);
    if |lines| == 1 {
      assert LinesTokens(lines, prev) == SegmentsTokens(segs, 0, prev) + [];
      InterpretLine(segs, first, 0, prev, [], sources, names);
      assert LineResult(segs, first, prev, [], sources, names) == Ok(segs);
      assert Interpret(LinesTokens(lines, prev), StateOf(first, 0, prev, 0), 0, sources, names) == Ok(segs);
      assert lines[1..] == [];
      assert Flatten(lines) == segs + [];
      assert Flatten(lines) == segs;
    } else {
      var p := AdvanceAll(segs, prev);
      var tail := [Semicolon] + LinesTokens(lines[1..], p);
      InterpretLine(segs, first, 0, prev, tail, sources, names);
      assert tail[1..] == LinesTokens(lines[1..], p);
      assert LinesEncodable(lines[1..], first + 1, sources, names) by {
        assert forall i :: 0 <= i < |lines| - 1 ==> lines[1..][i] == lines[i + 1];
      }
      InterpretLines(lines[1..], first + 1, p, sources, names);
    }
  }

  /** Decoding what the encoder writes for `lines` gives their segments,
      line after line. */
  lemma {:induction false} DecodeEncoded(lines: seq<MappingLine>, sources: seq<int>, names: seq<int>)
    requires LinesEncodable(lines, 0, sources, names)
    ensures Decode(EncodeLines(lines), sources, names, 0, 0) == Ok(Flatten(lines))
  {
    LexLines(lines, Start);
    assert InitialState(0, 0) == StateOf(0, 0, Start, 0);
    if lines != [] {
      InterpretLines(lines, 0, Start, sources, names);
    }
  }

  // ---------------------------------------------------------------------
  // Adding the decoded mappings rebuilds the lines

  lemma {:induction false} AddAllConcat(c: Container, a: seq<Mapping>, b: seq<Mapping>)
    requires LinesIndexed(c) && OnMaterialisableLines(a) && OnMaterialisableLines(b)
    ensures OnMaterialisableLines(a + b)
    ensures AddAll(c, a + b) == AddAll(AddAll(c, a), b)
    decreases |a|
  {
    assert OnMaterialisableLines(a + b) by {
      forall k | 0 <= k < |a + b|
        ensures (a + b)[k].generated.line >= 0
      {
        if k < |a| {
          assert (a + b)[k] == a[k];
        } else {
          assert (a + b)[k] == b[k - |a|];
        }
      }
    }
    if a == [] {
      assert a + b == b;
    } else {
      var m := a[0];
      assert (a + b)[0] == m && (a + b)[1..] == a[1..] + b;
      assert OnMaterialisableLines(a[1..]) by {
        assert forall k :: 0 <= k < |a| - 1 ==> a[1..][k] == a[k + 1];
      }
      AddAllConcat(AddMapping(c, m.generated, m.original, m.source, m.name), a[1..], b);
    }
  }

  /** Adding one mapping of the last line `k` appends it to that line. */
  lemma {:induction false} AppendOne(c: Container, m: Mapping, k: nat, pre: seq<Mapping>)
    requires LinesIndexed(c) && c.generatedLines == k && c.lines[k] == MappingLine(k, pre)
    requires m.generated.line == k
    ensures AddMapping(c, m.generated, m.original, m.source, m.name)
         == c.(lines := c.lines[k := MappingLine(k, pre + [m])], segmentCount := c.segmentCount + 1)
  {
    var c1 := AddMapping(c, m.generated, m.original, m.source, m.name);
    var lines1 := c.lines[k := MappingLine(k, pre + [m])];
    assert |c1.lines| == |lines1|;
    forall i | 0 <= i < |lines1|
      ensures c1.lines[i] == lines1[i]
    {
      if i == k {
        assert c1.lines[k].segments == pre + [m];
      }
    }
    assert c1.lines == lines1;
  }

  /** Adding mappings of the last line `k` appends them to it. */
  lemma {:induction false} AppendToLine(c: Container, segs: seq<Mapping>, k: nat, pre: seq<Mapping>)
    requires LinesIndexed(c) && c.generatedLines == k && c.lines[k] == MappingLine(k, pre)
    requires forall j :: 0 <= j < |segs| ==> segs[j].generated.line == k
    ensures OnMaterialisableLines(segs)
    ensures AddAll(c, segs)
         == c.(lines := c.lines[k := MappingLine(k, pre + segs)], segmentCount := c.segmentCount + |segs|)
    decreases |segs|
  {
    if segs == [] {
      assert pre + [] == pre;
      assert c.lines[k := c.lines[k]] == c.lines;
    } else {
      var m := segs[0];
      var lines1 := c.lines[k := MappingLine(k, pre + [m])];
      var c1 := c.(lines := lines1, segmentCount := c.segmentCount + 1);
      AppendOne(c, m, k, pre);
      assert forall j :: 0 <= j < |segs| - 1 ==> segs[1..][j] == segs[j + 1];
      AppendToLine(c1, segs[1..], k, pre + [m]);
      assert (pre + [m]) + segs[1..] == pre + segs by {
        Assoc(pre, [m], segs[1..]);
        assert [m] + segs[1..] == segs;
      }
      assert lines1[k := MappingLine(k, pre + segs)] == c.lines[k := MappingLine(k, pre + segs)];
    }
  }

  /** Adding the first mapping of the next line `k` creates that line. */
  lemma {:induction false} StartOne(c: Container, m: Mapping, k: nat)
    requires LinesIndexed(c) && c.generatedLines == k - 1 && m.generated.line == k
    ensures AddMapping(c, m.generated, m.original, m.source, m.name)
         == c.(lines := c.lines + [MappingLine(k, [m])], generatedLines := k, segmentCount := c.segmentCount + 1)
  {
    var c1 := AddMapping(c, m.generated, m.original, m.source, m.name);
    var lines1 := c.lines + [MappingLine(k, [m])];
    assert |c1.lines| == |lines1|;
    forall i | 0 <= i < |lines1|
      ensures c1.lines[i] == lines1[i]
    {
      if i == k {
        assert c1.lines[k].segments == [] + [m];
      }
    }
    assert c1.lines == lines1;
  }

  /** Adding the mappings of the next line `k` creates it with them. */
  lemma {:induction false} StartLine(c: Container, segs: seq<Mapping>, k: nat)
    requires LinesIndexed(c) && c.generatedLines == k - 1
    requires segs != [] && forall j :: 0 <= j < |segs| ==> segs[j].generated.line == k
    ensures OnMaterialisableLines(segs)
    ensures AddAll(c, segs)
         == c.(lines := c.lines + [MappingLine(k, segs)], generatedLines := k,
               segmentCount := c.segmentCount + |segs|)
  {
    var m := segs[0];
    var lines1 := c.lines + [MappingLine(k, [m])];
    var c1 := c.(lines := lines1, generatedLines := k, segmentCount := c.segmentCount + 1);
    StartOne(c, m, k);
    assert forall j :: 0 <= j < |segs| - 1 ==> segs[1..][j] == segs[j + 1];
    assert [m] + segs[1..] == segs;
    assert OnMaterialisableLines(segs);
    AddAllFirst(c, m, segs[1..]);
    AppendToLine(c1, segs[1..], k, [m]);
    assert lines1[k := MappingLine(k, segs)] == c.lines + [MappingLine(k, segs)];
  }

  /** Line i is numbered i, is not empty and holds only segments of line i. */
  predicate LaidOut(lines: seq<MappingLine>) {
    forall i :: 0 <= i < |lines| ==>
      && lines[i].lineNumber == i
      && lines[i].segments != []
      && forall j :: 0 <= j < |lines[i].segments| ==> lines[i].segments[j].generated.line == i
  }

  lemma {:induction false} FlattenSnoc(lines: seq<MappingLine>, line: MappingLine)
    ensures Flatten(lines + [line]) == Flatten(lines) + line.segments
    decreases |lines|
  {
    if lines == [] {
      assert ([] + [line])[1..] == [];
      assert line.segments + [] == line.segments;
    } else {
      assert (lines + [line])[0] == lines[0] && (lines + [line])[1..] == lines[1..] + [line];
      FlattenSnoc(lines[1..], line);
      Assoc(lines[0].segments, Flatten(lines[1..]), line.segments);
    }
  }

  lemma {:induction false} CountSegmentsFlatten(lines: seq<MappingLine>)
    ensures CountSegments(lines) == |Flatten(lines)|
    decreases |lines|
  {
    if lines != [] {
      var n := |lines| - 1;
      assert lines == lines[..n] + [lines[n]];
      FlattenSnoc(lines[..n], lines[n]);
      CountSegmentsFlatten(lines[..n]);
    }
  }

  /** The container holding the first `k` of `lines` and nothing else. */
  function Rebuilt(lines: seq<MappingLine>, k: nat): Container
    requires k <= |lines|
  {
    Container(Interning.EmptyTable, Interning.EmptyTable, lines[..k], k - 1, |Flatten(lines[..k])|)
  }

  /** Adding the segments of line `k` to the first `k` lines. */
  lemma {:induction false} RebuildLine(lines: seq<MappingLine>, k: nat)
    requires LaidOut(lines) && k < |lines|
    ensures OnMaterialisableLines(lines[k].segments)
    ensures AddAll(Rebuilt(lines, k), lines[k].segments) == Rebuilt(lines, k + 1)
  {
    var segs := lines[k].segments;
    StartLine(Rebuilt(lines, k), segs, k);
    assert lines[k] == MappingLine(k, segs);
    assert lines[..k + 1] == lines[..k] + [lines[k]];
    FlattenSnoc(lines[..k], lines[k]);
  }

  lemma {:induction false} Rebuild(lines: seq<MappingLine>, k: nat)
    requires LaidOut(lines) && k <= |lines|
    ensures OnMaterialisableLines(Flatten(lines[k..]))
    ensures AddAll(Rebuilt(lines, k), Flatten(lines[k..])) == Rebuilt(lines, |lines|)
    decreases |lines| - k
  {
    if k == |lines| {
      assert lines[k..] == [];
    } else {
      var segs := lines[k].segments;
      assert lines[k..][0] == lines[k] && lines[k..][1..] == lines[k + 1..];
      assert Flatten(lines[k..]) == segs + Flatten(lines[k + 1..]);
      RebuildLine(lines, k);
      Rebuild(lines, k + 1);
      AddAllConcat(Rebuilt(lines, k), segs, Flatten(lines[k + 1..]));
    }
  }

  // ---------------------------------------------------------------------
  // The round trip

  predicate IsIdentity(xs: seq<int>) {
    forall i :: 0 <= i < |xs| ==> xs[i] == i
  }

  /** What the round trip asks of every mapping, apart from its line: a
      name only with a source, no original position without a source, and
      indices within the decoder's lists. */
  predicate Writable(m: Mapping, sources: seq<int>, names: seq<int>) {
    && m.source >= -1 && m.name >= -1
    && (m.name > -1 ==> m.source > -1)
    && (m.source == -1 ==> m.original == NoPosition)
    && m.source < |sources| && m.name < |names|
  }

  predicate RoundTripReady(c: Container, sources: seq<int>, names: seq<int>) {
    && Valid(c)
    && IsIdentity(sources) && IsIdentity(names)
    && (forall i :: 0 <= i < |c.lines| ==> c.lines[i].segments != [])
    && (forall i, j :: 0 <= i < |c.lines| && 0 <= j < |c.lines[i].segments| ==>
          Writable(c.lines[i].segments[j], sources, names))
  }

  lemma {:induction false} SortedReady(c: Container, sources: seq<int>, names: seq<int>)
    requires RoundTripReady(c, sources, names)
    ensures LinesEncodable(Sort(c).lines, 0, sources, names)
    ensures LaidOut(Sort(c).lines)
  {
    var sorted := Sort(c);
    forall i | 0 <= i < |sorted.lines|
      ensures sorted.lines[i].segments != []
      ensures LineEncodable(sorted.lines[i].segments, i, sources, names)
    {
      var segs := sorted.lines[i].segments;
      assert |multiset(segs)| == |multiset(c.lines[i].segments)|;
      forall j | 0 <= j < |segs|
        ensures Encodable(segs[j], i, sources, names)
      {
        assert segs[j] in multiset(c.lines[i].segments);
        var j' :| 0 <= j' < |c.lines[i].segments| && c.lines[i].segments[j'] == segs[j];
        assert Writable(c.lines[i].segments[j'], sources, names);
      }
    }
  }

  /** Adding the segments of laid-out lines, in order, to an empty
      container gives back every part of a valid container holding those
      lines apart from its interning tables. */
  lemma {:induction false} RebuildContainer(s: Container)
    requires Valid(s) && LaidOut(s.lines)
    ensures OnMaterialisableLines(Flatten(s.lines))
    ensures AddAll(Empty, Flatten(s.lines)) == s.(names := Empty.names, sources := Empty.sources)
  {
    var lines := s.lines;
    Rebuild(lines, 0);
    assert lines[..0] == [] && lines[0..] == lines && lines[..|lines|] == lines;
    assert Rebuilt(lines, 0) == Empty;
    CountSegmentsFlatten(lines);
  }

  /** Decoding the string `toVLQMappings` writes, with identity source and
      name lists and zero offsets, gives the sorted segments line after
      line; adding them to an empty container rebuilds the sorted lines,
      the line count and the segment count. */
  lemma {:induction false} RoundTrip(c: Container, sources: seq<int>, names: seq<int>)
    requires RoundTripReady(c, sources, names)
    ensures var (sorted, out) := ToVLQMappings(c);
      && Decode(out, sources, names, 0, 0) == Ok(Flatten(sorted.lines))
      && OnMaterialisableLines(Flatten(sorted.lines))
      && AddAll(Empty, Flatten(sorted.lines)) == sorted.(names := Empty.names, sources := Empty.sources)
  {
    var sorted := Sort(c);
    SortedReady(c, sources, names);
    DecodeEncoded(sorted.lines, sources, names);
    RebuildContainer(sorted);
  }

  /** `toVLQMappings` followed by `addVLQMappings` into a fresh container
      gives the sorted container back, without its interning tables. */
  method WriteAndRead(c: Container, sources: seq<int>, names: seq<int>) returns (r: Container)
    requires RoundTripReady(c, sources, names)
    ensures r == Sort(c).(names := Empty.names, sources := Empty.sources)
  {
    var (sorted, out) := ToVLQMappings(c);
    RoundTrip(c, sources, names);
    EmptyIsValid();
    r := AddVLQMappings(Empty, out, sources, names, 0, 0);
  }
}
