/** What `toVLQMappings` writes, described from the lines alone: `;`
    between consecutive lines (none before the first or after the last),
    `,` between consecutive segments of a line, and for every segment as
    many fields as its shape asks for. */
module EncodeShape {
  import opened Vlq
  import opened Results
  import opened Mappings
  import opened Decoder
  import opened DecodeShape
  import opened Encoder
  import opened WrittenTokens

  /** `,` between consecutive segments. */
  function SegmentSeparators(segs: seq<Mapping>): string
    decreases |segs|
  {
    if |segs| <= 1 then [] else [','] + SegmentSeparators(segs[1..])
  }

  /** Each line's separators, the lines joined by `;`. */
  function LinesSeparators(lines: seq<MappingLine>): string
    decreases |lines|
  {
    if lines == [] then []
    else SegmentSeparators(lines[0].segments)
         + if |lines| == 1 then [] else [';'] + LinesSeparators(lines[1..])
  }

  /** The number of fields of every segment of a line; a line without
      segments is one segment without fields. */
  function LineShapes(segs: seq<Mapping>): seq<nat>
    decreases |segs|
  {
    if segs == [] then [0]
    else if |segs| == 1 then [FieldShape(segs[0])]
    else [FieldShape(segs[0])] + LineShapes(segs[1..])
  }

  function LinesShapes(lines: seq<MappingLine>): seq<nat>
    decreases |lines|
  {
    if lines == [] then [0]
    else LineShapes(lines[0].segments) + if |lines| == 1 then [] else LinesShapes(lines[1..])
  }

  lemma {:induction false} TokenDelimitersAppend(a: seq<Token>, b: seq<Token>)
    ensures TokenDelimiters(a + b) == TokenDelimiters(a) + TokenDelimiters(b)
    decreases |a|
  {
    if a == [] {
      assert a + b == b;
    } else {
      assert (a + b)[0] == a[0] && (a + b)[1..] == a[1..] + b;
      TokenDelimitersAppend(a[1..], b);
    }
  }

  lemma {:induction false} FieldsHaveNoDelimiters(fs: seq<int>)
    ensures TokenDelimiters(FieldTokens(fs)) == []
    decreases |fs|
  {
    if fs != [] {
      var toks := FieldTokens(fs);
      assert toks[0] == Field(fs[0]) && toks[1..] == FieldTokens(fs[1..]);
      FieldsHaveNoDelimiters(fs[1..]);
    }
  }

  /** Fields in front of `rest` only add to the current segment's count. */
  lemma {:induction false} FieldsCount(fs: seq<int>, rest: seq<Token>, count: nat)
    ensures TokenFieldCounts(FieldTokens(fs) + rest, count) == TokenFieldCounts(rest, count + |fs|)
    decreases |fs|
  {
    if fs == [] {
      assert FieldTokens(fs) + rest == rest;
    } else {
      var toks := FieldTokens(fs) + rest;
      Assoc([Field(fs[0])], FieldTokens(fs[1..]), rest);
      assert toks[0] == Field(fs[0]) && toks[1..] == FieldTokens(fs[1..]) + rest;
      FieldsCount(fs[1..], rest, count + 1);
    }
  }

  lemma {:induction false} SegmentsDelimiters(segs: seq<Mapping>, column: int, prev: Previous)
    ensures TokenDelimiters(SegmentsTokens(segs, column, prev)) == SegmentSeparators(segs)
    decreases |segs|
  {
    if segs != [] {
      var fields := FieldTokens(SegmentFields(segs[0], column, prev));
      FieldsHaveNoDelimiters(SegmentFields(segs[0], column, prev));
      if |segs| == 1 {
        TokenDelimitersAppend(fields, []);
      } else {
        var more := SegmentsTokens(segs[1..], segs[0].generated.column, Advance(segs[0], prev));
        TokenDelimitersAppend(fields, [Comma] + more);
        TokenDelimitersAppend([Comma], more);
        SegmentsDelimiters(segs[1..], segs[0].generated.column, Advance(segs[0], prev));
      }
    }
  }

  lemma {:induction false} LinesDelimiters(lines: seq<MappingLine>, prev: Previous)
    ensures TokenDelimiters(LinesTokens(lines, prev)) == LinesSeparators(lines)
    decreases |lines|
  {
    if lines != [] {
      var first := SegmentsTokens(lines[0].segments, 0, prev);
      SegmentsDelimiters(lines[0].segments, 0, prev);
      if |lines| == 1 {
        TokenDelimitersAppend(first, []);
      } else {
        var more := LinesTokens(lines[1..], AdvanceAll(lines[0].segments, prev));
        TokenDelimitersAppend(first, [Semicolon] + more);
        TokenDelimitersAppend([Semicolon], more);
        LinesDelimiters(lines[1..], AdvanceAll(lines[0].segments, prev));
      }
    }
  }

  /** A segment's fields followed by `,` end a segment with that many fields. */
  lemma {:induction false} FieldsThenComma(fs: seq<int>, more: seq<Token>)
    ensures TokenFieldCounts(FieldTokens(fs) + ([Comma] + more), 0) == [|fs|] + TokenFieldCounts(more, 0)
  {
    var t := [Comma] + more;
    FieldsCount(fs, t, 0);
    assert t[0] == Comma && t[1..] == more;
    assert TokenFieldCounts(t, |fs|) == [|fs|] + TokenFieldCounts(more, 0);
  }

  /** The tokens of a line of at least two segments: the first segment's
      fields, `,`, then the rest of the line. */
  lemma {:induction false} SegmentsTokensCons(segs: seq<Mapping>, column: int, prev: Previous)
    requires |segs| > 1
    ensures SegmentsTokens(segs, column, prev)
         == FieldTokens(SegmentFields(segs[0], column, prev))
            + ([Comma] + SegmentsTokens(segs[1..], segs[0].generated.column, Advance(segs[0], prev)))
  {
  }

  /** A line's first segment in front of the rest of the line. */
  lemma {:induction false} LineFieldCountsStep(segs: seq<Mapping>, column: int, prev: Previous, rest: seq<Token>, after: seq<nat>)
    requires |segs| > 1
    requires TokenFieldCounts(SegmentsTokens(segs[1..], segs[0].generated.column, Advance(segs[0], prev)) + rest, 0)
             == LineShapes(segs[1..]) + after
    ensures TokenFieldCounts(SegmentsTokens(segs, column, prev) + rest, 0) == LineShapes(segs) + after
  {
    var fs := SegmentFields(segs[0], column, prev);
    var more := SegmentsTokens(segs[1..], segs[0].generated.column, Advance(segs[0], prev));
    SegmentsTokensCons(segs, column, prev);
    Assoc(FieldTokens(fs), [Comma] + more, rest);
    Assoc([Comma], more, rest);
    FieldsThenComma(fs, more + rest);
    assert LineShapes(segs) == [FieldShape(segs[0])] + LineShapes(segs[1..]);
    Assoc([FieldShape(segs[0])], LineShapes(segs[1..]), after);
  }

  /** A segment's fields followed by the end of input or by `;`. */
  lemma {:induction false} FieldsThenEnd(fs: seq<int>, rest: seq<Token>)
    requires rest == [] || rest[0].Semicolon?
    ensures TokenFieldCounts(FieldTokens(fs) + rest, 0)
         == [|fs|] + if rest == [] then [] else TokenFieldCounts(rest[1..], 0)
  {
    FieldsCount(fs, rest, 0);
    if rest != [] {
      assert !rest[0].Field?;
    }
  }

  /** The tokens of a line of at most one segment: its fields, if any. */
  lemma {:induction false} SegmentsTokensLast(segs: seq<Mapping>, column: int, prev: Previous)
    requires |segs| <= 1
    ensures SegmentsTokens(segs, column, prev)
         == FieldTokens(if segs == [] then [] else SegmentFields(segs[0], column, prev))
    ensures LineShapes(segs) == [|if segs == [] then [] else SegmentFields(segs[0], column, prev)|]
  {
    if segs != [] {
      var fs := SegmentFields(segs[0], column, prev);
      assert FieldTokens(fs) + [] == FieldTokens(fs);
    }
  }

  /** The end of a line: its last segment, or no segment at all. */
  lemma {:induction false} LineFieldCountsLast(segs: seq<Mapping>, column: int, prev: Previous, rest: seq<Token>)
    requires |segs| <= 1
    requires rest == [] || rest[0].Semicolon?
    ensures TokenFieldCounts(SegmentsTokens(segs, column, prev) + rest, 0)
         == LineShapes(segs) + if rest == [] then [] else TokenFieldCounts(rest[1..], 0)
  {
    SegmentsTokensLast(segs, column, prev);
    FieldsThenEnd(if segs == [] then [] else SegmentFields(segs[0], column, prev), rest);
  }

  /** The field counts of one written line followed by the end of input or
      by a `;` and more. */
  lemma {:induction false} LineFieldCounts(segs: seq<Mapping>, column: int, prev: Previous, rest: seq<Token>)
    requires rest == [] || rest[0].Semicolon?
    ensures TokenFieldCounts(SegmentsTokens(segs, column, prev) + rest, 0)
         == LineShapes(segs) + if rest == [] then [] else TokenFieldCounts(rest[1..], 0)
    decreases |segs|
  {
    if |segs| <= 1 {
      LineFieldCountsLast(segs, column, prev, rest);
    } else {
      LineFieldCounts(segs[1..], segs[0].generated.column, Advance(segs[0], prev), rest);
      LineFieldCountsStep(segs, column, prev, rest, if rest == [] then [] else TokenFieldCounts(rest[1..], 0));
    }
  }

  lemma {:induction false} LinesFieldCounts(lines: seq<MappingLine>, prev: Previous)
    ensures TokenFieldCounts(LinesTokens(lines, prev), 0) == LinesShapes(lines)
    decreases |lines|
  {
    if lines != [] {
      var segs := lines[0].segments;
      if |lines| == 1 {
        LineFieldCounts(segs, 0, prev, []);
        assert LinesTokens(lines, prev) == SegmentsTokens(segs, 0, prev) + [];
      } else {
        var more := LinesTokens(lines[1..], AdvanceAll(segs, prev));
        LineFieldCounts(segs, 0, prev, [Semicolon] + more);
        assert ([Semicolon] + more)[1..] == more;
        LinesFieldCounts(lines[1..], AdvanceAll(segs, prev));
      }
    }
  }

  /** The delimiters and the field counts of the written string. */
  lemma {:induction false} EncodeShape(lines: seq<MappingLine>)
    ensures Delimiters(EncodeLines(lines)) == LinesSeparators(lines)
    ensures FieldCounts(EncodeLines(lines), 0) == LinesShapes(lines)
  {
    LexLines(lines, Start);
    LexSkeleton(EncodeLines(lines), 0, 0, 0);
    LinesDelimiters(lines, Start);
    LinesFieldCounts(lines, Start);
  }

  lemma {:induction false} SegmentSeparatorsAreCommas(segs: seq<Mapping>)
    ensures CountSemicolons(SegmentSeparators(segs)) == 0
    ensures |SegmentSeparators(segs)| == if segs == [] then 0 else |segs| - 1
    decreases |segs|
  {
    if |segs| > 1 {
      SegmentSeparatorsAreCommas(segs[1..]);
      assert ([','] + SegmentSeparators(segs[1..]))[1..] == SegmentSeparators(segs[1..]);
    }
  }

  lemma {:induction false} CountSemicolonsAppend(a: string, b: string)
    ensures CountSemicolons(a + b) == CountSemicolons(a) + CountSemicolons(b)
    decreases |a|
  {
    if a == [] {
      assert a + b == b;
    } else {
      assert (a + b)[0] == a[0] && (a + b)[1..] == a[1..] + b;
      CountSemicolonsAppend(a[1..], b);
    }
  }

  lemma {:induction false} LinesSeparatorsSemicolons(lines: seq<MappingLine>)
    requires lines != []
    ensures CountSemicolons(LinesSeparators(lines)) == |lines| - 1
    decreases |lines|
  {
    var first := SegmentSeparators(lines[0].segments);
    SegmentSeparatorsAreCommas(lines[0].segments);
    if |lines| == 1 {
      CountSemicolonsAppend(first, []);
    } else {
      CountSemicolonsAppend(first, [';'] + LinesSeparators(lines[1..]));
      CountSemicolonsAppend([';'], LinesSeparators(lines[1..]));
      LinesSeparatorsSemicolons(lines[1..]);
    }
  }

  /** `toVLQMappings` writes one `;` fewer than there are lines. */
  lemma {:induction false} LineSeparatorCount(lines: seq<MappingLine>)
    requires lines != []
    ensures CountSemicolons(Delimiters(EncodeLines(lines))) == |lines| - 1
  {
    EncodeShape(lines);
    LinesSeparatorsSemicolons(lines);
  }

  lemma RenderThreeZero()
    ensures RenderFields([3, 0]) == "GA"
  {
    assert ToVlqSigned(3) == 6 && EncodeBase64Digit(6) == 'G';
    assert EncodeVlq(3) == "G";
    assert EncodeVlq(0) == "A";
    assert RenderFields([0]) == "A";
  }

  lemma NamedFields()
    ensures SegmentFields(Mapping(Position(0, 3), NoPosition, -1, 0), 0, Start) == [3, 0]
  {
    var fs := SegmentFields(Mapping(Position(0, 3), NoPosition, -1, 0), 0, Start);
    assert |fs| == 2 && fs[0] == 3 && fs[1] == 0;
  }

  /** A name without a source is written as two fields: the generated
      column and the name. */
  lemma NameWithoutSource()
    ensures EncodeLines([MappingLine(0, [Mapping(Position(0, 3), NoPosition, -1, 0)])]) == "GA"
  {
    var m := Mapping(Position(0, 3), NoPosition, -1, 0);
    assert RenderSegments([m], 0, Start) == "GA" by {
      NamedFields();
      RenderThreeZero();
    }
    var lines := [MappingLine(0, [m])];
    assert lines[0].segments == [m];
    assert RenderLines(lines, Start) == RenderSegments([m], 0, Start);
  }

  lemma LexGA()
    ensures ValidMappingChars("GA")
    ensures Lex("GA", 0, 0) == [Field(3), Field(0)]
  {
    assert DecodeBase64Char('G') == 6 && DecodeBase64Char('A') == 0;
    assert "GA"[1..] == "A" && "A"[1..] == [];
  }

  lemma InterpretTwoFields()
    ensures Interpret([Field(3), Field(0)], InitialState(0, 0), 0, [], [0])
         == Ok([Mapping(Position(0, 3), NoPosition, -1, -1)])
  {
    var st := DecodeState(0, [3, 0, 0, 0, 0], 2);
    assert AddField(AddField(InitialState(0, 0), 3), 0) == st;
    assert [Field(3), Field(0)][1..] == [Field(0)] && [Field(0)][1..] == [];
    assert Interpret([], st, 0, [], [0]) == Ok([Mapping(Position(0, 3), NoPosition, -1, -1)]);
  }

  /** Read back, that two-field segment has neither a source nor a name:
      the name written without a source is lost, which is why the round
      trip asks for a name only together with a source. */
  lemma NameWithoutSourceIsDropped()
    ensures ValidMappingChars("GA")
    ensures Decode(EncodeLines([MappingLine(0, [Mapping(Position(0, 3), NoPosition, -1, 0)])]), [], [0], 0, 0)
         == Ok([Mapping(Position(0, 3), NoPosition, -1, -1)])
  {
    NameWithoutSource();
    LexGA();
    InterpretTwoFields();
  }

  lemma UnsourcedFields()
    ensures SegmentFields(Mapping(Position(0, 0), Position(3, 4), -1, -1), 0, Start) == [0]
    ensures RenderFields([0]) == "A"
  {
    var fs := SegmentFields(Mapping(Position(0, 0), Position(3, 4), -1, -1), 0, Start);
    assert |fs| == 1 && fs[0] == 0;
    assert EncodeVlq(0) == "A";
  }

  /** An original position without a source is not written: the segment
      has only its generated column, and is read back with no original
      position. */
  lemma OriginalWithoutSourceIsDropped()
    ensures EncodeLines([MappingLine(0, [Mapping(Position(0, 0), Position(3, 4), -1, -1)])]) == "A"
    ensures ValidMappingChars("A")
    ensures Decode("A", [], [], 0, 0) == Ok([Mapping(Position(0, 0), NoPosition, -1, -1)])
  {
    var m := Mapping(Position(0, 0), Position(3, 4), -1, -1);
    UnsourcedFields();
    assert RenderSegments([m], 0, Start) == "A";
    var lines := [MappingLine(0, [m])];
    assert lines[0].segments == [m];
    assert RenderLines(lines, Start) == RenderSegments([m], 0, Start);
    assert DecodeBase64Char('A') == 0 && "A"[1..] == [];
    assert Lex("A", 0, 0) == [Field(0)];
    assert AddField(InitialState(0, 0), 0) == DecodeState(0, [0, 0, 0, 0, 0], 1);
    assert [Field(0)][1..] == [];
  }
}
