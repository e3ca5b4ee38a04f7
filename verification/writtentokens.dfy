/** What `toVLQMappings` writes, seen through the decoder's lexer: the
    encoder's fields and separators as tokens (`LinesTokens`), and the proof
    that lexing the written string gives exactly those tokens (`LexLines`).
    Every field the encoder writes lexes back to the delta it encodes. */
module WrittenTokens {
  import opened Vlq
  import opened Mappings
  import opened Decoder
  import opened Encoder

  lemma Assoc<T>(a: seq<T>, b: seq<T>, c: seq<T>)
    ensures (a + b) + c == a + (b + c)
  {
  }

  /** Lexing a delimiter keeps the number being assembled. */
  lemma {:induction false} LexDelimiter(c: char, rest: string, value: nat, shift: nat)
    requires IsDelimiter(c) && ValidMappingChars(rest)
    ensures ValidMappingChars([c] + rest)
    ensures Lex([c] + rest, value, shift) == [if c == ',' then Comma else Semicolon] + Lex(rest, value, shift)
  {
    ValidMappingCharsConcat([c], rest);
    assert ([c] + rest)[0] == c && ([c] + rest)[1..] == rest;
  }

  /** Lexing one digit at the front of `f + rest`. */
  lemma {:induction false} LexDigit(f: string, rest: string, value: nat, shift: nat)
    requires IsVlqField(f) && ValidMappingChars(rest)
    ensures ValidMappingChars(f + rest) && ValidMappingChars(f[1..] + rest)
    ensures var d := DecodeBase64Char(f[0]);
      Lex(f + rest, value, shift)
      == if |f| > 1 then Lex(f[1..] + rest, value + ShiftLeft(Payload(d), shift), shift + VlqBaseShift)
         else [Field(FromVlqSigned(value + ShiftLeft(Payload(d), shift)))] + Lex(rest, 0, 0)
  {
    assert ValidMappingChars(f);
    ValidMappingCharsConcat(f, rest);
    assert (f + rest)[0] == f[0] && (f + rest)[1..] == f[1..] + rest;
    if |f| == 1 {
      assert f[1..] + rest == rest;
    }
  }

  /** The value of a field's digits: the first payload plus 32 times the
      rest. */
  lemma {:induction false} DigitsValueFirst(f: string)
    requires f != [] && forall i :: 0 <= i < |f| ==> IsBase64Char(f[i])
    ensures DigitsValue(DigitsOf(f))
         == Payload(DecodeBase64Char(f[0])) + VlqBase * DigitsValue(DigitsOf(f[1..]))
  {
    var d := DecodeBase64Char(f[0]);
    assert DigitsOf(f) == [d] + DigitsOf(f[1..]);
    assert ([d] + DigitsOf(f[1..]))[1..] == DigitsOf(f[1..]);
  }

  lemma {:induction false} VlqFieldTail(f: string)
    requires IsVlqField(f) && |f| > 1
    ensures IsVlqField(f[1..])
  {
    assert forall i :: 0 <= i < |f| - 1 ==> f[1..][i] == f[i + 1];
  }

  /** The first digit of a field of several digits, given how the rest of
      the field lexes. */
  lemma {:induction false} LexVlqFieldStep(f: string, rest: string, value: nat, shift: nat)
    requires IsVlqField(f) && |f| > 1 && ValidMappingChars(rest)
    requires var v := value + ShiftLeft(Payload(DecodeBase64Char(f[0])), shift);
      Lex(f[1..] + rest, v, shift + VlqBaseShift)
      == [Field(FromVlqSigned(v + ShiftLeft(DigitsValue(DigitsOf(f[1..])), shift + VlqBaseShift)))] + Lex(rest, 0, 0)
    ensures ValidMappingChars(f + rest)
    ensures Lex(f + rest, value, shift)
         == [Field(FromVlqSigned(value + ShiftLeft(DigitsValue(DigitsOf(f)), shift)))] + Lex(rest, 0, 0)
  {
    LexDigit(f, rest, value, shift);
    DigitsValueFirst(f);
    var p := Payload(DecodeBase64Char(f[0]));
    var x := DigitsValue(DigitsOf(f[1..]));
    assert value + ShiftLeft(p, shift) + ShiftLeft(x, shift + VlqBaseShift)
        == value + ShiftLeft(DigitsValue(DigitsOf(f)), shift) by {
      ShiftLeftSplit(p, x, shift);
    }
  }

  /** One complete VLQ number, lexed in the middle of a number assembled
      so far, ends that number with its own digits' value. */
  lemma {:induction false} LexVlqField(f: string, rest: string, value: nat, shift: nat)
    requires IsVlqField(f) && ValidMappingChars(rest)
    ensures ValidMappingChars(f + rest)
    ensures Lex(f + rest, value, shift)
         == [Field(FromVlqSigned(value + ShiftLeft(DigitsValue(DigitsOf(f)), shift)))] + Lex(rest, 0, 0)
    decreases |f|
  {
    if |f| == 1 {
      LexDigit(f, rest, value, shift);
      DigitsValueFirst(f);
      assert DigitsOf(f[1..]) == [];
    } else {
      VlqFieldTail(f);
      LexVlqField(f[1..], rest, value + ShiftLeft(Payload(DecodeBase64Char(f[0])), shift), shift + VlqBaseShift);
      LexVlqFieldStep(f, rest, value, shift);
    }
  }

  /** The characters written for a delta lex to that delta. */
  lemma {:induction false} LexEncodeVlq(delta: int, rest: string)
    requires ValidMappingChars(rest)
    ensures ValidMappingChars(EncodeVlq(delta) + rest)
    ensures Lex(EncodeVlq(delta) + rest, 0, 0) == [Field(delta)] + Lex(rest, 0, 0)
  {
    LexVlqField(EncodeVlq(delta), rest, 0, 0);
    EncodeVlqNumberValue(ToVlqSigned(delta));
    SignedRoundTrip(delta);
  }

  function FieldTokens(fs: seq<int>): (toks: seq<Token>)
    ensures |toks| == |fs|
    decreases |fs|
  {
    if fs == [] then [] else [Field(fs[0])] + FieldTokens(fs[1..])
  }

  lemma {:induction false} LexFields(fs: seq<int>, rest: string)
    requires ValidMappingChars(rest)
    ensures Lex(RenderFields(fs) + rest, 0, 0) == FieldTokens(fs) + Lex(rest, 0, 0)
    decreases |fs|
  {
    if fs == [] {
      assert RenderFields(fs) + rest == rest;
    } else {
      var tail := RenderFields(fs[1..]) + rest;
      ValidMappingCharsConcat(RenderFields(fs[1..]), rest);
      assert RenderFields(fs) + rest == EncodeVlq(fs[0]) + tail;
      LexEncodeVlq(fs[0], tail);
      LexFields(fs[1..], rest);
    }
  }

  /** The tokens of one line as the encoder writes it. */
  function SegmentsTokens(segs: seq<Mapping>, column: int, prev: Previous): seq<Token>
    decreases |segs|
  {
    if segs == [] then []
    else
      FieldTokens(SegmentFields(segs[0], column, prev))
      + if |segs| == 1 then []
        else [Comma] + SegmentsTokens(segs[1..], segs[0].generated.column, Advance(segs[0], prev))
  }

  /** The tokens of all lines as the encoder writes them. */
  function LinesTokens(lines: seq<MappingLine>, prev: Previous): seq<Token>
    decreases |lines|
  {
    if lines == [] then []
    else
      SegmentsTokens(lines[0].segments, 0, prev)
      + if |lines| == 1 then []
        else [Semicolon] + LinesTokens(lines[1..], AdvanceAll(lines[0].segments, prev))
  }

  lemma {:induction false} LexSegments(segs: seq<Mapping>, column: int, prev: Previous, rest: string)
    requires ValidMappingChars(rest)
    ensures Lex(RenderSegments(segs, column, prev) + rest, 0, 0) == SegmentsTokens(segs, column, prev) + Lex(rest, 0, 0)
    decreases |segs|
  {
    if segs == [] {
      assert RenderSegments(segs, column, prev) + rest == rest;
    } else {
      var fs := SegmentFields(segs[0], column, prev);
      if |segs| == 1 {
        LexFields(fs, rest);
      } else {
        var next := segs[0].generated.column;
        var p := Advance(segs[0], prev);
        var others := RenderSegments(segs[1..], next, p);
        ValidMappingCharsConcat(others, rest);
        LexDelimiter(',', others + rest, 0, 0);
        var after := [','] + (others + rest);
        calc {
          Lex(RenderSegments(segs, column, prev) + rest, 0, 0);
          { assert RenderSegments(segs, column, prev) == RenderFields(fs) + ([','] + others);
            Assoc(RenderFields(fs), [','] + others, rest);
            Assoc([','], others, rest); }
          Lex(RenderFields(fs) + after, 0, 0);
          { LexFields(fs, after); }
          FieldTokens(fs) + Lex(after, 0, 0);
          FieldTokens(fs) + ([Comma] + Lex(others + rest, 0, 0));
          { LexSegments(segs[1..], next, p, rest); }
          FieldTokens(fs) + ([Comma] + (SegmentsTokens(segs[1..], next, p) + Lex(rest, 0, 0)));
          { Assoc([Comma], SegmentsTokens(segs[1..], next, p), Lex(rest, 0, 0));
            Assoc(FieldTokens(fs), [Comma] + SegmentsTokens(segs[1..], next, p), Lex(rest, 0, 0)); }
          (FieldTokens(fs) + ([Comma] + SegmentsTokens(segs[1..], next, p))) + Lex(rest, 0, 0);
        }
      }
    }
  }

  /** Lexing the written string gives the encoder's tokens. */
  lemma {:induction false} LexLines(lines: seq<MappingLine>, prev: Previous)
    ensures Lex(RenderLines(lines, prev), 0, 0) == LinesTokens(lines, prev)
    decreases |lines|
  {
    if lines != [] {
      var first := RenderSegments(lines[0].segments, 0, prev);
      if |lines| == 1 {
        LexSegments(lines[0].segments, 0, prev, []);
        assert first + [] == first;
      } else {
        var p := AdvanceAll(lines[0].segments, prev);
        var others := RenderLines(lines[1..], p);
        var after := [';'] + others;
        ValidMappingCharsConcat([';'], others);
        LexSegments(lines[0].segments, 0, prev, after);
        assert after[0] == ';' && after[1..] == others;
        LexLines(lines[1..], p);
      }
    }
  }
}
