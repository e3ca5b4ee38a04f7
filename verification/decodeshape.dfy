/** What a successful decode looks like, described from the characters of
    the "mappings" string alone: one mapping per delimiter and one more for
    a trailing segment with fields; the line of each mapping counts the `;`
    before its terminator; the number of fields of its segment fixes which
    of source, original position and name it carries. */
module DecodeShape {
  import opened Vlq
  import opened Results
  import opened Mappings
  import opened Decoder

  /** The delimiters of `s`, in order. */
  function Delimiters(s: string): (ds: string)
    ensures |ds| <= |s|
    ensures forall k :: 0 <= k < |ds| ==> IsDelimiter(ds[k])
  {
    if s == [] then []
    else if IsDelimiter(s[0]) then [s[0]] + Delimiters(s[1..])
    else Delimiters(s[1..])
  }

  function CountSemicolons(s: string): (n: nat)
    ensures n <= |s|
  {
    if s == [] then 0 else (if s[0] == ';' then 1 else 0) + CountSemicolons(s[1..])
  }

  /** Whether `c` ends a field: a Base64 digit without the continuation bit. */
  predicate EndsField(c: char) {
    IsBase64Char(c) && !HasContinuation(DecodeBase64Char(c))
  }

  /** The number of fields of every segment of `s`, the first of which
      already has `count` fields: one entry per delimiter and one for the
      text after the last delimiter. */
  function FieldCounts(s: string, count: nat): (fc: seq<nat>)
    requires ValidMappingChars(s)
    ensures |fc| == |Delimiters(s)| + 1
  {
    if s == [] then [count]
    else if IsDelimiter(s[0]) then [count] + FieldCounts(s[1..], 0)
    else if EndsField(s[0]) then FieldCounts(s[1..], count + 1)
    else FieldCounts(s[1..], count)
  }

  /** The same two descriptions over tokens. */
  function TokenDelimiters(toks: seq<Token>): string {
    if toks == [] then []
    else match toks[0]
      case Field(_) => TokenDelimiters(toks[1..])
      case Comma => [','] + TokenDelimiters(toks[1..])
      case Semicolon => [';'] + TokenDelimiters(toks[1..])
  }

  function TokenFieldCounts(toks: seq<Token>, count: nat): (fc: seq<nat>)
    ensures |fc| == |TokenDelimiters(toks)| + 1
  {
    if toks == [] then [count]
    else if toks[0].Field? then TokenFieldCounts(toks[1..], count + 1)
    else [count] + TokenFieldCounts(toks[1..], 0)
  }

  /** Lexing keeps the delimiters and turns every field-ending digit into
      one field, whatever number is being assembled. */
  lemma {:induction false} LexSkeleton(s: string, value: nat, shift: nat, count: nat)
    requires ValidMappingChars(s)
    ensures TokenDelimiters(Lex(s, value, shift)) == Delimiters(s)
    ensures TokenFieldCounts(Lex(s, value, shift), count) == FieldCounts(s, count)
    decreases |s|
  {
    if s != [] {
      var toks := Lex(s, value, shift);
      if IsDelimiter(s[0]) {
        LexSkeleton(s[1..], value, shift, 0);
        var tok := if s[0] == ',' then Comma else Semicolon;
        assert toks == [tok] + Lex(s[1..], value, shift);
        assert toks[1..] == Lex(s[1..], value, shift);
      } else {
        var d := DecodeBase64Char(s[0]);
        var v := value + ShiftLeft(Payload(d), shift);
        if HasContinuation(d) {
          LexSkeleton(s[1..], v, shift + VlqBaseShift, count);
        } else {
          LexSkeleton(s[1..], 0, 0, count + 1);
          assert toks == [Field(FromVlqSigned(v))] + Lex(s[1..], 0, 0);
          assert toks[1..] == Lex(s[1..], 0, 0);
        }
      }
    }
  }

  lemma {:induction false} CountSemicolonsFirst(c: char, ds: string, k: nat)
    requires 0 < k <= |ds| + 1
    ensures CountSemicolons(([c] + ds)[..k]) == (if c == ';' then 1 else 0) + CountSemicolons(ds[..k - 1])
  {
    assert ([c] + ds)[..k] == [c] + ds[..k - 1];
    assert ([c] + ds[..k - 1])[1..] == ds[..k - 1];
  }

  /** `ms` are the mappings of segments separated by the delimiters `ds`,
      the segments having `fc` fields: one mapping per delimiter and one
      for a trailing segment with fields, each on line `line` advanced by
      the `;` before it, each shaped by its segment's field count. */
  predicate Described(ms: seq<Mapping>, ds: string, fc: seq<nat>, line: int, sources: seq<int>, names: seq<int>) {
    && |fc| == |ds| + 1
    && |ms| == |ds| + (if fc[|ds|] > 0 then 1 else 0)
    && forall k :: 0 <= k < |ms| ==>
         && ms[k].generated.line == line + CountSemicolons(ds[..k])
         && ShapeAgrees(ms[k], fc[k], sources, names)
  }

  /** A segment ended by delimiter `c`, in front of the rest. */
  lemma {:induction false} DescribedCons(m: Mapping, ms: seq<Mapping>, c: char, ds: string, count: nat, fc: seq<nat>,
                      line: int, sources: seq<int>, names: seq<int>)
    requires Described(ms, ds, fc, line + (if c == ';' then 1 else 0), sources, names)
    requires m.generated.line == line && ShapeAgrees(m, count, sources, names)
    ensures Described([m] + ms, [c] + ds, [count] + fc, line, sources, names)
  {
    var ms' := [m] + ms;
    forall k | 0 < k < |ms'|
      ensures ms'[k].generated.line == line + CountSemicolons(([c] + ds)[..k])
      ensures ShapeAgrees(ms'[k], ([count] + fc)[k], sources, names)
    {
      CountSemicolonsFirst(c, ds, k);
      assert ms'[k] == ms[k - 1];
    }
    assert ([c] + ds)[..0] == [];
  }

  /** Reading tokens from state `st`. */
  lemma {:induction false} InterpretSegments(toks: seq<Token>, st: DecodeState, columnOffset: int,
                                             sources: seq<int>, names: seq<int>)
    requires WellFormedState(st)
    requires Interpret(toks, st, columnOffset, sources, names).Ok?
    ensures Described(Interpret(toks, st, columnOffset, sources, names).value,
                      TokenDelimiters(toks), TokenFieldCounts(toks, st.count), st.line, sources, names)
    decreases |toks|
  {
    if toks == [] {
    } else if toks[0].Field? {
      InterpretSegments(toks[1..], AddField(st, toks[0].delta), columnOffset, sources, names);
    } else {
      var st' := EndSegment(st, toks[0] == Semicolon, columnOffset);
      InterpretSegments(toks[1..], st', columnOffset, sources, names);
      var c := if toks[0] == Comma then ',' else ';';
      DescribedCons(Resolve(st, sources, names).value, Interpret(toks[1..], st', columnOffset, sources, names).value,
                    c, TokenDelimiters(toks[1..]), st.count, TokenFieldCounts(toks[1..], 0), st.line, sources, names);
    }
  }

  /** Decoding `s` with offsets `lineOffset` and `columnOffset`, described
      by the characters of `s`. */
  lemma {:induction false} DecodeSegments(s: string, sources: seq<int>, names: seq<int>, lineOffset: int, columnOffset: int)
    requires ValidMappingChars(s)
    requires Decode(s, sources, names, lineOffset, columnOffset).Ok?
    ensures var ms := Decode(s, sources, names, lineOffset, columnOffset).value;
      var ds := Delimiters(s);
      var fc := FieldCounts(s, 0);
      && |ms| == |ds| + (if fc[|ds|] > 0 then 1 else 0)
      && forall k :: 0 <= k < |ms| ==>
           && ms[k].generated.line == lineOffset + CountSemicolons(ds[..k])
           && ShapeAgrees(ms[k], fc[k], sources, names)
  {
    LexSkeleton(s, 0, 0, 0);
    InterpretSegments(Lex(s, 0, 0), InitialState(lineOffset, columnOffset), columnOffset, sources, names);
  }

  /** Every entry of `fc` is at most `n`. */
  predicate AllAtMost(fc: seq<nat>, n: nat) {
    forall k :: 0 <= k < |fc| ==> fc[k] <= n
  }

  /** The first segment has at least the fields it already had. */
  lemma {:induction false} TokenFieldCountsFirst(toks: seq<Token>, count: nat)
    ensures TokenFieldCounts(toks, count)[0] >= count
    decreases |toks|
  {
    if toks != [] && toks[0].Field? {
      TokenFieldCountsFirst(toks[1..], count + 1);
    }
  }

  /** A successful reading never saw more than five fields in a segment. */
  lemma {:induction false} InterpretFieldLimit(toks: seq<Token>, st: DecodeState, columnOffset: int,
                                               sources: seq<int>, names: seq<int>)
    requires WellFormedState(st)
    requires Interpret(toks, st, columnOffset, sources, names).Ok?
    ensures AllAtMost(TokenFieldCounts(toks, st.count), 5)
    decreases |toks|
  {
    if toks != [] {
      if toks[0].Field? {
        InterpretFieldLimit(toks[1..], AddField(st, toks[0].delta), columnOffset, sources, names);
      } else {
        InterpretFieldLimit(toks[1..], EndSegment(st, toks[0] == Semicolon, columnOffset), columnOffset, sources, names);
      }
    }
  }

  /** Segments of at most three fields consult neither list, so reading
      them cannot fail. */
  lemma {:induction false} InterpretWithoutLookups(toks: seq<Token>, st: DecodeState, columnOffset: int,
                                                   sources: seq<int>, names: seq<int>)
    requires WellFormedState(st)
    requires AllAtMost(TokenFieldCounts(toks, st.count), 3)
    ensures Interpret(toks, st, columnOffset, sources, names).Ok?
    decreases |toks|
  {
    if toks != [] {
      if toks[0].Field? {
        TokenFieldCountsFirst(toks[1..], st.count + 1);
        InterpretWithoutLookups(toks[1..], AddField(st, toks[0].delta), columnOffset, sources, names);
      } else {
        var fc := TokenFieldCounts(toks[1..], 0);
        assert TokenFieldCounts(toks, st.count) == [st.count] + fc;
        assert forall k :: 0 <= k < |fc| ==> fc[k] == ([st.count] + fc)[k + 1];
        assert ([st.count] + fc)[0] == st.count;
        assert Resolve(st, sources, names).Ok?;
        InterpretWithoutLookups(toks[1..], EndSegment(st, toks[0] == Semicolon, columnOffset), columnOffset, sources, names);
      }
    }
  }

  /** When decoding fails: a segment of more than five fields always makes
      it fail, and with at most three fields in every segment it never
      does. Between the two, only a source or name index outside the
      caller's lists makes it fail (`Resolve`). */
  lemma DecodeFailures(s: string, sources: seq<int>, names: seq<int>, lineOffset: int, columnOffset: int)
    requires ValidMappingChars(s)
    ensures Decode(s, sources, names, lineOffset, columnOffset).Ok? ==> AllAtMost(FieldCounts(s, 0), 5)
    ensures AllAtMost(FieldCounts(s, 0), 3) ==> Decode(s, sources, names, lineOffset, columnOffset).Ok?
  {
    LexSkeleton(s, 0, 0, 0);
    var st := InitialState(lineOffset, columnOffset);
    if Decode(s, sources, names, lineOffset, columnOffset).Ok? {
      InterpretFieldLimit(Lex(s, 0, 0), st, columnOffset, sources, names);
    }
    if AllAtMost(FieldCounts(s, 0), 3) {
      InterpretWithoutLookups(Lex(s, 0, 0), st, columnOffset, sources, names);
    }
  }

  /** A delimiter-free string ends its only segment; with no fields it
      describes no mapping. */
  lemma {:induction false} DecodeEmpty(sources: seq<int>, names: seq<int>, lineOffset: int, columnOffset: int)
    ensures Decode([], sources, names, lineOffset, columnOffset) == Ok([])
  {
  }

  /** "AAAA" with the source list [0]: one mapping from (0, 0) to (0, 0) of
      source 0 with no name. */
  lemma DecodeAAAA()
    ensures ValidMappingChars("AAAA")
    ensures Decode("AAAA", [0], [], 0, 0) == Ok([Mapping(Position(0, 0), Position(0, 0), 0, -1)])
  {
    assert DecodeBase64Char('A') == 0;
    assert "AAAA"[1..] == "AAA" && "AAA"[1..] == "AA" && "AA"[1..] == "A" && "A"[1..] == [];
    assert Lex("AAAA", 0, 0) == [Field(0), Field(0), Field(0), Field(0)];
  }

  /** ";,C": an empty first line and two segments on the second, the
      second's column one to the right of the first's; every segment without
      fields still yields a mapping at the running column. */
  lemma DecodeEmptySegments()
    ensures ValidMappingChars(";,C")
    ensures Decode(";,C", [], [], 0, 0)
         == Ok([Mapping(Position(0, 0), NoPosition, -1, -1),
                Mapping(Position(1, 0), NoPosition, -1, -1),
                Mapping(Position(1, 1), NoPosition, -1, -1)])
  {
    var m0 := Mapping(Position(0, 0), NoPosition, -1, -1);
    var m1 := Mapping(Position(1, 0), NoPosition, -1, -1);
    var m2 := Mapping(Position(1, 1), NoPosition, -1, -1);
    assert DecodeBase64Char('C') == 2;
    assert ";,C"[1..] == ",C" && ",C"[1..] == "C" && "C"[1..] == [];
    assert Lex(";,C", 0, 0) == [Semicolon, Comma, Field(1)];
    assert [Semicolon, Comma, Field(1)][1..] == [Comma, Field(1)] && [Comma, Field(1)][1..] == [Field(1)];
    var line1 := DecodeState(1, [0, 0, 0, 0, 0], 0);
    assert EndSegment(line1, false, 0) == line1;
    assert Interpret([Field(1)], line1, 0, [], []) == Ok([m2]);
    assert [m1] + [m2] == [m1, m2] && [m0] + [m1, m2] == [m0, m1, m2];
  }

  lemma LexCarry()
    ensures ValidMappingChars("h,B")
    ensures Lex("h,B", 0, 0) == [Comma, Field(-16)]
  {
    assert DecodeBase64Char('h') == 33 && DecodeBase64Char('B') == 1;
    assert "h,B"[1..] == ",B" && ",B"[1..] == "B" && "B"[1..] == [];
    assert Lex("B", 1, 5) == [Field(-16)];
  }

  lemma InterpretCarry()
    ensures Interpret([Comma, Field(-16)], InitialState(0, 0), 0, [], [])
         == Ok([Mapping(Position(0, 0), NoPosition, -1, -1), Mapping(Position(0, -16), NoPosition, -1, -1)])
  {
    var m0 := Mapping(Position(0, 0), NoPosition, -1, -1);
    var m1 := Mapping(Position(0, -16), NoPosition, -1, -1);
    var st := InitialState(0, 0);
    assert EndSegment(st, false, 0) == st;
    assert [Comma, Field(-16)][1..] == [Field(-16)] && [Field(-16)][1..] == [];
    assert AddField(st, -16) == DecodeState(0, [-16, 0, 0, 0, 0], 1);
    assert Interpret([Field(-16)], st, 0, [], []) == Ok([m1]);
    assert [m0] + [m1] == [m0, m1];
  }

  /** A delimiter does not reset a number still being assembled: in "h,B"
      the digit `h` carries on into `B` across the `,`, so the `,` ends an
      empty segment and `B` completes the number 33, the delta -16. */
  lemma DigitsCarryAcrossDelimiter()
    ensures ValidMappingChars("h,B")
    ensures Decode("h,B", [], [], 0, 0)
         == Ok([Mapping(Position(0, 0), NoPosition, -1, -1), Mapping(Position(0, -16), NoPosition, -1, -1)])
  {
    LexCarry();
    InterpretCarry();
  }
}
