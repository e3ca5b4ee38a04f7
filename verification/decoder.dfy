/** `addVLQMappings`: reading a "mappings" string into the container.

    The reference reading has two stages. `Lex` turns characters into
    tokens: one `Field` for every Base64 character whose continuation bit is
    clear (carrying the number assembled since the previous such character)
    and one token per delimiter. `Interpret` runs the five running
    accumulators over the tokens and produces one mapping per segment. The
    method `AddVLQMappings` does both in a single pass, as the source does,
    and is proved to add exactly the reference's mappings. */
module Decoder {
  import opened Vlq
  import opened Results
  import opened Mappings
  import MappingContainer

  predicate IsDelimiter(c: char) {
    c == ',' || c == ';'
  }

  predicate ValidMappingChars(s: string) {
    forall i :: 0 <= i < |s| ==> IsDelimiter(s[i]) || IsBase64Char(s[i])
  }

  datatype Token = Field(delta: int) | Comma | Semicolon

  /** Tokens of `s`, when `value` has been assembled so far from digits
      whose low groups took `shift` bits. A delimiter does not reset a
      number that is still being assembled. */
  function Lex(s: string, value: nat, shift: nat): seq<Token>
    requires ValidMappingChars(s)
  {
    if s == [] then []
    else if s[0] == ',' then [Comma] + Lex(s[1..], value, shift)
    else if s[0] == ';' then [Semicolon] + Lex(s[1..], value, shift)
    else
      var d := DecodeBase64Char(s[0]);
      var v := value + ShiftLeft(Payload(d), shift);
      if HasContinuation(d) then Lex(s[1..], v, shift + VlqBaseShift)
      else [Field(FromVlqSigned(v))] + Lex(s[1..], 0, 0)
  }

  /** The decoder's running state: current generated line, the five
      accumulators (generated column, source, original line, original
      column, name) and how many fields the current segment has so far. */
  datatype DecodeState = DecodeState(line: int, segment: seq<int>, count: nat)

  predicate WellFormedState(st: DecodeState) {
    |st.segment| == 5 && st.count <= 5
  }

  function InitialState(lineOffset: int, columnOffset: int): (st: DecodeState)
    ensures WellFormedState(st) && st.count == 0
  {
    DecodeState(lineOffset, [columnOffset, 0, 0, 0, 0], 0)
  }

  /** What a completed segment with `count` fields says about its mapping. */
  predicate ShapeAgrees(m: Mapping, count: nat, sources: seq<int>, names: seq<int>) {
    && (count < 4 ==> m.source == -1 && m.original == NoPosition)
    && (count < 5 ==> m.name == -1)
    && (count >= 4 ==> m.source in sources)
    && (count >= 5 ==> m.name in names)
  }

  /** The mapping of a completed segment: the source and original position
      only with at least four fields, the name only with five; the local
      source and name indices go through the caller's lists. */
  function Resolve(st: DecodeState, sources: seq<int>, names: seq<int>): (r: Result<Mapping>)
    requires WellFormedState(st)
    ensures r.Ok? ==> ShapeAgrees(r.value, st.count, sources, names)
    ensures r.Ok? ==> r.value.generated == Position(st.line, st.segment[0])
    ensures r.Ok? && st.count >= 4 ==>
      && 0 <= st.segment[1] < |sources|
      && r.value.original == Position(st.segment[2], st.segment[3])
      && r.value.source == sources[st.segment[1]]
    ensures r.Ok? && st.count >= 5 ==> 0 <= st.segment[4] < |names| && r.value.name == names[st.segment[4]]
    ensures r.Err? <==>
      (st.count > 3 && !(0 <= st.segment[1] < |sources|)) || (st.count > 4 && !(0 <= st.segment[4] < |names|))
  {
    var hasSource := st.count > 3;
    var hasName := st.count > 4;
    if hasSource && !(0 <= st.segment[1] < |sources|) then Err(SourceOutOfRange)
    else if hasName && !(0 <= st.segment[4] < |names|) then Err(NameOutOfRange)
    else
      var generated := Position(st.line, st.segment[0]);
      var original := if hasSource then Position(st.segment[2], st.segment[3]) else NoPosition;
      Ok(Mapping(generated, original,
                 if hasSource then sources[st.segment[1]] else -1,
                 if hasName then names[st.segment[4]] else -1))
  }

  /** A decoded field is added to the accumulator of its position. */
  function AddField(st: DecodeState, delta: int): (r: DecodeState)
    requires WellFormedState(st) && st.count < 5
    ensures WellFormedState(r) && r.line == st.line && r.count == st.count + 1
    ensures r.segment[st.count] == st.segment[st.count] + delta
    ensures forall k :: 0 <= k < 5 && k != st.count ==> r.segment[k] == st.segment[k]
  {
    st.(segment := st.segment[st.count := st.segment[st.count] + delta], count := st.count + 1)
  }

  /** State after a delimiter: a `;` moves to the next line and resets the
      column accumulator to the column offset; the other four persist. */
  function EndSegment(st: DecodeState, newLine: bool, columnOffset: int): (r: DecodeState)
    requires WellFormedState(st)
    ensures WellFormedState(r) && r.count == 0
    ensures r.line == if newLine then st.line + 1 else st.line
    ensures r.segment[0] == if newLine then columnOffset else st.segment[0]
    ensures forall k :: 1 <= k < 5 ==> r.segment[k] == st.segment[k]
  {
    if newLine then DecodeState(st.line + 1, st.segment[0 := columnOffset], 0)
    else st.(count := 0)
  }

  function Interpret(toks: seq<Token>, st: DecodeState, columnOffset: int,
                     sources: seq<int>, names: seq<int>): (r: Result<seq<Mapping>>)
    requires WellFormedState(st)
    ensures r.Ok? ==> forall k :: 0 <= k < |r.value| ==> r.value[k].generated.line >= st.line
    decreases |toks|
  {
    if toks == [] then
      if st.count > 0 then
        match Resolve(st, sources, names)
        case Err(e) => Err(e)
        case Ok(m) => Ok([m])
      else Ok([])
    else match toks[0]
      case Field(delta) =>
        if st.count == 5 then Err(TooManyFields)
        else Interpret(toks[1..], AddField(st, delta), columnOffset, sources, names)
      case _ =>
        match Resolve(st, sources, names)
        case Err(e) => Err(e)
        case Ok(m) =>
          match Interpret(toks[1..], EndSegment(st, toks[0] == Semicolon, columnOffset),
                          columnOffset, sources, names)
          case Err(e) => Err(e)
          case Ok(ms) => Ok([m] + ms)
  }

  /** The mappings a "mappings" string describes, or why reading it would
      leave the source's defined behaviour. */
  function Decode(s: string, sources: seq<int>, names: seq<int>,
                  lineOffset: int, columnOffset: int): (r: Result<seq<Mapping>>)
    requires ValidMappingChars(s)
    ensures r.Ok? ==> forall k :: 0 <= k < |r.value| ==> r.value[k].generated.line >= lineOffset
  {
    Interpret(Lex(s, 0, 0), InitialState(lineOffset, columnOffset), columnOffset, sources, names)
  }

  /** What remains to be decoded from the rest `s` of the input, in the
      method's current state. */
  ghost function Pending(s: string, value: nat, shift: nat, st: DecodeState, columnOffset: int,
                         sources: seq<int>, names: seq<int>): Result<seq<Mapping>>
    requires ValidMappingChars(s) && WellFormedState(st)
  {
    Interpret(Lex(s, value, shift), st, columnOffset, sources, names)
  }

  lemma {:induction false} PendingDelimiter(s: string, value: nat, shift: nat, st: DecodeState, columnOffset: int,
                         sources: seq<int>, names: seq<int>)
    requires ValidMappingChars(s) && WellFormedState(st) && s != [] && IsDelimiter(s[0])
    requires Pending(s, value, shift, st, columnOffset, sources, names).Ok?
    ensures Resolve(st, sources, names).Ok?
    ensures Pending(s[1..], value, shift, EndSegment(st, s[0] == ';', columnOffset), columnOffset, sources, names).Ok?
    ensures Pending(s, value, shift, st, columnOffset, sources, names).value
         == [Resolve(st, sources, names).value]
            + Pending(s[1..], value, shift, EndSegment(st, s[0] == ';', columnOffset), columnOffset, sources, names).value
  {
    var tok := if s[0] == ',' then Comma else Semicolon;
    var tail := Lex(s[1..], value, shift);
    assert Lex(s, value, shift) == [tok] + tail;
    assert ([tok] + tail)[0] == tok && ([tok] + tail)[1..] == tail;
  }

  lemma {:induction false} PendingContinuation(s: string, value: nat, shift: nat, st: DecodeState, columnOffset: int,
                            sources: seq<int>, names: seq<int>)
    requires ValidMappingChars(s) && WellFormedState(st) && s != [] && IsBase64Char(s[0])
    requires HasContinuation(DecodeBase64Char(s[0]))
    ensures Pending(s, value, shift, st, columnOffset, sources, names)
         == Pending(s[1..], value + ShiftLeft(Payload(DecodeBase64Char(s[0])), shift), shift + VlqBaseShift,
                    st, columnOffset, sources, names)
  {
  }

  lemma {:induction false} PendingTerminator(s: string, value: nat, shift: nat, st: DecodeState, columnOffset: int,
                          sources: seq<int>, names: seq<int>)
    requires ValidMappingChars(s) && WellFormedState(st) && s != [] && IsBase64Char(s[0])
    requires !HasContinuation(DecodeBase64Char(s[0]))
    requires Pending(s, value, shift, st, columnOffset, sources, names).Ok?
    ensures st.count < 5
    ensures Pending(s, value, shift, st, columnOffset, sources, names)
         == Pending(s[1..], 0, 0,
                    AddField(st, FromVlqSigned(value + ShiftLeft(Payload(DecodeBase64Char(s[0])), shift))),
                    columnOffset, sources, names)
  {
    var delta := FromVlqSigned(value + ShiftLeft(Payload(DecodeBase64Char(s[0])), shift));
    var tail := Lex(s[1..], 0, 0);
    assert Lex(s, value, shift) == [Field(delta)] + tail;
    assert ([Field(delta)] + tail)[0] == Field(delta) && ([Field(delta)] + tail)[1..] == tail;
  }

  lemma {:induction false} AddAllFirst(c: MappingContainer.Container, m: Mapping, ms: seq<Mapping>)
    requires MappingContainer.LinesIndexed(c)
    requires MappingContainer.OnMaterialisableLines([m] + ms)
    ensures MappingContainer.OnMaterialisableLines(ms)
    ensures MappingContainer.AddAll(c, [m] + ms)
         == MappingContainer.AddAll(MappingContainer.AddMapping(c, m.generated, m.original, m.source, m.name), ms)
  {
    assert ([m] + ms)[0] == m && ([m] + ms)[1..] == ms;
    assert forall k :: 0 <= k < |ms| ==> ms[k] == ([m] + ms)[k + 1];
  }

  /** The loop invariant of `AddVLQMappings`: adding what remains to be
      decoded to the container built so far gives the container that adding
      all decoded mappings to the initial one gives. */
  ghost predicate Remains(c: MappingContainer.Container, all: seq<Mapping>, r: MappingContainer.Container,
                          s: string, value: nat, shift: nat, st: DecodeState, columnOffset: int,
                          sources: seq<int>, names: seq<int>)
    requires MappingContainer.LinesIndexed(c) && MappingContainer.OnMaterialisableLines(all)
  {
    && ValidMappingChars(s) && WellFormedState(st) && st.line >= 0
    && MappingContainer.LinesIndexed(r)
    && Pending(s, value, shift, st, columnOffset, sources, names).Ok?
    && MappingContainer.AddAll(r, Pending(s, value, shift, st, columnOffset, sources, names).value)
       == MappingContainer.AddAll(c, all)
  }

  lemma {:induction false} DelimiterResolves(c: MappingContainer.Container, all: seq<Mapping>, r: MappingContainer.Container,
                          s: string, value: nat, shift: nat, st: DecodeState, columnOffset: int,
                          sources: seq<int>, names: seq<int>)
    requires MappingContainer.LinesIndexed(c) && MappingContainer.OnMaterialisableLines(all)
    requires Remains(c, all, r, s, value, shift, st, columnOffset, sources, names)
    requires s != [] && IsDelimiter(s[0])
    ensures Resolve(st, sources, names).Ok?
  {
    PendingDelimiter(s, value, shift, st, columnOffset, sources, names);
  }

  lemma {:induction false} DelimiterStep(c: MappingContainer.Container, all: seq<Mapping>, r: MappingContainer.Container,
                      s: string, value: nat, shift: nat, st: DecodeState, columnOffset: int,
                      sources: seq<int>, names: seq<int>, r': MappingContainer.Container, st': DecodeState)
    requires MappingContainer.LinesIndexed(c) && MappingContainer.OnMaterialisableLines(all)
    requires Remains(c, all, r, s, value, shift, st, columnOffset, sources, names)
    requires s != [] && IsDelimiter(s[0])
    requires Resolve(st, sources, names).Ok?
    requires var m := Resolve(st, sources, names).value;
      r' == MappingContainer.AddMapping(r, m.generated, m.original, m.source, m.name)
    requires st' == EndSegment(st, s[0] == ';', columnOffset)
    ensures Remains(c, all, r', s[1..], value, shift, st', columnOffset, sources, names)
  {
    PendingDelimiter(s, value, shift, st, columnOffset, sources, names);
    var m := Resolve(st, sources, names).value;
    var ms := Pending(s[1..], value, shift, st', columnOffset, sources, names).value;
    AddAllFirst(r, m, ms);
  }

  lemma {:induction false} ContinuationStep(c: MappingContainer.Container, all: seq<Mapping>, r: MappingContainer.Container,
                         s: string, value: nat, shift: nat, st: DecodeState, columnOffset: int,
                         sources: seq<int>, names: seq<int>, value': nat, shift': nat)
    requires MappingContainer.LinesIndexed(c) && MappingContainer.OnMaterialisableLines(all)
    requires Remains(c, all, r, s, value, shift, st, columnOffset, sources, names)
    requires s != [] && IsBase64Char(s[0]) && HasContinuation(DecodeBase64Char(s[0]))
    requires value' == value + ShiftLeft(Payload(DecodeBase64Char(s[0])), shift)
    requires shift' == shift + VlqBaseShift
    ensures Remains(c, all, r, s[1..], value', shift', st, columnOffset, sources, names)
  {
    PendingContinuation(s, value, shift, st, columnOffset, sources, names);
  }

  lemma {:induction false} TerminatorStep(c: MappingContainer.Container, all: seq<Mapping>, r: MappingContainer.Container,
                       s: string, value: nat, shift: nat, st: DecodeState, columnOffset: int,
                       sources: seq<int>, names: seq<int>, st': DecodeState)
    requires MappingContainer.LinesIndexed(c) && MappingContainer.OnMaterialisableLines(all)
    requires Remains(c, all, r, s, value, shift, st, columnOffset, sources, names)
    requires s != [] && IsBase64Char(s[0]) && !HasContinuation(DecodeBase64Char(s[0]))
    requires st.count < 5
    requires st' == AddField(st, FromVlqSigned(value + ShiftLeft(Payload(DecodeBase64Char(s[0])), shift)))
    ensures Remains(c, all, r, s[1..], 0, 0, st', columnOffset, sources, names)
  {
    PendingTerminator(s, value, shift, st, columnOffset, sources, names);
  }

  lemma {:induction false} TerminatorFits(c: MappingContainer.Container, all: seq<Mapping>, r: MappingContainer.Container,
                       s: string, value: nat, shift: nat, st: DecodeState, columnOffset: int,
                       sources: seq<int>, names: seq<int>)
    requires MappingContainer.LinesIndexed(c) && MappingContainer.OnMaterialisableLines(all)
    requires Remains(c, all, r, s, value, shift, st, columnOffset, sources, names)
    requires s != [] && IsBase64Char(s[0]) && !HasContinuation(DecodeBase64Char(s[0]))
    ensures st.count < 5
  {
    PendingTerminator(s, value, shift, st, columnOffset, sources, names);
  }

  lemma {:induction false} EndStep(c: MappingContainer.Container, all: seq<Mapping>, r: MappingContainer.Container,
                value: nat, shift: nat, st: DecodeState, columnOffset: int,
                sources: seq<int>, names: seq<int>)
    requires MappingContainer.LinesIndexed(c) && MappingContainer.OnMaterialisableLines(all)
    requires Remains(c, all, r, [], value, shift, st, columnOffset, sources, names)
    ensures st.count > 0 ==> Resolve(st, sources, names).Ok?
    ensures st.count > 0 ==>
      var m := Resolve(st, sources, names).value;
      MappingContainer.AddMapping(r, m.generated, m.original, m.source, m.name) == MappingContainer.AddAll(c, all)
    ensures st.count == 0 ==> r == MappingContainer.AddAll(c, all)
  {
    if st.count > 0 {
      var m := Resolve(st, sources, names).value;
      AddAllFirst(r, m, []);
    }
  }

  lemma AddFieldUpdates(st: DecodeState, delta: int)
    requires WellFormedState(st) && st.count < 5
    ensures AddField(st, delta)
         == DecodeState(st.line, st.segment[st.count := st.segment[st.count] + delta], st.count + 1)
  {
  }

  lemma EndSegmentUpdates(st: DecodeState, newLine: bool, columnOffset: int)
    requires WellFormedState(st)
    ensures EndSegment(st, newLine, columnOffset)
         == if newLine then DecodeState(st.line + 1, st.segment[0 := columnOffset], 0)
            else DecodeState(st.line, st.segment, 0)
  {
  }

  /** One character of `addVLQMappings`' loop: a delimiter completes the
      current segment and adds its mapping (a `;` also moves to the next
      line and resets the column accumulator); a Base64 digit is shifted
      into the number being assembled, which, when the digit has no
      continuation bit, is added to the next field's accumulator. */
  method DecodeCharacter(ghost c: MappingContainer.Container, ghost all: seq<Mapping>,
                         r: MappingContainer.Container, ghost s: string, ch: char,
                         value: nat, shift: nat, segment: seq<int>, segmentIndex: nat, generatedLine: int,
                         columnOffset: int, sources: seq<int>, names: seq<int>)
    returns (r': MappingContainer.Container, value': nat, shift': nat, segment': seq<int>,
             segmentIndex': nat, generatedLine': int)
    requires MappingContainer.LinesIndexed(c) && MappingContainer.OnMaterialisableLines(all)
    requires s != [] && s[0] == ch
    requires Remains(c, all, r, s, value, shift, DecodeState(generatedLine, segment, segmentIndex),
                     columnOffset, sources, names)
    ensures Remains(c, all, r', s[1..], value', shift', DecodeState(generatedLine', segment', segmentIndex'),
                    columnOffset, sources, names)
  {
    ghost var st := DecodeState(generatedLine, segment, segmentIndex);
    r', value', shift', segment', segmentIndex', generatedLine' := r, value, shift, segment, segmentIndex, generatedLine;
    if ch == ',' || ch == ';' {
      DelimiterResolves(c, all, r, s, value, shift, st, columnOffset, sources, names);
      EndSegmentUpdates(st, ch == ';', columnOffset);
      var m := Resolve(DecodeState(generatedLine, segment, segmentIndex), sources, names).value;
      r' := MappingContainer.AddMapping(r, m.generated, m.original, m.source, m.name);
      if ch == ';' {
        segment' := segment[0 := columnOffset];
        generatedLine' := generatedLine + 1;
      }
      segmentIndex' := 0;
      DelimiterStep(c, all, r, s, value, shift, st, columnOffset, sources, names,
                    r', DecodeState(generatedLine', segment', segmentIndex'));
    } else {
      var decodedCharacter := DecodeBase64Char(ch);
      value' := value + ShiftLeft(Payload(decodedCharacter), shift);
      if HasContinuation(decodedCharacter) {
        shift' := shift + VlqBaseShift;
        ContinuationStep(c, all, r, s, value, shift, st, columnOffset, sources, names, value', shift');
      } else {
        TerminatorFits(c, all, r, s, value, shift, st, columnOffset, sources, names);
        AddFieldUpdates(st, FromVlqSigned(value'));
        segment' := segment[segmentIndex := segment[segmentIndex] + FromVlqSigned(value')];
        segmentIndex' := segmentIndex + 1;
        value', shift' := 0, 0;
        TerminatorStep(c, all, r, s, value, shift, st, columnOffset, sources, names,
                       DecodeState(generatedLine', segment', segmentIndex'));
      }
    }
  }

  /** `addVLQMappings`: one pass over the characters, adding each segment's
      mapping to the container as soon as its delimiter is read, and the
      last segment's at the end when it has at least one field. */
  method AddVLQMappings(c: MappingContainer.Container, mappingsInput: string,
                        sources: seq<int>, names: seq<int>,
                        lineOffset: int, columnOffset: int)
    returns (r: MappingContainer.Container)
    requires MappingContainer.Valid(c)
    requires ValidMappingChars(mappingsInput)
    requires lineOffset >= 0
    requires Decode(mappingsInput, sources, names, lineOffset, columnOffset).Ok?
    ensures r == MappingContainer.AddAll(c, Decode(mappingsInput, sources, names, lineOffset, columnOffset).value)
    ensures MappingContainer.Valid(r)
    ensures r.segmentCount == c.segmentCount + |Decode(mappingsInput, sources, names, lineOffset, columnOffset).value|
  {
    var generatedLine := lineOffset;
    var value: nat := 0;
    var shift: nat := 0;
    var segment := [columnOffset, 0, 0, 0, 0];
    var segmentIndex: nat := 0;
    ghost var all := Decode(mappingsInput, sources, names, lineOffset, columnOffset).value;
    r := c;

    var i := 0;
    assert mappingsInput[i..] == mappingsInput;
    assert Remains(c, all, r, mappingsInput[i..], value, shift, DecodeState(generatedLine, segment, segmentIndex),
                   columnOffset, sources, names);
    while i < |mappingsInput|
      invariant 0 <= i <= |mappingsInput|
      invariant Remains(c, all, r, mappingsInput[i..], value, shift, DecodeState(generatedLine, segment, segmentIndex),
                        columnOffset, sources, names)
    {
      assert mappingsInput[i..][1..] == mappingsInput[i + 1..];
      r, value, shift, segment, segmentIndex, generatedLine :=
        DecodeCharacter(c, all, r, mappingsInput[i..], mappingsInput[i], value, shift, segment, segmentIndex,
                        generatedLine, columnOffset, sources, names);
      i := i + 1;
    }

    assert mappingsInput[i..] == [];
    EndStep(c, all, r, value, shift, DecodeState(generatedLine, segment, segmentIndex), columnOffset, sources, names);
    if segmentIndex > 0 {
      var m := Resolve(DecodeState(generatedLine, segment, segmentIndex), sources, names).value;
      r := MappingContainer.AddMapping(r, m.generated, m.original, m.source, m.name);
    }
  }
}
