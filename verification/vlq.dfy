/** Base64 VLQ digits, as used by the "mappings" field of Source Map
    Revision 3: each Base64 character carries 5 payload bits and a
    continuation bit, least-significant group first; the lowest bit of the
    assembled number is the sign. The alphabet is the one of section 4 of
    RFC 4648. */
module Vlq {

  const VlqBaseShift: nat := 5
  /** The continuation bit of a 6-bit digit. */
  const VlqBase: nat := 32
  /** The payload bits of a 6-bit digit. */
  const VlqBaseMask: nat := 31

  predicate IsBase64Char(c: char) {
    ('A' <= c <= 'Z') || ('a' <= c <= 'z') || ('0' <= c <= '9') || c == '+' || c == '/'
  }

  /** The 6-bit value of a Base64 character. */
  function DecodeBase64Char(c: char): (d: nat)
    requires IsBase64Char(c)
    ensures d < 64
    ensures ('A' <= c <= 'Z') <==> d < 26
    ensures ('a' <= c <= 'z') <==> 26 <= d < 52
    ensures ('0' <= c <= '9') <==> 52 <= d < 62
  {
    if 'A' <= c <= 'Z' then c as int - 'A' as int
    else if 'a' <= c <= 'z' then c as int - 'a' as int + 26
    else if '0' <= c <= '9' then c as int - '0' as int + 52
    else if c == '+' then 62
    else 63
  }

  /** The Base64 character of a 6-bit value. */
  function EncodeBase64Digit(d: nat): (c: char)
    requires d < 64
    ensures IsBase64Char(c)
  {
    if d < 26 then (d + 'A' as int) as char
    else if d < 52 then (d - 26 + 'a' as int) as char
    else if d < 62 then (d - 52 + '0' as int) as char
    else if d == 62 then '+'
    else '/'
  }

  lemma Base64RoundTrip(d: nat)
    requires d < 64
    ensures DecodeBase64Char(EncodeBase64Digit(d)) == d
  {
  }

  lemma Base64CharRoundTrip(c: char)
    requires IsBase64Char(c)
    ensures EncodeBase64Digit(DecodeBase64Char(c)) == c
  {
  }

  /** Bit 5 of a 6-bit digit: another digit of the same number follows. */
  predicate HasContinuation(d: nat)
    requires d < 64
  {
    d >= VlqBase
  }

  /** The low 5 bits of a digit. */
  function Payload(d: nat): nat {
    d % VlqBase
  }

  /** `1 << shift`. */
  function Pow2(shift: nat): (p: nat)
    ensures p >= 1
  {
    if shift == 0 then 1 else 2 * Pow2(shift - 1)
  }

  /** `x << shift` for a non-negative `x`. */
  function ShiftLeft(x: nat, shift: nat): nat {
    x * Pow2(shift)
  }

  lemma {:induction false} Pow2Add(a: nat, b: nat)
    ensures Pow2(a + b) == Pow2(a) * Pow2(b)
  {
    if b > 0 {
      Pow2Add(a, b - 1);
    }
  }

  /** A digit's payload shifted by `shift`, plus the following digits'
      value shifted five bits further, is the whole number shifted by
      `shift`. */
  lemma ShiftLeftSplit(p: nat, x: nat, shift: nat)
    ensures ShiftLeft(p, shift) + ShiftLeft(x, shift + VlqBaseShift) == ShiftLeft(p + VlqBase * x, shift)
  {
    Pow2Add(shift, VlqBaseShift);
    assert Pow2(VlqBaseShift) == VlqBase;
    var q := Pow2(shift);
    calc {
      ShiftLeft(x, shift + VlqBaseShift);
      x * (q * VlqBase);
      { assert x * (q * VlqBase) == (VlqBase * x) * q; }
      (VlqBase * x) * q;
    }
    assert p * q + (VlqBase * x) * q == (p + VlqBase * x) * q;
  }

  /** Folds a sign into the low bit: the magnitude moves up one bit and the
      low bit is 1 exactly for negative deltas. */
  function ToVlqSigned(delta: int): (n: nat)
    ensures (n % 2 == 1) <==> delta < 0
    ensures n / 2 == (if delta < 0 then -delta else delta)
  {
    if delta < 0 then (-delta) * 2 + 1 else delta * 2
  }

  /** The decoder's reading of an assembled number: a set low bit negates
      the number, and the negated number is then halved with C's division,
      which truncates toward zero. */
  function FromVlqSigned(value: nat): (delta: int)
    ensures value % 2 == 0 ==> delta == value / 2
    ensures value % 2 == 1 ==> delta == -(value / 2)
  {
    var v: int := if value % 2 != 0 then -(value as int) else value;
    TruncatingDiv2(v)
  }

  /** C's `x / 2`: rounds toward zero (Dafny's `/` rounds toward minus
      infinity for negative dividends). */
  function TruncatingDiv2(x: int): int {
    if x >= 0 then x / 2 else -((-x) / 2)
  }

  lemma SignedRoundTrip(delta: int)
    ensures FromVlqSigned(ToVlqSigned(delta)) == delta
  {
  }

  /** The characters of one complete VLQ number: Base64 digits, all but the
      last with the continuation bit set. */
  predicate IsVlqField(s: string) {
    && |s| >= 1
    && (forall i :: 0 <= i < |s| ==> IsBase64Char(s[i]))
    && (forall i :: 0 <= i < |s| - 1 ==> HasContinuation(DecodeBase64Char(s[i])))
    && !HasContinuation(DecodeBase64Char(s[|s| - 1]))
  }

  /** The Base64 digits of a non-negative number, least-significant group
      first. */
  function EncodeVlqNumber(n: nat): (s: string)
    ensures IsVlqField(s)
    decreases n
  {
    if n < VlqBase then
      Base64RoundTrip(n);
      [EncodeBase64Digit(n)]
    else
      Base64RoundTrip(n % VlqBase + VlqBase);
      var rest := EncodeVlqNumber(n / VlqBase);
      var s := [EncodeBase64Digit(n % VlqBase + VlqBase)] + rest;
      assert forall i :: 1 <= i < |s| ==> s[i] == rest[i - 1];
      s
  }

  /** `encodeVlq`: the characters written for one signed delta. */
  function EncodeVlq(delta: int): (s: string)
    ensures IsVlqField(s)
  {
    EncodeVlqNumber(ToVlqSigned(delta))
  }

  /** The number carried by a sequence of 6-bit digits: the payload of the
      digit at position i counts 32^i times. */
  function DigitsValue(ds: seq<nat>): nat {
    if ds == [] then 0 else Payload(ds[0]) + VlqBase * DigitsValue(ds[1..])
  }

  function DigitsOf(s: string): (ds: seq<nat>)
    requires forall i :: 0 <= i < |s| ==> IsBase64Char(s[i])
    ensures |ds| == |s|
  {
    if s == [] then [] else [DecodeBase64Char(s[0])] + DigitsOf(s[1..])
  }

  lemma {:induction false} DigitsOfCons(c: char, rest: string)
    requires IsBase64Char(c) && forall i :: 0 <= i < |rest| ==> IsBase64Char(rest[i])
    ensures forall i :: 0 <= i < |[c] + rest| ==> IsBase64Char(([c] + rest)[i])
    ensures DigitsOf([c] + rest) == [DecodeBase64Char(c)] + DigitsOf(rest)
  {
    assert forall i :: 1 <= i < |[c] + rest| ==> ([c] + rest)[i] == rest[i - 1];
    assert ([c] + rest)[1..] == rest;
  }

  lemma {:induction false} DigitsValueCons(d: nat, ds: seq<nat>)
    ensures DigitsValue([d] + ds) == Payload(d) + VlqBase * DigitsValue(ds)
  {
    assert ([d] + ds)[1..] == ds;
  }

  /** One more digit in front: its payload is the low group of `n`. */
  lemma EncodeVlqNumberStep(n: nat)
    requires n >= VlqBase
    requires DigitsValue(DigitsOf(EncodeVlqNumber(n / VlqBase))) == n / VlqBase
    ensures DigitsValue(DigitsOf(EncodeVlqNumber(n))) == n
  {
    var d := n % VlqBase + VlqBase;
    var rest := EncodeVlqNumber(n / VlqBase);
    assert EncodeVlqNumber(n) == [EncodeBase64Digit(d)] + rest;
    Base64RoundTrip(d);
    DigitsOfCons(EncodeBase64Digit(d), rest);
    DigitsValueCons(d, DigitsOf(rest));
    assert Payload(d) == n % VlqBase;
  }

  /** The digits written for `n` carry exactly `n`. */
  lemma {:induction false} EncodeVlqNumberValue(n: nat)
    ensures DigitsValue(DigitsOf(EncodeVlqNumber(n))) == n
    decreases n
  {
    if n < VlqBase {
      Base64RoundTrip(n);
      assert DigitsOf(EncodeVlqNumber(n)) == [n] + DigitsOf([]);
    } else {
      EncodeVlqNumberValue(n / VlqBase);
      EncodeVlqNumberStep(n);
    }
  }
}
