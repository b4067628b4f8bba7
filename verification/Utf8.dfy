/** UTF-8: a strict decoder and its encoder, over bytes. */
module Utf8 {
  import opened Wrappers

  newtype Byte = x: int | 0 <= x < 256
  type Bytes = seq<Byte>

  const LF: Byte := 10
  const CR: Byte := 13

  function EncodeChar(c: char): (bs: Bytes)
    ensures bs != []
  {
    var n := c as int;
    if n < 0x80 then [n as Byte]
    else if n < 0x800 then [(0xC0 + n / 0x40) as Byte, (0x80 + n % 0x40) as Byte]
    else if n < 0x1_0000 then
      [(0xE0 + n / 0x1000) as Byte, (0x80 + n / 0x40 % 0x40) as Byte, (0x80 + n % 0x40) as Byte]
    else
      [(0xF0 + n / 0x4_0000) as Byte, (0x80 + n / 0x1000 % 0x40) as Byte,
       (0x80 + n / 0x40 % 0x40) as Byte, (0x80 + n % 0x40) as Byte]
  }

  function Encode(s: string): Bytes {
    if s == "" then [] else EncodeChar(s[0]) + Encode(s[1..])
  }

  predicate IsContinuation(b: Byte) {
    0x80 <= b < 0xC0
  }

  /** How many bytes a sequence with this lead byte takes; 0 when no sequence starts with it. */
  function SequenceLength(lead: Byte): (n: nat)
    ensures n <= 4
  {
    if lead < 0x80 then 1
    else if lead < 0xC0 then 0
    else if lead < 0xE0 then 2
    else if lead < 0xF0 then 3
    else if lead < 0xF8 then 4
    else 0
  }

  /** The scalar a sequence stands for, as a bare number. */
  function SequenceValue(bs: Bytes): (v: int)
    requires 1 <= |bs| <= 4 && SequenceLength(bs[0]) == |bs|
    requires forall i :: 1 <= i < |bs| ==> IsContinuation(bs[i])
  {
    if |bs| == 1 then bs[0] as int
    else if |bs| == 2 then (bs[0] as int - 0xC0) * 0x40 + (bs[1] as int - 0x80)
    else if |bs| == 3 then
      (bs[0] as int - 0xE0) * 0x1000 + (bs[1] as int - 0x80) * 0x40 + (bs[2] as int - 0x80)
    else
      (bs[0] as int - 0xF0) * 0x4_0000 + (bs[1] as int - 0x80) * 0x1000
      + (bs[2] as int - 0x80) * 0x40 + (bs[3] as int - 0x80)
  }

  /** The first character, when the bytes start with its shortest encoding. */
  function DecodeChar(bs: Bytes): Option<char>
    requires bs != []
  {
    var n := SequenceLength(bs[0]);
    if n == 0 || n > |bs| || exists i :: 1 <= i < n && !IsContinuation(bs[i]) then None
    else
      var v := SequenceValue(bs[..n]);
      if !(0 <= v < 0xD800 || 0xE000 <= v < 0x11_0000) then None
      else
        var c := v as char;
        if |EncodeChar(c)| == n then Some(c) else None
  }

  /** The text the bytes encode, or nothing when they are not well-formed UTF-8. */
  function Decode(bs: Bytes): Option<string>
    decreases |bs|
  {
    if bs == [] then Some("")
    else
      var c := DecodeChar(bs);
      if c.None? then None
      else
        var n := |EncodeChar(c.value)|;
        if n > |bs| then None
        else
          var rest := Decode(bs[n..]);
          if rest.None? then None else Some([c.value] + rest.value)
  }

  /** An encoded character announces its length, and its bits add up to the scalar. */
  lemma {:induction false} EncodedCharValue(c: char)
    ensures var e := EncodeChar(c);
      SequenceLength(e[0]) == |e|
      && (forall i :: 1 <= i < |e| ==> IsContinuation(e[i]))
      && SequenceValue(e) == c as int
  {
    var e, n := EncodeChar(c), c as int;
    if n < 0x80 {
      assert |e| == 1;
    } else if n < 0x800 {
      assert |e| == 2;
    } else if n < 0x1_0000 {
      assert |e| == 3;
      assert n / 0x40 / 0x40 == n / 0x1000;
    } else {
      assert |e| == 4;
      assert n / 0x40 / 0x40 == n / 0x1000 && n / 0x1000 / 0x40 == n / 0x4_0000;
    }
  }

  lemma {:induction false} DecodeEncodeChar(c: char, rest: Bytes)
    ensures DecodeChar(EncodeChar(c) + rest) == Some(c)
  {
    var e := EncodeChar(c);
    var bs := e + rest;
    EncodedCharValue(c);
    assert bs[..|e|] == e && bs[0] == e[0];
    assert forall i :: 1 <= i < |e| ==> bs[i] == e[i];
  }

  /** Decoding undoes encoding. */
  lemma {:induction false} DecodeEncode(s: string)
    ensures Decode(Encode(s)) == Some(s)
  {
    if s == "" {
    } else {
      DecodeEncodeChar(s[0], Encode(s[1..]));
      assert Encode(s)[|EncodeChar(s[0])|..] == Encode(s[1..]);
      DecodeEncode(s[1..]);
      assert s == [s[0]] + s[1..];
    }
  }

  predicate IsSequence(bs: Bytes) {
    1 <= |bs| <= 4 && SequenceLength(bs[0]) == |bs| && forall i :: 1 <= i < |bs| ==> IsContinuation(bs[i])
  }

  /** Sequences of one length stand for different scalars. */
  lemma {:induction false} SequenceValueInjective(a: Bytes, b: Bytes)
    requires IsSequence(a) && IsSequence(b) && |a| == |b| && SequenceValue(a) == SequenceValue(b)
    ensures a == b
  {
    if |a| == 1 {
    } else if |a| == 2 {
      assert a[0] == b[0] && a[1] == b[1];
    } else if |a| == 3 {
      assert a[0] == b[0] && a[1] == b[1] && a[2] == b[2];
    } else {
      assert a[0] == b[0] && a[1] == b[1] && a[2] == b[2] && a[3] == b[3];
    }
  }

  lemma {:induction false} EncodeDecodeChar(bs: Bytes)
    requires bs != [] && DecodeChar(bs).Some?
    ensures EncodeChar(DecodeChar(bs).value) <= bs
  {
    var c, n := DecodeChar(bs).value, SequenceLength(bs[0]);
    EncodedCharValue(c);
    assert IsSequence(bs[..n]) && SequenceValue(bs[..n]) == c as int;
    SequenceValueInjective(bs[..n], EncodeChar(c));
  }

  lemma {:induction false} EncodeCons(c: char, s: string)
    ensures Encode([c] + s) == EncodeChar(c) + Encode(s)
  {
    assert ([c] + s)[1..] == s;
  }

  lemma {:induction false} DecodeHead(bs: Bytes) returns (c: char, n: nat)
    requires bs != [] && Decode(bs).Some?
    ensures n <= |bs| && bs[..n] == EncodeChar(c) && n > 0
    ensures Decode(bs[n..]).Some? && Decode(bs).value == [c] + Decode(bs[n..]).value
  {
    c := DecodeChar(bs).value;
    n := |EncodeChar(c)|;
    EncodeDecodeChar(bs);
  }

  /** Nothing else decodes: bytes that stand for a text are that text's encoding. */
  lemma {:induction false} EncodeDecode(bs: Bytes)
    requires Decode(bs).Some?
    ensures Encode(Decode(bs).value) == bs
    decreases |bs|
  {
    if bs == [] {
    } else {
      var c, n := DecodeHead(bs);
      EncodeDecode(bs[n..]);
      EncodeCons(c, Decode(bs[n..]).value);
      assert bs == bs[..n] + bs[n..];
    }
  }

  lemma {:induction false} EncodeConcat(a: string, b: string)
    ensures Encode(a + b) == Encode(a) + Encode(b)
  {
    if a == "" {
      assert a + b == b;
    } else {
      assert (a + b)[1..] == a[1..] + b;
      EncodeConcat(a[1..], b);
    }
  }

  predicate NoBreaks(s: string) {
    forall i :: 0 <= i < |s| ==> s[i] != '\n' && s[i] != '\r'
  }

  predicate NoBreakBytes(bs: Bytes) {
    forall i :: 0 <= i < |bs| ==> bs[i] != LF && bs[i] != CR
  }

  /** A text without line breaks has no line-break byte anywhere in its encoding. */
  lemma {:induction false} EncodeNoBreaks(s: string)
    requires NoBreaks(s)
    ensures NoBreakBytes(Encode(s))
  {
    if s == "" {
    } else {
      EncodeNoBreaks(s[1..]);
      var e := EncodeChar(s[0]);
      assert s[0] as int != 10 && s[0] as int != 13;
      assert NoBreakBytes(e);
    }
  }
}
