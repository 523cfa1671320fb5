// Well-formed UTF-8, as the text decoder requires it (RFC 3629 section 4).
module Utf8 {
  import opened Basics

  predicate IsTail(s: Bytes, i: nat, low: bv8, high: bv8) {
    i < |s| && low <= s[i] <= high
  }

  /** The length of the well-formed sequence `s` starts with, or zero. */
  function SequenceLength(s: Bytes): (n: nat)
    requires s != []
    ensures n <= |s|
  {
    var lead := s[0];
    if lead <= 0x7f then 1
    else if 0xc2 <= lead <= 0xdf then if IsTail(s, 1, 0x80, 0xbf) then 2 else 0
    else if 0xe0 <= lead <= 0xef then
      var low := if lead == 0xe0 then 0xa0 else 0x80;
      var high := if lead == 0xed then 0x9f else 0xbf;
      if IsTail(s, 1, low, high) && IsTail(s, 2, 0x80, 0xbf) then 3 else 0
    else if 0xf0 <= lead <= 0xf4 then
      var low := if lead == 0xf0 then 0x90 else 0x80;
      var high := if lead == 0xf4 then 0x8f else 0xbf;
      if IsTail(s, 1, low, high) && IsTail(s, 2, 0x80, 0xbf) && IsTail(s, 3, 0x80, 0xbf) then 4 else 0
    else 0
  }

  predicate IsValid(s: Bytes)
    decreases |s|
  {
    s == [] || (SequenceLength(s) > 0 && IsValid(s[SequenceLength(s)..]))
  }

  // ---- Encoding ----

  /** How many bytes a character takes. */
  function Width(c: char): (n: nat)
    ensures 1 <= n <= 4
  {
    var code := c as int;
    if code < 0x80 then 1 else if code < 0x800 then 2 else if code < 0x1_0000 then 3 else 4
  }

  function EncodeChar(c: char): (s: Bytes)
    ensures |s| == Width(c)
  {
    var code := c as int;
    if code < 0x80 then [Byte(code)]
    else if code < 0x800 then [Byte(0xc0 + code / 64), Byte(0x80 + code % 64)]
    else if code < 0x1_0000 then [Byte(0xe0 + code / 4096), Byte(0x80 + code / 64 % 64), Byte(0x80 + code % 64)]
    else
      [Byte(0xf0 + code / 262144), Byte(0x80 + code / 4096 % 64), Byte(0x80 + code / 64 % 64), Byte(0x80 + code % 64)]
  }

  function Encode(text: string): (s: Bytes) {
    if text == "" then [] else EncodeChar(text[0]) + Encode(text[1..])
  }

  /** How many bytes a text takes. */
  function Length(text: string): (n: nat)
    ensures n >= |text|
  {
    if text == "" then 0 else Width(text[0]) + Length(text[1..])
  }

  lemma EncodeNothing()
    ensures Encode("") == []
  {
  }

  lemma {:induction false} EncodeConcat(a: string, b: string)
    ensures Encode(a + b) == Encode(a) + Encode(b)
  {
    hide EncodeChar, Width;
    if a == "" {
      assert a + b == b;
    } else {
      EncodeConcat(a[1..], b);
      assert (a + b)[1..] == a[1..] + b;
    }
  }

  lemma {:induction false} LengthConcat(a: string, b: string)
    ensures Length(a + b) == Length(a) + Length(b)
  {
    hide EncodeChar, Width;
    if a == "" {
      assert a + b == b;
    } else {
      LengthConcat(a[1..], b);
      assert (a + b)[1..] == a[1..] + b;
    }
  }

  lemma {:induction false} EncodedLength(text: string)
    ensures |Encode(text)| == Length(text)
  {
    hide EncodeChar, Width;
    if text != "" {
      EncodedLength(text[1..]);
    }
  }

  // ---- Encoding loses nothing ----

  /** The code the first character of an encoded text has, and how many bytes it takes. */
  function FirstCode(s: Bytes): (r: (int, nat))
    requires s != [] && (s[0] as nat >= 0x80 ==> |s| >= 2) && (s[0] as nat >= 0xe0 ==> |s| >= 3) && (s[0] as nat >= 0xf0 ==> |s| >= 4)
  {
    var lead := s[0] as nat;
    if lead < 0x80 then (lead, 1)
    else if lead < 0xe0 then ((lead - 0xc0) * 64 + s[1] as nat - 0x80, 2)
    else if lead < 0xf0 then ((lead - 0xe0) * 4096 + (s[1] as nat - 0x80) * 64 + s[2] as nat - 0x80, 3)
    else
      ((lead - 0xf0) * 262144 + (s[1] as nat - 0x80) * 4096 + (s[2] as nat - 0x80) * 64 + s[3] as nat - 0x80, 4)
  }

  ghost predicate Starts(s: Bytes) {
    s != [] && (s[0] as nat >= 0x80 ==> |s| >= 2) && (s[0] as nat >= 0xe0 ==> |s| >= 3) && (s[0] as nat >= 0xf0 ==> |s| >= 4)
  }

  /** A code in the base the encoding uses. */
  lemma Digits(code: nat)
    ensures code == code / 64 * 64 + code % 64
    ensures code / 64 == code / 4096 * 64 + code / 64 % 64
    ensures code / 4096 == code / 262144 * 64 + code / 4096 % 64
  {
    assert code / 64 / 64 == code / 4096 && code / 4096 / 64 == code / 262144;
  }

  lemma TwoBytesRead(c: char, rest: Bytes)
    requires 0x80 <= c as int < 0x800
    ensures Starts(EncodeChar(c) + rest) && FirstCode(EncodeChar(c) + rest) == (c as int, 2)
  {
    hide Byte;
    var code, s := c as int, EncodeChar(c) + rest;
    Digits(code);
    assert s[0] == EncodeChar(c)[0] && s[1] == EncodeChar(c)[1];
  }

  lemma ThreeBytesRead(c: char, rest: Bytes)
    requires 0x800 <= c as int < 0x1_0000
    ensures Starts(EncodeChar(c) + rest) && FirstCode(EncodeChar(c) + rest) == (c as int, 3)
  {
    hide Byte;
    var code, s := c as int, EncodeChar(c) + rest;
    assert code == code / 4096 * 4096 + code / 64 % 64 * 64 + code % 64 by { Digits(code); }
    assert s[0] as nat == 0xe0 + code / 4096;
    assert s[1] as nat == 0x80 + code / 64 % 64;
    assert s[2] as nat == 0x80 + code % 64;
  }

  lemma FourBytesRead(c: char, rest: Bytes)
    requires 0x1_0000 <= c as int
    ensures Starts(EncodeChar(c) + rest) && FirstCode(EncodeChar(c) + rest) == (c as int, 4)
  {
    hide Byte;
    var code, s := c as int, EncodeChar(c) + rest;
    Digits(code);
    assert s[0] == EncodeChar(c)[0] && s[1] == EncodeChar(c)[1] && s[2] == EncodeChar(c)[2] && s[3] == EncodeChar(c)[3];
  }

  lemma FirstCodeReads(c: char, rest: Bytes)
    ensures Starts(EncodeChar(c) + rest)
    ensures FirstCode(EncodeChar(c) + rest) == (c as int, Width(c))
  {
    var code := c as int;
    if code < 0x80 {
      assert (EncodeChar(c) + rest)[0] as nat == code;
    } else {
      hide EncodeChar, FirstCode, Starts;
      if code < 0x800 {
        TwoBytesRead(c, rest);
      } else if code < 0x1_0000 {
        ThreeBytesRead(c, rest);
      } else {
        FourBytesRead(c, rest);
      }
    }
  }

  /** Two texts with the same bytes are the same text. */
  lemma {:induction false} EncodeIsInjective(a: string, b: string)
    requires Encode(a) == Encode(b)
    ensures a == b
  {
    hide EncodeChar, Width, FirstCode, Starts;
    if a != "" && b != "" {
      FirstCodeReads(a[0], Encode(a[1..]));
      FirstCodeReads(b[0], Encode(b[1..]));
      assert a[0] == b[0];
      assert Encode(a[1..]) == Encode(a)[Width(a[0])..] && Encode(b[1..]) == Encode(b)[Width(b[0])..];
      EncodeIsInjective(a[1..], b[1..]);
      assert a == [a[0]] + a[1..] && b == [b[0]] + b[1..];
    }
  }

  /** The bytes of a text without the characters 0 and 1 are all above 1. */
  lemma {:induction false} EncodeHasNoMarks(text: string)
    requires forall i :: 0 <= i < |text| ==> text[i] as int >= 2
    ensures forall i :: 0 <= i < |Encode(text)| ==> Encode(text)[i] as nat >= 2
  {
    hide EncodeChar;
    if text != "" {
      EncodeHasNoMarks(text[1..]);
      CharHasNoMarks(text[0]);
    }
  }

  lemma CharHasNoMarks(c: char)
    requires c as int >= 2
    ensures forall i :: 0 <= i < Width(c) ==> EncodeChar(c)[i] as nat >= 2
  {
    hide Byte;
  }
}
