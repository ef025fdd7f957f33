/**
 Text as the source stores it: bytes of strict UTF-8. The decoder accepts exactly the
 encodings of character sequences (no overlong forms, no surrogates).
 */
module Utf8 {
  import opened Wrappers

  type Byte = x: int | 0 <= x < 256

  /** One more base-64 digit, and the two halves it splits into. */
  function Shift(high: int, low: int): int {
    high * 64 + low
  }

  lemma ShiftSplits(high: int, low: int)
    requires 0 <= low < 64
    ensures Shift(high, low) / 64 == high && Shift(high, low) % 64 == low
  {
  }

  lemma SplitShifts(n: int)
    ensures Shift(n / 64, n % 64) == n
  {
  }

  function EncodeChar(c: char): (b: seq<Byte>)
    ensures 1 <= |b| <= 4
  {
    var n := c as int;
    var n1 := n / 64;
    var n2 := n1 / 64;
    if n < 0x80 then [n]
    else if n < 0x800 then [0xC0 + n1, 0x80 + n % 64]
    else if n < 0x10000 then [0xE0 + n2, 0x80 + n1 % 64, 0x80 + n % 64]
    else [0xF0 + n2 / 64, 0x80 + n2 % 64, 0x80 + n1 % 64, 0x80 + n % 64]
  }

  function Encode(s: string): seq<Byte> {
    if s == "" then [] else EncodeChar(s[0]) + Encode(s[1..])
  }

  predicate Continues(b: Byte) {
    0x80 <= b < 0xC0
  }

  predicate IsScalar(n: int) {
    0 <= n < 0xD800 || 0xE000 <= n < 0x11_0000
  }

  function Digit(b: Byte): int {
    (b as int) - 0x80
  }

  /** The number a lead byte and its continuation bytes spell. */
  function Spell(lead: int, tail: seq<Byte>): int {
    if tail == [] then lead else Shift(Spell(lead, tail[..|tail| - 1]), Digit(tail[|tail| - 1]))
  }

  /** The first character and its length in bytes. */
  function DecodeFirst(b: seq<Byte>): Option<(char, nat)>
    requires b != []
  {
    if b[0] < 0x80 then Some((b[0] as char, 1))
    else if 0xC0 <= b[0] < 0xE0 then Multibyte(b, 0xC0, 2, 0x80)
    else if 0xE0 <= b[0] < 0xF0 then Multibyte(b, 0xE0, 3, 0x800)
    else if 0xF0 <= b[0] < 0xF8 then Multibyte(b, 0xF0, 4, 0x1_0000)
    else None
  }

  function Multibyte(b: seq<Byte>, mark: int, length: nat, least: int): Option<(char, nat)>
    requires b != [] && 2 <= length <= 4
  {
    if |b| < length || exists i :: 1 <= i < length && !Continues(b[i]) then None else
    var n := Spell(b[0] - mark, b[1..length]);
    if n >= least && IsScalar(n) then Some((n as char, length)) else None
  }

  function Decode(b: seq<Byte>): Option<string> {
    if b == [] then Some("") else
    match DecodeFirst(b)
    case None => None
    case Some((c, k)) =>
      if 0 < k <= |b| then
        match Decode(b[k..])
        case None => None
        case Some(rest) => Some([c] + rest)
      else None
  }

  lemma Spell2(lead: int, t: seq<Byte>)
    requires |t| == 1
    ensures Spell(lead, t) == Shift(lead, Digit(t[0]))
  {
    assert t[..0] == [];
  }

  lemma Spell3(lead: int, t: seq<Byte>)
    requires |t| == 2
    ensures Spell(lead, t) == Shift(Shift(lead, Digit(t[0])), Digit(t[1]))
  {
    Spell2(lead, t[..1]);
  }

  lemma Spell4(lead: int, t: seq<Byte>)
    requires |t| == 3
    ensures Spell(lead, t) == Shift(Shift(Shift(lead, Digit(t[0])), Digit(t[1])), Digit(t[2]))
  {
    Spell3(lead, t[..2]);
  }

  lemma FirstOfTwo(c: char, b: seq<Byte>)
    requires 0x80 <= c as int < 0x800 && EncodeChar(c) <= b
    ensures Multibyte(b, 0xC0, 2, 0x80) == Some((c, 2))
  {
    Spell2(b[0] - 0xC0, b[1..2]);
    SplitShifts(c as int);
  }

  lemma FirstOfThree(c: char, b: seq<Byte>)
    requires 0x800 <= c as int < 0x10000 && EncodeChar(c) <= b
    ensures Multibyte(b, 0xE0, 3, 0x800) == Some((c, 3))
  {
    Spell3(b[0] - 0xE0, b[1..3]);
    SplitShifts(c as int);
    SplitShifts(c as int / 64);
  }

  lemma FirstOfFour(c: char, b: seq<Byte>)
    requires 0x10000 <= c as int && EncodeChar(c) <= b
    ensures Multibyte(b, 0xF0, 4, 0x1_0000) == Some((c, 4))
  {
    Spell4(b[0] - 0xF0, b[1..4]);
    SplitShifts(c as int);
    SplitShifts(c as int / 64);
    SplitShifts(c as int / 64 / 64);
  }

  lemma FirstOfEncoded(c: char, rest: seq<Byte>)
    ensures DecodeFirst(EncodeChar(c) + rest) == Some((c, |EncodeChar(c)|))
  {
    var n, b := c as int, EncodeChar(c) + rest;
    assert EncodeChar(c) <= b && b[0] == EncodeChar(c)[0];
    if n < 0x80 {
    } else if n < 0x800 {
      FirstOfTwo(c, b);
    } else if n < 0x10000 {
      FirstOfThree(c, b);
    } else {
      FirstOfFour(c, b);
    }
  }

  lemma TwoBytes(b: seq<Byte>)
    requires b != [] && Multibyte(b, 0xC0, 2, 0x80).Some? && 0xC0 <= b[0] < 0xE0
    ensures EncodeChar(Multibyte(b, 0xC0, 2, 0x80).value.0) == b[..2]
  {
    Spell2(b[0] - 0xC0, b[1..2]);
    ShiftSplits(b[0] - 0xC0, Digit(b[1]));
    assert b[..2] == [b[0], b[1]];
  }

  lemma ThreeBytes(b: seq<Byte>)
    requires b != [] && Multibyte(b, 0xE0, 3, 0x800).Some? && 0xE0 <= b[0] < 0xF0
    ensures EncodeChar(Multibyte(b, 0xE0, 3, 0x800).value.0) == b[..3]
  {
    Spell3(b[0] - 0xE0, b[1..3]);
    ShiftSplits(b[0] - 0xE0, Digit(b[1]));
    ShiftSplits(Shift(b[0] - 0xE0, Digit(b[1])), Digit(b[2]));
    assert b[..3] == [b[0], b[1], b[2]];
  }

  lemma FourBytes(b: seq<Byte>)
    requires b != [] && Multibyte(b, 0xF0, 4, 0x1_0000).Some? && 0xF0 <= b[0] < 0xF8
    ensures EncodeChar(Multibyte(b, 0xF0, 4, 0x1_0000).value.0) == b[..4]
  {
    var h := Shift(b[0] - 0xF0, Digit(b[1]));
    Spell4(b[0] - 0xF0, b[1..4]);
    ShiftSplits(b[0] - 0xF0, Digit(b[1]));
    ShiftSplits(h, Digit(b[2]));
    ShiftSplits(Shift(h, Digit(b[2])), Digit(b[3]));
    assert b[..4] == [b[0], b[1], b[2], b[3]];
  }

  lemma FirstIsEncoding(b: seq<Byte>)
    requires b != [] && DecodeFirst(b).Some?
    ensures var (c, k) := DecodeFirst(b).value; k <= |b| && EncodeChar(c) == b[..k]
  {
    var (c, k) := DecodeFirst(b).value;
    if k == 2 {
      TwoBytes(b);
    } else if k == 3 {
      ThreeBytes(b);
    } else if k == 4 {
      FourBytes(b);
    }
  }

  /** Every string survives encoding. */
  lemma {:induction false} DecodeEncode(s: string)
    ensures Decode(Encode(s)) == Some(s)
  {
    if s == "" {
    } else {
      FirstOfEncoded(s[0], Encode(s[1..]));
      var k := |EncodeChar(s[0])|;
      assert Encode(s)[k..] == Encode(s[1..]);
      DecodeEncode(s[1..]);
      assert [s[0]] + s[1..] == s;
    }
  }

  /** Nothing else decodes: the bytes are the encoding of what they decode to. */
  lemma {:induction false} EncodeDecode(b: seq<Byte>)
    requires Decode(b).Some?
    ensures Encode(Decode(b).value) == b
    decreases |b|
  {
    if b == [] {
    } else {
      var (c, k) := DecodeFirst(b).value;
      FirstIsEncoding(b);
      EncodeDecode(b[k..]);
      EncodeCons(c, Decode(b[k..]).value);
      assert b[..k] + b[k..] == b;
    }
  }

  lemma EncodeCons(c: char, rest: string)
    ensures Encode([c] + rest) == EncodeChar(c) + Encode(rest)
  {
    assert ([c] + rest)[1..] == rest;
  }

  lemma EncodeIsInjective(s: string, t: string)
    requires Encode(s) == Encode(t)
    ensures s == t
  {
    DecodeEncode(s);
    DecodeEncode(t);
  }
}
