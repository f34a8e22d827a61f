/** Texts as sequences of UTF-16 code units, their UTF-8 bytes and the hexadecimal of bytes. */
module Utf {
  import opened Answers

  type Unit = n: int | 0 <= n < 0x1_0000
  type Byte = n: int | 0 <= n < 0x100
  type Text = seq<Unit>

  predicate High(u: Unit) { 0xD800 <= u < 0xDC00 }

  predicate Low(u: Unit) { 0xDC00 <= u < 0xE000 }

  /** A surrogate pair stands at the beginning. */
  predicate Paired(t: Text) { 2 <= |t| && High(t[0]) && Low(t[1]) }

  /** Every surrogate belongs to a pair. */
  predicate WellFormed(t: Text) {
    t == [] || if Paired(t) then WellFormed(t[2..]) else !High(t[0]) && !Low(t[0]) && WellFormed(t[1..])
  }

  lemma {:induction false} WellFormedConcat(a: Text, b: Text)
    requires WellFormed(a) && WellFormed(b)
    ensures WellFormed(a + b)
  {
    if a == [] {
      assert a + b == b;
    } else if Paired(a) {
      assert (a + b)[2..] == a[2..] + b;
      WellFormedConcat(a[2..], b);
    } else {
      assert (a + b)[1..] == a[1..] + b;
      WellFormedConcat(a[1..], b);
    }
  }

  predicate IsAscii(s: string) { forall i :: 0 <= i < |s| ==> s[i] as int < 128 }

  function Ascii(s: string): (t: Text)
    requires IsAscii(s)
    ensures |t| == |s| && forall i :: 0 <= i < |s| ==> t[i] == s[i] as int && t[i] < 128
  {
    seq(|s|, i requires 0 <= i < |s| => s[i] as int)
  }

  lemma {:induction false} AsciiIsWellFormed(t: Text)
    requires forall i :: 0 <= i < |t| ==> t[i] < 128
    ensures WellFormed(t)
  {
    if t != [] { AsciiIsWellFormed(t[1..]); }
  }

  // ---------------------------------------------------------------- UTF-8

  function CodePoint(high: int, low: int): (c: int)
    requires 0xD800 <= high < 0xDC00 && 0xDC00 <= low < 0xE000
    ensures 0x1_0000 <= c < 0x11_0000
  {
    (high - 0xD800) * 0x400 + (low - 0xDC00) + 0x1_0000
  }

  /** The bytes of the first character: a pair, or one unit; a lone surrogate is replaced. */
  function First(t: Text): (b: seq<Byte>)
    requires t != []
    ensures 1 <= |b| <= 4
  {
    if Paired(t) then
      var c := CodePoint(t[0], t[1]);
      [0xF0 + c / 0x4_0000, 0x80 + c / 0x1000 % 64, 0x80 + c / 64 % 64, 0x80 + c % 64]
    else
      var u: int := if High(t[0]) || Low(t[0]) then 0xFFFD else t[0];
      if u < 0x80 then [u]
      else if u < 0x800 then [0xC0 + u / 64, 0x80 + u % 64]
      else [0xE0 + u / 0x1000, 0x80 + u / 64 % 64, 0x80 + u % 64]
  }

  function Utf8(t: Text): seq<Byte> {
    if t == [] then [] else First(t) + Utf8(if Paired(t) then t[2..] else t[1..])
  }

  predicate Continues(b: seq<Byte>, n: nat) { n < |b| && forall i :: 1 <= i <= n ==> 0x80 <= b[i] < 0xC0 }

  function Sixes(b: seq<Byte>, i: nat): (r: int)
    requires i < |b| && 0x80 <= b[i] < 0xC0
    ensures 0 <= r < 64
  {
    b[i] as int - 0x80
  }

  /** The units of one character read from bytes, and how many bytes it took. */
  function ReadFirst(b: seq<Byte>): Option<(Text, nat)> {
    if b == [] then None
    else
      var lead: int := b[0];
      if lead < 0x80 then Some(([lead], 1))
      else if 0xC0 <= lead < 0xE0 && Continues(b, 1) then Some(([(lead - 0xC0) * 64 + Sixes(b, 1)], 2))
      else if 0xE0 <= lead < 0xF0 && Continues(b, 2) then Some(([(lead - 0xE0) * 0x1000 + Sixes(b, 1) * 64 + Sixes(b, 2)], 3))
      else if 0xF0 <= lead < 0xF8 && Continues(b, 3) then
        var c := (lead - 0xF0) * 0x4_0000 + Sixes(b, 1) * 0x1000 + Sixes(b, 2) * 64 + Sixes(b, 3);
        if 0x1_0000 <= c < 0x11_0000 then
          var pair := c - 0x1_0000;
          Some(([0xD800 + pair / 0x400, 0xDC00 + pair % 0x400], 4))
        else None
      else None
  }

  function FromUtf8(b: seq<Byte>): Option<Text>
    decreases |b|
  {
    if b == [] then Some([])
    else
      var (t, n) :- ReadFirst(b);
      if n == 0 || |b| < n then None
      else
        var rest :- FromUtf8(b[n..]);
        Some(t + rest)
  }

  lemma FirstPair(t: Text, rest: seq<Byte>)
    requires Paired(t)
    ensures ReadFirst(First(t) + rest) == Some((t[..2], 4)) && |First(t)| == 4
  {
    var high: int, low: int := t[0], t[1];
    var c, b := CodePoint(high, low), First(t) + rest;
    FourDigits(c);
    assert b[0] == 0xF0 + c / 0x4_0000 && Continues(b, 3);
    assert Sixes(b, 1) == c / 0x1000 % 64 && Sixes(b, 2) == c / 64 % 64 && Sixes(b, 3) == c % 64;
    assert (c - 0x1_0000) / 0x400 == high - 0xD800 && (c - 0x1_0000) % 0x400 == low - 0xDC00;
    assert t[..2] == [t[0], t[1]];
  }

  lemma FourDigits(c: nat)
    requires c < 0x20_0000
    ensures c / 0x4_0000 * 0x4_0000 + c / 0x1000 % 64 * 0x1000 + c / 64 % 64 * 64 + c % 64 == c
    ensures c / 0x4_0000 < 8
  {
    var q := c / 64;
    assert c == q * 64 + c % 64;
    assert q / 64 == c / 0x1000 && q == q / 64 * 64 + q % 64;
    var p := q / 64;
    assert p / 64 == c / 0x4_0000 && p == p / 64 * 64 + p % 64;
  }

  lemma TwoBytes(u: int, rest: seq<Byte>)
    requires 0x80 <= u < 0x800
    ensures ReadFirst([0xC0 + u / 64, 0x80 + u % 64] + rest) == Some(([u], 2))
  {
    var b: seq<Byte> := [0xC0 + u / 64, 0x80 + u % 64] + rest;
    assert Continues(b, 1) && Sixes(b, 1) == u % 64;
  }

  lemma ThreeBytes(u: int, rest: seq<Byte>)
    requires 0x800 <= u < 0x1_0000
    ensures ReadFirst([0xE0 + u / 0x1000, 0x80 + u / 64 % 64, 0x80 + u % 64] + rest) == Some(([u], 3))
  {
    var b: seq<Byte> := [0xE0 + u / 0x1000, 0x80 + u / 64 % 64, 0x80 + u % 64] + rest;
    FourDigits(u);
    assert Continues(b, 2) && Sixes(b, 1) == u / 64 % 64 && Sixes(b, 2) == u % 64;
  }

  lemma FirstUnit(t: Text, rest: seq<Byte>)
    requires t != [] && !High(t[0]) && !Low(t[0])
    ensures ReadFirst(First(t) + rest) == Some((t[..1], |First(t)|))
  {
    var u: int := t[0];
    assert t[..1] == [t[0]];
    if 0x80 <= u < 0x800 { TwoBytes(u, rest); }
    else if 0x800 <= u { ThreeBytes(u, rest); }
  }

  /** Texts without lone surrogates survive UTF-8. */
  lemma {:induction false} Utf8RoundTrip(t: Text)
    requires WellFormed(t)
    ensures FromUtf8(Utf8(t)) == Some(t)
    decreases |t|
  {
    if t != [] {
      var k := if Paired(t) then 2 else 1;
      var rest := Utf8(t[k..]);
      if Paired(t) { FirstPair(t, rest); } else { FirstUnit(t, rest); }
      assert (First(t) + rest)[|First(t)|..] == rest;
      Utf8RoundTrip(t[k..]);
      assert t[..k] + t[k..] == t;
    }
  }

  /** Without that condition it fails: a lone surrogate reads as the replacement character. */
  lemma LoneSurrogatesCollide()
    ensures Utf8([0xD800]) == Utf8([0xDC00]) == Utf8([0xFFFD])
  {
    assert First([0xD800]) == First([0xDC00]) == First([0xFFFD]) == [0xEF, 0xBF, 0xBD];
  }

  // ---------------------------------------------------------------- hexadecimal

  function HexDigit(n: nat): char
    requires n < 16
  {
    if n < 10 then ('0' as int + n) as char else ('a' as int + n - 10) as char
  }

  function HexValue(c: char): Option<nat> {
    if '0' <= c <= '9' then Some(c as int - '0' as int)
    else if 'a' <= c <= 'f' then Some(c as int - 'a' as int + 10)
    else if 'A' <= c <= 'F' then Some(c as int - 'A' as int + 10)
    else None
  }

  lemma HexDigitValue(n: nat)
    requires n < 16
    ensures HexValue(HexDigit(n)) == Some(n) && IsLowerHex(HexDigit(n))
  {
  }

  predicate IsLowerHex(c: char) { '0' <= c <= '9' || 'a' <= c <= 'f' }

  function Hex(b: seq<Byte>): (s: string)
    ensures |s| == 2 * |b| && forall i :: 0 <= i < |s| ==> IsLowerHex(s[i])
  {
    if b == [] then "" else [HexDigit(b[0] / 16), HexDigit(b[0] % 16)] + Hex(b[1..])
  }

  function Unhex(s: string): Option<seq<Byte>> {
    if s == "" then Some([])
    else if |s| == 1 then None
    else
      var x :- HexValue(s[0]);
      var y :- HexValue(s[1]);
      if 16 <= x || 16 <= y then None
      else
        var rest :- Unhex(s[2..]);
        Some([16 * x + y] + rest)
  }

  lemma {:induction false} HexRoundTrip(b: seq<Byte>)
    ensures Unhex(Hex(b)) == Some(b)
  {
    if b != [] {
      HexDigitValue(b[0] / 16);
      HexDigitValue(b[0] % 16);
      assert Hex(b)[2..] == Hex(b[1..]);
      HexRoundTrip(b[1..]);
      assert [b[0]] + b[1..] == b;
    }
  }

  /** Every lower-case text that reads as bytes is the one those bytes are written as. */
  lemma {:induction false} UnhexRoundTrip(s: string)
    requires Unhex(s).Some? && forall i :: 0 <= i < |s| ==> IsLowerHex(s[i])
    ensures Hex(Unhex(s).value) == s
  {
    if s != "" {
      UnhexRoundTrip(s[2..]);
      var x, y := HexValue(s[0]).value, HexValue(s[1]).value;
      assert (16 * x + y) / 16 == x && (16 * x + y) % 16 == y;
      assert HexDigit(x) == s[0] && HexDigit(y) == s[1];
    }
  }

  const DIGITS := "0123456789abcdef"

  lemma HexDigitIsListed(n: nat)
    requires n < 16
    ensures DIGITS[n] == HexDigit(n)
  {
  }

  /** Two characters for every byte, the high half first. */
  lemma {:induction false} HexAt(b: seq<Byte>, i: nat)
    requires i < |b|
    ensures Hex(b)[2 * i] == DIGITS[b[i] / 16] && Hex(b)[2 * i + 1] == DIGITS[b[i] % 16]
  {
    HexDigitIsListed(b[i] / 16);
    HexDigitIsListed(b[i] % 16);
    if i > 0 {
      HexAt(b[1..], i - 1);
      assert Hex(b)[2..] == Hex(b[1..]);
      assert Hex(b)[2 * i] == Hex(b[1..])[2 * (i - 1)] && Hex(b)[2 * i + 1] == Hex(b[1..])[2 * (i - 1) + 1];
    }
  }

  /** One character of each length: a letter, an accented letter, the euro sign and a smiling face. */
  lemma Utf8Examples()
    ensures Utf8([0x41]) == [0x41]
    ensures Utf8([0xE9]) == [0xC3, 0xA9]
    ensures Utf8([0x20AC]) == [0xE2, 0x82, 0xAC]
    ensures Utf8([0xD83D, 0xDE00]) == [0xF0, 0x9F, 0x98, 0x80]
  {
    assert First([0x41]) == [0x41] && First([0xE9]) == [0xC3, 0xA9] && First([0x20AC]) == [0xE2, 0x82, 0xAC];
    assert First([0xD83D, 0xDE00]) == [0xF0, 0x9F, 0x98, 0x80];
    assert [0x41][1..] == [] && [0xE9][1..] == [] && [0x20AC][1..] == [] && [0xD83D, 0xDE00][2..] == [];
  }
}
