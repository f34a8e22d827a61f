/** The unpadded base32 of section 6 of RFC 4648, with the 32-bit accumulators of the loops
    as they are: shifted at every character and never masked. */
module Base32 {
  import opened Answers
  import B = Bits

  type Byte = n: int | 0 <= n < 256
  type Digit = n: int | 0 <= n < 32

  const ALPHABET := "ABCDEFGHIJKLMNOPQRSTUVWXYZ234567"

  const WORD := 0x1_0000_0000

  /** A left shift of a 32-bit word: what passes the top is lost, a digit fills the bits below. */
  function ShiftIn(word: nat, width: nat, digit: nat): nat { (B.Shl(word, width) + digit) % WORD }

  /** An unsigned right shift, masked. */
  function Window(word: nat, shift: nat, width: nat): nat { B.Shr(word, shift) % B.Pow2(width) }

  // ---------------------------------------------------------------- reference

  function BitsOfBytes(b: seq<Byte>): (r: seq<bool>)
    ensures |r| == 8 * |b|
  {
    if b == [] then [] else BitsOfBytes(b[..|b| - 1]) + B.Of(b[|b| - 1], 8)
  }

  function BitsOfDigits(d: seq<Digit>): (r: seq<bool>)
    ensures |r| == 5 * |d|
  {
    if d == [] then [] else BitsOfDigits(d[..|d| - 1]) + B.Of(d[|d| - 1], 5)
  }

  function Zeros(n: nat): (r: seq<bool>)
    ensures |r| == n
  {
    seq(n, _ => false)
  }

  /** What an encoding is: the bits of its digits are those of the bytes and fewer than five zeros. */
  predicate Encodes(d: seq<Digit>, b: seq<Byte>) {
    0 <= 5 * |d| - 8 * |b| < 5 && BitsOfDigits(d) == BitsOfBytes(b) + Zeros(5 * |d| - 8 * |b|)
  }

  /** What a decoding is: the bits of the bytes, then fewer than eight bits that are dropped. */
  predicate Decodes(d: seq<Digit>, b: seq<Byte>) {
    0 <= 5 * |d| - 8 * |b| < 8 && BitsOfBytes(b) == BitsOfDigits(d)[..8 * |b|]
  }

  lemma {:induction false} BytesDetermined(a: seq<Byte>, b: seq<Byte>)
    requires BitsOfBytes(a) == BitsOfBytes(b)
    ensures a == b
  {
    assert 8 * |a| == 8 * |b|;
    if a != [] {
      var n := |a| - 1;
      var p, q, x, y := BitsOfBytes(a[..n]), BitsOfBytes(b[..n]), B.Of(a[n], 8), B.Of(b[n], 8);
      assert p + x == q + y && |p| == |q|;
      assert p == (p + x)[..|p|] && x == (p + x)[|p|..];
      assert q == (q + y)[..|p|] && y == (q + y)[|p|..];
      BytesDetermined(a[..n], b[..n]);
      B.BitsDetermine(a[n], b[n], 8);
      assert a == a[..n] + [a[n]] && b == b[..n] + [b[n]];
    }
  }

  lemma {:induction false} DigitsDetermined(a: seq<Digit>, b: seq<Digit>)
    requires BitsOfDigits(a) == BitsOfDigits(b)
    ensures a == b
  {
    assert 5 * |a| == 5 * |b|;
    if a != [] {
      var n := |a| - 1;
      var p, q, x, y := BitsOfDigits(a[..n]), BitsOfDigits(b[..n]), B.Of(a[n], 5), B.Of(b[n], 5);
      assert p + x == q + y && |p| == |q|;
      assert p == (p + x)[..|p|] && x == (p + x)[|p|..];
      assert q == (q + y)[..|p|] && y == (q + y)[|p|..];
      DigitsDetermined(a[..n], b[..n]);
      B.BitsDetermine(a[n], b[n], 5);
      assert a == a[..n] + [a[n]] && b == b[..n] + [b[n]];
    }
  }

  /** Encoding is a function of the bytes, and decoding undoes it, for every byte sequence. */
  lemma EncodingIsUnique(b: seq<Byte>, c: seq<Byte>, d: seq<Digit>, e: seq<Digit>)
    requires Encodes(d, b)
    ensures Encodes(e, b) ==> e == d
    ensures Decodes(d, c) ==> c == b
    ensures |d| == (8 * |b| + 4) / 5
  {
    if Encodes(e, b) {
      assert |e| == |d|;
      DigitsDetermined(d, e);
    }
    if Decodes(d, c) {
      assert |c| == |b|;
      assert (BitsOfBytes(b) + Zeros(5 * |d| - 8 * |b|))[..8 * |b|] == BitsOfBytes(b);
      BytesDetermined(c, b);
    }
  }

  // ---------------------------------------------------------------- text

  function Letter(d: Digit): char { if d < 26 then ('A' as int + d) as char else ('2' as int + d - 26) as char }

  lemma AlphabetIsLetters(d: Digit)
    ensures |ALPHABET| == 32 && ALPHABET[d] == Letter(d)
  {
    assert ALPHABET == ALPHABET[..16] + ALPHABET[16..];
  }

  function Letters(d: seq<Digit>): (r: string)
    ensures |r| == |d|
  {
    seq(|d|, i requires 0 <= i < |d| => Letter(d[i]))
  }

  function IndexOf(c: char): (r: int)
    ensures -1 <= r < 32 && (0 <= r ==> Letter(r) == c)
  {
    if 'A' <= c <= 'Z' then c as int - 'A' as int else if '2' <= c <= '7' then c as int - '2' as int + 26 else -1
  }

  lemma IndexOfLetter(d: Digit)
    ensures IndexOf(Letter(d)) == d
  {
  }

  /** Upper case, as far as it can lead to letters of the alphabet: besides the small letters,
      a dotless i, a long s, a sharp s and the Latin ligatures. */
  function Upper(c: char): string {
    if 'a' <= c <= 'z' then [(c as int - 32) as char]
    else
      match c
      case '\U{131}' => "I"
      case '\U{17F}' => "S"
      case '\U{DF}' => "SS"
      case '\U{FB00}' => "FF"
      case '\U{FB01}' => "FI"
      case '\U{FB02}' => "FL"
      case '\U{FB03}' => "FFI"
      case '\U{FB04}' => "FFL"
      case '\U{FB05}' => "ST"
      case '\U{FB06}' => "ST"
      case _ => [c]
  }

  function UpperAll(s: string): string { if s == "" then "" else UpperAll(s[..|s| - 1]) + Upper(s[|s| - 1]) }

  lemma {:induction false} UpperOfPlain(s: string, t: string)
    requires |s| == |t| && forall i :: 0 <= i < |s| ==> Upper(s[i]) == [t[i]]
    ensures UpperAll(s) == t
  {
    if s != "" {
      var n := |s| - 1;
      UpperOfPlain(s[..n], t[..n]);
      assert t == t[..n] + [t[n]];
    }
  }

  function StripPad(s: string): (r: string)
    ensures r <= s && (r != [] ==> r[|r| - 1] != '=') && forall i :: |r| <= i < |s| ==> s[i] == '='
  {
    if s != [] && s[|s| - 1] == '=' then StripPad(s[..|s| - 1]) else s
  }

  function Clean(s: string): string { StripPad(UpperAll(s)) }

  /** The digits that a text stands for, in either case, with or without padding. */
  predicate Spells(s: string, d: seq<Digit>) { Clean(s) == Letters(d) }

  // ---------------------------------------------------------------- the loops

  /** Bits taken in follow those that were there, as long as they fit into the word. */
  lemma TakeIn(acc: nat, bits: nat, digit: nat, width: nat)
    requires digit < B.Pow2(width) && bits + width <= 32
    ensures B.Of(ShiftIn(acc, width, digit), bits + width) == B.Of(acc, bits) + B.Of(digit, width)
  {
    PowWord();
    B.Wrap(B.Shl(acc, width) + digit, bits + width, 32);
    B.Append(acc, bits, digit, width);
  }

  lemma PowWord()
    ensures B.Pow2(32) == WORD
  {
    assert B.Pow2(8) == 256;
    assert B.Pow2(16) == 65536;
    assert B.Pow2(24) == 0x100_0000;
  }

  lemma GiveOut(acc: nat, rest: nat, width: nat)
    ensures B.Of(acc, width + rest) == B.Of(Window(acc, rest, width), width) + B.Of(acc, rest)
  {
    B.Split(acc, width, rest);
    B.Wrap(B.Shr(acc, rest), width, width);
  }

  /** The accumulator after one more character of the input. */
  method Push(word: nat, ghost bits: nat, width: nat, digit: nat) returns (next: nat)
    requires digit < B.Pow2(width) && bits + width <= 32
    ensures B.Of(next, bits + width) == B.Of(word, bits) + B.Of(digit, width)
  {
    TakeIn(word, bits, digit, width);
    next := ShiftIn(word, width, digit);
  }

  /** The oldest bits that are still kept in the accumulator. */
  method Oldest(word: nat, rest: nat, width: nat) returns (digit: nat)
    ensures digit < B.Pow2(width)
    ensures B.Of(word, width + rest) == B.Of(digit, width) + B.Of(word, rest)
  {
    GiveOut(word, rest, width);
    digit := Window(word, rest, width);
  }

  lemma BytesOfMore(b: seq<Byte>, x: Byte)
    ensures BitsOfBytes(b + [x]) == BitsOfBytes(b) + B.Of(x, 8)
  {
    assert (b + [x])[..|b|] == b;
  }

  lemma DigitsOfMore(d: seq<Digit>, x: Digit)
    ensures BitsOfDigits(d + [x]) == BitsOfDigits(d) + B.Of(x, 5) && Letters(d + [x]) == Letters(d) + [Letter(x)]
  {
    assert (d + [x])[..|d|] == d;
  }

  /** Concatenation is associative, for bits on their way through the accumulator. */
  lemma Through(a: seq<bool>, b: seq<bool>, c: seq<bool>)
    ensures (a + b) + c == a + (b + c)
  {
  }

  /** The digits that are complete are given out; fewer than five bits stay behind. */
  method Drain(value: nat, bits: nat, s: string, ghost d: seq<Digit>) returns (rest: nat, s': string, ghost d': seq<Digit>)
    requires bits <= 12 && s == Letters(d)
    ensures rest < 5 && s' == Letters(d')
    ensures BitsOfDigits(d') + B.Of(value, rest) == BitsOfDigits(d) + B.Of(value, bits)
  {
    rest, s', d' := bits, s, d;
    assert B.Pow2(5) == 32;
    while rest >= 5
      invariant rest <= bits && s' == Letters(d')
      invariant BitsOfDigits(d') + B.Of(value, rest) == BitsOfDigits(d) + B.Of(value, bits)
    {
      var digit := Oldest(value, rest - 5, 5);
      Through(BitsOfDigits(d'), B.Of(digit, 5), B.Of(value, rest - 5));
      DigitsOfMore(d', digit);
      s', d', rest := s' + [Letter(digit)], d' + [digit], rest - 5;
    }
  }

  method Encode(b: seq<Byte>) returns (s: string, ghost d: seq<Digit>)
    ensures Encodes(d, b) && s == Letters(d) && |s| == (8 * |b| + 4) / 5
  {
    var bits, value := 0, 0;
    s, d := "", [];
    assert B.Pow2(8) == 256 && B.Pow2(5) == 32;
    for i := 0 to |b|
      invariant 0 <= bits < 5 && 0 <= value && s == Letters(d)
      invariant BitsOfDigits(d) + B.Of(value, bits) == BitsOfBytes(b[..i])
    {
      Through(BitsOfDigits(d), B.Of(value, bits), B.Of(b[i], 8));
      BytesOfMore(b[..i], b[i]);
      assert b[..i + 1] == b[..i] + [b[i]];
      value := Push(value, bits, 8, b[i]);
      bits, s, d := Drain(value, bits + 8, s, d);
    }
    assert b[..|b|] == b;
    s, d := FillUp(value, bits, s, d, b);
  }

  /** Bits that are left over make one more digit. */
  method FillUp(value: nat, bits: nat, s: string, ghost d: seq<Digit>, ghost b: seq<Byte>) returns (s': string, ghost d': seq<Digit>)
    requires bits < 5 && s == Letters(d) && BitsOfDigits(d) + B.Of(value, bits) == BitsOfBytes(b)
    ensures Encodes(d', b) && s' == Letters(d') && |s'| == (8 * |b| + 4) / 5
  {
    s', d' := s, d;
    if bits > 0 {
      ghost var kept := B.Of(value, bits);
      var last := Push(value, bits, 5 - bits, 0);
      var digit := Oldest(last, 0, 5);
      LastDigit(d, digit, kept, b);
      s', d' := s + [Letter(digit)], d + [digit];
    } else {
      Complete(d, b, 0);
    }
  }

  lemma Complete(d: seq<Digit>, b: seq<Byte>, pad: nat)
    requires pad < 5 && BitsOfDigits(d) == BitsOfBytes(b) + Zeros(pad)
    ensures Encodes(d, b) && |d| == (8 * |b| + 4) / 5
  {
    assert 5 * |d| == 8 * |b| + pad;
  }

  /** The last digit is filled up with zeros. */
  lemma LastDigit(d: seq<Digit>, digit: Digit, kept: seq<bool>, b: seq<Byte>)
    requires 0 < |kept| < 5 && BitsOfDigits(d) + kept == BitsOfBytes(b) && B.Of(digit, 5) == kept + B.Of(0, 5 - |kept|)
    ensures Encodes(d + [digit], b) && |d + [digit]| == (8 * |b| + 4) / 5
  {
    B.ZeroBits(5 - |kept|);
    DigitsOfMore(d, digit);
    Through(BitsOfDigits(d), kept, Zeros(5 - |kept|));
    Complete(d + [digit], b, 5 - |kept|);
  }

  /** One digit taken in, and a byte given out as soon as eight bits are there. */
  method TakeDigit(acc: nat, bits: nat, idx: Digit, out: seq<Byte>, ghost d: seq<Digit>)
    returns (acc': nat, bits': nat, out': seq<Byte>)
    requires bits < 8 && BitsOfBytes(out) + B.Of(acc, bits) == BitsOfDigits(d)
    ensures bits' < 8 && BitsOfBytes(out') + B.Of(acc', bits') == BitsOfDigits(d + [idx])
  {
    assert B.Pow2(8) == 256 && B.Pow2(5) == 32;
    Through(BitsOfBytes(out), B.Of(acc, bits), B.Of(idx, 5));
    DigitsOfMore(d, idx);
    acc' := Push(acc, bits, 5, idx);
    bits', out' := bits + 5, out;
    if bits' >= 8 {
      var byte := Oldest(acc', bits' - 8, 8);
      Through(BitsOfBytes(out), B.Of(byte, 8), B.Of(acc', bits' - 8));
      BytesOfMore(out, byte);
      out', bits' := out + [byte], bits' - 8;
    }
  }

  /** The loop over the cleaned text; a character that is no digit ends it. */
  method DecodeClean(clean: string) returns (b: Option<seq<Byte>>, ghost d: seq<Digit>)
    ensures b.Some? ==> clean == Letters(d) && Decodes(d, b.value)
    ensures b.None? ==> |d| < |clean| && IndexOf(clean[|d|]) == -1
  {
    var bits, acc := 0, 0;
    var out: seq<Byte> := [];
    d := [];
    for i := 0 to |clean|
      invariant 0 <= bits < 8 && 0 <= acc && |d| == i && clean[..i] == Letters(d)
      invariant BitsOfBytes(out) + B.Of(acc, bits) == BitsOfDigits(d)
    {
      var idx := IndexOf(clean[i]);
      if idx == -1 { return None, d; }
      assert clean[..i + 1] == clean[..i] + [Letter(idx)];
      DigitsOfMore(d, idx);
      acc, bits, out := TakeDigit(acc, bits, idx, out, d);
      d := d + [idx];
    }
    assert clean[..|clean|] == clean;
    assert BitsOfDigits(d)[..8 * |out|] == BitsOfBytes(out);
    b := Some(out);
  }

  /** Decoding fails exactly on a text that spells no digits. */
  method Decode(s: string) returns (b: Option<seq<Byte>>)
    ensures b.Some? <==> exists d :: Spells(s, d)
    ensures forall d :: Spells(s, d) ==> b.Some? && Decodes(d, b.value)
  {
    ghost var d;
    b, d := DecodeClean(Clean(s));
    if b.None? {
      NotSpelled(s, |d|);
    } else {
      assert Spells(s, d);
      forall e | Spells(s, e)
        ensures e == d
      {
        SpellingIsUnique(d, e);
      }
    }
  }

  lemma NotSpelled(s: string, i: nat)
    requires i < |Clean(s)| && IndexOf(Clean(s)[i]) == -1
    ensures forall d :: !Spells(s, d)
  {
    forall d | |d| == |Clean(s)|
      ensures !Spells(s, d)
    {
      IndexOfLetter(d[i]);
      assert Letters(d)[i] == Letter(d[i]);
    }
  }

  lemma SpellingIsUnique(d: seq<Digit>, e: seq<Digit>)
    requires Letters(d) == Letters(e)
    ensures d == e
  {
    assert |d| == |e|;
    forall i | 0 <= i < |d|
      ensures d[i] == e[i]
    {
      assert Letters(d)[i] == Letters(e)[i];
      IndexOfLetter(d[i]);
      IndexOfLetter(e[i]);
    }
  }

  function InCase(s: string, small: seq<bool>): string
    requires |small| == |s|
  {
    seq(|s|, i requires 0 <= i < |s| => if small[i] && 'A' <= s[i] <= 'Z' then (s[i] as int + 32) as char else s[i])
  }

  /** However its letters are cased and however it is padded, an encoding reads as its digits. */
  lemma EncodingIsSpelled(d: seq<Digit>, small: seq<bool>, padding: nat)
    requires |small| == |d|
    ensures Spells(InCase(Letters(d), small) + seq(padding, _ => '='), d)
  {
    UpperOfPlain(InCase(Letters(d), small) + seq(padding, _ => '='), Letters(d) + seq(padding, _ => '='));
    StripPadding(Letters(d), padding);
  }

  lemma {:induction false} StripPadding(s: string, padding: nat)
    requires s != [] ==> s[|s| - 1] != '='
    ensures StripPad(s + seq(padding, _ => '=')) == s
  {
    if padding > 0 {
      var t := s + seq(padding, _ => '=');
      assert t[..|t| - 1] == s + seq(padding - 1, _ => '=');
      StripPadding(s, padding - 1);
    } else {
      assert s + seq(0, _ => '=') == s;
    }
  }

  /** Decoding what was encoded gives the bytes back, for every byte sequence. */
  method RoundTrip(b: seq<Byte>, small: seq<bool>, padding: nat) returns (back: Option<seq<Byte>>)
    requires |small| == (8 * |b| + 4) / 5
    ensures back == Some(b)
  {
    ghost var d;
    var s;
    s, d := Encode(b);
    back := Decode(InCase(s, small) + seq(padding, _ => '='));
    EncodingIsSpelled(d, small, padding);
    EncodingIsUnique(b, back.value, d, d);
  }

  lemma FiveBits(n: nat)
    ensures B.Of(n, 5) == [n / 16 % 2 == 1, n / 8 % 2 == 1, n / 4 % 2 == 1, n / 2 % 2 == 1, n % 2 == 1]
  {
    var a, b, c, d := n / 2, n / 4, n / 8, n / 16;
    assert a / 2 == b && b / 2 == c && c / 2 == d;
    assert B.Of(n, 5) == B.Of(a, 4) + [n % 2 == 1] && B.Of(a, 4) == B.Of(b, 3) + [a % 2 == 1];
    assert B.Of(b, 3) == B.Of(c, 2) + [b % 2 == 1] && B.Of(c, 2) == B.Of(d, 1) + [c % 2 == 1];
    assert B.Of(d, 1) == B.Of(d / 2, 0) + [d % 2 == 1];
  }

  lemma VectorByte()
    ensures BitsOfBytes([0x66]) == B.Of(12, 5) + [true, true, false]
  {
    var b: seq<Byte> := [];
    BytesOfMore(b, 0x66);
    assert b + [0x66] == [0x66];
    B.Split(0x66, 5, 3);
    ThreeBits();
  }

  lemma VectorDigits()
    ensures BitsOfDigits([12, 24]) == B.Of(12, 5) + [true, true, false, false, false]
  {
    var d: seq<Digit>, e: seq<Digit> := [], [12];
    DigitsOfMore(d, 12);
    DigitsOfMore(e, 24);
    assert d + [12] == [12] && e + [24] == [12, 24];
    FiveBits(24);
  }

  lemma VectorText(d: seq<Digit>)
    requires |d| == 2 && d[0] == 12 && d[1] == 24
    ensures Letters(d) == "MY"
  {
    assert Letters(d[..1]) == Letters(d[..1][..0]) + [Letter(d[0])];
  }

  /** The second test vector of section 10 of RFC 4648, without the padding: "f" is "MY". */
  lemma Vector()
    ensures Encodes([12, 24], [0x66]) && Letters([12, 24]) == "MY"
  {
    VectorByte();
    VectorDigits();
    VectorText([12, 24]);
  }

  lemma ThreeBits()
    ensures B.Shr(0x66, 3) == 12 && B.Of(0x66, 3) == [true, true, false]
  {
    assert B.Shr(0x66, 3) == B.Shr(0x33, 2) == B.Shr(25, 1) == B.Shr(12, 0);
    assert B.Of(0x66, 3) == B.Of(0x33, 2) + [false] && B.Of(0x33, 2) == B.Of(25, 1) + [true] && B.Of(25, 1) == B.Of(12, 0) + [true];
  }
}
