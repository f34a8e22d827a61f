/** The stream that is hashed for a proposal, and the byte order of hashes. */
module HashPreimage {
  import opened Answers
  import opened Utf
  import J = CanonicalJson

  // ---------------------------------------------------------------- integers

  /** n bytes, least significant first. */
  function LittleEndian(v: nat, n: nat): (b: seq<Byte>)
    ensures |b| == n
    decreases n, v
  {
    if n == 0 then [] else [v % 256] + LittleEndian(v / 256, n - 1)
  }

  function FromLittleEndian(b: seq<Byte>): nat { if b == [] then 0 else b[0] + 256 * FromLittleEndian(b[1..]) }

  function Pow256(n: nat): (r: nat)
    ensures r >= 1
  {
    if n == 0 then 1 else 256 * Pow256(n - 1)
  }

  lemma {:induction false} LittleEndianRoundTrip(v: nat, n: nat)
    requires v < Pow256(n)
    ensures FromLittleEndian(LittleEndian(v, n)) == v
  {
    if n > 0 {
      LittleEndianRoundTrip(v / 256, n - 1);
      assert LittleEndian(v, n)[1..] == LittleEndian(v / 256, n - 1);
    }
  }

  function Unsigned(v: int, n: nat): (r: nat)
    requires -(Pow256(n) as int) <= 2 * v < Pow256(n)
    ensures r < Pow256(n)
  {
    var m: int := Pow256(n);
    if v < 0 then v + m else v
  }

  /** Two's complement in n bytes. */
  function SignedLittleEndian(v: int, n: nat): (b: seq<Byte>)
    requires -(Pow256(n) as int) <= 2 * v < Pow256(n)
    ensures |b| == n
  {
    LittleEndian(Unsigned(v, n), n)
  }

  function FromSigned(b: seq<Byte>): int {
    var v: int, m: int := FromLittleEndian(b), Pow256(|b|);
    if 2 * v >= m then v - m else v
  }

  lemma SignedRoundTrip(v: int, n: nat)
    requires -(Pow256(n) as int) <= 2 * v < Pow256(n)
    ensures FromSigned(SignedLittleEndian(v, n)) == v
  {
    LittleEndianRoundTrip(Unsigned(v, n), n);
  }

  lemma Powers()
    ensures Pow256(2) == 0x1_0000 && Pow256(4) == 0x1_0000_0000 && Pow256(8) == 0x1_0000_0000_0000_0000
  {
    assert Pow256(4) == 256 * 256 * Pow256(2);
    assert Pow256(6) == 256 * 256 * Pow256(4);
    assert Pow256(8) == 256 * 256 * Pow256(6);
  }

  /** The length prefix in one, three, five or nine bytes. */
  function CompactSize(n: nat): (b: seq<Byte>)
    requires n < 0x1_0000_0000_0000_0000
    ensures b != []
  {
    if n < 253 then [n]
    else if n <= 0xFFFF then [0xFD] + LittleEndian(n, 2)
    else if n <= 0xFFFF_FFFF then [0xFE] + LittleEndian(n, 4)
    else [0xFF] + LittleEndian(n, 8)
  }

  function Width(lead: Byte): nat { if lead < 0xFD then 0 else if lead == 0xFD then 2 else if lead == 0xFE then 4 else 8 }

  function ReadCompactSize(b: seq<Byte>): Option<(nat, seq<Byte>)> {
    if b == [] || |b| < 1 + Width(b[0]) then None
    else if b[0] < 0xFD then Some((b[0], b[1..]))
    else Some((FromLittleEndian(b[1..1 + Width(b[0])]), b[1 + Width(b[0])..]))
  }

  lemma WideSize(lead: Byte, n: nat, rest: seq<Byte>)
    requires 0xFD <= lead && n < Pow256(Width(lead))
    ensures ReadCompactSize([lead] + LittleEndian(n, Width(lead)) + rest) == Some((n, rest))
  {
    var b := [lead] + LittleEndian(n, Width(lead)) + rest;
    assert b[1..1 + Width(lead)] == LittleEndian(n, Width(lead));
    assert b[1 + Width(lead)..] == rest;
    LittleEndianRoundTrip(n, Width(lead));
  }

  /** A length prefix is read back and nothing after it is touched. */
  lemma CompactSizeRoundTrip(n: nat, rest: seq<Byte>)
    requires n < 0x1_0000_0000_0000_0000
    ensures ReadCompactSize(CompactSize(n) + rest) == Some((n, rest))
  {
    Powers();
    if 253 <= n { WideSize(if n <= 0xFFFF then 0xFD else if n <= 0xFFFF_FFFF then 0xFE else 0xFF, n, rest); }
  }

  /** n bytes written into a buffer, the rest of it left alone. */
  method WriteLittleEndian(b: array<Byte>, at: nat, v: nat, n: nat)
    requires at + n <= b.Length
    modifies b
    ensures b[..] == old(b[..at]) + LittleEndian(v, n) + old(b[at + n..])
  {
    var rest := v;
    for i := 0 to n
      invariant 0 <= rest && LittleEndian(v, n) == LittleEndian(v, n)[..i] + LittleEndian(rest, n - i)
      invariant b[..at + i] == old(b[..at]) + LittleEndian(v, n)[..i]
      invariant b[at + i..] == old(b[at + i..])
    {
      assert LittleEndian(rest, n - i)[0] == rest % 256;
      assert LittleEndian(v, n)[i] == rest % 256;
      b[at + i] := rest % 256;
      rest := rest / 256;
    }
  }

  method WriteCompactSize(n: nat) returns (b: array<Byte>)
    requires n < 0x1_0000_0000_0000_0000
    ensures fresh(b) && b[..] == CompactSize(n)
  {
    if n < 253 {
      b := new Byte[1][n];
      return;
    }
    var lead, width := 0xFF, 8;
    if n <= 0xFFFF { lead, width := 0xFD, 2; } else if n <= 0xFFFF_FFFF { lead, width := 0xFE, 4; }
    b := new Byte[1 + width];
    b[0] := lead;
    WriteLittleEndian(b, 1, n, width);
    assert b[..] == [lead] + LittleEndian(n, width) + [];
  }

  // ---------------------------------------------------------------- the stream

  function Zeros(n: nat): (b: seq<Byte>)
    ensures |b| == n
  {
    seq(n, _ => 0)
  }

  function Chars(s: string): (b: seq<Byte>)
    requires IsAscii(s)
    ensures |b| == |s|
  {
    seq(|s|, i requires 0 <= i < |s| => s[i] as int)
  }

  predicate Fits(revision: int, time: int, hex: string) {
    && -0x8000_0000 <= revision < 0x8000_0000 && 0 < time < 0x8000_0000_0000_0000
    && IsAscii(hex) && |hex| < 0x1_0000_0000_0000_0000
  }

  /** No masternode outpoint and no signature: a null hash, an index of ones, an empty length. */
  function Suffix(): seq<Byte> { Zeros(32) + [0xFF, 0xFF, 0xFF, 0xFF] + CompactSize(0) }

  function Stream(parent: seq<Byte>, revision: int, time: int, hex: string): seq<Byte>
    requires |parent| == 32 && Fits(revision, time, hex)
  {
    Powers();
    parent + (SignedLittleEndian(revision, 4) + (SignedLittleEndian(time, 8) + (CompactSize(|hex|) + (Chars(hex) + Suffix()))))
  }

  // ---------------------------------------------------------------- the layout, byte by byte

  lemma Three(a: seq<Byte>, b: seq<Byte>, c: seq<Byte>)
    ensures var s := a + (b + c); var k := |a| + |b|; |s| == k + |c| && s[..|a|] == a && s[|a|..k] == b && s[k..] == c
  {
  }

  /** A piece of what follows position k, from position k on. */
  lemma Behind(s: seq<Byte>, k: nat, i: nat, j: nat)
    requires k <= |s| && i <= j <= |s| - k
    ensures s[k..][i..j] == s[k + i..k + j] && s[k..][j..] == s[k + j..]
  {
  }

  /** The pieces of a nested concatenation, by position. */
  lemma Pieces(a: seq<Byte>, b: seq<Byte>, c: seq<Byte>, d: seq<Byte>, e: seq<Byte>, f: seq<Byte>)
    ensures var s := a + (b + (c + (d + (e + f))));
            var j := |a|; var k := j + |b|; var l := k + |c|; var m := l + |d|; var n := m + |e|;
            && |s| == n + |f|
            && s[..j] == a && s[j..k] == b && s[k..l] == c && s[l..m] == d && s[m..n] == e && s[n..] == f
  {
    var t := c + (d + (e + f));
    var s := a + (b + t);
    var k := |a| + |b|;
    Three(a, b, t);
    Three(c, d, e + f);
    Behind(s, k, 0, |c|);
    Behind(s, k, |c|, |c| + |d|);
    var m := k + |c| + |d|;
    assert s[m..] == e + f;
    Behind(s, m, 0, |e|);
  }

  lemma Digits2(v: nat)
    ensures LittleEndian(v, 2) == [v % 0x100, v / 0x100 % 0x100]
  {
    assert LittleEndian(v, 2) == [v % 256] + LittleEndian(v / 256, 1);
    assert LittleEndian(v / 256, 1) == [v / 256 % 256] + LittleEndian(v / 256 / 256, 0);
  }

  lemma Digits4(v: nat)
    ensures LittleEndian(v, 4) == [v % 0x100, v / 0x100 % 0x100, v / 0x1_0000 % 0x100, v / 0x100_0000 % 0x100]
  {
    Digits2(v / 0x1_0000);
    assert LittleEndian(v, 4) == [v % 256] + LittleEndian(v / 256, 3);
    assert LittleEndian(v / 256, 3) == [v / 256 % 256] + LittleEndian(v / 256 / 256, 2);
    assert v / 256 / 256 == v / 0x1_0000 && v / 0x1_0000 / 0x100 == v / 0x100_0000;
  }

  lemma Digits8(v: nat)
    ensures LittleEndian(v, 8) == EightBytes(v)
  {
    var h := v / 0x1_0000_0000;
    Digits4(v);
    Digits4(h);
    FourAndRest(v, 4);
    assert v / 0x100_0000 / 0x100 == h;
    assert h / 0x100 == v / 0x100_0000_0000;
    assert h / 0x1_0000 == v / 0x1_0000_0000_0000;
    assert h / 0x100_0000 == v / 0x100_0000_0000_0000;
  }

  lemma FourAndRest(v: nat, n: nat)
    ensures LittleEndian(v, 4 + n) == LittleEndian(v, 4) + LittleEndian(v / 0x1_0000_0000, n)
  {
    var a, b, c, d := v / 256, v / 0x1_0000, v / 0x100_0000, v / 0x1_0000_0000;
    assert a / 256 == b && b / 256 == c && c / 256 == d;
    assert LittleEndian(v, 4 + n) == [v % 256] + LittleEndian(a, 3 + n);
    assert LittleEndian(a, 3 + n) == [a % 256] + LittleEndian(b, 2 + n);
    assert LittleEndian(b, 2 + n) == [b % 256] + LittleEndian(c, 1 + n);
    assert LittleEndian(c, 1 + n) == [c % 256] + LittleEndian(d, n);
    Digits4(v);
  }

  /** How many bytes the length prefix has. */
  function PrefixWidth(n: nat): nat { if n < 253 then 1 else if n <= 65535 then 3 else if n <= 4294967295 then 5 else 9 }

  /** Eight bytes, least significant first. */
  function EightBytes(v: nat): seq<Byte> {
    [v % 0x100, v / 0x100 % 0x100, v / 0x1_0000 % 0x100, v / 0x100_0000 % 0x100, v / 0x1_0000_0000 % 0x100,
     v / 0x100_0000_0000 % 0x100, v / 0x1_0000_0000_0000 % 0x100, v / 0x100_0000_0000_0000 % 0x100]
  }

  /** The length prefix, byte by byte. */
  lemma PrefixBytes(n: nat)
    requires n < 0x1_0000_0000_0000_0000
    ensures |CompactSize(n)| == PrefixWidth(n)
    ensures n < 253 ==> CompactSize(n) == [n]
    ensures 253 <= n <= 65535 ==> CompactSize(n) == [253, n % 256, n / 256]
    ensures 65536 <= n <= 4294967295 ==> CompactSize(n) == [254, n % 256, n / 256 % 256, n / 65536 % 256, n / 16777216]
    ensures 4294967296 <= n ==> CompactSize(n) == [255] + EightBytes(n)
  {
    if 253 <= n <= 65535 { Digits2(n); }
    else if 65536 <= n <= 4294967295 { Digits4(n); }
    else if 4294967296 <= n { Digits8(n); }
  }

  /** Two's complement. */
  function Word(v: int, size: int): int { if v < 0 then v + size else v }

  /** What is hashed, byte by byte: the parent; the revision in four bytes and the time in
      eight, least significant first; the length of the hexadecimal, then its characters; and
      at the end a null outpoint hash, an index of all ones and the length of no signature. */
  lemma Layout(parent: seq<Byte>, revision: int, time: int, hex: string)
    requires |parent| == 32 && Fits(revision, time, hex)
    ensures var s, w, r := Stream(parent, revision, time, hex), PrefixWidth(|hex|), Word(revision, 4294967296);
            && |s| == 44 + w + |hex| + 37
            && s[..32] == parent
            && s[32..36] == [r % 256, r / 256 % 256, r / 65536 % 256, r / 16777216]
            && s[36..44] == EightBytes(time)
            && s[44..44 + w] == CompactSize(|hex|)
            && s[44 + w..44 + w + |hex|] == seq(|hex|, i requires 0 <= i < |hex| => hex[i] as int)
            && s[44 + w + |hex|..] == seq(32, _ => 0) + [255, 255, 255, 255, 0]
  {
    var rev, at, prefix, chars, suffix := SignedLittleEndian(revision, 4), SignedLittleEndian(time, 8), CompactSize(|hex|), Chars(hex), Suffix();
    var s := Stream(parent, revision, time, hex);
    Powers();
    PrefixBytes(|hex|);
    Pieces(parent, rev, at, prefix, chars, suffix);
    RevisionBytes(revision);
    Digits8(time);
    SuffixBytes();
  }

  lemma RevisionBytes(revision: int)
    requires -0x8000_0000 <= revision < 0x8000_0000 && Pow256(4) == 0x1_0000_0000
    ensures var r := Word(revision, 4294967296); SignedLittleEndian(revision, 4) == [r % 256, r / 256 % 256, r / 65536 % 256, r / 16777216]
  {
    Digits4(Word(revision, 4294967296));
  }

  lemma SuffixBytes()
    ensures Suffix() == seq(32, _ => 0) + [255, 255, 255, 255, 0]
  {
  }

  datatype Object = Object(parent: seq<Byte>, revision: int, time: int, hex: string)

  function Take(b: seq<Byte>, n: nat): Option<(seq<Byte>, seq<Byte>)> { if n <= |b| then Some((b[..n], b[n..])) else None }

  function ReadStream(b: seq<Byte>, suffix: seq<Byte>): Option<Object> {
    var (parent, b1) :- Take(b, 32);
    var (revision, b2) :- Take(b1, 4);
    var (time, b3) :- Take(b2, 8);
    var (n, b4) :- ReadCompactSize(b3);
    var (hex, b5) :- Take(b4, n);
    if b5 == suffix then Some(Object(parent, FromSigned(revision), FromSigned(time), seq(n, i requires 0 <= i < n => hex[i] as char))) else None
  }

  lemma TakeOf(a: seq<Byte>, rest: seq<Byte>)
    ensures Take(a + rest, |a|) == Some((a, rest))
  {
  }

  /** The stream determines everything that is hashed. */
  lemma StreamRoundTrip(parent: seq<Byte>, revision: int, time: int, hex: string)
    requires |parent| == 32 && Fits(revision, time, hex)
    ensures ReadStream(Stream(parent, revision, time, hex), Suffix()) == Some(Object(parent, revision, time, hex))
  {
    Powers();
    var rev, at, suffix := SignedLittleEndian(revision, 4), SignedLittleEndian(time, 8), Suffix();
    var b4 := Chars(hex) + suffix;
    var b3 := CompactSize(|hex|) + b4;
    TakeOf(parent, rev + (at + b3));
    TakeOf(rev, at + b3);
    TakeOf(at, b3);
    CompactSizeRoundTrip(|hex|, b4);
    TakeOf(Chars(hex), suffix);
    SignedRoundTrip(revision, 4);
    SignedRoundTrip(time, 8);
    assert seq(|hex|, i requires 0 <= i < |hex| => Chars(hex)[i] as char) == hex;
  }

  /** From the fields of a proposal to the stream: no two proposals are hashed from the same
      bytes. */
  lemma PreimageIsInjective(parent: seq<Byte>, revision: int, time: int, p: J.Payload,
                            parent': seq<Byte>, revision': int, time': int, p': J.Payload)
    requires |parent| == 32 && Fits(revision, time, J.DataHex(p))
    requires |parent'| == 32 && Fits(revision', time', J.DataHex(p'))
    requires Stream(parent, revision, time, J.DataHex(p)) == Stream(parent', revision', time', J.DataHex(p'))
    ensures parent == parent' && revision == revision' && time == time' && p == p'
  {
    StreamRoundTrip(parent, revision, time, J.DataHex(p));
    StreamRoundTrip(parent', revision', time', J.DataHex(p'));
    J.DataHexRoundTrip(p);
    J.DataHexRoundTrip(p');
  }

  // ---------------------------------------------------------------- inputs as text

  datatype Refusal = BadRevision | BadTime | BadParent | BadHex

  datatype Prepared = Prepared(stream: seq<Byte>) | Refused(why: Refusal)

  function LowerHex(c: char): char { if 'A' <= c <= 'F' then (c as int + 32) as char else c }

  predicate IsHex(c: char) { IsLowerHex(LowerHex(c)) }

  function Lower(s: string): (r: string)
    ensures |r| == |s|
  {
    seq(|s|, i requires 0 <= i < |s| => LowerHex(s[i]))
  }

  function Reverse(b: seq<Byte>): (r: seq<Byte>)
    ensures |r| == |b| && forall i :: 0 <= i < |b| ==> r[i] == b[|b| - 1 - i]
  {
    seq(|b|, i requires 0 <= i < |b| => b[|b| - 1 - i])
  }

  predicate IsHash(s: string) { |s| == 64 && forall i :: 0 <= i < |s| ==> IsHex(s[i]) }

  /** The bytes of a hash as it is displayed, turned into the order of the stream. */
  function FromDisplay(s: string): (r: Option<seq<Byte>>)
    ensures r.Some? ==> |r.value| == 32
  {
    if !IsHash(s) then None
    else
      var b :- Unhex(Lower(s));
      if |b| == 32 then Some(Reverse(b)) else None
  }

  function ToDisplay(b: seq<Byte>): string { Hex(Reverse(b)) }

  function ParentBytes(s: string): (r: Option<seq<Byte>>)
    ensures r.Some? ==> |r.value| == 32
  {
    if s == "" || s == "0" then Some(Zeros(32)) else FromDisplay(s)
  }

  function DataText(s: string): Option<string> {
    if (forall i :: 0 <= i < |s| ==> IsHex(s[i])) && |s| % 2 == 0 then Some(Lower(s)) else None
  }

  /** The stream for textual inputs, or why there is none. */
  function Prepare(parent: string, revision: int, time: int, data: string): Prepared {
    if time <= 0 then Refused(BadTime)
    else if ParentBytes(parent).None? then Refused(BadParent)
    else if DataText(data).None? then Refused(BadHex)
    else if !(-0x8000_0000 <= revision < 0x8000_0000) then Refused(BadRevision)
    else if time >= 0x8000_0000_0000_0000 then Refused(BadTime)
    else if |data| >= 0x1_0000_0000_0000_0000 then Refused(BadHex)
    else Prepared(Stream(ParentBytes(parent).value, revision, time, DataText(data).value))
  }

  lemma ReverseTwice(b: seq<Byte>)
    ensures Reverse(Reverse(b)) == b
  {
  }

  lemma LowerKeeps(s: string)
    requires forall i :: 0 <= i < |s| ==> IsLowerHex(s[i])
    ensures Lower(s) == s
  {
  }

  /** The two converters undo each other: every hash has one display, and every display that
      is accepted shows its hash, in small letters. */
  lemma ConvertersAreInverse(b: seq<Byte>, s: string)
    ensures |b| == 32 ==> FromDisplay(ToDisplay(b)) == Some(b)
    ensures FromDisplay(s).Some? ==> ToDisplay(FromDisplay(s).value) == Lower(s)
    ensures IsHash(s) ==> FromDisplay(s).Some?
  {
    if |b| == 32 {
      LowerKeeps(ToDisplay(b));
      HexRoundTrip(Reverse(b));
      ReverseTwice(b);
    }
    if IsHash(s) {
      UnhexOfHex(Lower(s));
      UnhexRoundTrip(Lower(s));
      ReverseTwice(Unhex(Lower(s)).value);
    }
  }

  /** A hash is displayed with its last byte first. */
  lemma DisplayIsReversed(b: seq<Byte>, i: nat)
    requires |b| == 32 && i < 32
    ensures |ToDisplay(b)| == 64
    ensures ToDisplay(b)[2 * i] == DIGITS[b[31 - i] / 16] && ToDisplay(b)[2 * i + 1] == DIGITS[b[31 - i] % 16]
  {
    HexAt(Reverse(b), i);
  }

  /** No parent, or the parent whose display is given. */
  lemma ParentIsReversed(s: string, i: nat)
    requires ParentBytes(s).Some? && i < 32
    ensures s == "0" || s == "" ==> ParentBytes(s).value[i] == 0
    ensures s != "0" && s != "" ==>
              |s| == 64 && LowerHex(s[62 - 2 * i]) == DIGITS[ParentBytes(s).value[i] / 16] && LowerHex(s[63 - 2 * i]) == DIGITS[ParentBytes(s).value[i] % 16]
  {
    if s != "0" && s != "" {
      ConvertersAreInverse([], s);
      DisplayIsReversed(ParentBytes(s).value, 31 - i);
    }
  }

  lemma {:induction false} UnhexOfHex(s: string)
    requires |s| % 2 == 0 && forall i :: 0 <= i < |s| ==> IsLowerHex(s[i])
    ensures Unhex(s).Some? && |Unhex(s).value| == |s| / 2
  {
    if s != "" { UnhexOfHex(s[2..]); }
  }

  /** The digits that are accepted, and how capitals are written down. */
  lemma HexIsListed(c: char)
    ensures IsHex(c) <==> c in DIGITS + "ABCDEF"
    ensures c !in "ABCDEF" ==> LowerHex(c) == c
    ensures forall i :: 0 <= i < 6 ==> LowerHex("ABCDEF"[i]) == DIGITS[10 + i]
  {
    assert DIGITS + "ABCDEF" == "0123456789abcdefABCDEF";
  }

  predicate Listed(s: string) { forall i :: 0 <= i < |s| ==> s[i] in DIGITS + "ABCDEF" }

  lemma ListedIsHex(s: string)
    ensures Listed(s) <==> forall i :: 0 <= i < |s| ==> IsHex(s[i])
  {
    forall i | 0 <= i < |s|
      ensures IsHex(s[i]) <==> s[i] in DIGITS + "ABCDEF"
    {
      HexIsListed(s[i]);
    }
  }

  /** A stream is built exactly for no parent or one of 64 digits, hexadecimal of even length, a
      revision of 32 bits and a positive time of 64; a refusal names what is wrong. */
  lemma PreparedExactly(parent: string, revision: int, time: int, data: string)
    ensures Prepare(parent, revision, time, data).Prepared? <==>
              && (parent == "" || parent == "0" || (|parent| == 64 && Listed(parent)))
              && Listed(data) && |data| % 2 == 0 && |data| <= 18446744073709551615
              && -2147483648 <= revision <= 2147483647 && 0 < time <= 9223372036854775807
    ensures match Prepare(parent, revision, time, data)
            case Refused(BadTime) => time <= 0 || time > 9223372036854775807
            case Refused(BadParent) => parent != "" && parent != "0" && !(|parent| == 64 && Listed(parent))
            case Refused(BadHex) => !Listed(data) || |data| % 2 != 0 || |data| > 18446744073709551615
            case Refused(BadRevision) => revision < -2147483648 || 2147483647 < revision
            case Prepared(_) => true
  {
    ListedIsHex(parent);
    ListedIsHex(data);
    ConvertersAreInverse([], parent);
  }

  lemma PreparedMeans(parent: string, revision: int, time: int, data: string)
    requires Prepare(parent, revision, time, data).Prepared?
    ensures ParentBytes(parent).Some? && Fits(revision, time, Lower(data))
    ensures Prepare(parent, revision, time, data).stream == Stream(ParentBytes(parent).value, revision, time, Lower(data))
  {
  }

  /** Over textual inputs: equal streams come from the same parent bytes, revision, time and
      payload. Only the spelling of the hexadecimal may differ. */
  lemma PreparedIsInjective(parent: string, revision: int, time: int, data: string, p: J.Payload,
                            parent': string, revision': int, time': int, data': string, p': J.Payload)
    requires Prepare(parent, revision, time, data).Prepared?
    requires Prepare(parent, revision, time, data) == Prepare(parent', revision', time', data')
    requires Lower(data) == J.DataHex(p) && Lower(data') == J.DataHex(p')
    ensures ParentBytes(parent) == ParentBytes(parent') && revision == revision' && time == time' && p == p'
  {
    PreparedMeans(parent, revision, time, data);
    PreparedMeans(parent', revision', time', data');
    PreimageIsInjective(ParentBytes(parent).value, revision, time, p, ParentBytes(parent').value, revision', time', p');
  }
}
