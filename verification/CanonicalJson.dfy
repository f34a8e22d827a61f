/** The canonical proposal payload: JSON with fixed fields in a fixed order, strings escaped as
    section 7 of RFC 8259 demands, and a reader that takes it apart again. */
module CanonicalJson {
  import opened Answers
  import opened Utf
  import A = Amounts

  const QUOTE: Unit := 0x22
  const BACKSLASH: Unit := 0x5C
  const COMMA: Unit := 0x2C

  // ---------------------------------------------------------------- strings

  function Hex4(u: Unit): (t: Text)
    ensures |t| == 4 && forall i :: 0 <= i < 4 ==> t[i] < 128 && t[i] != QUOTE
  {
    Ascii([HexDigit(u / 0x1000), HexDigit(u / 0x100 % 16), HexDigit(u / 16 % 16), HexDigit(u % 16)])
  }

  /** The letter of a two-character escape. */
  function Short(u: Unit): Option<Unit> {
    match u
    case 0x22 => Some(0x22)
    case 0x5C => Some(0x5C)
    case 0x08 => Some(0x62)
    case 0x09 => Some(0x74)
    case 0x0A => Some(0x6E)
    case 0x0C => Some(0x66)
    case 0x0D => Some(0x72)
    case _ => None
  }

  predicate MustEscape(u: Unit) { u < 0x20 || High(u) || Low(u) }

  function EscapeOne(u: Unit): (t: Text)
    ensures t != []
  {
    if Short(u).Some? then [BACKSLASH, Short(u).value]
    else if MustEscape(u) then [BACKSLASH, 0x75] + Hex4(u)
    else [u]
  }

  /** Pairs of surrogates stay as they are, lone ones are escaped. */
  function Escape(s: Text): Text {
    if s == [] then []
    else if Paired(s) then s[..2] + Escape(s[2..])
    else EscapeOne(s[0]) + Escape(s[1..])
  }

  function Long(letter: Unit): Option<Unit> {
    match letter
    case 0x22 => Some(0x22)
    case 0x5C => Some(0x5C)
    case 0x2F => Some(0x2F)
    case 0x62 => Some(0x08)
    case 0x74 => Some(0x09)
    case 0x6E => Some(0x0A)
    case 0x66 => Some(0x0C)
    case 0x72 => Some(0x0D)
    case _ => None
  }

  function HexUnit(u: Unit): Option<nat> { if u < 128 then HexValue(u as char) else None }

  function ReadHex4(t: Text): Option<Unit>
    requires |t| == 4
  {
    var a :- HexUnit(t[0]);
    var b :- HexUnit(t[1]);
    var c :- HexUnit(t[2]);
    var d :- HexUnit(t[3]);
    if a < 16 && b < 16 && c < 16 && d < 16 then Some(a * 0x1000 + b * 0x100 + c * 16 + d) else None
  }

  /** One unit of a string and the number of units it was written with. */
  function ReadUnit(t: Text): Option<(Unit, nat)>
    requires t != []
  {
    if t[0] == QUOTE then None
    else if t[0] != BACKSLASH then Some((t[0], 1))
    else if |t| < 2 then None
    else if t[1] == 0x75 then
      if |t| < 6 then None
      else
        var u :- ReadHex4(t[2..6]);
        Some((u, 6))
    else
      var u :- Long(t[1]);
      Some((u, 2))
  }

  /** The string up to its closing quote, and what follows it. */
  function ReadString(t: Text): Option<(Text, Text)>
    decreases |t|
  {
    if t == [] then None
    else if t[0] == QUOTE then Some(([], t[1..]))
    else
      var (u, n) :- ReadUnit(t);
      if n == 0 || |t| < n then None
      else
        var (s, rest) :- ReadString(t[n..]);
        Some(([u] + s, rest))
  }

  lemma Hex4RoundTrip(u: Unit)
    ensures ReadHex4(Hex4(u)) == Some(u)
  {
    HexDigitValue(u / 0x1000);
    HexDigitValue(u / 0x100 % 16);
    HexDigitValue(u / 16 % 16);
    HexDigitValue(u % 16);
    var q := u / 16;
    assert u == q * 16 + u % 16;
    assert q / 16 == u / 0x100 && q == q / 16 * 16 + q % 16;
    var p := q / 16;
    assert p / 16 == u / 0x1000 && p == p / 16 * 16 + p % 16;
  }

  lemma ReadEscaped(u: Unit, rest: Text)
    ensures ReadUnit(EscapeOne(u) + rest) == Some((u, |EscapeOne(u)|))
  {
    var t := EscapeOne(u) + rest;
    if Short(u).None? && MustEscape(u) {
      assert t[2..6] == Hex4(u);
      Hex4RoundTrip(u);
    }
  }

  lemma ReadStringStep(u: Unit, front: Text, t: Text, s: Text, rest: Text)
    requires front != [] && ReadUnit(front + t) == Some((u, |front|)) && ReadString(t) == Some((s, rest))
    ensures ReadString(front + t) == Some(([u] + s, rest))
  {
    assert (front + t)[|front|..] == t;
  }

  lemma ReadPair(s: Text, t: Text, rest: Text)
    requires Paired(s) && ReadString(t) == Some((s[2..], rest))
    ensures ReadString(s[..2] + t) == Some((s, rest))
  {
    ReadStringStep(s[1], [s[1]], t, s[2..], rest);
    ReadStringStep(s[0], [s[0]], [s[1]] + t, [s[1]] + s[2..], rest);
    assert s[..2] + t == [s[0]] + ([s[1]] + t);
    assert [s[0]] + ([s[1]] + s[2..]) == s;
  }

  lemma ReadOne(s: Text, t: Text, rest: Text)
    requires s != [] && ReadString(t) == Some((s[1..], rest))
    ensures ReadString(EscapeOne(s[0]) + t) == Some((s, rest))
  {
    ReadEscaped(s[0], t);
    ReadStringStep(s[0], EscapeOne(s[0]), t, s[1..], rest);
    assert [s[0]] + s[1..] == s;
  }

  lemma Regroup(a: Text, b: Text, c: Text, d: Text)
    ensures (a + b) + c + d == a + (b + c + d)
  {
  }

  /** A string is read back as it was, whatever its units, and whatever follows it. */
  lemma {:induction false} StringRoundTrip(s: Text, rest: Text)
    ensures ReadString(Escape(s) + [QUOTE] + rest) == Some((s, rest))
    decreases |s|
  {
    if s == [] {
      assert Escape(s) + [QUOTE] + rest == [QUOTE] + rest;
    } else if Paired(s) {
      StringRoundTrip(s[2..], rest);
      ReadPair(s, Escape(s[2..]) + [QUOTE] + rest, rest);
      Regroup(s[..2], Escape(s[2..]), [QUOTE], rest);
    } else {
      StringRoundTrip(s[1..], rest);
      ReadOne(s, Escape(s[1..]) + [QUOTE] + rest, rest);
      Regroup(EscapeOne(s[0]), Escape(s[1..]), [QUOTE], rest);
    }
  }

  lemma EscapedOneIsWellFormed(u: Unit)
    ensures WellFormed(EscapeOne(u))
  {
    if Short(u).Some? || MustEscape(u) { AsciiIsWellFormed(EscapeOne(u)); }
    else { assert EscapeOne(u)[1..] == []; }
  }

  /** No lone surrogate is left for the encoding to lose. */
  lemma {:induction false} EscapedIsWellFormed(s: Text)
    ensures WellFormed(Escape(s))
    decreases |s|
  {
    if s == [] {
    } else if Paired(s) {
      EscapedIsWellFormed(s[2..]);
      assert Paired(s[..2]) && s[..2][2..] == [];
      WellFormedConcat(s[..2], Escape(s[2..]));
    } else {
      EscapedIsWellFormed(s[1..]);
      EscapedOneIsWellFormed(s[0]);
      WellFormedConcat(EscapeOne(s[0]), Escape(s[1..]));
    }
  }

  // ---------------------------------------------------------------- numbers

  /** How an integer prints, and how an amount is formatted. */
  function IntText(n: int): (s: string)
    ensures forall i :: 0 <= i < |s| ==> A.IsDigit(s[i]) || s[i] == '-'
  {
    A.Join(n < 0, A.Decimal(if n < 0 then -n else n), "")
  }

  /** An integer prints as its digits without a leading zero, behind a minus exactly if it is
      negative. */
  lemma IntegersAreDigits(n: int)
    ensures n < 0 ==> IntText(n) == "-" + IntText(-n)
    ensures n >= 0 ==> A.AllDigits(IntText(n)) && A.Val(IntText(n)) == n && IntText(n) != "" && (IntText(n)[0] == '0' ==> IntText(n) == "0")
  {
    if n < 0 {
      assert IntText(-n) == A.Decimal(-n);
    } else {
      assert IntText(n) == A.Decimal(n);
    }
  }

  function ReadInt(s: string): Option<int> {
    var (neg, abs) := A.Unsigned(s);
    if abs != "" && A.AllDigits(abs) then Some(A.Signed(neg, A.Val(abs))) else None
  }

  lemma IntRoundTrip(n: int)
    ensures ReadInt(IntText(n)) == Some(n)
  {
    var d := A.Decimal(if n < 0 then -n else n);
    if n < 0 { assert ("-" + d)[1..] == d; } else { assert "" + d == d; }
  }

  /** The units before the next comma, and those behind it. */
  function UntilComma(t: Text): (r: Option<(Text, Text)>)
  {
    if t == [] then None
    else if t[0] == COMMA then Some(([], t[1..]))
    else
      var (a, rest) :- UntilComma(t[1..]);
      Some(([t[0]] + a, rest))
  }

  lemma {:induction false} UntilCommaOf(a: Text, rest: Text)
    requires COMMA !in a
    ensures UntilComma(a + [COMMA] + rest) == Some((a, rest))
  {
    if a == [] {
      assert a + [COMMA] + rest == [COMMA] + rest;
    } else {
      var t := a[1..] + [COMMA] + rest;
      UntilCommaOf(a[1..], rest);
      assert a + [COMMA] + rest == [a[0]] + t;
      assert ([a[0]] + t)[1..] == t;
      assert [a[0]] + a[1..] == a;
    }
  }

  function Chars(t: Text): Option<string> {
    if forall i :: 0 <= i < |t| ==> t[i] < 128 then Some(seq(|t|, i requires 0 <= i < |t| => t[i] as char)) else None
  }

  lemma CharsOfAscii(s: string)
    requires IsAscii(s)
    ensures Chars(Ascii(s)) == Some(s)
  {
    assert Chars(Ascii(s)).value == s;
  }

  // ---------------------------------------------------------------- the payload

  /** The fields that are hashed. Strings are any UTF-16 texts, the numbers any integers. */
  datatype Payload = Payload(name: Text, start: int, end: int, address: Text, sats: int, url: Text)

  /** The text around the fields. */
  datatype Frame = Frame(name: Text, start: Text, end: Text, address: Text, amount: Text, url: Text, close: Text)

  const FRAME := Frame(Ascii("{\"type\":1,\"name\":\""), Ascii(",\"start_epoch\":"), Ascii("\"end_epoch\":"),
                       Ascii("\"payment_address\":\""), Ascii(",\"payment_amount\":"), Ascii("\"url\":\""), Ascii("}"))

  /** The escapes of section 7 of RFC 8259: the quote, the backslash and five control characters
      by a letter, the other control characters and lone surrogates by their number; everything
      else stands for itself. */
  lemma EscapesAreStandard(u: Unit)
    ensures EscapeOne(0x22) == Ascii("\\\"") && EscapeOne(0x5C) == Ascii("\\\\")
    ensures EscapeOne(0x08) == Ascii("\\b") && EscapeOne(0x09) == Ascii("\\t") && EscapeOne(0x0A) == Ascii("\\n")
    ensures EscapeOne(0x0C) == Ascii("\\f") && EscapeOne(0x0D) == Ascii("\\r")
    ensures (u < 0x20 && u !in {0x08, 0x09, 0x0A, 0x0C, 0x0D}) || 0xD800 <= u < 0xE000 ==>
              EscapeOne(u) == Ascii("\\u") + Ascii([DIGITS[u / 4096], DIGITS[u / 256 % 16], DIGITS[u / 16 % 16], DIGITS[u % 16]])
    ensures 0x20 <= u && u != 0x22 && u != 0x5C && !(0xD800 <= u < 0xE000) ==> EscapeOne(u) == [u]
  {
    HexDigitIsListed(u / 4096);
    HexDigitIsListed(u / 256 % 16);
    HexDigitIsListed(u / 16 % 16);
    HexDigitIsListed(u % 16);
  }

  function StringField(key: Text, s: Text): Text { key + Escape(s) + [QUOTE] }

  function NumberField(key: Text, s: string): Text
    requires IsAscii(s)
  {
    key + Ascii(s) + [COMMA]
  }

  function AmountText(sats: int): (s: string)
    ensures IsAscii(s) && ',' !in s && A.Parse(s) == A.Sats(sats)
  {
    AmountIsAscii(sats);
    A.RoundTrip(sats);
    A.Format(sats)
  }

  lemma AmountIsAscii(sats: int)
    ensures IsAscii(A.Format(sats)) && ',' !in A.Format(sats)
  {
    var whole, frac := A.FormatIsMinimal(sats);
  }

  function Tail(f: Frame, p: Payload): Text {
    StringField(f.address, p.address) + (NumberField(f.amount, AmountText(p.sats)) + (StringField(f.url, p.url) + f.close))
  }

  function Epochs(f: Frame, p: Payload): Text {
    NumberField(f.start, IntText(p.start)) + (NumberField(f.end, IntText(p.end)) + Tail(f, p))
  }

  function Write(f: Frame, p: Payload): Text { StringField(f.name, p.name) + Epochs(f, p) }

  /** The canonical text. */
  function Canonical(p: Payload): Text { Write(FRAME, p) }

  function Expect(key: Text, t: Text): Option<Text> { if key <= t then Some(t[|key|..]) else None }

  function ReadStringField(key: Text, t: Text): Option<(Text, Text)> {
    var rest :- Expect(key, t);
    ReadString(rest)
  }

  function ReadNumberField(key: Text, t: Text): Option<(string, Text)> {
    var digits :- Expect(key, t);
    var (number, rest) :- UntilComma(digits);
    var s :- Chars(number);
    Some((s, rest))
  }

  function ReadTail(f: Frame, name: Text, start: int, end: int, t: Text): Option<Payload> {
    var (address, t1) :- ReadStringField(f.address, t);
    var (amount, t2) :- ReadNumberField(f.amount, t1);
    var (url, t3) :- ReadStringField(f.url, t2);
    if t3 == f.close && A.Parse(amount).Sats? then Some(Payload(name, start, end, address, A.Parse(amount).sats, url)) else None
  }

  function ReadIntField(key: Text, t: Text): Option<(int, Text)> {
    var (s, rest) :- ReadNumberField(key, t);
    var n :- ReadInt(s);
    Some((n, rest))
  }

  function ReadEpochs(f: Frame, name: Text, t: Text): Option<Payload> {
    var (start, t1) :- ReadIntField(f.start, t);
    var (end, t2) :- ReadIntField(f.end, t1);
    ReadTail(f, name, start, end, t2)
  }

  /** The reader of the whole payload. */
  function Read(f: Frame, t: Text): Option<Payload> {
    var (name, rest) :- ReadStringField(f.name, t);
    ReadEpochs(f, name, rest)
  }

  lemma StringFieldRead(key: Text, s: Text, rest: Text)
    ensures ReadStringField(key, StringField(key, s) + rest) == Some((s, rest))
  {
    StringRoundTrip(s, rest);
    assert StringField(key, s) + rest == key + (Escape(s) + [QUOTE] + rest);
  }

  lemma NumberFieldRead(key: Text, s: string, rest: Text)
    requires IsAscii(s) && ',' !in s
    ensures ReadNumberField(key, NumberField(key, s) + rest) == Some((s, rest))
  {
    forall i | 0 <= i < |s|
      ensures Ascii(s)[i] != COMMA
    {
      assert s[i] in s;
    }
    UntilCommaOf(Ascii(s), rest);
    CharsOfAscii(s);
    assert NumberField(key, s) + rest == key + (Ascii(s) + [COMMA] + rest);
  }

  lemma TailRead(f: Frame, p: Payload)
    ensures ReadTail(f, p.name, p.start, p.end, Tail(f, p)) == Some(p)
  {
    var t2 := StringField(f.url, p.url) + f.close;
    var t1 := NumberField(f.amount, AmountText(p.sats)) + t2;
    StringFieldRead(f.address, p.address, t1);
    NumberFieldRead(f.amount, AmountText(p.sats), t2);
    StringFieldRead(f.url, p.url, f.close);
  }

  lemma IntFieldRead(key: Text, n: int, rest: Text)
    ensures ReadIntField(key, NumberField(key, IntText(n)) + rest) == Some((n, rest))
  {
    NumberFieldRead(key, IntText(n), rest);
    IntRoundTrip(n);
  }

  lemma EpochsRead(f: Frame, p: Payload)
    ensures ReadEpochs(f, p.name, Epochs(f, p)) == Some(p)
  {
    IntFieldRead(f.start, p.start, NumberField(f.end, IntText(p.end)) + Tail(f, p));
    IntFieldRead(f.end, p.end, Tail(f, p));
    TailRead(f, p);
  }

  /** Whatever frame is written, the fields are read back. */
  lemma WriteRead(f: Frame, p: Payload)
    ensures Read(f, Write(f, p)) == Some(p)
  {
    StringFieldRead(f.name, p.name, Epochs(f, p));
    EpochsRead(f, p);
  }

  predicate AsciiText(t: Text) { forall i :: 0 <= i < |t| ==> t[i] < 128 }

  lemma StringFieldIsWellFormed(key: Text, s: Text)
    requires AsciiText(key)
    ensures WellFormed(StringField(key, s))
  {
    EscapedIsWellFormed(s);
    AsciiIsWellFormed(key);
    AsciiIsWellFormed([QUOTE]);
    WellFormedConcat(key, Escape(s));
    WellFormedConcat(key + Escape(s), [QUOTE]);
  }

  lemma NumberFieldIsWellFormed(key: Text, s: string)
    requires AsciiText(key) && IsAscii(s)
    ensures WellFormed(NumberField(key, s))
  {
    AsciiIsWellFormed(NumberField(key, s));
  }

  lemma ThreeParts(a: Text, b: Text, c: Text)
    requires WellFormed(a) && WellFormed(b) && WellFormed(c)
    ensures WellFormed(a + (b + c))
  {
    WellFormedConcat(b, c);
    WellFormedConcat(a, b + c);
  }

  predicate AsciiFrame(f: Frame) {
    && AsciiText(f.name) && AsciiText(f.start) && AsciiText(f.end)
    && AsciiText(f.address) && AsciiText(f.amount) && AsciiText(f.url) && AsciiText(f.close)
  }

  lemma TailIsWellFormed(f: Frame, p: Payload)
    requires AsciiFrame(f)
    ensures WellFormed(Tail(f, p))
  {
    StringFieldIsWellFormed(f.address, p.address);
    NumberFieldIsWellFormed(f.amount, AmountText(p.sats));
    StringFieldIsWellFormed(f.url, p.url);
    AsciiIsWellFormed(f.close);
    WellFormedConcat(StringField(f.url, p.url), f.close);
    ThreeParts(StringField(f.address, p.address), NumberField(f.amount, AmountText(p.sats)), StringField(f.url, p.url) + f.close);
  }

  lemma WriteIsWellFormed(f: Frame, p: Payload)
    requires AsciiFrame(f)
    ensures WellFormed(Write(f, p))
  {
    StringFieldIsWellFormed(f.name, p.name);
    NumberFieldIsWellFormed(f.start, IntText(p.start));
    NumberFieldIsWellFormed(f.end, IntText(p.end));
    TailIsWellFormed(f, p);
    WellFormedConcat(NumberField(f.end, IntText(p.end)), Tail(f, p));
    ThreeParts(StringField(f.name, p.name), NumberField(f.start, IntText(p.start)), NumberField(f.end, IntText(p.end)) + Tail(f, p));
  }

  lemma FrameIsAscii()
    ensures AsciiFrame(FRAME)
  {
  }

  /** What the chain stores: the UTF-8 bytes of the canonical text, in hexadecimal. */
  function DataHex(p: Payload): string { Hex(Utf8(Canonical(p))) }

  function ReadBytes(f: Frame, s: string): Option<Payload> {
    var bytes :- Unhex(s);
    var text :- FromUtf8(bytes);
    Read(f, text)
  }

  function ReadDataHex(s: string): Option<Payload> { ReadBytes(FRAME, s) }

  lemma BytesRoundTrip(f: Frame, p: Payload)
    requires AsciiFrame(f)
    ensures ReadBytes(f, Hex(Utf8(Write(f, p)))) == Some(p)
  {
    WriteIsWellFormed(f, p);
    Utf8RoundTrip(Write(f, p));
    HexRoundTrip(Utf8(Write(f, p)));
    WriteRead(f, p);
  }

  /** The whole way back, for every payload. */
  lemma DataHexRoundTrip(p: Payload)
    ensures ReadDataHex(DataHex(p)) == Some(p)
  {
    FrameIsAscii();
    BytesRoundTrip(FRAME, p);
  }

  // ---------------------------------------------------------------- the same as a JSON object

  const COLON: Unit := 0x3A

  /** A key as section 4 of RFC 8259 has it: a string and a colon. */
  function KeyText(key: string): Text
    requires IsAscii(key)
  {
    [QUOTE] + Ascii(key) + [QUOTE, COLON]
  }

  function StringText(s: Text): Text { [QUOTE] + Escape(s) + [QUOTE] }

  predicate AsciiKeys(members: seq<(string, Text)>) { forall i :: 0 <= i < |members| ==> IsAscii(members[i].0) }

  /** The members of an object, separated by commas, and what follows them. */
  function Members(members: seq<(string, Text)>, rest: Text): Text
    requires AsciiKeys(members)
  {
    if members == [] then rest
    else KeyText(members[0].0) + (members[0].1 + if |members| == 1 then rest else [COMMA] + Members(members[1..], rest))
  }

  function ObjectText(members: seq<(string, Text)>): Text
    requires AsciiKeys(members)
  {
    Ascii("{") + Members(members, Ascii("}"))
  }

  lemma StringMember(key: Text, s: Text, rest: Text)
    ensures StringField(key + [QUOTE], s) + rest == key + (StringText(s) + rest)
  {
    var q: Text, e := [QUOTE], Escape(s);
    Regrouped(key, q, e, q, rest);
  }

  lemma Regrouped(a: Text, b: Text, c: Text, d: Text, e: Text)
    ensures ((a + b) + c + d) + e == a + ((b + c + d) + e)
  {
  }

  lemma NumberMember(key: Text, s: string, rest: Text)
    requires IsAscii(s)
    ensures NumberField(key, s) + rest == key + (Ascii(s) + ([COMMA] + rest))
    ensures NumberField([COMMA] + key, s) + rest == [COMMA] + (key + (Ascii(s) + ([COMMA] + rest)))
  {
  }

  lemma Members1(key: string, value: Text, rest: Text)
    requires IsAscii(key)
    ensures Members([(key, value)], rest) == KeyText(key) + (value + rest)
  {
  }

  lemma MembersMore(key: string, value: Text, more: seq<(string, Text)>, rest: Text)
    requires IsAscii(key) && AsciiKeys(more) && more != []
    ensures AsciiKeys([(key, value)] + more)
    ensures Members([(key, value)] + more, rest) == KeyText(key) + (value + ([COMMA] + Members(more, rest)))
  {
    assert ([(key, value)] + more)[1..] == more;
  }

  lemma TwoMembers(a: (string, Text), b: (string, Text), more: seq<(string, Text)>, rest: Text)
    requires IsAscii(a.0) && IsAscii(b.0) && AsciiKeys(more) && more != []
    ensures AsciiKeys([a, b] + more)
    ensures Members([a, b] + more, rest)
              == KeyText(a.0) + (a.1 + ([COMMA] + (KeyText(b.0) + (b.1 + ([COMMA] + Members(more, rest))))))
  {
    MembersMore(b.0, b.1, more, rest);
    MembersMore(a.0, a.1, [b] + more, rest);
    assert [a] + ([b] + more) == [a, b] + more;
  }

  /** The keys of the payload in their order. */
  datatype Names = Names(kind: string, name: string, start: string, end: string, address: string, amount: string, url: string)

  const NAMES := Names("type", "name", "start_epoch", "end_epoch", "payment_address", "payment_amount", "url")

  predicate AsciiNames(n: Names) {
    IsAscii(n.kind) && IsAscii(n.name) && IsAscii(n.start) && IsAscii(n.end) && IsAscii(n.address) && IsAscii(n.amount) && IsAscii(n.url)
  }

  /** The text around the fields is made of these keys. */
  predicate MadeOf(f: Frame, n: Names)
    requires AsciiNames(n)
  {
    && f.name == Ascii("{") + (KeyText(n.kind) + (Ascii("1") + ([COMMA] + (KeyText(n.name) + [QUOTE]))))
    && f.start == [COMMA] + KeyText(n.start) && f.end == KeyText(n.end)
    && f.address == KeyText(n.address) + [QUOTE] && f.amount == [COMMA] + KeyText(n.amount)
    && f.url == KeyText(n.url) + [QUOTE] && f.close == Ascii("}")
  }

  function TailPairs(n: Names, p: Payload): seq<(string, Text)> {
    [(n.address, StringText(p.address)), (n.amount, Ascii(AmountText(p.sats)))] + [(n.url, StringText(p.url))]
  }

  function EpochPairs(n: Names, p: Payload): seq<(string, Text)> {
    [(n.start, Ascii(IntText(p.start))), (n.end, Ascii(IntText(p.end)))] + TailPairs(n, p)
  }

  /** The members of the payload: the type, always 1, and the six fields in their order. */
  function Pairs(n: Names, p: Payload): seq<(string, Text)> {
    [(n.kind, Ascii("1")), (n.name, StringText(p.name))] + EpochPairs(n, p)
  }

  lemma TailMembers(f: Frame, n: Names, p: Payload)
    requires AsciiNames(n) && MadeOf(f, n)
    ensures AsciiKeys(TailPairs(n, p)) && Tail(f, p) == Members(TailPairs(n, p), Ascii("}"))
  {
    var c := (n.url, StringText(p.url));
    TailTexts(KeyText(n.address), KeyText(n.amount), KeyText(n.url), p.address, AmountText(p.sats), p.url, Ascii("}"));
    Members1(c.0, c.1, Ascii("}"));
    TwoMembers((n.address, StringText(p.address)), (n.amount, Ascii(AmountText(p.sats))), [c], Ascii("}"));
  }

  lemma TailTexts(j: Text, k: Text, l: Text, s: Text, t: string, u: Text, close: Text)
    requires IsAscii(t)
    ensures StringField(j + [QUOTE], s) + (NumberField([COMMA] + k, t) + (StringField(l + [QUOTE], u) + close))
              == j + (StringText(s) + ([COMMA] + (k + (Ascii(t) + ([COMMA] + (l + (StringText(u) + close)))))))
  {
    StringMember(l, u, close);
    NumberMember(k, t, StringField(l + [QUOTE], u) + close);
    StringMember(j, s, NumberField([COMMA] + k, t) + (StringField(l + [QUOTE], u) + close));
  }

  lemma EpochMembers(f: Frame, n: Names, p: Payload)
    requires AsciiNames(n) && MadeOf(f, n)
    ensures AsciiKeys(EpochPairs(n, p)) && Epochs(f, p) == [COMMA] + Members(EpochPairs(n, p), Ascii("}"))
  {
    TailMembers(f, n, p);
    TwoNumbers(KeyText(n.start), KeyText(n.end), IntText(p.start), IntText(p.end), Tail(f, p));
    TwoMembers((n.start, Ascii(IntText(p.start))), (n.end, Ascii(IntText(p.end))), TailPairs(n, p), Ascii("}"));
  }

  lemma TwoNumbers(j: Text, k: Text, s: string, t: string, rest: Text)
    requires IsAscii(s) && IsAscii(t)
    ensures NumberField([COMMA] + j, s) + (NumberField(k, t) + rest)
              == [COMMA] + (j + (Ascii(s) + ([COMMA] + (k + (Ascii(t) + ([COMMA] + rest))))))
  {
    NumberMember(k, t, rest);
    NumberMember(j, s, NumberField(k, t) + rest);
  }

  lemma HeadMembers(k: Text, one: Text, name: Text, s: Text, rest: Text, open: Text)
    ensures StringField(open + (k + (one + ([COMMA] + (name + [QUOTE])))), s) + rest
              == open + (k + (one + ([COMMA] + (name + (StringText(s) + rest)))))
  {
    var front := open + (k + (one + ([COMMA] + name)));
    assert open + (k + (one + ([COMMA] + (name + [QUOTE])))) == front + [QUOTE];
    StringMember(front, s, rest);
    assert front + (StringText(s) + rest) == open + (k + (one + ([COMMA] + (name + (StringText(s) + rest)))));
  }

  lemma WriteIsObject(f: Frame, n: Names, p: Payload)
    requires AsciiNames(n) && MadeOf(f, n)
    ensures AsciiKeys(Pairs(n, p)) && Write(f, p) == ObjectText(Pairs(n, p))
  {
    EpochMembers(f, n, p);
    HeadMembers(KeyText(n.kind), Ascii("1"), KeyText(n.name), p.name, Epochs(f, p), Ascii("{"));
    TwoMembers((n.kind, Ascii("1")), (n.name, StringText(p.name)), EpochPairs(n, p), Ascii("}"));
  }

  lemma FrameName()
    ensures FRAME.name == Ascii("{") + (KeyText("type") + (Ascii("1") + ([COMMA] + (KeyText("name") + [QUOTE]))))
  {
  }

  lemma FrameEpochs()
    ensures FRAME.start == [COMMA] + KeyText("start_epoch") && FRAME.end == KeyText("end_epoch")
  {
  }

  lemma FrameAddress()
    ensures FRAME.address == KeyText("payment_address") + [QUOTE]
  {
  }

  lemma FrameAmount()
    ensures FRAME.amount == [COMMA] + KeyText("payment_amount") && FRAME.url == KeyText("url") + [QUOTE]
  {
  }

  /** The canonical text is a JSON object of exactly these members in this order, without
      spaces: the type is 1, the name, both epochs as integers, the address, the amount as a
      decimal, and the URL. */
  lemma CanonicalIsObject(p: Payload)
    ensures AsciiKeys(Pairs(NAMES, p)) && Canonical(p) == ObjectText(Pairs(NAMES, p))
  {
    FrameName();
    FrameEpochs();
    FrameAddress();
    FrameAmount();
    WriteIsObject(FRAME, NAMES, p);
  }
}
