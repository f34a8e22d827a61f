/** Exact decimal money: satoshi amounts written as minimal decimals, and decimals or
    JavaScript number texts read back without rounding. */
module Amounts {
  import opened Answers

  const SATS := 100_000_000

  // ---------------------------------------------------------------- digits

  predicate IsDigit(c: char) { '0' <= c <= '9' }

  predicate AllDigits(s: string) { forall i :: 0 <= i < |s| ==> IsDigit(s[i]) }

  function DigitOf(n: nat): char
    requires n < 10
  {
    ('0' as int + n) as char
  }

  /** The number that digits stand for. */
  function Val(s: string): nat
    requires AllDigits(s)
  {
    if s == "" then 0 else 10 * Val(s[..|s| - 1]) + (s[|s| - 1] as int - '0' as int)
  }

  /** A number with k zeros behind it. */
  function Scale(v: nat, k: nat): nat
    decreases k, v
  {
    if k == 0 then v else 10 * Scale(v, k - 1)
  }

  /** Decimal notation without leading zeros. */
  function Decimal(n: nat): (s: string)
    ensures AllDigits(s) && s != "" && Val(s) == n
    ensures s[0] == '0' ==> s == "0"
  {
    if n < 10 then [DigitOf(n)] else Decimal(n / 10) + [DigitOf(n % 10)]
  }

  function Zeros(n: nat): (s: string)
    ensures |s| == n && AllDigits(s)
  {
    seq(n, _ => '0')
  }

  lemma {:induction false} ValOfLeadingZeros(n: nat, s: string)
    requires AllDigits(s)
    ensures AllDigits(Zeros(n) + s) && Val(Zeros(n) + s) == Val(s)
  {
    var t := Zeros(n) + s;
    if s != "" {
      assert t[..|t| - 1] == Zeros(n) + s[..|s| - 1];
      ValOfLeadingZeros(n, s[..|s| - 1]);
    } else {
      assert t == Zeros(n);
      ValOfZeros(n);
    }
  }

  lemma {:induction false} ValOfZeros(n: nat)
    ensures Val(Zeros(n)) == 0
  {
    if n > 0 {
      assert Zeros(n)[..n - 1] == Zeros(n - 1);
      ValOfZeros(n - 1);
    }
  }

  lemma {:induction false} ValOfTrailingZeros(s: string, n: nat)
    requires AllDigits(s)
    ensures AllDigits(s + Zeros(n)) && Val(s + Zeros(n)) == Scale(Val(s), n)
  {
    if n > 0 {
      assert (s + Zeros(n))[..|s| + n - 1] == s + Zeros(n - 1);
      ValOfTrailingZeros(s, n - 1);
    } else {
      assert s + Zeros(0) == s;
    }
  }

  lemma {:induction false} ValOfConcat(a: string, b: string)
    requires AllDigits(a) && AllDigits(b)
    ensures AllDigits(a + b) && Val(a + b) == Scale(Val(a), |b|) + Val(b)
  {
    if b != "" {
      assert (a + b)[..|a + b| - 1] == a + b[..|b| - 1];
      ValOfConcat(a, b[..|b| - 1]);
    } else {
      assert a + b == a;
    }
  }

  lemma {:induction false} ScaleAdds(v: nat, j: nat, k: nat)
    ensures Scale(Scale(v, j), k) == Scale(v, j + k)
  {
    if k > 0 { ScaleAdds(v, j, k - 1); }
  }

  lemma {:induction false} ScaleSum(a: nat, b: nat, k: nat)
    ensures Scale(a + b, k) == Scale(a, k) + Scale(b, k)
  {
    if k > 0 { ScaleSum(a, b, k - 1); }
  }

  // ---------------------------------------------------------------- formatting

  function StripZeros(s: string): (r: string)
    requires AllDigits(s)
    ensures AllDigits(r) && r <= s && s == r + Zeros(|s| - |r|) && (r != "" ==> r[|r| - 1] != '0')
  {
    if s != "" && s[|s| - 1] == '0' then StripZeros(s[..|s| - 1]) else s
  }

  function PadStart(s: string, n: nat): (r: string)
    requires AllDigits(s)
    ensures AllDigits(r) && |r| == (if |s| < n then n else |s|)
  {
    if |s| < n then Zeros(n - |s|) + s else s
  }

  function PadEnd(s: string, n: nat): (r: string)
    requires AllDigits(s)
    ensures AllDigits(r) && |r| == (if |s| < n then n else |s|)
  {
    if |s| < n then s + Zeros(n - |s|) else s
  }

  /** A sign, whole digits, and a point with digits unless there are none. */
  function Join(neg: bool, whole: string, frac: string): string {
    (if neg then "-" else "") + if frac == "" then whole else whole + "." + frac
  }

  function FracDigits(frac: nat): (r: string)
    requires frac < SATS
    ensures AllDigits(r)
  {
    if frac == 0 then "" else StripZeros(PadStart(Decimal(frac), 8))
  }

  function Format(sats: int): string {
    var a: nat := if sats < 0 then -sats else sats;
    Join(sats < 0, Decimal(a / SATS), FracDigits(a % SATS))
  }

  // ---------------------------------------------------------------- parsing

  datatype Parsed = Sats(sats: int) | NotDecimal | TooPrecise

  predicate IsSpace(c: char) {
    c in {'\t', '\n', '\r', ' ', '\U{0B}', '\U{0C}', '\U{A0}', '\U{1680}', '\U{2028}', '\U{2029}', '\U{202F}', '\U{205F}', '\U{3000}', '\U{FEFF}'}
    || '\U{2000}' <= c <= '\U{200A}'
  }

  function TrimLeft(s: string): (r: string)
    ensures r != "" ==> !IsSpace(r[0])
  {
    if s != "" && IsSpace(s[0]) then TrimLeft(s[1..]) else s
  }

  function TrimRight(s: string): (r: string)
    ensures r <= s && (r != "" ==> !IsSpace(r[|r| - 1]))
  {
    if s != "" && IsSpace(s[|s| - 1]) then TrimRight(s[..|s| - 1]) else s
  }

  function Trim(s: string): string { TrimRight(TrimLeft(s)) }

  /** The first point, or the length. */
  function PointIn(s: string): (r: nat)
    ensures r <= |s| && (r < |s| ==> s[r] == '.') && forall i :: 0 <= i < r ==> s[i] != '.'
  {
    if s == "" || s[0] == '.' then 0
    else
      var r := PointIn(s[1..]);
      assert forall i :: 1 <= i < r + 1 ==> s[i] == s[1..][i - 1];
      r + 1
  }

  function Unsigned(s: string): (bool, string) { if s != "" && s[0] == '-' then (true, s[1..]) else (false, s) }

  predicate Reads(s: string, neg: bool, whole: string, frac: string) {
    whole != "" && AllDigits(whole) && AllDigits(frac) && s == Join(neg, whole, frac)
  }

  /** The digits before and after the point, if the text is digits with at most one point
      between them. */
  function Split(abs: string): (r: Option<(string, string)>)
    ensures r.Some? ==> Reads(abs, false, r.value.0, r.value.1)
  {
    var p := PointIn(abs);
    if p == 0 || !AllDigits(abs[..p]) then None
    else if p == |abs| then
      assert abs[..p] == abs;
      Some((abs, ""))
    else if p + 1 == |abs| || !AllDigits(abs[p + 1..]) then None
    else
      assert abs == abs[..p] + "." + abs[p + 1..];
      Some((abs[..p], abs[p + 1..]))
  }

  function Signed(neg: bool, v: nat): int { if neg then -(v as int) else v }

  function Combine(neg: bool, whole: string, frac: string): Parsed
    requires AllDigits(whole) && AllDigits(frac)
  {
    if |frac| > 8 then TooPrecise else Sats(Signed(neg, Val(whole) * SATS + Val(PadEnd(frac, 8))))
  }

  function Parse(input: string): Parsed {
    var (neg, abs) := Unsigned(Trim(input));
    var parts := Split(abs);
    if parts.None? then NotDecimal else Combine(neg, parts.value.0, parts.value.1)
  }

  // ---------------------------------------------------------------- what parsing means

  /** The exact value of v times ten to the power, in satoshis; refused below the eighth
      decimal place. */
  predicate IsSats(r: Parsed, neg: bool, v: nat, power: int) {
    r == if power < -8 then TooPrecise else Sats(Signed(neg, Scale(v, power + 8)))
  }

  lemma {:induction false} PointAfter(whole: string, rest: string)
    requires AllDigits(whole) && (rest == "" || rest[0] == '.')
    ensures PointIn(whole + rest) == |whole|
  {
    if whole != "" {
      assert (whole + rest)[1..] == whole[1..] + rest;
      PointAfter(whole[1..], rest);
    } else {
      assert whole + rest == rest;
    }
  }

  lemma SplitOfJoin(whole: string, frac: string)
    requires whole != "" && AllDigits(whole) && AllDigits(frac)
    ensures Split(Join(false, whole, frac)) == Some((whole, frac))
  {
    var rest := if frac == "" then "" else "." + frac;
    var abs := whole + rest;
    assert Join(false, whole, frac) == abs;
    PointAfter(whole, rest);
    assert abs[..|whole|] == whole;
    if frac != "" { assert abs[|whole| + 1..] == frac; } else { assert abs == whole; }
  }

  lemma JoinedIsTrimmed(neg: bool, whole: string, frac: string)
    requires whole != "" && AllDigits(whole) && AllDigits(frac)
    ensures Trim(Join(neg, whole, frac)) == Join(neg, whole, frac)
    ensures Unsigned(Join(neg, whole, frac)) == (neg, Join(false, whole, frac))
  {
    var s, abs := Join(neg, whole, frac), Join(false, whole, frac);
    var last := if frac == "" then whole else frac;
    assert abs != "" && abs[0] == whole[0] && abs[|abs| - 1] == last[|last| - 1];
    assert s == (if neg then "-" else "") + abs;
    assert IsDigit(abs[0]) && IsDigit(abs[|abs| - 1]);
    NothingToTrim(s);
    if neg { assert s[1..] == abs; } else { assert s == abs; }
  }

  lemma NothingToTrim(s: string)
    requires s != "" && !IsSpace(s[0]) && !IsSpace(s[|s| - 1])
    ensures Trim(s) == s
  {
  }

  lemma ScaleTwo(v: nat)
    ensures Scale(v, 2) == 100 * v
  {
    assert Scale(v, 1) == 10 * v;
  }

  lemma ScaleByEight(v: nat)
    ensures Scale(v, 8) == v * SATS
  {
    ScaleTwo(v);
    ScaleTwo(100 * v);
    ScaleAdds(v, 2, 2);
    ScaleTwo(10_000 * v);
    ScaleAdds(v, 4, 2);
    ScaleTwo(1_000_000 * v);
    ScaleAdds(v, 6, 2);
  }

  /** The digits before and after the point, together, scaled to satoshis. */
  lemma CombineIsExact(neg: bool, whole: string, frac: string)
    requires AllDigits(whole) && AllDigits(frac)
    ensures AllDigits(whole + frac) && IsSats(Combine(neg, whole, frac), neg, Val(whole + frac), -|frac|)
  {
    if |frac| <= 8 {
      var k := 8 - |frac|;
      ValOfConcat(whole, frac);
      ValOfTrailingZeros(frac, k);
      if k == 0 { assert frac + Zeros(0) == frac; }
      ScaleSum(Scale(Val(whole), |frac|), Val(frac), k);
      ScaleAdds(Val(whole), |frac|, k);
      ScaleByEight(Val(whole));
    }
  }

  /** A decimal is read exactly, or refused for its ninth decimal place. */
  lemma ParseIsExact(input: string, neg: bool, whole: string, frac: string)
    requires Reads(Trim(input), neg, whole, frac)
    ensures AllDigits(whole + frac) && IsSats(Parse(input), neg, Val(whole + frac), -|frac|)
  {
    JoinedIsTrimmed(neg, whole, frac);
    SplitOfJoin(whole, frac);
    CombineIsExact(neg, whole, frac);
  }

  lemma SplitIsRead(s: string)
    ensures var (neg, abs) := Unsigned(s); Split(abs).Some? ==> Reads(s, neg, Split(abs).value.0, Split(abs).value.1)
  {
    var (neg, abs) := Unsigned(s);
    assert s == (if neg then "-" else "") + abs;
  }

  /** Whatever is not refused as text is such a decimal, and whatever is such a decimal is not. */
  lemma RefusedExactly(input: string)
    ensures Parse(input).NotDecimal? <==> forall neg, whole, frac :: !Reads(Trim(input), neg, whole, frac)
  {
    SplitIsRead(Trim(input));
    forall neg, whole, frac | Reads(Trim(input), neg, whole, frac)
      ensures !Parse(input).NotDecimal?
    {
      ParseIsExact(input, neg, whole, frac);
    }
  }

  // ---------------------------------------------------------------- formatting and back

  lemma PaddedFrac(frac: nat)
    requires frac < SATS
    ensures |PadStart(Decimal(frac), 8)| == 8 && Val(PadStart(Decimal(frac), 8)) == frac
  {
    var d := Decimal(frac);
    ScaleByEight(1);
    DecimalIsShort(frac, 8);
    if |d| < 8 { ValOfLeadingZeros(8 - |d|, d); }
  }

  lemma StrippedAndPadded(s: string)
    requires AllDigits(s) && |s| == 8
    ensures PadEnd(StripZeros(s), 8) == s && |StripZeros(s)| <= 8
    ensures StripZeros(s) == "" ==> Val(s) == 0
  {
    var r := StripZeros(s);
    if |r| == 8 { assert r == s; }
    ValOfZeros(8);
    assert "" + Zeros(8) == Zeros(8);
  }

  lemma FracRoundTrip(frac: nat)
    requires frac < SATS
    ensures |FracDigits(frac)| <= 8 && Val(PadEnd(FracDigits(frac), 8)) == frac
    ensures frac > 0 ==> FracDigits(frac) != ""
    ensures FracDigits(frac) != "" ==> FracDigits(frac)[|FracDigits(frac)| - 1] != '0'
  {
    if frac == 0 {
      ValOfZeros(8);
      assert PadEnd("", 8) == Zeros(8);
    } else {
      PaddedFrac(frac);
      StrippedAndPadded(PadStart(Decimal(frac), 8));
    }
  }

  lemma {:induction false} DecimalIsShort(n: nat, k: nat)
    requires n < Scale(1, k) && k > 0
    ensures |Decimal(n)| <= k
  {
    if n >= 10 { DecimalIsShort(n / 10, k - 1); }
  }

  lemma FormatParts(sats: int)
    ensures var a: nat := if sats < 0 then -sats else sats;
            var whole, frac := Decimal(a / SATS), FracDigits(a % SATS);
            Format(sats) == Join(sats < 0, whole, frac) && Combine(sats < 0, whole, frac) == Sats(sats)
  {
    FracRoundTrip((if sats < 0 then -sats else sats) % SATS);
  }

  /** The canonical text: whole digits without a leading zero, and decimals, at most eight
      and never ending in zero. No exponent can occur. */
  lemma FormatIsMinimal(sats: int) returns (whole: string, frac: string)
    ensures Reads(Format(sats), sats < 0, whole, frac) && |frac| <= 8
    ensures whole[0] == '0' ==> whole == "0"
    ensures frac != "" ==> frac[|frac| - 1] != '0'
    ensures forall i :: 0 <= i < |Format(sats)| ==> IsDigit(Format(sats)[i]) || Format(sats)[i] in {'-', '.'}
  {
    var a: nat := if sats < 0 then -sats else sats;
    FracRoundTrip(a % SATS);
    whole, frac := Decimal(a / SATS), FracDigits(a % SATS);
  }

  /** Reading back what was written, for every amount. */
  lemma RoundTrip(sats: int)
    ensures Parse(Format(sats)) == Sats(sats)
  {
    var a: nat := if sats < 0 then -sats else sats;
    var whole, frac := Decimal(a / SATS), FracDigits(a % SATS);
    FormatParts(sats);
    JoinedIsTrimmed(sats < 0, whole, frac);
    SplitOfJoin(whole, frac);
  }

  // ---------------------------------------------------------------- number texts

  /** A number text with an exponent, taken apart. */
  datatype NumberText = NumberText(neg: bool, whole: string, frac: string, exponent: int)

  predicate FitsNumber(n: NumberText) { n.whole != "" && AllDigits(n.whole) && AllDigits(n.frac) }

  function Digits(n: NumberText): (r: string)
    requires FitsNumber(n)
    ensures AllDigits(r)
  {
    n.whole + n.frac
  }

  /** The decimal text of a number text: the digits as they are, the point moved. */
  function Expand(n: NumberText): string
    requires FitsNumber(n)
  {
    var digits, point := Digits(n), |n.whole| + n.exponent;
    (if n.neg then "-" else "")
    + if point <= 0 then "0." + Zeros(-point) + digits
      else if point >= |digits| then digits + Zeros(point - |digits|)
      else digits[..point] + "." + digits[point..]
  }

  function ExpandedWhole(n: NumberText): (r: string)
    requires FitsNumber(n)
    ensures AllDigits(r) && r != ""
  {
    var digits, point := Digits(n), |n.whole| + n.exponent;
    if point <= 0 then "0" else if point >= |digits| then digits + Zeros(point - |digits|) else digits[..point]
  }

  function ExpandedFrac(n: NumberText): (r: string)
    requires FitsNumber(n)
    ensures AllDigits(r)
  {
    var digits, point := Digits(n), |n.whole| + n.exponent;
    if point <= 0 then Zeros(-point) + digits else if point >= |digits| then "" else digits[point..]
  }

  /** The power of ten that the digits, read as one integer, are multiplied with. */
  function Power(n: NumberText): int { n.exponent - |n.frac| }

  lemma ExpandIsJoin(n: NumberText)
    requires FitsNumber(n)
    ensures Expand(n) == Join(n.neg, ExpandedWhole(n), ExpandedFrac(n))
  {
    var digits, point := Digits(n), |n.whole| + n.exponent;
    if point <= 0 {
      assert "0." + Zeros(-point) + digits == "0" + "." + ExpandedFrac(n);
    }
  }

  /** The digits read v times ten to the power: as many decimal places as the power is
      negative, or that many zeros when it is not. */
  predicate IsShifted(whole: string, frac: string, v: nat, power: int) {
    && AllDigits(whole + frac)
    && if power >= 0 then |frac| == 0 && Val(whole + frac) == Scale(v, power) else |frac| == -power && Val(whole + frac) == v
  }

  lemma OneZeroMore(zeros: nat, s: string)
    ensures "0" + (Zeros(zeros) + s) == Zeros(zeros + 1) + s
  {
  }

  lemma ZerosBefore(digits: string, zeros: nat)
    requires AllDigits(digits) && digits != ""
    ensures IsShifted("0", Zeros(zeros) + digits, Val(digits), -(zeros + |digits|))
  {
    OneZeroMore(zeros, digits);
    ValOfLeadingZeros(zeros + 1, digits);
  }

  lemma ZerosBehind(digits: string, zeros: nat)
    requires AllDigits(digits)
    ensures IsShifted(digits + Zeros(zeros), "", Val(digits), zeros)
  {
    assert digits + Zeros(zeros) + "" == digits + Zeros(zeros);
    ValOfTrailingZeros(digits, zeros);
  }

  lemma PointBetween(digits: string, point: nat)
    requires AllDigits(digits) && point < |digits|
    ensures IsShifted(digits[..point], digits[point..], Val(digits), point - |digits|)
  {
    assert digits[..point] + digits[point..] == digits;
  }

  /** The text says exactly the same number. */
  lemma ExpandIsExact(n: NumberText)
    requires FitsNumber(n)
    ensures Reads(Expand(n), n.neg, ExpandedWhole(n), ExpandedFrac(n))
    ensures IsShifted(ExpandedWhole(n), ExpandedFrac(n), Val(Digits(n)), Power(n))
  {
    var digits, point := Digits(n), |n.whole| + n.exponent;
    ExpandIsJoin(n);
    if point <= 0 { ZerosBefore(digits, -point); }
    else if point >= |digits| { ZerosBehind(digits, point - |digits|); }
    else { PointBetween(digits, point); }
  }

  /** A number in exponent form is accepted exactly when its power of ten is at least minus
      eight, and then with its exact value; nothing is ever rounded. */
  lemma NumberIsExact(n: NumberText)
    requires FitsNumber(n)
    ensures IsSats(Parse(Expand(n)), n.neg, Val(Digits(n)), Power(n))
  {
    ExpandIsExact(n);
    ParseOfJoin(Expand(n), n.neg, ExpandedWhole(n), ExpandedFrac(n));
    ShiftedSats(Parse(Expand(n)), n.neg, ExpandedWhole(n), ExpandedFrac(n), Val(Digits(n)), Power(n));
  }

  lemma ShiftedSats(r: Parsed, neg: bool, whole: string, frac: string, v: nat, power: int)
    requires IsShifted(whole, frac, v, power) && IsSats(r, neg, Val(whole + frac), -|frac|)
    ensures IsSats(r, neg, v, power)
  {
    if power >= 0 { Rescale(r, neg, v, power); }
  }

  lemma Rescale(r: Parsed, neg: bool, v: nat, power: nat)
    requires IsSats(r, neg, Scale(v, power), 0)
    ensures IsSats(r, neg, v, power)
  {
    ScaleAdds(v, power, 8);
  }

  lemma ParseOfJoin(s: string, neg: bool, whole: string, frac: string)
    requires Reads(s, neg, whole, frac)
    ensures AllDigits(whole + frac) && IsSats(Parse(s), neg, Val(whole + frac), -|frac|)
  {
    JoinedIsTrimmed(neg, whole, frac);
    ParseIsExact(s, neg, whole, frac);
  }

  /** The exponent mark, or the length. */
  function MarkIn(s: string): (r: nat)
    ensures r <= |s| && (r < |s| ==> s[r] in {'e', 'E'}) && forall i :: 0 <= i < r ==> s[i] !in {'e', 'E'}
  {
    if s == "" || s[0] in {'e', 'E'} then 0
    else
      var r := MarkIn(s[1..]);
      assert forall i :: 1 <= i < r + 1 ==> s[i] == s[1..][i - 1];
      r + 1
  }

  function Exponent(e: string): Option<int> {
    if e == "" then None
    else if e[0] in {'-', '+'} then
      if |e| == 1 || !AllDigits(e[1..]) then None else Some(Signed(e[0] == '-', Val(e[1..])))
    else if AllDigits(e) then Some(Val(e)) else None
  }

  /** The text with an exponent mark, taken apart, if it has the form that numbers print in. */
  function TakeApart(s: string): (r: Option<NumberText>)
    requires MarkIn(s) < |s|
    ensures r.Some? ==> FitsNumber(r.value)
  {
    var m := MarkIn(s);
    var (neg, abs) := Unsigned(s[..m]);
    var parts, e := Split(abs), Exponent(s[m + 1..]);
    if parts.None? || e.None? then None else Some(NumberText(neg, parts.value.0, parts.value.1, e.value))
  }

  /** A number's text becomes a decimal text; without an exponent it already is one. */
  function NumberToDecimal(s: string): Option<string> {
    if MarkIn(s) == |s| then Some(s)
    else
      var n := TakeApart(s);
      if n.None? then None else Some(Expand(n.value))
  }

  function ParseNumber(s: string): Parsed {
    var d := NumberToDecimal(s);
    if d.None? then NotDecimal else Parse(d.value)
  }

  /** How a number in exponent form prints. */
  function Print(n: NumberText, mark: char, sign: string): string
    requires FitsNumber(n)
  {
    Join(n.neg, n.whole, n.frac) + [mark] + sign + Decimal(if n.exponent < 0 then -n.exponent else n.exponent)
  }

  lemma {:induction false} MarkAfter(head: string, rest: string)
    requires (forall i :: 0 <= i < |head| ==> head[i] !in {'e', 'E'}) && rest != "" && rest[0] in {'e', 'E'}
    ensures MarkIn(head + rest) == |head|
  {
    if head != "" {
      assert (head + rest)[1..] == head[1..] + rest;
      MarkAfter(head[1..], rest);
    } else {
      assert head + rest == rest;
    }
  }

  /** Taking apart what a number prints gives its sign, digits and exponent back. */
  lemma TakenApart(n: NumberText, mark: char, sign: string)
    requires FitsNumber(n) && mark in {'e', 'E'}
    requires if n.exponent < 0 then sign == "-" else sign in {"", "+"}
    ensures var s := Print(n, mark, sign); MarkIn(s) < |s| && TakeApart(s) == Some(n)
  {
    var head, e := Join(n.neg, n.whole, n.frac), sign + Decimal(if n.exponent < 0 then -n.exponent else n.exponent);
    PrintParts(n, mark, sign);
    HeadHasNoMark(n);
    MarkedParts(head, mark, e);
    ExponentOf(n.exponent, sign);
    ApartFromParts(head + [mark] + e, head, n);
  }

  lemma PrintParts(n: NumberText, mark: char, sign: string)
    requires FitsNumber(n)
    ensures Print(n, mark, sign) ==
              Join(n.neg, n.whole, n.frac) + [mark] + (sign + Decimal(if n.exponent < 0 then -n.exponent else n.exponent))
  {
  }

  lemma ApartFromParts(s: string, head: string, n: NumberText)
    requires FitsNumber(n) && MarkIn(s) == |head| < |s| && s[..|head|] == head && head == Join(n.neg, n.whole, n.frac)
    requires Exponent(s[|head| + 1..]) == Some(n.exponent)
    ensures TakeApart(s) == Some(n)
  {
    JoinedIsTrimmed(n.neg, n.whole, n.frac);
    SplitOfJoin(n.whole, n.frac);
  }

  lemma HeadHasNoMark(n: NumberText)
    requires FitsNumber(n)
    ensures var head := Join(n.neg, n.whole, n.frac); forall i :: 0 <= i < |head| ==> head[i] !in {'e', 'E'}
  {
    var head := Join(n.neg, n.whole, n.frac);
    assert forall i :: 0 <= i < |head| ==> IsDigit(head[i]) || head[i] == '-' || head[i] == '.';
  }

  lemma MarkedParts(head: string, mark: char, e: string)
    requires mark in {'e', 'E'} && forall i :: 0 <= i < |head| ==> head[i] !in {'e', 'E'}
    ensures var s := head + [mark] + e; MarkIn(s) == |head| && s[..|head|] == head && s[|head| + 1..] == e
  {
    assert head + [mark] + e == head + ([mark] + e);
    MarkAfter(head, [mark] + e);
  }

  lemma ExponentOf(x: int, sign: string)
    requires if x < 0 then sign == "-" else sign in {"", "+"}
    ensures Exponent(sign + Decimal(if x < 0 then -x else x)) == Some(x)
  {
    var d := Decimal(if x < 0 then -x else x);
    if sign != "" { assert (sign + d)[1..] == d; } else { assert sign + d == d; }
  }

  /** The whole numeric path: what prints with digits D, power of ten P and a sign is accepted
      as exactly D times ten to the P + 8 satoshis, or refused below minus eight. */
  lemma PrintedNumberIsExact(n: NumberText, mark: char, sign: string)
    requires FitsNumber(n) && mark in {'e', 'E'}
    requires if n.exponent < 0 then sign == "-" else sign in {"", "+"}
    ensures IsSats(ParseNumber(Print(n, mark, sign)), n.neg, Val(Digits(n)), Power(n))
  {
    TakenApart(n, mark, sign);
    NumberIsExact(n);
  }

  lemma {:induction false} NoMark(s: string)
    requires forall i :: 0 <= i < |s| ==> s[i] !in {'e', 'E'}
    ensures MarkIn(s) == |s|
  {
    if s != "" { NoMark(s[1..]); }
  }

  /** A number that prints without an exponent is read as the decimal it is. */
  lemma PlainNumberIsExact(neg: bool, whole: string, frac: string)
    requires Reads(Join(neg, whole, frac), neg, whole, frac)
    ensures AllDigits(whole + frac) && IsSats(ParseNumber(Join(neg, whole, frac)), neg, Val(whole + frac), -|frac|)
  {
    HeadHasNoMark(NumberText(neg, whole, frac, 0));
    NoMark(Join(neg, whole, frac));
    ParseOfJoin(Join(neg, whole, frac), neg, whole, frac);
  }
}
