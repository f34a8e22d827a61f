/** Bit sequences, most significant bit first, and the shifts of unsigned words. */
module Bits {

  function Pow2(k: nat): (r: nat)
    ensures r >= 1
  {
    if k == 0 then 1 else 2 * Pow2(k - 1)
  }

  /** A left shift without bound. */
  function Shl(v: nat, k: nat): nat
    decreases k, v
  {
    if k == 0 then v else 2 * Shl(v, k - 1)
  }

  function Shr(v: nat, k: nat): nat
    decreases k, v
  {
    if k == 0 then v else Shr(v / 2, k - 1)
  }

  /** The w low bits of a number. */
  function Of(v: nat, w: nat): (r: seq<bool>)
    ensures |r| == w
    decreases w, v
  {
    if w == 0 then [] else Of(v / 2, w - 1) + [v % 2 == 1]
  }

  // ---------------------------------------------------------------- division

  lemma TimesAtLeast(m: nat, x: int)
    requires m > 0 && x >= 1
    ensures m * x >= m
  {
  }

  lemma Distribute(m: int, a: int, b: int)
    ensures m * (a - b) == m * a - m * b && (2 * m) * a == 2 * (m * a)
  {
  }

  lemma ModUnique(n: nat, m: nat, q: nat, r: nat)
    requires m > 0 && r < m && n == m * q + r
    ensures n % m == r && n / m == q
  {
    var q', r' := n / m, n % m;
    assert n == m * q' + r';
    Distribute(m, q, q');
    Distribute(m, q', q);
    if q > q' { TimesAtLeast(m, q - q'); }
    if q < q' { TimesAtLeast(m, q' - q); }
  }

  /** Halving a number modulo an even modulus. */
  lemma HalfOfMod(v: nat, m: nat)
    requires m > 0
    ensures v % (2 * m) / 2 == v / 2 % m && v % (2 * m) % 2 == v % 2
  {
    var q, r := v / (2 * m), v % (2 * m);
    var t := m * q;
    assert v == (2 * m) * q + r;
    Distribute(m, q, 0);
    assert v == 2 * t + r;
    assert v / 2 == t + r / 2;
    ModUnique(v / 2, m, q, r / 2);
  }

  // ---------------------------------------------------------------- words

  /** Small numbers are told apart by their bits. */
  lemma {:induction false} BitsDetermine(a: nat, b: nat, w: nat)
    requires a < Pow2(w) && b < Pow2(w) && Of(a, w) == Of(b, w)
    ensures a == b
  {
    if w > 0 {
      var x, y := Of(a / 2, w - 1), Of(b / 2, w - 1);
      assert x == Of(a, w)[..w - 1] && y == Of(b, w)[..w - 1];
      assert Of(a, w)[w - 1] == Of(b, w)[w - 1];
      BitsDetermine(a / 2, b / 2, w - 1);
    }
  }

  /** Bits shifted in from the right. */
  lemma {:induction false} Append(v: nat, k: nat, d: nat, j: nat)
    requires d < Pow2(j)
    ensures Of(Shl(v, j) + d, k + j) == Of(v, k) + Of(d, j)
  {
    if j > 0 {
      Append(v, k, d / 2, j - 1);
      assert (Shl(v, j) + d) / 2 == Shl(v, j - 1) + d / 2;
      assert (Shl(v, j) + d) % 2 == d % 2;
    }
  }

  /** The bits above the lowest b, then the lowest b. */
  lemma {:induction false} Split(v: nat, a: nat, b: nat)
    ensures Of(v, a + b) == Of(Shr(v, b), a) + Of(v, b)
  {
    if b > 0 { Split(v / 2, a, b - 1); }
  }

  /** Cutting off high bits does not disturb the low ones. */
  lemma {:induction false} Wrap(v: nat, k: nat, w: nat)
    requires k <= w
    ensures Of(v % Pow2(w), k) == Of(v, k)
  {
    if k > 0 {
      Wrap(v / 2, k - 1, w - 1);
      HalfOfMod(v, Pow2(w - 1));
    }
  }

  lemma {:induction false} ZeroBits(w: nat)
    ensures Of(0, w) == seq(w, _ => false)
  {
    if w > 0 { ZeroBits(w - 1); }
  }
}
