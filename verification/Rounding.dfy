/** Every real number has a nearest double, so rounding to nearest, and with it a valid platform, exists. */
module Rounding {
  import opened Units
  import opened JsonValues
  import opened Doubles
  import opened Contracts

  const TWO52: int := 0x10_0000_0000_0000

  // ----- powers of two

  lemma {:induction false} Pow2Positive(e: nat)
    ensures Pow2(e) > 0.0
  {
    if e > 0 { Pow2Positive(e - 1); }
  }

  /** Two to any integer power. */
  ghost function Power(k: int): (s: real)
    ensures s > 0.0
  {
    if k >= 0 then Pow2Positive(k); Pow2(k) else Pow2Positive(-k); 1.0 / Pow2(-k)
  }

  lemma PowerDoubles(k: int)
    ensures Power(k + 1) == 2.0 * Power(k)
  {
    if k < 0 {
      Pow2Positive(-k);
      Pow2Positive(-k - 1);
      Halved(Pow2(-k - 1));
    }
  }

  lemma Halved(d: real)
    requires d > 0.0
    ensures 1.0 / d == 2.0 * (1.0 / (2.0 * d))
  {
  }

  function Times(a: int, s: real): real {
    a as real * s
  }

  function WholePower(e: nat): int {
    if e == 0 then 1 else 2 * WholePower(e - 1)
  }

  /** Powers further up are whole multiples. */
  lemma {:induction false} PowerMultiple(k: int, e: nat)
    ensures Power(k + e) == Times(WholePower(e), Power(k))
    ensures WholePower(e) > e
  {
    hide Power;
    if e > 0 {
      PowerMultiple(k, e - 1);
      PowerDoubles(k + e - 1);
      Twice(WholePower(e - 1), Power(k));
    }
  }

  lemma Twice(w: int, s: real)
    ensures 2.0 * Times(w, s) == Times(2 * w, s)
  {
    assert (2 * w) as real == 2.0 * (w as real);
  }

  lemma Monotone(a: int, b: int, s: real)
    requires a <= b && s > 0.0
    ensures Times(a, s) <= Times(b, s)
  {
    assert a as real <= b as real;
  }

  lemma PowerAbove(x: real) returns (n: nat)
    ensures Power(n) > x
  {
    n := if x < 0.0 then 0 else x.Floor + 1;
    PowerMultiple(0, n);
    assert Power(0) == 1.0;
  }

  // ----- doubles as multiples of powers

  lemma DoubleIsMultiple(y: real) returns (m: int, j: int)
    requires Representable(y)
    ensures -TWO53 <= m <= TWO53 && y == Times(m, Power(j))
  {
    var a: int, e: nat :| Scaled(y, a, e);
    m := a;
    Pow2Positive(e);
    if y == m as real * Pow2(e) {
      j := e;
    } else {
      var i: int := e;
      j := -i;
      Quotient(y, m as real, Pow2(e));
    }
  }

  lemma Quotient(y: real, m: real, d: real)
    requires d > 0.0 && y * d == m
    ensures y == m * (1.0 / d)
  {
    assert y == m / d;
  }

  lemma MultipleIsDouble(m: int, j: int)
    requires -TWO53 <= m <= TWO53
    ensures Representable(Times(m, Power(j)))
  {
    var y := Times(m, Power(j));
    if j >= 0 {
      assert Scaled(y, m, j);
    } else {
      Pow2Positive(-j);
      assert y * Pow2(-j) == m as real;
      assert Scaled(y, m, -j);
    }
  }

  // ----- the binade of a positive number

  lemma Climb(x: real, k: int, top: int) returns (j: int)
    requires k <= top && Times(TWO52, Power(k)) <= x < Times(TWO52, Power(top))
    ensures Times(TWO52, Power(j)) <= x < Times(TWO53, Power(j))
    decreases top - k
  {
    PowerDoubles(k);
    if x < Times(TWO53, Power(k)) {
      j := k;
    } else {
      j := Climb(x, k + 1, top);
    }
  }

  lemma Binade(x: real) returns (j: int)
    requires x > 0.0
    ensures Times(TWO52, Power(j)) <= x < Times(TWO53, Power(j))
  {
    var high := PowerAbove(x);
    var low := PowerAbove(TWO52 as real / x);
    var i: int := low;
    InversePower(low);
    Reciprocal(x, Power(low));
    assert Power(-i) <= TWO52 as real * Power(-i);
    assert Power(high) <= Times(TWO52, Power(high));
    OrderOfPowers(-i, high);
    j := Climb(x, -i, high);
  }

  lemma InversePower(e: nat)
    ensures var i: int := e; Power(-i) == 1.0 / Power(e)
  {
    Pow2Positive(e);
  }

  lemma Reciprocal(x: real, p: real)
    requires x > 0.0 && p > TWO52 as real / x
    ensures TWO52 as real * (1.0 / p) <= x
  {
    assert p * x > TWO52 as real;
    assert p > 0.0;
    assert TWO52 as real / p <= x;
  }

  lemma OrderOfPowers(k: int, top: int)
    requires Power(k) < Power(top)
    ensures k <= top
  {
    hide Power;
    if k > top {
      PowerMultiple(top, k - top);
      Monotone(1, WholePower(k - top), Power(top));
    }
  }

  // ----- the two neighbours

  /** Between two neighbouring multiples in a binade there is no double. */
  lemma NothingBetween(n: int, next: int, k: int, y: real)
    requires n >= TWO52 && next == n + 1 && Representable(y)
    ensures y <= Times(n, Power(k)) || y >= Times(next, Power(k))
  {
    hide Power, Representable, WholePower, Times;
    var m, j := DoubleIsMultiple(y);
    if j >= k {
      var w := WholePower(j - k);
      PowerMultiple(k, j - k);
      Regroup(m, w, Power(k));
      WholeSteps(n, next, m * w, Power(k));
    } else {
      var w := WholePower(k - j);
      PowerMultiple(j, k - j);
      Small(n, m, w, Power(j));
    }
  }

  lemma Regroup(m: int, w: int, s: real)
    ensures Times(m, Times(w, s)) == Times(m * w, s)
  {
    assert (m * w) as real == m as real * w as real;
  }

  lemma WholeSteps(n: int, next: int, m: int, s: real)
    requires s > 0.0 && next == n + 1
    ensures Times(m, s) <= Times(n, s) || Times(m, s) >= Times(next, s)
  {
    if m <= n { Monotone(m, n, s); } else { Monotone(next, m, s); }
  }

  lemma Small(n: int, m: int, w: int, s: real)
    requires s > 0.0 && w >= 2 && n >= TWO52 && m <= TWO53
    ensures Times(m, s) <= Times(n, Times(w, s))
  {
    Regroup(n, w, s);
    AtLeastTwice(n, w);
    Monotone(m, n * w, s);
  }

  lemma AtLeastTwice(n: int, w: int)
    requires n >= TWO52 && w >= 2
    ensures n * w >= TWO53
  {
    assert n * w >= n * 2;
  }

  /** Of two neighbours the closer one is nearest. */
  lemma CloserNeighbour(x: real, low: real, high: real) returns (f: real)
    requires Representable(low) && Representable(high) && low <= x < high
    requires forall g :: Representable(g) ==> g <= low || g >= high
    ensures Nearest(x, f)
  {
    hide Representable;
    f := if x - low <= high - x then low else high;
    forall g | Representable(g) ensures Distance(f, x) <= Distance(g, x) {
      assert g <= low || g >= high;
    }
  }

  lemma NearestOfPositive(x: real) returns (f: real)
    requires x > 0.0
    ensures Nearest(x, f)
  {
    hide Power, Representable, Nearest;
    var k := Binade(x);
    var s := Power(k);
    var n := (x / s).Floor;
    var next := n + 1;
    Cell(x, s, n, next);
    MultipleIsDouble(n, k);
    MultipleIsDouble(next, k);
    var low, high := Times(n, s), Times(next, s);
    forall g | Representable(g) ensures g <= low || g >= high {
      NothingBetween(n, next, k, g);
    }
    f := CloserNeighbour(x, low, high);
  }

  lemma Cell(x: real, s: real, n: int, next: int)
    requires s > 0.0 && n == (x / s).Floor && next == n + 1 && Times(TWO52, s) <= x < Times(TWO53, s)
    ensures TWO52 <= n < TWO53 && Times(n, s) <= x < Times(next, s)
  {
    var q := x / s;
    assert q * s == x;
    Below(TWO52 as real, q, s);
    Below(q, TWO53 as real, s);
    FloorBounds(q, TWO52, TWO53);
    assert next as real == n as real + 1.0;
    Between(n as real, q, next as real, s);
  }

  lemma FloorBounds(q: real, low: int, high: int)
    requires low as real <= q < high as real
    ensures low <= q.Floor < high && q.Floor as real <= q < q.Floor as real + 1.0
  {
  }

  lemma Below(a: real, b: real, s: real)
    requires s > 0.0
    ensures a * s <= b * s <==> a <= b
    ensures a * s < b * s <==> a < b
  {
    Larger(a, b, s);
    Larger(b, a, s);
  }

  lemma Larger(a: real, b: real, s: real)
    requires s > 0.0
    ensures a < b ==> a * s < b * s
  {
    if a < b {
      assert (b - a) * s > 0.0;
      assert (b - a) * s == b * s - a * s;
    }
  }

  lemma Between(a: real, q: real, b: real, s: real)
    requires s > 0.0 && a <= q < b
    ensures a * s <= q * s < b * s
  {
    Below(a, q, s);
    Below(q, b, s);
  }

  lemma NegatedDouble(y: real)
    requires Representable(y)
    ensures Representable(-y)
  {
    var m: int, e: nat :| Scaled(y, m, e);
    assert Scaled(-y, -m, e);
  }

  /** Every real number has a nearest double. */
  lemma NearestExists(x: real)
    ensures exists f :: Nearest(x, f)
  {
    if x > 0.0 {
      var f := NearestOfPositive(x);
    } else if x == 0.0 {
      IntegerRepresentable(0);
      assert Nearest(x, 0.0);
    } else {
      var f := NearestOfPositive(-x);
      NegatedDouble(f);
      forall g | Representable(g) ensures Distance(-f, x) <= Distance(g, x) {
        NegatedDouble(g);
        assert Distance(f, -x) <= Distance(-g, -x);
      }
      assert Nearest(x, -f);
    }
  }

  ghost function RoundToNearest(x: real): (f: real)
    ensures Nearest(x, f)
  {
    NearestExists(x);
    var f :| Nearest(x, f);
    f
  }

  /** A platform with everything that is asked of one, whose signatures and HMACs are moreover good for one text only. */
  lemma ValidPlatformExists() returns (p: Platform)
    ensures p.Valid() && p.signingKey.Some?
    ensures forall m, n :: p.verify(m, p.sign(n), p.publicKeyPem) ==> m == n
    ensures forall m, n :: p.hmac(p.signingKey.value.0, m) == p.hmac(p.signingKey.value.0, n) ==> m == n
  {
    p := Platform((x: real) => RoundToNearest(x), t => t, (k, t) => t, Some(([], [])), t => t, (m, s, k) => m == s, [0x6B], t => false,
                  t => Some(t), t => t, (k, t, s) => true, t => false, t => false, t => false, t => false);
  }
}
