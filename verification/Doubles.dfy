/**
 Rounding of JavaScript numbers. A rounding maps every real to a nearest double; how it breaks ties and how
 small its exponents go does not matter to anything below. Results here hold for every such rounding.
 */
module Doubles {
  import opened Units
  import opened JsonValues

  const TWO53: int := 0x20_0000_0000_0000

  function Pow2(e: nat): real {
    if e == 0 then 1.0 else 2.0 * Pow2(e - 1)
  }

  /** x is m times 2^e or m divided by 2^e, with a 53-bit significand. */
  predicate Scaled(x: real, m: int, e: nat) {
    -TWO53 <= m <= TWO53 && (x == m as real * Pow2(e) || x * Pow2(e) == m as real)
  }

  ghost predicate Representable(x: real) {
    exists m: int, e: nat :: Scaled(x, m, e)
  }

  function Distance(x: real, y: real): real {
    if x < y then y - x else x - y
  }

  ghost predicate Nearest(x: real, f: real) {
    Representable(f) && forall g :: Representable(g) ==> Distance(f, x) <= Distance(g, x)
  }

  ghost predicate IsRounding(round: real -> real) {
    forall x :: Nearest(x, round(x))
  }

  /** Number.isSafeInteger */
  predicate SafeReal(x: real) {
    x.Floor as real == x && IsSafe(x.Floor)
  }

  lemma IntegerRepresentable(n: int)
    requires -TWO53 <= n <= TWO53
    ensures Representable(n as real)
  {
    assert Scaled(n as real, n, 0);
  }

  /** A safe integer survives rounding; any other integer stays outside the safe range. */
  lemma RoundedInteger(n: int, f: real)
    requires Nearest(n as real, f)
    ensures -TWO53 <= n <= TWO53 ==> f == n as real
    ensures SafeReal(f) <==> IsSafe(n)
  {
    IntegerRepresentable(TWO53);
    IntegerRepresentable(-TWO53);
    if -TWO53 <= n <= TWO53 { IntegerRepresentable(n); }
  }

  // ----- checked products (arm/engine.ts)

  function MultiplyChecked(round: real -> real, left: int, right: int): Option<int> {
    var result := round((left * right) as real);
    if SafeReal(result) then Some(result.Floor) else None
  }

  lemma MultiplyCheckedExact(round: real -> real, left: int, right: int)
    requires IsRounding(round)
    ensures MultiplyChecked(round, left, right) == if IsSafe(left * right) then Some(left * right) else None
  {
    RoundedInteger(left * right, round((left * right) as real));
  }

  /** A chain of checked products from `base`, refusing at the first unsafe intermediate. */
  function ProductFrom(round: real -> real, base: int, factors: seq<int>): Option<int>
    decreases |factors|
  {
    if factors == [] then Some(base)
    else match MultiplyChecked(round, base, factors[0])
      case None => None
      case Some(p) => ProductFrom(round, p, factors[1..])
  }

  function Product(factors: seq<int>): int {
    if factors == [] then 1 else factors[0] * Product(factors[1..])
  }

  predicate Positive(factors: seq<int>) {
    forall i :: 0 <= i < |factors| ==> factors[i] >= 1
  }

  lemma {:induction false} ProductPositive(factors: seq<int>)
    requires Positive(factors)
    ensures Product(factors) >= 1
  {
    if factors != [] {
      ProductPositive(factors[1..]);
      Grows(factors[0], Product(factors[1..]));
    }
  }

  lemma Grows(a: int, b: int)
    requires a >= 1 && b >= 1
    ensures a * b >= a
  {
  }

  lemma MulAssociative(a: int, b: int, c: int)
    ensures a * (b * c) == a * b * c
  {
  }

  lemma ProductGrows(base: int, first: int, tail: int)
    requires base >= 1 && first >= 1 && tail >= 1
    ensures 1 <= base * first <= base * (first * tail) == base * first * tail
  {
    Grows(base, first);
    MulAssociative(base, first, tail);
    Grows(base * first, tail);
  }

  /** With positive factors, rounding and early refusal are invisible: the exact product, if it is safe. */
  lemma {:induction false} ProductFromExact(round: real -> real, base: int, factors: seq<int>)
    requires IsRounding(round) && base >= 1 && IsSafe(base) && Positive(factors)
    ensures var p := base * Product(factors);
            ProductFrom(round, base, factors) == if p <= MAX_SAFE then Some(p) else None
    decreases |factors|
  {
    if factors != [] {
      var first, tail := factors[0], factors[1..];
      MultiplyCheckedExact(round, base, first);
      ProductPositive(tail);
      ProductGrows(base, first, Product(tail));
      if IsSafe(base * first) { ProductFromExact(round, base * first, tail); }
    }
  }

  lemma {:induction false} ProductSplit(a: seq<int>, b: seq<int>)
    ensures Product(a + b) == Product(a) * Product(b)
  {
    if a == [] {
      assert a + b == b;
    } else {
      assert (a + b)[1..] == a[1..] + b;
      ProductSplit(a[1..], b);
      MulAssociative(a[0], Product(a[1..]), Product(b));
    }
  }

  lemma {:induction false} ProductPermutes(a: seq<int>, b: seq<int>)
    requires multiset(a) == multiset(b)
    ensures Product(a) == Product(b)
  {
    if a == [] {
      assert |multiset(b)| == 0;
    } else {
      assert a == [a[0]] + a[1..];
      assert a[0] in multiset(a);
      var i :| 0 <= i < |b| && b[i] == a[0];
      RemoveAt(b, i);
      ProductPermutes(a[1..], b[..i] + b[i + 1..]);
    }
  }

  lemma RemoveAt(b: seq<int>, i: nat)
    requires i < |b|
    ensures multiset(b[..i] + b[i + 1..]) == multiset(b) - multiset{b[i]}
    ensures Product(b) == b[i] * Product(b[..i] + b[i + 1..])
  {
    hide Product;
    assert b == b[..i] + ([b[i]] + b[i + 1..]);
    MiddleFactor(b[..i], b[i], b[i + 1..]);
  }

  lemma MiddleFactor(front: seq<int>, x: int, back: seq<int>)
    ensures Product(front + ([x] + back)) == x * Product(front + back)
  {
    assert ([x] + back)[1..] == back;
    ProductSplit(front, back);
    ProductSplit(front, [x] + back);
    Commute(Product(front), x, Product(back));
  }

  lemma Commute(x: int, y: int, z: int)
    ensures x * (y * z) == y * (x * z)
  {
  }

  /** The checked product does not depend on the order in which the factors are multiplied. */
  lemma ProductOrderFree(round: real -> real, a: seq<int>, b: seq<int>)
    requires IsRounding(round) && Positive(a) && multiset(a) == multiset(b)
    ensures ProductFrom(round, 1, a) == ProductFrom(round, 1, b)
  {
    forall i | 0 <= i < |b| ensures b[i] >= 1 { assert b[i] in multiset(a); }
    ProductFromExact(round, 1, a);
    ProductFromExact(round, 1, b);
    ProductPermutes(a, b);
  }

  /** projectedCost on its seven inputs. */
  function ProjectedCost(round: real -> real, gpuCount: int, hours: int, gpuHourCents: int,
                         autoScale: bool, maxScaleMultiplier: int, retryOnFail: bool, maxRetries: int): Option<int>
  {
    match MultiplyChecked(round, gpuCount, hours)
    case None => None
    case Some(base) =>
      match MultiplyChecked(round, base, gpuHourCents)
      case None => None
      case Some(priced) =>
        match MultiplyChecked(round, priced, if autoScale then maxScaleMultiplier else 1)
        case None => None
        case Some(scaled) =>
          MultiplyChecked(round, scaled, if retryOnFail then round((maxRetries + 1) as real).Floor else 1)
  }

  /** The five-factor product when it is a safe integer, null otherwise, even when maxRetries + 1 is 2^53. */
  lemma ExactCost(round: real -> real, gpuCount: int, hours: int, gpuHourCents: int,
                  autoScale: bool, maxScaleMultiplier: int, retryOnFail: bool, maxRetries: int)
    requires IsRounding(round)
    requires 1 <= gpuCount <= MAX_SAFE && 1 <= hours <= MAX_SAFE && 1 <= gpuHourCents <= MAX_SAFE
    requires 1 <= maxScaleMultiplier <= MAX_SAFE && 0 <= maxRetries <= MAX_SAFE
    ensures var p := gpuCount * (hours * (gpuHourCents *
                       ((if autoScale then maxScaleMultiplier else 1) * (if retryOnFail then maxRetries + 1 else 1))));
            ProjectedCost(round, gpuCount, hours, gpuHourCents, autoScale, maxScaleMultiplier, retryOnFail, maxRetries)
              == if p <= MAX_SAFE then Some(p) else None
  {
    var scale, tries := if autoScale then maxScaleMultiplier else 1, if retryOnFail then maxRetries + 1 else 1;
    RoundedInteger(maxRetries + 1, round((maxRetries + 1) as real));
    var factors := [hours, gpuHourCents, scale, tries];
    ProductFromExact(round, gpuCount, factors);
    Unroll(round, gpuCount, hours, [gpuHourCents, scale, tries]);
    FourFactors(hours, gpuHourCents, scale, tries);
    match MultiplyChecked(round, gpuCount, hours)
    case None =>
    case Some(base) =>
      Unroll(round, base, gpuHourCents, [scale, tries]);
      match MultiplyChecked(round, base, gpuHourCents)
      case None =>
      case Some(priced) =>
        Unroll(round, priced, scale, [tries]);
        match MultiplyChecked(round, priced, scale)
        case None =>
        case Some(scaled) => Unroll(round, scaled, tries, []);
  }

  lemma Unroll(round: real -> real, base: int, first: int, tail: seq<int>)
    ensures ProductFrom(round, base, [first] + tail)
         == match MultiplyChecked(round, base, first) case None => None case Some(p) => ProductFrom(round, p, tail)
  {
    assert ([first] + tail)[1..] == tail;
  }

  lemma FourFactors(a: int, b: int, c: int, d: int)
    ensures Product([a, b, c, d]) == a * (b * (c * d))
    ensures [a, b, c, d] == [a] + [b, c, d] && [b, c, d] == [b] + [c, d] && [c, d] == [c] + [d] && [d] == [d] + []
  {
    assert [a, b, c, d][1..] == [b, c, d] && [b, c, d][1..] == [c, d] && [c, d][1..] == [d] && [d][1..] == [];
    assert Product([d]) == d;
    assert Product([c, d]) == c * d;
    assert Product([b, c, d]) == b * (c * d);
  }

  /** A budget comparison against a safe maximum is exact although the sum may round. */
  lemma BudgetComparisonExact(consumed: int, cost: int, max: int, sum: real)
    requires 0 <= consumed <= MAX_SAFE && 0 <= cost <= MAX_SAFE && max <= MAX_SAFE
    requires Nearest((consumed + cost) as real, sum)
    ensures sum > max as real <==> consumed + cost > max
    ensures consumed + cost <= max ==> sum == (consumed + cost) as real
  {
    RoundedInteger(consumed + cost, sum);
    IntegerRepresentable(TWO53);
  }
}
