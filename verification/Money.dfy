/** Cents written as dollars (ram0na/engine.ts) and read back (audit/hyper_targeted_10m.ts). */
module Money {
  import opened Units
  import opened JsonValues
  import opened Doubles

  /** The rounded quotient by 100 never reaches the next integer. */
  lemma QuotientFloor(cents: int, f: real)
    requires 0 <= cents <= MAX_SAFE && Nearest(cents as real / 100.0, f)
    ensures f.Floor == cents / 100
  {
    var x := cents as real / 100.0;
    var d := cents / 100;
    IntegerRepresentable(d);
    assert d as real <= x <= d as real + 0.99;
    var m := (x * 64.0 + 0.5).Floor;
    var g := m as real / 64.0;
    assert Representable(g) by {
      assert Pow2(6) == 64.0 by { assert Pow2(3) == 8.0; }
      assert Scaled(g, m, 6);
    }
    assert Distance(g, x) <= 1.0 / 128.0;
  }

  /** A number below 100 on two digits. */
  function TwoDigits(n: nat): (t: Text)
    requires n < 100
    ensures |t| == 2 && AllDigits(t)
  {
    assert n >= 10 ==> NatText(n / 10) == [ZERO + n / 10];
    var t := NatText(n);
    if |t| < 2 then [ZERO] + t else t
  }

  /** formatUsdFromCents: the quotient by 100 is a rounded division. */
  function FormatUsdFromCents(round: real -> real, cents: nat): Text {
    var dollars := round(cents as real / 100.0).Floor;
    (if dollars < 0 then [MINUS] + NatText(-dollars) else NatText(dollars)) + [DOT] + TwoDigits(cents % 100)
  }

  /** What precedes the first dot, and what lies between it and the second one. */
  function SplitAtDot(t: Text): (r: (Text, Option<Text>))
    decreases |t|
  {
    var n := DotIndex(t);
    if n == |t| then (t, None) else (t[..n], Some(t[n + 1..][..DotIndex(t[n + 1..])]))
  }

  function DotIndex(t: Text): (n: nat)
    ensures n <= |t|
  {
    if t == [] || t[0] == DOT then 0 else 1 + DotIndex(t[1..])
  }

  /** An integer result after rounding to a double. */
  function Rounded(round: real -> real, n: int): int {
    round(n as real).Floor
  }

  /** Number() of a digit string; NaN and other number forms are None. */
  function NumberOf(round: real -> real, t: Text): Option<int> {
    if AllDigits(t) then Some(Rounded(round, DigitsValue(t))) else None
  }

  /** cents.padEnd(2, "0").slice(0, 2) */
  function CentsField(t: Text): Text {
    if t == [] then [ZERO, ZERO] else if |t| == 1 then t + [ZERO] else t[..2]
  }

  function UsdToCents(round: real -> real, value: Text): Option<int> {
    var parts := SplitAtDot(value);
    var cents := match parts.1 case None => [ZERO, ZERO] case Some(c) => c;
    match (NumberOf(round, parts.0), NumberOf(round, CentsField(cents)))
    case (Some(d), Some(c)) => Some(AddCents(round, d, c))
    case _ => None
  }

  function AddCents(round: real -> real, d: int, c: int): int {
    Rounded(round, Rounded(round, d * 100) + c)
  }

  lemma {:induction false} DotAfterDigits(digits: Text, rest: Text)
    requires AllDigits(digits) && (rest == [] || rest[0] == DOT)
    ensures DotIndex(digits + rest) == |digits|
  {
    if digits == [] {
      assert digits + rest == rest;
    } else {
      assert (digits + rest)[1..] == digits[1..] + rest;
      DotAfterDigits(digits[1..], rest);
    }
  }

  lemma TwoDigitsValue(n: nat)
    requires n < 100
    ensures DigitsValue(TwoDigits(n)) == n
  {
    NatTextValue(n);
    if n < 10 {
      var t := TwoDigits(n);
      assert t[..1] == [ZERO] && [ZERO][..0] == [] && t[1] == ZERO + n;
      assert DigitsValue([ZERO]) == 0;
    }
  }

  /** Integers up to 2^53 survive rounding. */
  ghost predicate KeepsIntegers(round: real -> real) {
    forall n: int :: -TWO53 <= n <= TWO53 ==> Rounded(round, n) == n
  }

  lemma RoundingKeepsIntegers(round: real -> real)
    requires IsRounding(round)
    ensures KeepsIntegers(round)
  {
    forall n: int | -TWO53 <= n <= TWO53 ensures Rounded(round, n) == n {
      RoundedInteger(n, round(n as real));
    }
  }

  lemma UsdReads(round: real -> real, d: nat, r: nat)
    requires KeepsIntegers(round) && r < 100 && d * 100 + r <= MAX_SAFE
    ensures UsdToCents(round, NatText(d) + [DOT] + TwoDigits(r)) == Some(d * 100 + r)
  {
    SplitText(d, r);
    NatTextValue(d);
    TwoDigitsValue(r);
    assert CentsField(TwoDigits(r)) == TwoDigits(r);
    assert AddCents(round, d, r) == d * 100 + r;
  }

  lemma FormattedText(round: real -> real, cents: nat)
    requires IsRounding(round) && cents <= MAX_SAFE
    ensures FormatUsdFromCents(round, cents) == NatText(cents / 100) + [DOT] + TwoDigits(cents % 100)
  {
    QuotientFloor(cents, round(cents as real / 100.0));
  }

  /** Reading back the text of any safe amount of cents gives the amount. */
  lemma MoneyRoundTrip(round: real -> real, cents: nat)
    requires IsRounding(round) && cents <= MAX_SAFE
    ensures UsdToCents(round, FormatUsdFromCents(round, cents)) == Some(cents)
  {
    hide *;
    FormattedText(round, cents);
    RoundingKeepsIntegers(round);
    UsdReads(round, cents / 100, cents % 100);
  }

  lemma SplitText(d: nat, r: nat)
    requires r < 100
    ensures SplitAtDot(NatText(d) + [DOT] + TwoDigits(r)) == (NatText(d), Some(TwoDigits(r)))
  {
    var front, back := NatText(d), TwoDigits(r);
    var text := front + [DOT] + back;
    assert text == front + ([DOT] + back);
    DotAfterDigits(front, [DOT] + back);
    assert text[..|front|] == front && text[|front| + 1..] == back;
    DotAfterDigits(back, []);
    assert back + [] == back && back[..2] == back;
  }

  /** The cents that a run of digits after the dot stands for: tenths and hundredths, whatever is missing being zero. */
  function CentsOf(fraction: Text): nat
    requires AllDigits(fraction)
  {
    (if |fraction| > 0 then 10 * (fraction[0] - ZERO) else 0) + (if |fraction| > 1 then fraction[1] - ZERO else 0)
  }

  lemma CentsFieldValue(fraction: Text)
    requires AllDigits(fraction)
    ensures AllDigits(CentsField(fraction)) && DigitsValue(CentsField(fraction)) == CentsOf(fraction)
  {
    var t := CentsField(fraction);
    var first := t[..1];
    assert |t| == 2 && first[..0] == [] && DigitsValue(first[..0]) == 0;
    assert DigitsValue(first) == t[0] - ZERO;
  }

  lemma SplitDecimals(dollars: Text, fraction: Text)
    requires AllDigits(dollars) && AllDigits(fraction)
    ensures SplitAtDot(dollars + ([DOT] + fraction)) == (dollars, Some(fraction))
    ensures SplitAtDot(dollars) == (dollars, None)
  {
    var text := dollars + ([DOT] + fraction);
    DotAfterDigits(dollars, [DOT] + fraction);
    assert text[..|dollars|] == dollars && text[|dollars| + 1..] == fraction;
    DotAfterDigits(fraction, []);
    assert fraction + [] == fraction && fraction[..|fraction|] == fraction;
    DotAfterDigits(dollars, []);
    assert dollars + [] == dollars;
  }

  lemma CentsAdd(round: real -> real, d: nat, c: nat)
    requires KeepsIntegers(round) && d * 100 + c <= MAX_SAFE
    ensures Rounded(round, d) == d && Rounded(round, c) == c && AddCents(round, d, c) == d * 100 + c
  {
    hide Rounded;
  }

  /** Dollars with any number of decimal digits, none included: digits beyond the second are ignored. */
  lemma UsdReadsDecimals(round: real -> real, dollars: Text, fraction: Text)
    requires KeepsIntegers(round) && AllDigits(dollars) && AllDigits(fraction)
    requires DigitsValue(dollars) * 100 + CentsOf(fraction) <= MAX_SAFE
    ensures UsdToCents(round, dollars + ([DOT] + fraction)) == Some(DigitsValue(dollars) * 100 + CentsOf(fraction))
    ensures fraction == [] ==> UsdToCents(round, dollars) == Some(DigitsValue(dollars) * 100)
  {
    hide CentsField, SplitAtDot, KeepsIntegers, Rounded, AddCents, DigitsValue, CentsOf;
    SplitDecimals(dollars, fraction);
    CentsFieldValue(fraction);
    CentsAdd(round, DigitsValue(dollars), CentsOf(fraction));
    if fraction == [] { NoCents(fraction); }
  }

  lemma NoCents(fraction: Text)
    requires fraction == []
    ensures CentsField(fraction) == CentsField([ZERO, ZERO]) && CentsOf(fraction) == 0
  {
  }
}
