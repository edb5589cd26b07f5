/** Text as JavaScript sees it: sequences of UTF-16 code units, and the characters the JSON code looks for. */
module Units {
  type Unit = u: int | 0 <= u < 0x10000
  type Text = seq<Unit>

  const QUOTE: Unit := 0x22
  const BACKSLASH: Unit := 0x5C
  const SLASH: Unit := 0x2F
  const LBRACE: Unit := 0x7B
  const RBRACE: Unit := 0x7D
  const LBRACKET: Unit := 0x5B
  const RBRACKET: Unit := 0x5D
  const COLON: Unit := 0x3A
  const COMMA: Unit := 0x2C
  const MINUS: Unit := 0x2D
  const DOT: Unit := 0x2E
  const ZERO: Unit := 0x30
  const LOWER_E: Unit := 0x65
  const UPPER_E: Unit := 0x45
  const LOWER_U: Unit := 0x75

  const NULL: Text := [0x6E, 0x75, 0x6C, 0x6C]
  const TRUE: Text := [0x74, 0x72, 0x75, 0x65]
  const FALSE: Text := [0x66, 0x61, 0x6C, 0x73, 0x65]

  datatype Option<+T> = None | Some(value: T)

  predicate Plain(s: string) {
    forall i :: 0 <= i < |s| ==> (s[i] as int) < 0x80
  }

  /** A string literal of ASCII characters, used for field names and codes. */
  type Name = s: string | Plain(s) witness ""

  /** The code units of an ASCII literal. */
  function Ascii(s: Name): Text {
    seq(|s|, i requires 0 <= i < |s| => s[i] as int)
  }

  lemma AsciiInjective(a: Name, b: Name)
    requires Ascii(a) == Ascii(b)
    ensures a == b
  {
    assert |a| == |Ascii(a)| == |b|;
    forall i | 0 <= i < |a| ensures a[i] == b[i] {
      assert Ascii(a)[i] == Ascii(b)[i];
    }
  }

  predicate IsWs(u: Unit) {
    u == 0x20 || u == 0x0A || u == 0x0D || u == 0x09
  }

  predicate AllWs(t: Text) {
    forall i :: 0 <= i < |t| ==> IsWs(t[i])
  }

  predicate IsDigit(u: Unit) {
    0x30 <= u <= 0x39
  }

  predicate AllDigits(t: Text) {
    forall i :: 0 <= i < |t| ==> IsDigit(t[i])
  }

  predicate IsHex(u: Unit) {
    0x30 <= u <= 0x39 || 0x41 <= u <= 0x46 || 0x61 <= u <= 0x66
  }

  /** The value of one hexadecimal digit. */
  function HexValue(u: Unit): (d: nat)
    requires IsHex(u)
    ensures d < 16
  {
    if u <= 0x39 then u - 0x30 else if u <= 0x46 then u - 0x37 else u - 0x57
  }

  /** The lower-case hexadecimal digit of a value. */
  function HexDigit(d: nat): (u: Unit)
    requires d < 16
    ensures IsHex(u) && HexValue(u) == d
  {
    if d < 10 then ZERO + d else 0x57 + d
  }

  /** The first half of a surrogate pair. */
  predicate IsHigh(u: Unit) {
    0xD800 <= u <= 0xDBFF
  }

  /** The second half of a surrogate pair. */
  predicate IsLow(u: Unit) {
    0xDC00 <= u <= 0xDFFF
  }

  /** The value of four hexadecimal digits, most significant first. */
  function Hex4(a: Unit, b: Unit, c: Unit, d: Unit): (u: Unit)
    requires IsHex(a) && IsHex(b) && IsHex(c) && IsHex(d)
  {
    HexValue(a) * 0x1000 + HexValue(b) * 0x100 + HexValue(c) * 0x10 + HexValue(d)
  }

  /** The letters allowed after a backslash, other than u: the set "\/bfnrt and the quotation mark. */
  predicate IsEscapeLetter(u: Unit) {
    u == QUOTE || u == BACKSLASH || u == SLASH ||
    u == 0x62 || u == 0x66 || u == 0x6E || u == 0x72 || u == 0x74
  }

  /** What an escape letter stands for (section 7 of RFC 8259). */
  function EscapeMeaning(u: Unit): Unit
    requires IsEscapeLetter(u)
  {
    if u == 0x62 then 0x08
    else if u == 0x66 then 0x0C
    else if u == 0x6E then 0x0A
    else if u == 0x72 then 0x0D
    else if u == 0x74 then 0x09
    else u
  }

  /** The number a string of decimal digits denotes. */
  function DigitsValue(t: Text): nat
    requires AllDigits(t)
  {
    if t == [] then 0 else DigitsValue(t[..|t| - 1]) * 10 + (t[|t| - 1] - ZERO)
  }

  /** Decimal digits of a natural number, as String(n) prints it. */
  function NatText(n: nat): (t: Text)
    ensures t != [] && AllDigits(t)
  {
    if n < 10 then [ZERO + n] else NatText(n / 10) + [ZERO + n % 10]
  }

  lemma {:induction false} NatTextValue(n: nat)
    ensures DigitsValue(NatText(n)) == n
    ensures NatText(n)[0] == ZERO <==> n == 0
    ensures n == 0 ==> NatText(n) == [ZERO]
  {
    if n < 10 {
      assert NatText(n)[..0] == [];
    } else {
      NatTextValue(n / 10);
      assert NatText(n)[..|NatText(n)| - 1] == NatText(n / 10);
    }
  }

  /** Code-unit order, the order Array.prototype.sort uses on strings. */
  predicate Less(a: Text, b: Text) {
    if b == [] then false
    else if a == [] then true
    else a[0] < b[0] || (a[0] == b[0] && Less(a[1..], b[1..]))
  }

  lemma {:induction false} LessIrreflexive(a: Text)
    ensures !Less(a, a)
  {
    if a != [] { LessIrreflexive(a[1..]); }
  }

  lemma {:induction false} LessTransitive(a: Text, b: Text, c: Text)
    requires Less(a, b) && Less(b, c)
    ensures Less(a, c)
  {
    if a != [] && a[0] == b[0] && b[0] == c[0] { LessTransitive(a[1..], b[1..], c[1..]); }
  }

  lemma {:induction false} LessConnected(a: Text, b: Text)
    requires a != b
    ensures Less(a, b) || Less(b, a)
  {
    if a != [] && b != [] && a[0] == b[0] {
      assert a == [a[0]] + a[1..] && b == [b[0]] + b[1..];
      LessConnected(a[1..], b[1..]);
    }
  }

  /** Where two texts first differ, the first has the smaller unit or has ended. */
  ghost predicate Before(a: Text, b: Text) {
    exists p :: 0 <= p <= |a| && p <= |b| && a[..p] == b[..p] &&
                (p == |a| < |b| || (p < |a| && p < |b| && a[p] < b[p]))
  }

  lemma BeforeIntro(a: Text, b: Text, p: nat)
    requires p <= |a| && p <= |b| && a[..p] == b[..p]
    requires p == |a| < |b| || (p < |a| && p < |b| && a[p] < b[p])
    ensures Before(a, b)
  {
  }

  lemma {:induction false} LessHasPrefix(a: Text, b: Text) returns (p: nat)
    requires Less(a, b)
    ensures p <= |a| && p <= |b| && a[..p] == b[..p]
    ensures p == |a| < |b| || (p < |a| && p < |b| && a[p] < b[p])
  {
    p := 0;
    if a != [] && a[0] == b[0] {
      var q := LessHasPrefix(a[1..], b[1..]);
      p := q + 1;
      assert a[..p] == [a[0]] + a[1..][..q] && b[..p] == [b[0]] + b[1..][..q];
    }
  }

  lemma {:induction false} PrefixMakesLess(a: Text, b: Text, p: nat)
    requires p <= |a| && p <= |b| && a[..p] == b[..p]
    requires p == |a| < |b| || (p < |a| && p < |b| && a[p] < b[p])
    ensures Less(a, b)
  {
    if p > 0 {
      assert a[0] == a[..p][0] == b[..p][0] == b[0];
      assert a[1..][..p - 1] == a[..p][1..] == b[..p][1..] == b[1..][..p - 1];
      PrefixMakesLess(a[1..], b[1..], p - 1);
    }
  }

  lemma LessExact(a: Text, b: Text)
    ensures Less(a, b) <==> Before(a, b)
  {
    if Less(a, b) {
      var p := LessHasPrefix(a, b);
      BeforeIntro(a, b, p);
    }
    if Before(a, b) {
      var p :| 0 <= p <= |a| && p <= |b| && a[..p] == b[..p] &&
               (p == |a| < |b| || (p < |a| && p < |b| && a[p] < b[p]));
      PrefixMakesLess(a, b, p);
    }
  }
}
