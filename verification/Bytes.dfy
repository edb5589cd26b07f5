/** Bytes, their hexadecimal spelling, and UTF-8 (RFC 3629). */
module Bytes {
  import opened Units

  type Byte = b: int | 0 <= b < 256

  // ----- Hexadecimal -----

  predicate AllHex(t: Text) {
    forall i :: 0 <= i < |t| ==> IsHex(t[i])
  }

  /** The test /^[0-9a-fA-F]{64}$/. */
  predicate IsHash64(t: Text) {
    |t| == 64 && AllHex(t)
  }

  /** Buffer.from(t, "hex") on an even number of hexadecimal digits. */
  function HexBytes(t: Text): (bytes: seq<Byte>)
    requires AllHex(t) && |t| % 2 == 0
    ensures |bytes| == |t| / 2
  {
    if t == [] then [] else [HexValue(t[0]) * 16 + HexValue(t[1])] + HexBytes(t[2..])
  }

  /** Buffer.toString("hex"): two lower-case digits a byte. */
  function HexText(bytes: seq<Byte>): (t: Text)
    ensures |t| == 2 * |bytes| && AllHex(t)
  {
    if bytes == [] then [] else [HexDigit(bytes[0] / 16), HexDigit(bytes[0] % 16)] + HexText(bytes[1..])
  }

  /** Letter case folded away in a string of hexadecimal digits. */
  function LowerHex(t: Text): (l: Text)
    requires AllHex(t)
    ensures |l| == |t| && AllHex(l)
  {
    seq(|t|, i requires 0 <= i < |t| => HexDigit(HexValue(t[i])))
  }

  /** Reading hexadecimal digits and writing the bytes back changes nothing but the case of the letters. */
  lemma {:induction false} HexRoundTrip(t: Text)
    requires AllHex(t) && |t| % 2 == 0
    ensures HexText(HexBytes(t)) == LowerHex(t)
  {
    hide HexValue, HexDigit;
    if t != [] {
      HexRoundTrip(t[2..]);
      var b := HexBytes(t);
      assert b[1..] == HexBytes(t[2..]);
      Nibbles(HexValue(t[0]), HexValue(t[1]));
      LowerHexPair(t);
    }
  }

  lemma Nibbles(high: nat, low: nat)
    requires high < 16 && low < 16
    ensures (high * 16 + low) / 16 == high && (high * 16 + low) % 16 == low
  {
  }

  lemma LowerHexPair(t: Text)
    requires AllHex(t) && |t| >= 2
    ensures LowerHex(t) == [HexDigit(HexValue(t[0])), HexDigit(HexValue(t[1]))] + LowerHex(t[2..])
  {
    hide HexValue, HexDigit;
  }

  /** The bytes are decided by the digits up to case. */
  lemma {:induction false} HexBytesFold(t: Text)
    requires AllHex(t) && |t| % 2 == 0
    ensures HexBytes(LowerHex(t)) == HexBytes(t)
  {
    if t != [] {
      HexBytesFold(t[2..]);
      assert LowerHex(t)[2..] == LowerHex(t[2..]);
    }
  }

  // ----- UTF-8 -----

  /** A Unicode scalar value: any code point but a surrogate. */
  type Scalar = c: int | (0 <= c < 0xD800) || (0xE000 <= c < 0x110000) witness 0

  /** A continuation byte: the marker 10 and the low six bits. */
  function Continuation(c: nat): (b: Byte)
    ensures 0x80 <= b < 0xC0
    ensures c == c / 64 * 64 + (b - 0x80)
  {
    0x80 + c % 64
  }

  /** A first byte: a marker for the length and the top bits. */
  function Leading(marker: nat, top: nat): (b: Byte)
    requires marker + top < 256
    ensures b == marker + top
  {
    marker + top
  }

  /** The UTF-8 bytes of one scalar value. */
  function Utf8Scalar(c: Scalar): (bytes: seq<Byte>)
    ensures 1 <= |bytes| <= 4
  {
    if c < 0x80 then [c]
    else if c < 0x800 then [Leading(0xC0, c / 64), Continuation(c)]
    else if c < 0x10000 then [Leading(0xE0, c / 64 / 64), Continuation(c / 64), Continuation(c)]
    else [Leading(0xF0, c / 64 / 64 / 64), Continuation(c / 64 / 64), Continuation(c / 64), Continuation(c)]
  }

  function Utf8(s: seq<Scalar>): (bytes: seq<Byte>) {
    if s == [] then [] else Utf8Scalar(s[0]) + Utf8(s[1..])
  }

  /** How many bytes the sequence that starts with this byte takes. */
  function Width(first: Byte): (n: nat)
    ensures 1 <= n <= 4
  {
    if first < 0x80 then 1 else if first < 0xE0 then 2 else if first < 0xF0 then 3 else 4
  }

  /** Six more bits. */
  function Join(top: int, b: Byte): int {
    top * 64 + ((b as int) - 0x80)
  }

  function ReadScalar(b: seq<Byte>): (c: int)
    requires b != [] && |b| == Width(b[0])
  {
    if |b| == 1 then b[0] as int
    else if |b| == 2 then Join((b[0] as int) - 0xC0, b[1])
    else if |b| == 3 then Join(Join((b[0] as int) - 0xE0, b[1]), b[2])
    else Join(Join(Join((b[0] as int) - 0xF0, b[1]), b[2]), b[3])
  }

  lemma ScalarReadsBack(c: Scalar)
    ensures |Utf8Scalar(c)| == Width(Utf8Scalar(c)[0])
    ensures ReadScalar(Utf8Scalar(c)) == c
  {
    hide Continuation;
  }

  /** The patterns of UTF-8 (section 3 of RFC 3629): a marker for each length, six bits in every later byte, shortest form. */
  lemma Utf8Patterns(c: Scalar)
    ensures var b := Utf8Scalar(c);
            && (c <= 0x7F ==> b == [c])
            && (0x80 <= c <= 0x7FF ==> |b| == 2 && 0xC2 <= b[0] <= 0xDF && c == ((b[0] as int) - 0xC0) * 64 + Low(b[1]))
            && (0x800 <= c <= 0xFFFF ==>
                  |b| == 3 && 0xE0 <= b[0] <= 0xEF && c == (((b[0] as int) - 0xE0) * 64 + Low(b[1])) * 64 + Low(b[2]))
            && (0x10000 <= c ==>
                  |b| == 4 && 0xF0 <= b[0] <= 0xF4 && c == ((((b[0] as int) - 0xF0) * 64 + Low(b[1])) * 64 + Low(b[2])) * 64 + Low(b[3]))
            && forall i :: 1 <= i < |b| ==> 0x80 <= b[i] <= 0xBF
  {
    hide Continuation;
  }

  /** The six bits of a later byte. */
  function Low(b: Byte): int {
    (b as int) - 0x80
  }

  /** Different strings have different UTF-8: the first bytes tell the first scalar. */
  lemma {:induction false} Utf8Injective(s: seq<Scalar>, t: seq<Scalar>)
    requires Utf8(s) == Utf8(t)
    ensures s == t
  {
    if s != [] && t != [] {
      Utf8HeadTail(s);
      Utf8HeadTail(t);
      Utf8Injective(s[1..], t[1..]);
      assert s == [s[0]] + s[1..] && t == [t[0]] + t[1..];
    }
  }

  lemma Utf8HeadTail(s: seq<Scalar>)
    requires s != []
    ensures Utf8(s) != []
    ensures Width(Utf8(s)[0]) <= |Utf8(s)|
    ensures s[0] == ReadScalar(Utf8(s)[..Width(Utf8(s)[0])])
    ensures Utf8(s[1..]) == Utf8(s)[Width(Utf8(s)[0])..]
  {
    hide ReadScalar;
    hide Width;
    ScalarReadsBack(s[0]);
    var head, tail := Utf8Scalar(s[0]), Utf8(s[1..]);
    assert Utf8(s) == head + tail;
    assert (head + tail)[..|head|] == head && (head + tail)[|head|..] == tail;
  }

  // ----- UTF-16 to UTF-8, as Buffer.from(text, "utf8") does it -----

  const REPLACEMENT: Scalar := 0xFFFD

  /** The scalar value a surrogate pair stands for. */
  function Paired(high: Unit, low: Unit): Scalar
    requires IsHigh(high) && IsLow(low)
  {
    0x10000 + (high - 0xD800) * 0x400 + (low - 0xDC00)
  }

  /** The surrogate pair of a scalar value beyond the first plane. */
  function Pair(c: Scalar): (p: (Unit, Unit))
    requires c >= 0x10000
    ensures IsHigh(p.0) && IsLow(p.1) && Paired(p.0, p.1) == c
  {
    (0xD800 + (c - 0x10000) / 0x400, 0xDC00 + (c - 0x10000) % 0x400)
  }

  lemma PairOfPaired(high: Unit, low: Unit)
    requires IsHigh(high) && IsLow(low)
    ensures Paired(high, low) >= 0x10000 && Pair(Paired(high, low)) == (high, low)
  {
  }

  /** The scalar values of UTF-16 text; a surrogate without its partner becomes U+FFFD. */
  function Scalars(t: Text): (s: seq<Scalar>)
    ensures t != [] ==> s != []
  {
    if t == [] then []
    else if IsHigh(t[0]) && |t| > 1 && IsLow(t[1]) then
      [Paired(t[0], t[1])] + Scalars(t[2..])
    else if IsHigh(t[0]) || IsLow(t[0]) then [REPLACEMENT] + Scalars(t[1..])
    else [t[0]] + Scalars(t[1..])
  }

  /** UTF-16 of scalar values. */
  function Units16(s: seq<Scalar>): (t: Text) {
    if s == [] then []
    else if s[0] < 0x10000 then [s[0]] + Units16(s[1..])
    else [Pair(s[0]).0, Pair(s[0]).1] + Units16(s[1..])
  }

  /** Well-formed UTF-16: every surrogate is half of a pair. */
  predicate WellFormed16(t: Text) {
    t == [] ||
    if IsHigh(t[0]) then |t| > 1 && IsLow(t[1]) && WellFormed16(t[2..]) else !IsLow(t[0]) && WellFormed16(t[1..])
  }

  /** Text with each lone surrogate replaced by U+FFFD. */
  function Mended(t: Text): Text {
    Units16(Scalars(t))
  }

  /** Mending changes exactly the text that is not well formed. */
  lemma {:induction false} MendedUnchanged(t: Text)
    ensures Mended(t) == t <==> WellFormed16(t)
  {
    hide Pair, Paired, Mended;
    if t == [] {
      assert Mended(t) == t by { MendedStep(t); }
    } else if IsHigh(t[0]) && |t| > 1 && IsLow(t[1]) {
      MendedUnchanged(t[2..]);
      MendedStep(t);
      SameTail([t[0], t[1]], Mended(t[2..]), t[2..]);
      assert t == [t[0], t[1]] + t[2..];
    } else {
      MendedUnchanged(t[1..]);
      MendedStep(t);
      if IsHigh(t[0]) || IsLow(t[0]) {
        assert Mended(t)[0] != t[0];
      } else {
        SameTail([t[0]], Mended(t[1..]), t[1..]);
        assert t == [t[0]] + t[1..];
      }
    }
  }

  lemma MendedStep(t: Text)
    ensures Mended(t) ==
            if t == [] then []
            else if IsHigh(t[0]) && |t| > 1 && IsLow(t[1]) then [t[0], t[1]] + Mended(t[2..])
            else if IsHigh(t[0]) || IsLow(t[0]) then [REPLACEMENT as int] + Mended(t[1..])
            else [t[0]] + Mended(t[1..])
  {
    hide Pair, Paired;
    if t != [] {
      if IsHigh(t[0]) && |t| > 1 && IsLow(t[1]) {
        PairOfPaired(t[0], t[1]);
        assert Scalars(t)[1..] == Scalars(t[2..]);
      } else {
        assert Scalars(t)[1..] == Scalars(t[1..]);
      }
    }
  }

  lemma SameTail(head: Text, a: Text, b: Text)
    ensures head + a == head + b <==> a == b
  {
    if head + a == head + b {
      assert a == (head + a)[|head|..] == (head + b)[|head|..] == b;
    }
  }

  lemma {:induction false} ScalarsOfUnits(s: seq<Scalar>)
    ensures Scalars(Units16(s)) == s
  {
    if s != [] {
      ScalarsOfUnits(s[1..]);
      assert s == [s[0]] + s[1..];
      var t := Units16(s);
      if s[0] < 0x10000 {
        assert t[1..] == Units16(s[1..]);
      } else {
        assert t[2..] == Units16(s[1..]);
      }
    }
  }
}
