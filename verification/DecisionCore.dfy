/** The binary encoding of the decision core, and a decoder that reads it back: app/encoding/binary_experiment.js. */
module DecisionCore {
  import opened Units
  import opened JsonValues
  import opened Bytes
  import opened Sequences
  import opened Contracts

  /** A JavaScript value where an unsigned safe integer is wanted. */
  datatype Numeric = Integer(n: int) | MinusZero | NotInteger

  /** The core to encode. A field that is missing or not a string is None; `extra` lists keys outside the eight known ones. */
  datatype Core = Core(requestHash: Option<Text>, decision: Option<Text>, reason: Option<Text>, policyHash: Option<Text>,
                       decisionHash: Option<Text>, keySetVersion: Option<Text>, cost: Option<Numeric>,
                       timestamp: Option<Numeric>, extra: seq<Text>)

  const MAGIC: seq<Byte> := [0x4D, 0x4E, 0x44, 0x45, 0x42, 0x31]

  /** The decisions in the order of their numbers, from 0; the reasons are numbered from 1 in the order of `Codes`. */
  function DecisionNames(): (names: seq<Name>) { ["REFUSE", "ALLOW"] }

  /** The position of a name in a table. */
  function Position(names: seq<Name>, t: Text): (p: Option<nat>)
    ensures p.Some? ==> p.value < |names| && Ascii(names[p.value]) == t
    ensures p.None? ==> forall i :: 0 <= i < |names| ==> Ascii(names[i]) != t
  {
    if names == [] then None
    else if Ascii(names[0]) == t then Some(0)
    else
      match Position(names[1..], t)
      case None => assert forall i :: 0 < i < |names| ==> names[i] == names[1..][i - 1]; None
      case Some(p) => Some(p + 1)
  }

  function DecisionId(t: Option<Text>): Option<nat> {
    if t.None? then None else Position(DecisionNames(), t.value)
  }

  function ReasonId(t: Option<Text>): Option<nat> {
    if t.None? then None
    else
      match Position(Codes(), t.value)
      case None => None
      case Some(p) => Some(p + 1)
  }

  predicate Unsigned(x: Numeric) {
    x.MinusZero? || (x.Integer? && 0 <= x.n <= MAX_SAFE)
  }

  function Amount(x: Numeric): (n: nat)
    requires Unsigned(x)
    ensures n <= MAX_SAFE
  {
    if x.MinusZero? then 0 else x.n
  }

  predicate HashOk(t: Option<Text>) {
    t.Some? && IsHash64(t.value)
  }

  predicate VersionOk(t: Option<Text>) {
    t.Some? && t.value != [] && |Utf8(Scalars(t.value))| <= 0xFFFF
  }

  predicate CountOk(x: Option<Numeric>) {
    x.Some? ==> Unsigned(x.value)
  }

  /** The cores the encoder accepts. */
  predicate Encodable(c: Core) {
    && c.extra == []
    && DecisionId(c.decision).Some? && ReasonId(c.reason).Some?
    && CountOk(c.cost) && CountOk(c.timestamp)
    && HashOk(c.requestHash) && HashOk(c.policyHash) && HashOk(c.decisionHash)
    && VersionOk(c.keySetVersion)
  }

  // ----- Big-endian integers -----

  function Pow256(width: nat): (p: nat)
    ensures p >= 1
  {
    if width == 0 then 1 else 256 * Pow256(width - 1)
  }

  /** The last `width` bytes of a number, most significant first. */
  function BigEndian(n: nat, width: nat): (b: seq<Byte>)
    ensures |b| == width
  {
    if width == 0 then [] else BigEndian(n / 256, width - 1) + [n % 256]
  }

  function FromBigEndian(b: seq<Byte>): nat {
    if b == [] then 0 else 256 * FromBigEndian(b[..|b| - 1]) + b[|b| - 1]
  }

  lemma {:induction false} BigEndianReadsBack(n: nat, width: nat)
    requires n < Pow256(width)
    ensures FromBigEndian(BigEndian(n, width)) == n
  {
    if width > 0 {
      BigEndianReadsBack(n / 256, width - 1);
      var b := BigEndian(n, width);
      assert b[..|b| - 1] == BigEndian(n / 256, width - 1);
    }
  }

  lemma Widths()
    ensures Pow256(1) == 0x100 && Pow256(2) == 0x1_0000 && MAX_SAFE < Pow256(8)
  {
    assert Pow256(4) == 0x1_0000_0000;
    assert Pow256(8) == 256 * (256 * (256 * (256 * Pow256(4))));
  }

  // ----- Encoding -----

  function Concat(parts: seq<seq<Byte>>): seq<Byte> {
    if parts == [] then [] else parts[0] + Concat(parts[1..])
  }

  function Flags(c: Core): nat {
    (if c.cost.None? then 0 else 1) + (if c.timestamp.None? then 0 else 2)
  }

  function Count(x: Option<Numeric>): seq<seq<Byte>>
    requires CountOk(x)
  {
    match x
    case None => []
    case Some(v) => [BigEndian(Amount(v), 8)]
  }

  function VersionBytes(c: Core): (b: seq<Byte>)
    requires VersionOk(c.keySetVersion)
    ensures 0 < |b| <= 0xFFFF
  {
    var s := Scalars(c.keySetVersion.value);
    assert Utf8(s) == Utf8Scalar(s[0]) + Utf8(s[1..]);
    Utf8(s)
  }

  /** The fields of fixed width, up to the length of the version. */
  function Header(c: Core): (parts: seq<seq<Byte>>)
    requires Encodable(c)
    ensures |parts| == 9
  {
    hide DecisionId, ReasonId, Utf8, Scalars;
    IdsFit(c);
    [MAGIC, [1], [Flags(c)], HexBytes(c.requestHash.value), [DecisionId(c.decision).value],
     BigEndian(ReasonId(c.reason).value, 2), HexBytes(c.policyHash.value), HexBytes(c.decisionHash.value),
     BigEndian(|VersionBytes(c)|, 2)]
  }

  /** The version and the optional counts. */
  function Body(c: Core): seq<seq<Byte>>
    requires Encodable(c)
  {
    [VersionBytes(c)] + Count(c.cost) + Count(c.timestamp)
  }

  /** The bytes of a core; None where the encoder throws. */
  function Encode(c: Core): Option<seq<Byte>> {
    if Encodable(c) then Some(Concat(Header(c)) + Concat(Body(c))) else None
  }

  lemma Encodes(c: Core)
    ensures Encode(c).Some? <==> Encodable(c)
  {
    hide Encodable, Concat, Header, Body;
  }

  lemma {:induction false} ConcatAppend(a: seq<seq<Byte>>, b: seq<seq<Byte>>)
    ensures Concat(a + b) == Concat(a) + Concat(b)
  {
    if a == [] {
      assert a + b == b;
    } else {
      ConcatAppend(a[1..], b);
      assert (a + b)[1..] == a[1..] + b;
      Assoc(a[0], Concat(a[1..]), Concat(b));
    }
  }

  /** A hash as 32 raw bytes; None where it throws. */
  function RawHash(t: Option<Text>): Option<seq<Byte>> {
    if HashOk(t) then Some(HexBytes(t.value)) else None
  }

  function Uint8(n: nat): Option<seq<Byte>> {
    if n > 0xFF then None else Some([n])
  }

  function Uint16(n: nat): Option<seq<Byte>> {
    if n > 0xFFFF then None else Some(BigEndian(n, 2))
  }

  function Uint64(x: Numeric): Option<seq<Byte>> {
    if !Unsigned(x) then None else Some(BigEndian(Amount(x), 8))
  }

  function EncodedKeySetVersion(t: Option<Text>): Option<seq<Byte>> {
    if t.None? || t.value == [] then None
    else
      var bytes := Utf8(Scalars(t.value));
      if |bytes| > 0xFFFF then None else Some(BigEndian(|bytes|, 2) + bytes)
  }

  /** The encoder: checks, a list of parts, two optional parts pushed, and their concatenation. */
  method EncodeDecisionCore(core: Core) returns (result: Option<seq<Byte>>)
    ensures result == Encode(core)
  {
    hide Encode, DecisionId, ReasonId, HexBytes, Utf8, BigEndian, Unsigned, Body, Concat;
    Encodes(core);
    if core.extra != [] { return None; }
    var decision := DecisionId(core.decision);
    if decision.None? { return None; }
    var reason := ReasonId(core.reason);
    if reason.None? { return None; }
    if core.cost.Some? && !Unsigned(core.cost.value) { return None; }
    if core.timestamp.Some? && !Unsigned(core.timestamp.value) { return None; }

    var flags: nat := (if core.cost.None? then 0 else 1) + (if core.timestamp.None? then 0 else 2);
    IdsFit(core);
    var requestHash := RawHash(core.requestHash);
    if requestHash.None? { return None; }
    var policyHash := RawHash(core.policyHash);
    if policyHash.None? { return None; }
    var decisionHash := RawHash(core.decisionHash);
    if decisionHash.None? { return None; }
    var version := EncodedKeySetVersion(core.keySetVersion);
    if version.None? { return None; }
    var parts := [MAGIC, Uint8(1).value, Uint8(flags).value, requestHash.value, Uint8(decision.value).value,
                  Uint16(reason.value).value, policyHash.value, decisionHash.value, version.value];
    if core.cost.Some? { parts := parts + [Uint64(core.cost.value).value]; }
    if core.timestamp.Some? { parts := parts + [Uint64(core.timestamp.value).value]; }
    PartsJoin(core, parts);
    result := Some(Concat(parts));
  }

  lemma IdsFit(c: Core)
    ensures DecisionId(c.decision).Some? ==> DecisionId(c.decision).value < 2
    ensures ReasonId(c.reason).Some? ==> 1 <= ReasonId(c.reason).value <= 32
  {
    hide Ascii;
  }

  /** The encoder's nine parts and its optional tail are the header and the body. */
  lemma PartsJoin(c: Core, parts: seq<seq<Byte>>)
    requires Encodable(c)
    requires parts == Header(c)[..8] + [Header(c)[8] + VersionBytes(c)] + Count(c.cost) + Count(c.timestamp)
    ensures Encode(c) == Some(Concat(parts))
  {
    hide DecisionId, ReasonId, HexBytes, Utf8, BigEndian, Unsigned, Concat;
    var length, version := BigEndian(|VersionBytes(c)|, 2), VersionBytes(c);
    var front, counts := Header(c)[..8], Count(c.cost) + Count(c.timestamp);
    assert parts == front + ([length + version] + counts);
    assert Header(c) == front + [length];
    assert Body(c) == [version] + counts;
    ConcatAppend(front, [length + version] + counts);
    ConcatAppend([length + version], counts);
    ConcatAppend(front, [length]);
    ConcatAppend([version], counts);
    ConcatOne([length + version]);
    ConcatOne([length]);
    ConcatOne([version]);
    Assoc(Concat(front), length, version + Concat(counts));
    Assoc(length, version, Concat(counts));
  }

  lemma ConcatOne(parts: seq<seq<Byte>>)
    requires |parts| == 1
    ensures Concat(parts) == parts[0]
  {
    assert parts[1..] == [];
  }

  // ----- Decoding -----

  /** The first pieces of a byte string, with the given widths, and what follows them. */
  function Split(b: seq<Byte>, widths: seq<nat>): (r: Option<(seq<seq<Byte>>, seq<Byte>)>)
    ensures r.Some? ==> |r.value.0| == |widths| && forall i :: 0 <= i < |widths| ==> |r.value.0[i]| == widths[i]
  {
    if widths == [] then Some(([], b))
    else if |b| < widths[0] then None
    else
      match Split(b[widths[0]..], widths[1..])
      case None => None
      case Some((pieces, rest)) => Some(([b[..widths[0]]] + pieces, rest))
  }

  lemma {:induction false} SplitConcat(parts: seq<seq<Byte>>, widths: seq<nat>, rest: seq<Byte>)
    requires |parts| == |widths| && forall i :: 0 <= i < |widths| ==> |parts[i]| == widths[i]
    ensures Split(Concat(parts) + rest, widths) == Some((parts, rest))
  {
    if parts == [] {
      assert Concat(parts) + rest == rest;
    } else {
      SplitConcat(parts[1..], widths[1..], rest);
      Assoc(parts[0], Concat(parts[1..]), rest);
      var b := Concat(parts) + rest;
      CutAt(parts[0], Concat(parts[1..]) + rest);
      assert parts == [parts[0]] + parts[1..];
    }
  }

  lemma CutAt(a: seq<Byte>, b: seq<Byte>)
    ensures (a + b)[..|a|] == a && (a + b)[|a|..] == b
  {
  }

  /** Scalar values read from UTF-8. */
  function FromUtf8(b: seq<Byte>): seq<Scalar>
    decreases |b|
  {
    if b == [] || |b| < Width(b[0]) then []
    else
      var c := ReadScalar(b[..Width(b[0])]);
      [if (0 <= c < 0xD800) || (0xE000 <= c < 0x110000) then c else REPLACEMENT] + FromUtf8(b[Width(b[0])..])
  }

  lemma {:induction false} Utf8ReadsBack(s: seq<Scalar>)
    ensures FromUtf8(Utf8(s)) == s
  {
    hide ReadScalar, Width, Utf8Scalar;
    if s != [] {
      Utf8HeadTail(s);
      Utf8ReadsBack(s[1..]);
      assert s == [s[0]] + s[1..];
    }
  }

  const HEADER_WIDTHS: seq<nat> := [6, 1, 1, 32, 1, 2, 32, 32, 2]

  function BodyWidths(flags: nat, length: nat): seq<nat> {
    [length] + (if flags % 2 == 1 then [8] else []) + (if flags / 2 == 1 then [8] else [])
  }

  /** Reads one core off the front of a byte string: the core, and the bytes after it. */
  function Decode(b: seq<Byte>): Option<(Core, seq<Byte>)> {
    match Split(b, HEADER_WIDTHS)
    case None => None
    case Some((h, rest)) =>
      var flags, decision, reason := h[2][0], h[4][0], FromBigEndian(h[5]);
      if h[0] != MAGIC || h[1] != [1] || flags >= 4 || decision >= 2 || !(1 <= reason <= 32) then None
      else
        match Split(rest, BodyWidths(flags, FromBigEndian(h[8])))
        case None => None
        case Some((body, tail)) =>
          var cost := if flags % 2 == 1 then Some(Integer(FromBigEndian(body[1]))) else None;
          var timestamp := if flags / 2 == 1 then Some(Integer(FromBigEndian(body[|body| - 1]))) else None;
          Some((Core(Some(HexText(h[3])), Some(Ascii(DecisionNames()[decision])), Some(Ascii(Codes()[reason - 1])),
                     Some(HexText(h[6])), Some(HexText(h[7])), Some(Units16(FromUtf8(body[0]))), cost, timestamp, []),
                tail))
  }

  function FoldHash(t: Option<Text>): Option<Text>
    requires HashOk(t)
  {
    Some(LowerHex(t.value))
  }

  function FoldCount(x: Option<Numeric>): Option<Numeric>
    requires CountOk(x)
  {
    match x
    case None => None
    case Some(v) => Some(Integer(Amount(v)))
  }

  /** What of a core the encoding keeps: hashes in lower case, lone surrogates replaced, minus zero as zero. */
  function Fold(c: Core): Core
    requires Encodable(c)
  {
    Core(FoldHash(c.requestHash), c.decision, c.reason, FoldHash(c.policyHash), FoldHash(c.decisionHash),
         Some(Mended(c.keySetVersion.value)), FoldCount(c.cost), FoldCount(c.timestamp), [])
  }

  lemma HeaderSplits(c: Core, rest: seq<Byte>)
    requires Encodable(c)
    ensures Split(Concat(Header(c)) + rest, HEADER_WIDTHS) == Some((Header(c), rest))
  {
    hide DecisionId, ReasonId, Concat, Utf8, BigEndian, Split;
    SplitConcat(Header(c), HEADER_WIDTHS, rest);
  }

  lemma BodySplits(c: Core, rest: seq<Byte>)
    requires Encodable(c)
    ensures Split(Concat(Body(c)) + rest, BodyWidths(Flags(c), |VersionBytes(c)|)) == Some((Body(c), rest))
  {
    hide DecisionId, ReasonId, Concat, Utf8, BigEndian, Split;
    SplitConcat(Body(c), BodyWidths(Flags(c), |VersionBytes(c)|), rest);
  }

  lemma CountReadsBack(x: Option<Numeric>)
    requires CountOk(x) && x.Some?
    ensures FromBigEndian(Count(x)[0]) == Amount(x.value)
  {
    Widths();
    BigEndianReadsBack(Amount(x.value), 8);
  }

  lemma NamesReadBack(c: Core)
    requires Encodable(c)
    ensures DecisionId(c.decision).value < 2 && 1 <= ReasonId(c.reason).value <= 32
    ensures Some(Ascii(DecisionNames()[DecisionId(c.decision).value])) == c.decision
    ensures Some(Ascii(Codes()[ReasonId(c.reason).value - 1])) == c.reason
  {
    hide Ascii, Codes;
  }

  /** The round trip: whatever follows an encoding, the decoder reads the core back, up to what folding forgets. */
  lemma DecodeEncode(c: Core, tail: seq<Byte>)
    requires Encode(c).Some?
    ensures Decode(Encode(c).value + tail) == Some((Fold(c), tail))
  {
    hide DecisionId, ReasonId, Concat, Utf8, BigEndian, FromBigEndian, Split, HexBytes, HexText, Ascii, Codes, Pow256,
         Unsigned, IsHash64, LowerHex, Units16, Scalars;
    var body := Concat(Body(c)) + tail;
    Assoc(Concat(Header(c)), Concat(Body(c)), tail);
    HeaderSplits(c, body);
    NamesReadBack(c);
    Widths();
    BigEndianReadsBack(ReasonId(c.reason).value, 2);
    BigEndianReadsBack(|VersionBytes(c)|, 2);
    BodySplits(c, tail);
    HashesReadBack(c);
    Utf8ReadsBack(Scalars(c.keySetVersion.value));
    if c.cost.Some? { CountReadsBack(c.cost); }
    if c.timestamp.Some? { CountReadsBack(c.timestamp); }
  }

  lemma HashesReadBack(c: Core)
    requires Encodable(c)
    ensures Some(HexText(HexBytes(c.requestHash.value))) == FoldHash(c.requestHash)
    ensures Some(HexText(HexBytes(c.policyHash.value))) == FoldHash(c.policyHash)
    ensures Some(HexText(HexBytes(c.decisionHash.value))) == FoldHash(c.decisionHash)
  {
    hide HexText, HexBytes, LowerHex, DecisionId, ReasonId;
    HexRoundTrip(c.requestHash.value);
    HexRoundTrip(c.policyHash.value);
    HexRoundTrip(c.decisionHash.value);
  }

  // ----- Unique decodability -----

  /** Two cores with the same encoding, or with one encoding the start of the other, fold to the same core. */
  lemma PrefixFree(a: Core, b: Core, tail: seq<Byte>)
    requires Encode(a).Some? && Encode(b).Some?
    requires Encode(a).value + tail == Encode(b).value
    ensures tail == [] && Fold(a) == Fold(b)
  {
    hide Encode, Decode, Fold;
    DecodeEncode(a, tail);
    DecodeEncode(b, []);
    assert Encode(b).value + [] == Encode(b).value;
  }

  /** Encodings are equal exactly when the folded cores are. */
  lemma EncodingIsInjective(a: Core, b: Core)
    requires Encodable(a) && Encodable(b)
    ensures Encode(a) == Encode(b) <==> Fold(a) == Fold(b)
  {
    hide Encode, Decode, Fold, Encodable;
    assert Encode(a).Some? && Encode(b).Some? by { Encodes(a); Encodes(b); }
    if Encode(a) == Encode(b) {
      assert Encode(a).value + [] == Encode(b).value;
      PrefixFree(a, b, []);
    }
    if Fold(a) == Fold(b) {
      FoldKeepsEncoding(a);
      FoldKeepsEncoding(b);
    }
  }

  lemma {:induction false} FoldKeepsEncoding(c: Core)
    requires Encodable(c)
    ensures Encodable(Fold(c)) && Encode(Fold(c)) == Encode(c)
  {
    hide DecisionId, ReasonId, Concat, Utf8, BigEndian, HexBytes, LowerHex, Scalars, Units16, Utf8Scalar;
    HexBytesFold(c.requestHash.value);
    HexBytesFold(c.policyHash.value);
    HexBytesFold(c.decisionHash.value);
    ScalarsOfUnits(Scalars(c.keySetVersion.value));
    MendedNotEmpty(c.keySetVersion.value);
    assert VersionBytes(Fold(c)) == VersionBytes(c);
    assert Header(Fold(c)) == Header(c);
    assert Count(Fold(c).cost) == Count(c.cost) && Count(Fold(c).timestamp) == Count(c.timestamp);
  }

  lemma MendedNotEmpty(t: Text)
    requires t != []
    ensures Mended(t) != []
  {
  }

  /** Nothing is folded away of a core with lower-case hashes, well-formed text and no minus zero. */
  predicate Exact(c: Core) {
    && Encodable(c)
    && LowerHex(c.requestHash.value) == c.requestHash.value && LowerHex(c.policyHash.value) == c.policyHash.value
    && LowerHex(c.decisionHash.value) == c.decisionHash.value
    && WellFormed16(c.keySetVersion.value)
    && c.cost != Some(MinusZero) && c.timestamp != Some(MinusZero)
  }

  /** The decoder returns the very core that was encoded exactly when the core is exact. */
  lemma RoundTripExact(c: Core, tail: seq<Byte>)
    requires Encodable(c)
    ensures Decode(Encode(c).value + tail) == Some((c, tail)) <==> Exact(c)
  {
    hide Encode, Decode, LowerHex, IsHash64, DecisionId, ReasonId, WellFormed16, Mended, Utf8, Scalars;
    Encodes(c);
    DecodeEncode(c, tail);
    MendedUnchanged(c.keySetVersion.value);
  }

  // ----- Receipts -----

  const RECEIPT_KEY_SET: Name := "receipt-key-set-v1"

  /** decisionCoreFromReceipt: six fields of the decision output. */
  function CoreOfReceipt(o: DecisionOutput): Core {
    Core(Some(o.requestHash), Some(Ascii(if o.decision.ALLOW? then "ALLOW" else "REFUSE")), Some(Ascii(Code(o.reason))),
         Some(o.policyHash), Some(o.decisionHash), Some(Ascii(RECEIPT_KEY_SET)), None, None, [])
  }

  /** Every decision output whose hashes are 32 bytes in hexadecimal encodes: each decision and reason code has a number. */
  lemma ReceiptsEncode(o: DecisionOutput)
    requires IsHash64(o.requestHash) && IsHash64(o.policyHash) && IsHash64(o.decisionHash)
    ensures Encode(CoreOfReceipt(o)).Some?
  {
    hide Header, Body, Concat, IsHash64, Codes;
    KnownNames(o);
    ReceiptVersionFits();
  }

  lemma KnownNames(o: DecisionOutput)
    ensures DecisionId(CoreOfReceipt(o).decision).Some? && ReasonId(CoreOfReceipt(o).reason).Some?
  {
    hide Ascii, Codes;
    var n := Number(o.reason);
    assert Code(o.reason) == Codes()[n];
    assert DecisionNames()[0] == "REFUSE" && DecisionNames()[1] == "ALLOW";
  }

  lemma {:induction false} AsciiWidth(t: Text)
    requires forall i :: 0 <= i < |t| ==> t[i] < 0x80
    ensures |Utf8(Scalars(t))| == |t|
  {
    if t != [] {
      AsciiWidth(t[1..]);
      assert Scalars(t)[1..] == Scalars(t[1..]);
    }
  }

  lemma ReceiptVersionFits()
    ensures VersionOk(Some(Ascii(RECEIPT_KEY_SET)))
  {
    hide Utf8, Scalars;
    AsciiWidth(Ascii(RECEIPT_KEY_SET));
    assert |Ascii(RECEIPT_KEY_SET)| == 18;
  }

  /** Two receipts whose cores encode alike agree on the decision, the reason and, up to case, the three hashes. */
  lemma EncodingFixesDecision(a: DecisionOutput, b: DecisionOutput)
    requires Encode(CoreOfReceipt(a)).Some? && Encode(CoreOfReceipt(a)) == Encode(CoreOfReceipt(b))
    ensures a.decision == b.decision && a.reason == b.reason
    ensures FoldHash(Some(a.requestHash)) == FoldHash(Some(b.requestHash))
    ensures FoldHash(Some(a.decisionHash)) == FoldHash(Some(b.decisionHash))
  {
    hide Encode, DecisionId, ReasonId, LowerHex, IsHash64, Mended, Ascii, Codes, Utf8, Scalars;
    Encodes(CoreOfReceipt(a));
    Encodes(CoreOfReceipt(b));
    EncodingIsInjective(CoreOfReceipt(a), CoreOfReceipt(b));
    AsciiInjective(Code(a.reason), Code(b.reason));
    CodeInjective(a.reason, b.reason);
    AsciiInjective(if a.decision.ALLOW? then "ALLOW" else "REFUSE", if b.decision.ALLOW? then "ALLOW" else "REFUSE");
  }
}
