/** The byte layout of the decision core, offset by offset, and the numbers of decisions and reasons. */
module CoreLayout {
  import opened Units
  import opened JsonValues
  import opened Bytes
  import opened Contracts
  import opened DecisionCore

  // ----- numbers

  const REFUSE_NAME: Name := "REFUSE"
  const ALLOW_NAME: Name := "ALLOW"

  /** REFUSE is 0, ALLOW is 1, and nothing else has a number. */
  lemma DecisionNumbers(t: Text)
    ensures DecisionId(Some(t)) == Some(0) <==> t == Ascii(REFUSE_NAME)
    ensures DecisionId(Some(t)) == Some(1) <==> t == Ascii(ALLOW_NAME)
    ensures DecisionId(Some(t)).Some? ==> DecisionId(Some(t)).value < 2
    ensures DecisionId(None) == None
  {
    hide Ascii;
    assert DecisionNames()[0] == REFUSE_NAME && DecisionNames()[1] == ALLOW_NAME;
    if Ascii(REFUSE_NAME) == Ascii(ALLOW_NAME) {
      AsciiInjective(REFUSE_NAME, ALLOW_NAME);
      assert false;
    }
  }

  /** The code of each reason and its number. */
  function ReasonEntry(r: Reason): (Name, nat) {
    match r
    case SchemaValidation => (ERR_SCHEMA_VALIDATION, 1)
    case DuplicateJsonKeys => (ERR_DUPLICATE_JSON_KEYS, 2)
    case InvalidJsonSyntax => (ERR_INVALID_JSON_SYNTAX, 3)
    case InvalidJsonNumber => (ERR_INVALID_JSON_NUMBER, 4)
    case TypeMismatch => (ERR_TYPE_MISMATCH, 5)
    case NonDeterministicInput => (ERR_NON_DETERMINISTIC_INPUT, 6)
    case PolicyVersionMismatch => (ERR_POLICY_VERSION_MISMATCH, 7)
    case PolicyKeyIdMismatch => (ERR_POLICY_KEY_ID_MISMATCH, 8)
    case InvalidPolicySignature => (ERR_INVALID_POLICY_SIGNATURE, 9)
    case ToolCallSequence => (ERR_TOOL_CALL_SEQUENCE, 10)
    case OrbitMultipleActions => (ERR_ORBIT_MULTIPLE_ACTIONS, 11)
    case ForbiddenActionInParameters => (ERR_FORBIDDEN_ACTION_IN_PARAMETERS, 12)
    case ExecutionIdAlreadyConsumed => (ERR_EXECUTION_ID_ALREADY_CONSUMED, 13)
    case ExecutionIdReplayed => (ERR_EXECUTION_ID_REPLAYED, 14)
    case BudgetTokenExhausted => (ERR_BUDGET_TOKEN_EXHAUSTED, 15)
    case IntegerOverflow => (ERR_INTEGER_OVERFLOW, 16)
    case CostLimit => (ERR_COST_LIMIT, 17)
    case AutoScaleDenied => (ERR_AUTO_SCALE_DENIED, 18)
    case GpuLimit => (ERR_GPU_LIMIT, 19)
    case HoursLimit => (ERR_HOURS_LIMIT, 20)
    case RetryLimit => (ERR_RETRY_LIMIT, 21)
    case ManualApprovalRequired => (ERR_MANUAL_APPROVAL_REQUIRED, 22)
    case KillSwitch => (ERR_KILL_SWITCH, 23)
    case RuntimeGpuDrift => (ERR_RUNTIME_GPU_DRIFT, 24)
    case RuntimeHoursDrift => (ERR_RUNTIME_HOURS_DRIFT, 25)
    case RuntimeCostDrift => (ERR_RUNTIME_COST_DRIFT, 26)
    case ReceiptSignatureInvalid => (ERR_RECEIPT_SIGNATURE_INVALID, 27)
    case ReplayMismatch => (ERR_REPLAY_MISMATCH, 28)
    case OkAllow => (OK_ALLOW, 29)
    case OkOrbit => (OK_ORBIT, 30)
    case OkArm => (OK_ARM, 31)
    case OkRamona => (OK_RAM0NA, 32)
  }

  lemma CodesParsing()
    ensures var cs := Codes();
            && cs[0] == ERR_SCHEMA_VALIDATION && cs[1] == ERR_DUPLICATE_JSON_KEYS
            && cs[2] == ERR_INVALID_JSON_SYNTAX && cs[3] == ERR_INVALID_JSON_NUMBER
            && cs[4] == ERR_TYPE_MISMATCH && cs[5] == ERR_NON_DETERMINISTIC_INPUT
            && cs[6] == ERR_POLICY_VERSION_MISMATCH && cs[7] == ERR_POLICY_KEY_ID_MISMATCH
  {
    hide Plain;
  }

  lemma CodesDeciding()
    ensures var cs := Codes();
            && cs[8] == ERR_INVALID_POLICY_SIGNATURE && cs[9] == ERR_TOOL_CALL_SEQUENCE
            && cs[10] == ERR_ORBIT_MULTIPLE_ACTIONS && cs[11] == ERR_FORBIDDEN_ACTION_IN_PARAMETERS
            && cs[12] == ERR_EXECUTION_ID_ALREADY_CONSUMED && cs[13] == ERR_EXECUTION_ID_REPLAYED
            && cs[14] == ERR_BUDGET_TOKEN_EXHAUSTED && cs[15] == ERR_INTEGER_OVERFLOW
  {
    hide Plain;
  }

  lemma CodesLimiting()
    ensures var cs := Codes();
            && cs[16] == ERR_COST_LIMIT && cs[17] == ERR_AUTO_SCALE_DENIED
            && cs[18] == ERR_GPU_LIMIT && cs[19] == ERR_HOURS_LIMIT
            && cs[20] == ERR_RETRY_LIMIT && cs[21] == ERR_MANUAL_APPROVAL_REQUIRED
            && cs[22] == ERR_KILL_SWITCH && cs[23] == ERR_RUNTIME_GPU_DRIFT
  {
    hide Plain;
  }

  lemma CodesClosing()
    ensures var cs := Codes();
            && cs[24] == ERR_RUNTIME_HOURS_DRIFT && cs[25] == ERR_RUNTIME_COST_DRIFT
            && cs[26] == ERR_RECEIPT_SIGNATURE_INVALID && cs[27] == ERR_REPLAY_MISMATCH
            && cs[28] == OK_ALLOW && cs[29] == OK_ORBIT
            && cs[30] == OK_ARM && cs[31] == OK_RAM0NA
  {
    hide Plain;
  }

  lemma CodeOfReason(r: Reason)
    ensures Code(r) == ReasonEntry(r).0 && Number(r) + 1 == ReasonEntry(r).1
  {
    hide Codes;
    CodesParsing();
    CodesDeciding();
    CodesLimiting();
    CodesClosing();
  }

  /** The code of every reason is encoded as its number, from 1 to 32, and no other text has a number. */
  lemma ReasonNumbers(r: Reason, t: Text)
    ensures ReasonId(Some(Ascii(ReasonEntry(r).0))) == Some(ReasonEntry(r).1)
    ensures ReasonId(Some(t)) == Some(ReasonEntry(r).1) ==> t == Ascii(ReasonEntry(r).0)
    ensures ReasonId(Some(t)).Some? ==> 1 <= ReasonId(Some(t)).value <= 32
  {
    hide Ascii, Codes, ReasonEntry, Number;
    CodeOfReason(r);
    var n, code := Number(r), Code(r);
    var p := Position(Codes(), Ascii(code));
    assert Ascii(Codes()[n]) == Ascii(code);
    AsciiInjective(Codes()[p.value], code);
    CodesDistinct();
  }

  /** What the encoder asks of a core, field by field. */
  lemma EncodableExact(c: Core)
    ensures Encode(c).Some? <==>
            && c.extra == []
            && (c.decision == Some(Ascii(REFUSE_NAME)) || c.decision == Some(Ascii(ALLOW_NAME)))
            && (exists r :: c.reason == Some(Ascii(ReasonEntry(r).0)))
            && (forall h :: h in [c.requestHash, c.policyHash, c.decisionHash] ==> h.Some? && |h.value| == 64 && AllHex(h.value))
            && c.keySetVersion.Some? && 0 < |c.keySetVersion.value| && |Utf8(Scalars(c.keySetVersion.value))| < 65_536
            && (forall n :: n in [c.cost, c.timestamp] ==>
                  n == None || n == Some(MinusZero) || (n.value.Integer? && 0 <= n.value.n <= 9_007_199_254_740_991))
  {
    hide Ascii, Codes, ReasonEntry, Utf8, Scalars, Header, Body, Concat, DecisionId, ReasonId;
    Encodes(c);
    if c.decision.Some? { DecisionNumbers(c.decision.value); }
    if c.reason.Some? { ReasonKnown(c.reason.value); }
    NoneHasNoNumber();
    assert c.requestHash in [c.requestHash, c.policyHash, c.decisionHash] && c.policyHash in [c.requestHash, c.policyHash, c.decisionHash];
    assert c.decisionHash in [c.requestHash, c.policyHash, c.decisionHash];
    assert c.cost in [c.cost, c.timestamp] && c.timestamp in [c.cost, c.timestamp];
  }

  lemma NoneHasNoNumber()
    ensures DecisionId(None) == None && ReasonId(None) == None
  {
  }

  lemma ReasonKnown(t: Text)
    ensures ReasonId(Some(t)).Some? <==> exists r :: t == Ascii(ReasonEntry(r).0)
  {
    hide Ascii, Codes, ReasonEntry;
    if ReasonId(Some(t)).Some? {
      var n := ReasonId(Some(t)).value - 1;
      var r := ReasonAt(n);
      CodeOfReason(r);
      assert t == Ascii(ReasonEntry(r).0);
    }
    forall r | t == Ascii(ReasonEntry(r).0) ensures ReasonId(Some(t)).Some? { ReasonNumbers(r, t); }
  }

  lemma ReasonAt(n: nat) returns (r: Reason)
    requires n < 32
    ensures Number(r) == n
  {
    var all := [SchemaValidation, DuplicateJsonKeys, InvalidJsonSyntax, InvalidJsonNumber, TypeMismatch, NonDeterministicInput,
                PolicyVersionMismatch, PolicyKeyIdMismatch, InvalidPolicySignature, ToolCallSequence, OrbitMultipleActions,
                ForbiddenActionInParameters, ExecutionIdAlreadyConsumed, ExecutionIdReplayed, BudgetTokenExhausted, IntegerOverflow,
                CostLimit, AutoScaleDenied, GpuLimit, HoursLimit, RetryLimit, ManualApprovalRequired, KillSwitch, RuntimeGpuDrift,
                RuntimeHoursDrift, RuntimeCostDrift, ReceiptSignatureInvalid, ReplayMismatch, OkAllow, OkOrbit, OkArm, OkRamona];
    r := all[n];
  }

  // ----- offsets

  /** Where a part starts. */
  function Start(parts: seq<seq<Byte>>, k: nat): nat
    requires k <= |parts|
  {
    if k == 0 then 0 else |parts[0]| + Start(parts[1..], k - 1)
  }

  lemma {:induction false} PartAt(parts: seq<seq<Byte>>, k: nat, rest: seq<Byte>)
    requires k < |parts|
    ensures var b, i := Concat(parts) + rest, Start(parts, k);
            i + |parts[k]| <= |b| && b[i..i + |parts[k]|] == parts[k]
    decreases k
  {
    var tail := Concat(parts[1..]) + rest;
    assert Concat(parts) + rest == parts[0] + tail;
    if k > 0 {
      PartAt(parts[1..], k - 1, rest);
      ShiftSlice(parts[0], tail, Start(parts[1..], k - 1), |parts[k]|);
    }
  }

  lemma ShiftSlice(head: seq<Byte>, tail: seq<Byte>, i: nat, n: nat)
    requires i + n <= |tail|
    ensures (head + tail)[|head| + i..|head| + i + n] == tail[i..i + n]
  {
  }

  lemma {:induction false} ConcatLength(parts: seq<seq<Byte>>)
    ensures |Concat(parts)| == Start(parts, |parts|)
  {
    if parts != [] { ConcatLength(parts[1..]); }
  }

  lemma StartStep(parts: seq<seq<Byte>>, k: nat)
    requires k < |parts|
    ensures Start(parts, k + 1) == Start(parts, k) + |parts[k]|
  {
    if k > 0 { StartStep(parts[1..], k - 1); }
  }

  lemma HeaderStarts(h: seq<seq<Byte>>)
    requires |h| == 9 && forall i :: 0 <= i < 9 ==> |h[i]| == HEADER_WIDTHS[i]
    ensures Start(h, 0) == 0 && Start(h, 1) == 6 && Start(h, 2) == 7 && Start(h, 3) == 8 && Start(h, 4) == 40
    ensures Start(h, 5) == 41 && Start(h, 6) == 43 && Start(h, 7) == 75 && Start(h, 8) == 107 && Start(h, 9) == 109
  {
    hide Start;
    assert Start(h, 0) == 0 by { StartZero(h); }
    StartStep(h, 0);
    StartStep(h, 1);
    StartStep(h, 2);
    StartStep(h, 3);
    StartStep(h, 4);
    StartStep(h, 5);
    StartStep(h, 6);
    StartStep(h, 7);
    StartStep(h, 8);
  }

  lemma StartZero(h: seq<seq<Byte>>)
    ensures Start(h, 0) == 0
  {
  }

  /** The most significant byte comes first. */
  lemma {:induction false} FromBigEndianFirst(b: seq<Byte>)
    requires b != []
    ensures FromBigEndian(b) == b[0] * Pow256(|b| - 1) + FromBigEndian(b[1..])
  {
    var n := |b| - 1;
    if n == 0 {
      assert b[..0] == [] && b[1..] == [];
    } else {
      FromBigEndianFirst(b[..n]);
      assert b[..n][1..] == b[1..][..n - 1] && b[1..][n - 1] == b[n];
      Distribute(b[0], Pow256(n - 1), FromBigEndian(b[1..][..n - 1]), b[n]);
    }
  }

  lemma Distribute(a: int, p: int, f: int, last: int)
    ensures 256 * (a * p + f) + last == a * (256 * p) + (256 * f + last)
  {
  }

  /** Two bytes as a number. */
  function Two(high: Byte, low: Byte): nat {
    (high as nat) * 256 + low as nat
  }

  lemma TwoBytes(b: seq<Byte>)
    requires |b| == 2
    ensures FromBigEndian(b) == Two(b[0], b[1])
  {
    var one := b[..1];
    assert one[..0] == [] && FromBigEndian(one[..0]) == 0;
    assert FromBigEndian(one) == one[0] as int && one[0] == b[0];
  }

  lemma HeaderWidths(c: Core)
    requires Encodable(c)
    ensures forall i :: 0 <= i < 9 ==> |Header(c)[i]| == HEADER_WIDTHS[i]
  {
    hide DecisionId, ReasonId, Utf8, BigEndian, HexBytes, Unsigned;
  }

  lemma HeaderSlices(h: seq<seq<Byte>>, rest: seq<Byte>)
    requires |h| == 9 && forall i :: 0 <= i < 9 ==> |h[i]| == HEADER_WIDTHS[i]
    ensures var b := Concat(h) + rest;
            && |b| == 109 + |rest| && b[0..6] == h[0] && b[6..7] == h[1] && b[7..8] == h[2] && b[8..40] == h[3] && b[40..41] == h[4]
            && b[41..43] == h[5] && b[43..75] == h[6] && b[75..107] == h[7] && b[107..109] == h[8]
  {
    hide Concat, Start;
    HeaderStarts(h);
    ConcatLength(h);
    PartAt(h, 0, rest);
    PartAt(h, 1, rest);
    PartAt(h, 2, rest);
    PartAt(h, 3, rest);
    PartAt(h, 4, rest);
    PartAt(h, 5, rest);
    PartAt(h, 6, rest);
    PartAt(h, 7, rest);
    PartAt(h, 8, rest);
  }

  /** Every field of the header at its offset: format, version, flags, hashes, decision, reason and the length of what follows. */
  lemma HeaderLayout(c: Core)
    requires Encode(c).Some?
    ensures var b := Encode(c).value;
            && |b| > 109 && b[0..6] == [0x4D, 0x4E, 0x44, 0x45, 0x42, 0x31] && b[6] == 1
            && b[7] == (if c.cost.Some? then 1 else 0) + (if c.timestamp.Some? then 2 else 0)
            && b[8..40] == HexBytes(c.requestHash.value) && Some(b[40] as nat) == DecisionId(c.decision)
            && Some(Two(b[41], b[42])) == ReasonId(c.reason)
            && b[43..75] == HexBytes(c.policyHash.value) && b[75..107] == HexBytes(c.decisionHash.value)
            && Two(b[107], b[108]) == |VersionBytes(c)|
  {
    hide DecisionId, ReasonId, Concat, Utf8, BigEndian, HexBytes, IsHash64, Unsigned, VersionBytes, Pow256, HEADER_WIDTHS, Two;
    Encodes(c);
    var h, rest, b := Header(c), Concat(Body(c)), Encode(c).value;
    HeaderWidths(c);
    HeaderSlices(h, rest);
    BodyNotEmpty(c);
    IdsFit(c);
    Single(b, 6);
    Single(b, 7);
    Single(b, 40);
    TwoDigits(b[41..43], ReasonId(c.reason).value);
    TwoDigits(b[107..109], |VersionBytes(c)|);
  }

  lemma Single(b: seq<Byte>, i: nat)
    requires i < |b|
    ensures b[i..i + 1] == [b[i]]
  {
  }

  lemma TwoDigits(b: seq<Byte>, n: nat)
    requires n < 0x1_0000 && b == BigEndian(n, 2)
    ensures Two(b[0], b[1]) == n
  {
    hide BigEndian, FromBigEndian, Pow256;
    Widths();
    BigEndianReadsBack(n, 2);
    TwoBytes(b);
  }

  lemma BodyNotEmpty(c: Core)
    requires Encodable(c)
    ensures |Concat(Body(c))| > 0
  {
    hide DecisionId, ReasonId, HexBytes, IsHash64, Unsigned, Utf8, BigEndian, Concat;
    ConcatLength(Body(c));
    StartFirst(Body(c));
  }

  lemma StartFirst(parts: seq<seq<Byte>>)
    requires parts != []
    ensures Start(parts, |parts|) >= |parts[0]|
  {
  }

  /** After the header come the version and the counts present, eight bytes each, and nothing else. */
  lemma BodyLayout(c: Core)
    requires Encode(c).Some?
    ensures var b, n := Encode(c).value, |VersionBytes(c)|;
            && |b| == 109 + n + (if c.cost.Some? then 8 else 0) + (if c.timestamp.Some? then 8 else 0)
            && b[109..109 + n] == VersionBytes(c)
            && (c.cost.Some? ==> FromBigEndian(b[109 + n..117 + n]) == Amount(c.cost.value))
            && (c.timestamp.Some? ==> FromBigEndian(b[|b| - 8..|b|]) == Amount(c.timestamp.value))
  {
    hide DecisionId, ReasonId, Concat, Utf8, BigEndian, FromBigEndian, HexBytes, IsHash64, Unsigned, VersionBytes;
    Encodes(c);
    var h, parts := Header(c), Body(c);
    HeaderWidths(c);
    HeaderStarts(h);
    ConcatLength(h);
    ConcatLength(parts);
    BodyParts(c, parts);
    if c.cost.Some? { CountReadsBack(c.cost); }
    if c.timestamp.Some? { CountReadsBack(c.timestamp); }
    var b, body, n := Encode(c).value, Concat(parts), |VersionBytes(c)|;
    assert body + [] == body;
    assert b == Concat(h) + body;
    ShiftSlice(Concat(h), body, 0, n);
    if c.cost.Some? { ShiftSlice(Concat(h), body, n, 8); }
    if c.timestamp.Some? { ShiftSlice(Concat(h), body, |body| - 8, 8); }
  }

  lemma BodyParts(c: Core, parts: seq<seq<Byte>>)
    requires Encodable(c) && parts == Body(c)
    ensures var b, n := Concat(parts), |VersionBytes(c)|;
            && |b| == n + (if c.cost.Some? then 8 else 0) + (if c.timestamp.Some? then 8 else 0)
            && b[0..n] == VersionBytes(c)
            && (c.cost.Some? ==> b[n..n + 8] == Count(c.cost)[0])
            && (c.timestamp.Some? ==> b[|b| - 8..|b|] == Count(c.timestamp)[0])
  {
    hide DecisionId, ReasonId, Concat, Utf8, BigEndian, HexBytes, IsHash64, Unsigned, VersionBytes;
    var b := Concat(parts);
    assert b + [] == b;
    ConcatLength(parts);
    PartAt(parts, 0, []);
    if c.cost.Some? || c.timestamp.Some? {
      PartAt(parts, 1, []);
      StartStep(parts, 0);
      StartStep(parts, 1);
    } else {
      StartStep(parts, 0);
    }
    if c.cost.Some? && c.timestamp.Some? {
      PartAt(parts, 2, []);
      StartStep(parts, 2);
    }
  }
}
