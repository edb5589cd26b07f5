/** The data that flows through the decision pipeline (shared/contracts.ts), and what the platform supplies. */
module Contracts {
  import opened Units
  import opened JsonValues
  import opened Canonical
  import opened Doubles
  import opened Fields

  datatype Reason =
    | SchemaValidation | DuplicateJsonKeys | InvalidJsonSyntax | InvalidJsonNumber | TypeMismatch
    | NonDeterministicInput | PolicyVersionMismatch | PolicyKeyIdMismatch | InvalidPolicySignature
    | ToolCallSequence | OrbitMultipleActions | ForbiddenActionInParameters
    | ExecutionIdAlreadyConsumed | ExecutionIdReplayed | BudgetTokenExhausted | IntegerOverflow
    | CostLimit | AutoScaleDenied | GpuLimit | HoursLimit | RetryLimit | ManualApprovalRequired
    | KillSwitch | RuntimeGpuDrift | RuntimeHoursDrift | RuntimeCostDrift
    | ReceiptSignatureInvalid | ReplayMismatch
    | OkAllow | OkOrbit | OkArm | OkRamona

  predicate IsOk(r: Reason) {
    r.OkAllow? || r.OkOrbit? || r.OkArm? || r.OkRamona?
  }

  const ERR_SCHEMA_VALIDATION: Name := "ERR_SCHEMA_VALIDATION"
  const ERR_DUPLICATE_JSON_KEYS: Name := "ERR_DUPLICATE_JSON_KEYS"
  const ERR_INVALID_JSON_SYNTAX: Name := "ERR_INVALID_JSON_SYNTAX"
  const ERR_INVALID_JSON_NUMBER: Name := "ERR_INVALID_JSON_NUMBER"
  const ERR_TYPE_MISMATCH: Name := "ERR_TYPE_MISMATCH"
  const ERR_NON_DETERMINISTIC_INPUT: Name := "ERR_NON_DETERMINISTIC_INPUT"
  const ERR_POLICY_VERSION_MISMATCH: Name := "ERR_POLICY_VERSION_MISMATCH"
  const ERR_POLICY_KEY_ID_MISMATCH: Name := "ERR_POLICY_KEY_ID_MISMATCH"
  const ERR_INVALID_POLICY_SIGNATURE: Name := "ERR_INVALID_POLICY_SIGNATURE"
  const ERR_TOOL_CALL_SEQUENCE: Name := "ERR_TOOL_CALL_SEQUENCE"
  const ERR_ORBIT_MULTIPLE_ACTIONS: Name := "ERR_ORBIT_MULTIPLE_ACTIONS"
  const ERR_FORBIDDEN_ACTION_IN_PARAMETERS: Name := "ERR_FORBIDDEN_ACTION_IN_PARAMETERS"
  const ERR_EXECUTION_ID_ALREADY_CONSUMED: Name := "ERR_EXECUTION_ID_ALREADY_CONSUMED"
  const ERR_EXECUTION_ID_REPLAYED: Name := "ERR_EXECUTION_ID_REPLAYED"
  const ERR_BUDGET_TOKEN_EXHAUSTED: Name := "ERR_BUDGET_TOKEN_EXHAUSTED"
  const ERR_INTEGER_OVERFLOW: Name := "ERR_INTEGER_OVERFLOW"
  const ERR_COST_LIMIT: Name := "ERR_COST_LIMIT"
  const ERR_AUTO_SCALE_DENIED: Name := "ERR_AUTO_SCALE_DENIED"
  const ERR_GPU_LIMIT: Name := "ERR_GPU_LIMIT"
  const ERR_HOURS_LIMIT: Name := "ERR_HOURS_LIMIT"
  const ERR_RETRY_LIMIT: Name := "ERR_RETRY_LIMIT"
  const ERR_MANUAL_APPROVAL_REQUIRED: Name := "ERR_MANUAL_APPROVAL_REQUIRED"
  const ERR_KILL_SWITCH: Name := "ERR_KILL_SWITCH"
  const ERR_RUNTIME_GPU_DRIFT: Name := "ERR_RUNTIME_GPU_DRIFT"
  const ERR_RUNTIME_HOURS_DRIFT: Name := "ERR_RUNTIME_HOURS_DRIFT"
  const ERR_RUNTIME_COST_DRIFT: Name := "ERR_RUNTIME_COST_DRIFT"
  const ERR_RECEIPT_SIGNATURE_INVALID: Name := "ERR_RECEIPT_SIGNATURE_INVALID"
  const ERR_REPLAY_MISMATCH: Name := "ERR_REPLAY_MISMATCH"
  const OK_ALLOW: Name := "OK_ALLOW"
  const OK_ORBIT: Name := "OK_ORBIT"
  const OK_ARM: Name := "OK_ARM"
  const OK_RAM0NA: Name := "OK_RAM0NA"

  /** The text of a reason code. */
  function Code(r: Reason): Name {
    Codes()[Number(r)]
  }

  function Codes(): (cs: seq<Name>)
    ensures |cs| == 32
  {
    [ERR_SCHEMA_VALIDATION, ERR_DUPLICATE_JSON_KEYS, ERR_INVALID_JSON_SYNTAX, ERR_INVALID_JSON_NUMBER, ERR_TYPE_MISMATCH,
     ERR_NON_DETERMINISTIC_INPUT, ERR_POLICY_VERSION_MISMATCH, ERR_POLICY_KEY_ID_MISMATCH, ERR_INVALID_POLICY_SIGNATURE, ERR_TOOL_CALL_SEQUENCE,
     ERR_ORBIT_MULTIPLE_ACTIONS, ERR_FORBIDDEN_ACTION_IN_PARAMETERS, ERR_EXECUTION_ID_ALREADY_CONSUMED, ERR_EXECUTION_ID_REPLAYED, ERR_BUDGET_TOKEN_EXHAUSTED,
     ERR_INTEGER_OVERFLOW, ERR_COST_LIMIT, ERR_AUTO_SCALE_DENIED, ERR_GPU_LIMIT, ERR_HOURS_LIMIT,
     ERR_RETRY_LIMIT, ERR_MANUAL_APPROVAL_REQUIRED, ERR_KILL_SWITCH, ERR_RUNTIME_GPU_DRIFT, ERR_RUNTIME_HOURS_DRIFT, ERR_RUNTIME_COST_DRIFT,
     ERR_RECEIPT_SIGNATURE_INVALID, ERR_REPLAY_MISMATCH, OK_ALLOW, OK_ORBIT, OK_ARM,
     OK_RAM0NA]
  }

  function Number(r: Reason): (n: nat)
    ensures n < 32
  {
    match r
    case SchemaValidation => 0
    case DuplicateJsonKeys => 1
    case InvalidJsonSyntax => 2
    case InvalidJsonNumber => 3
    case TypeMismatch => 4
    case NonDeterministicInput => 5
    case PolicyVersionMismatch => 6
    case PolicyKeyIdMismatch => 7
    case InvalidPolicySignature => 8
    case ToolCallSequence => 9
    case OrbitMultipleActions => 10
    case ForbiddenActionInParameters => 11
    case ExecutionIdAlreadyConsumed => 12
    case ExecutionIdReplayed => 13
    case BudgetTokenExhausted => 14
    case IntegerOverflow => 15
    case CostLimit => 16
    case AutoScaleDenied => 17
    case GpuLimit => 18
    case HoursLimit => 19
    case RetryLimit => 20
    case ManualApprovalRequired => 21
    case KillSwitch => 22
    case RuntimeGpuDrift => 23
    case RuntimeHoursDrift => 24
    case RuntimeCostDrift => 25
    case ReceiptSignatureInvalid => 26
    case ReplayMismatch => 27
    case OkAllow => 28
    case OkOrbit => 29
    case OkArm => 30
    case OkRamona => 31
  }

  /** A value, or the reason code of a refusal. */
  datatype Checked<+T> = Good(value: T) | Bad(reason: Reason) {
    predicate IsFailure() {
      Bad?
    }
    function PropagateFailure<U>(): Checked<U>
      requires Bad?
    {
      Bad(reason)
    }
    function Extract(): T
      requires Good?
    {
      value
    }
  }

  // ----- the parsed request

  datatype ToolCall = ToolCall(tool: Text, priority: SafeInt, parameters: Option<Json>)
  datatype Signature = Signature(alg: Text, sig: Text)
  datatype OrbitIntent = OrbitIntent(orbitVersion: Text, action: Text, boundary: Text, toolCalls: seq<ToolCall>,
                                     lifecycleState: Text, signatures: seq<Signature>)
  datatype Resources = Resources(gpuType: Text, gpuCount: SafeInt, hours: SafeInt)
  datatype Execution = Execution(autoScale: bool, maxScaleMultiplier: SafeInt, retryOnFail: bool, maxRetries: SafeInt)
  datatype ReleaseRequest = ReleaseRequest(executionId: Text, holdState: Text, alreadyConsumed: bool)
  datatype RuntimeObservation =
    RuntimeObservation(killSwitchActive: bool, actualGpuCount: SafeInt, actualHours: SafeInt, actualTotalCostCents: SafeInt)
  datatype Rules = Rules(maxTotalCostCents: SafeInt, allowAutoScale: bool, maxGpuCount: SafeInt, maxHours: SafeInt,
                         requireManualApprovalAboveCents: SafeInt, maxRetryCount: SafeInt)
  datatype Trust = Trust(keyVersion: Text, keyId: Text, publicKey: Text, signature: Text)
  datatype PolicyDocument = PolicyDocument(schemaVersion: Text, policyVersion: Text, trust: Option<Trust>, rules: Rules)

  datatype ExecutionInput = ExecutionInput(
    requestId: Text, submittedRegion: Text, userId: Text,
    resources: Resources, execution: Execution,
    toolCalls: seq<ToolCall>, parameters: Option<Json>, orbitIntent: OrbitIntent,
    release: ReleaseRequest, runtime: RuntimeObservation, budgetToken: Option<Text>,
    policy: PolicyDocument, gpuHourCents: SafeInt)

  /** What preflight hands on: the canonical text, its hash, the policy hash and the parsed request. */
  datatype Envelope = Envelope(canonicalInput: Text, requestHash: Text, policyHash: Text, input: ExecutionInput)

  // ----- traces and receipts

  datatype Decision = ALLOW | REFUSE

  datatype PreflightTrace = PreflightTrace(requestHash: Text, policyHash: Text, policyVersion: Text)
  datatype OrbitTrace = OrbitTrace(decision: Decision, reason: Reason, validationHash: Text)
  datatype ArmTrace = ArmTrace(decision: Decision, reason: Reason, projected: SafeInt, allowed: SafeInt, prevented: SafeInt,
                               executionId: Text, budgetToken: Option<Text>)
  datatype RamonaTrace = RamonaTrace(decision: Decision, reason: Reason, runtimeHash: Text)

  datatype DecisionOutput = DecisionOutput(
    decision: Decision, decisionHash: Text, requestHash: Text, reason: Reason,
    totalCostUsd: Text, allowedCostUsd: Text, preventedCostUsd: Text,
    policyVersion: Text, policyHash: Text, executionId: Text)

  datatype Payload = Payload(canonicalRequest: Text, requestHash: Text, output: DecisionOutput,
                             preflight: PreflightTrace, orbit: OrbitTrace, arm: ArmTrace, ramona: RamonaTrace)
  datatype HmacSignature = HmacSignature(algorithm: Text, keyId: Text, value: Text)
  datatype PublicSignature = PublicSignature(algorithm: Text, keyId: Text, fingerprint: Text, pem: Text, value: Text)
  datatype Receipt = Receipt(payload: Payload, signature: Option<HmacSignature>, verifiable: Option<PublicSignature>)

  // ----- the platform

  /**
   Library behaviour the pipeline relies on: rounding, hashes, signatures and the text predicates of
   orbit/engine.ts after normalisation. `fingerprint` is None for a key that cannot be read; `verifyPolicy` is
   false when verification throws. `signingKey` is the configured HMAC secret and key id.
   */
  datatype Platform = Platform(
    round: real -> real,
    sha256: Text -> Text,
    hmac: (Text, Text) -> Text,
    signingKey: Option<(Text, Text)>,
    sign: Text -> Text,
    verify: (Text, Text, Text) -> bool,
    publicKeyPem: Text,
    isBlank: Text -> bool,
    fingerprint: Text -> Option<Text>,
    deriveKeyId: Text -> Text,
    verifyPolicy: (Text, Text, Text) -> bool,
    isActionField: Text -> bool,
    isMarkerText: Text -> bool,
    namesAction: Text -> bool,
    isUnsafeText: Text -> bool)
  {
    /** Rounding is to nearest, the receipt key can be read, and what it signs verifies. */
    ghost predicate Valid() {
      IsRounding(round) && !isBlank(publicKeyPem) && fingerprint(publicKeyPem).Some? &&
      forall m :: verify(m, sign(m), publicKeyPem)
    }
  }

  // ----- JSON forms

  function DecisionText(d: Decision): Json {
    Word(if d.ALLOW? then "ALLOW" else "REFUSE")
  }

  function ReasonText(r: Reason): Json {
    Word(Code(r))
  }

  function OptionalField(name: Name, v: Option<Json>): seq<(Name, Json)> {
    match v case None => [] case Some(j) => [(name, j)]
  }

  function CallFields(c: ToolCall): seq<(Name, Json)> {
    [(TOOL, Str(c.tool)), (PRIORITY, Num(c.priority))] + OptionalField(PARAMETERS, c.parameters)
  }

  function ToolCallJson(c: ToolCall): Json {
    Record(CallFields(c))
  }

  function ToolCallsJson(cs: seq<ToolCall>): Json {
    Arr(seq(|cs|, i requires 0 <= i < |cs| => ToolCallJson(cs[i])))
  }

  function SignatureFields(s: Signature): seq<(Name, Json)> {
    [(ALG, Str(s.alg)), (SIG, Str(s.sig))]
  }

  function SignaturesJson(ss: seq<Signature>): Json {
    Arr(seq(|ss|, i requires 0 <= i < |ss| => Record(SignatureFields(ss[i]))))
  }

  function IntentPayload(o: OrbitIntent): seq<(Name, Json)> {
    [(TOOL_CALLS, ToolCallsJson(o.toolCalls))]
  }

  function IntentFields(o: OrbitIntent): seq<(Name, Json)> {
    [(ORBIT_VERSION, Str(o.orbitVersion)), (ACTION, Str(o.action)), (BOUNDARY, Str(o.boundary)),
     (PAYLOAD, Record(IntentPayload(o))), (LIFECYCLE_STATE, Str(o.lifecycleState)), (SIGNATURES, SignaturesJson(o.signatures))]
  }

  function OrbitIntentJson(o: OrbitIntent): Json {
    Record(IntentFields(o))
  }

  function RuntimeFields(r: RuntimeObservation): seq<(Name, Json)> {
    [(KILL_SWITCH_ACTIVE, Bool(r.killSwitchActive)), (ACTUAL_GPU_COUNT, Num(r.actualGpuCount)),
     (ACTUAL_HOURS, Num(r.actualHours)), (ACTUAL_TOTAL_COST_CENTS, Num(r.actualTotalCostCents))]
  }

  function RuntimeJson(r: RuntimeObservation): Json {
    Record(RuntimeFields(r))
  }

  function RulesFields(r: Rules): seq<(Name, Json)> {
    [(MAX_TOTAL_COST_CENTS, Num(r.maxTotalCostCents)), (ALLOW_AUTO_SCALE, Bool(r.allowAutoScale)),
     (MAX_GPU_COUNT, Num(r.maxGpuCount)), (MAX_HOURS, Num(r.maxHours)),
     (REQUIRE_MANUAL_APPROVAL_ABOVE_CENTS, Num(r.requireManualApprovalAboveCents)),
     (MAX_RETRY_COUNT, Num(r.maxRetryCount))]
  }

  function RulesJson(r: Rules): Json {
    Record(RulesFields(r))
  }

  /** canonicalPolicyPayload (shared/policy-trust.ts): the trust block is not part of it. */
  function PolicyPayload(schemaVersion: Text, policyVersion: Text, rules: Rules): Text {
    Canonicalize(Record([(SCHEMA_VERSION, Str(schemaVersion)), (POLICY_VERSION, Str(policyVersion)), (RULES, RulesJson(rules))]))
  }

  function PreflightFields(t: PreflightTrace): seq<(Name, Json)> {
    [(LAYER, Word("preflight")), (REQUEST_HASH, Str(t.requestHash)), (POLICY_HASH, Str(t.policyHash)),
     (POLICY_VERSION, Str(t.policyVersion))]
  }

  function OrbitFields(t: OrbitTrace): seq<(Name, Json)> {
    [(LAYER, Word("orbit")), (DECISION, DecisionText(t.decision)), (REASON_CODE, ReasonText(t.reason)),
     (VALIDATION_HASH, Str(t.validationHash))]
  }

  function ArmFields(t: ArmTrace): seq<(Name, Json)> {
    [(REASON_CODE, ReasonText(t.reason)), (LAYER, Word("arm")), (DECISION, DecisionText(t.decision)),
     (PROJECTED_TOTAL_COST_CENTS, Num(t.projected)), (ALLOWED_COST_CENTS, Num(t.allowed)),
     (PREVENTED_COST_CENTS, Num(t.prevented)), (EXECUTION_ID, Str(t.executionId))]
    + match t.budgetToken case None => [] case Some(b) => [(BUDGET_TOKEN, Str(b))]
  }

  function RamonaFields(t: RamonaTrace): seq<(Name, Json)> {
    [(LAYER, Word("ramona")), (DECISION, DecisionText(t.decision)), (REASON_CODE, ReasonText(t.reason)),
     (RUNTIME_HASH, Str(t.runtimeHash))]
  }

  function OutputFields(o: DecisionOutput): seq<(Name, Json)> {
    [(DECISION, DecisionText(o.decision)), (DECISION_HASH, Str(o.decisionHash)), (REQUEST_HASH, Str(o.requestHash)),
     (REASON_CODE, ReasonText(o.reason)), (TOTAL_COST_USD, Str(o.totalCostUsd)),
     (ALLOWED_COST_USD, Str(o.allowedCostUsd)), (PREVENTED_COST_USD, Str(o.preventedCostUsd)),
     (POLICY_VERSION, Str(o.policyVersion)), (POLICY_HASH, Str(o.policyHash)), (EXECUTION_ID, Str(o.executionId)),
     (KEY_SET_VERSION, Word("receipt-key-set-v1"))]
  }

  function TraceFields(p: Payload): seq<(Name, Json)> {
    [(PREFLIGHT, Record(PreflightFields(p.preflight))), (ORBIT, Record(OrbitFields(p.orbit))),
     (ARM, Record(ArmFields(p.arm))), (RAMONA, Record(RamonaFields(p.ramona)))]
  }

  function PayloadFields(p: Payload): seq<(Name, Json)> {
    [(SCHEMA_VERSION, Word("ecs.receipt.v2")), (CANONICAL_REQUEST, Str(p.canonicalRequest)),
     (REQUEST_HASH, Str(p.requestHash)), (DECISION_OUTPUT, Record(OutputFields(p.output))),
     (PIPELINE_TRACE, Record(TraceFields(p)))]
  }

  function HmacFields(s: HmacSignature): seq<(Name, Json)> {
    [(ALGORITHM, Str(s.algorithm)), (KEY_ID, Str(s.keyId)), (VALUE, Str(s.value))]
  }

  function PublicFields(s: PublicSignature): seq<(Name, Json)> {
    [(ALGORITHM, Str(s.algorithm)), (KEY_ID, Str(s.keyId)), (PUBLIC_KEY_FINGERPRINT, Str(s.fingerprint)),
     (PUBLIC_KEY_PEM, Str(s.pem)), (VALUE, Str(s.value))]
  }

  function SignatureField(s: Option<HmacSignature>): seq<(Name, Json)> {
    match s case None => [] case Some(h) => [(SIGNATURE, Record(HmacFields(h)))]
  }

  function VerifiableField(s: Option<PublicSignature>): seq<(Name, Json)> {
    match s case None => [] case Some(v) => [(VERIFIABLE_SIGNATURE, Record(PublicFields(v)))]
  }

  function PayloadJson(p: Payload): Json {
    Record(PayloadFields(p))
  }

  function ReceiptFields(r: Receipt): seq<(Name, Json)> {
    PayloadFields(r.payload) + SignatureField(r.signature) + VerifiableField(r.verifiable)
  }

  function ReceiptJson(r: Receipt): Json {
    Record(ReceiptFields(r))
  }

  // ----- receipts are proper JSON objects

  lemma LeavesWellFormed(fields: seq<(Name, Json)>)
    requires DistinctNames(fields) && forall i :: 0 <= i < |fields| ==> fields[i].1.Str? || fields[i].1.Num?
    ensures WellFormed(Record(fields))
  {
    RecordWellFormed(fields);
  }

  lemma TracesWellFormed(p: Payload)
    ensures WellFormed(Record(TraceFields(p)))
  {
    LeavesWellFormed(PreflightFields(p.preflight));
    LeavesWellFormed(OrbitFields(p.orbit));
    ArmWellFormed(p.arm);
    LeavesWellFormed(RamonaFields(p.ramona));
    RecordWellFormed(TraceFields(p));
  }

  lemma ArmWellFormed(t: ArmTrace)
    ensures WellFormed(Record(ArmFields(t)))
  {
    LeavesWellFormed(ArmFields(t));
  }

  lemma OutputWellFormed(o: DecisionOutput)
    ensures WellFormed(Record(OutputFields(o)))
  {
    LeavesWellFormed(OutputFields(o));
  }

  lemma SignaturesWellFormed(h: HmacSignature, v: PublicSignature)
    ensures WellFormed(Record(HmacFields(h))) && WellFormed(Record(PublicFields(v)))
  {
    LeavesWellFormed(HmacFields(h));
    LeavesWellFormed(PublicFields(v));
  }

  lemma ReceiptWellFormed(r: Receipt)
    ensures WellFormed(ReceiptJson(r))
  {
    OutputWellFormed(r.payload.output);
    TracesWellFormed(r.payload);
    var h := if r.signature.Some? then r.signature.value else HmacSignature([], [], []);
    var v := if r.verifiable.Some? then r.verifiable.value else PublicSignature([], [], [], [], []);
    SignaturesWellFormed(h, v);
    RecordWellFormed(ReceiptFields(r));
  }

  /** Receipts with the same canonical text give the same reason in their ARM trace. */
  lemma CanonicalTextFixesArmReason(a: Receipt, b: Receipt)
    requires Canonicalize(ReceiptJson(a)) == Canonicalize(ReceiptJson(b))
    ensures a.payload.arm.reason == b.payload.arm.reason
  {
    ReceiptWellFormed(a);
    ReceiptWellFormed(b);
    CompleteInvariant(ReceiptJson(a), ReceiptJson(b));
    RecordsAgree(ReceiptFields(a), ReceiptFields(b), 4);
    RecordsAgree(TraceFields(a.payload), TraceFields(b.payload), 2);
    RecordsAgree(ArmFields(a.payload.arm), ArmFields(b.payload.arm), 0);
    AsciiInjective(Code(a.payload.arm.reason), Code(b.payload.arm.reason));
    CodeInjective(a.payload.arm.reason, b.payload.arm.reason);
  }

  lemma EarlyCodesDistinct()
    ensures forall i, j :: 0 <= i < j < 16 ==> Codes()[i] != Codes()[j]
  {
    hide Plain;
  }

  lemma LateCodesDistinct()
    ensures forall i, j :: 0 <= i < j && 16 <= j < 24 ==> Codes()[i] != Codes()[j]
  {
    hide Plain;
  }

  lemma DriftCodesDistinct()
    ensures forall i, j :: 0 <= i < j && 24 <= j < 28 ==> Codes()[i] != Codes()[j]
  {
    hide Plain;
  }

  lemma LastCodesDistinct()
    ensures forall i, j :: 0 <= i < j && 28 <= j < 32 ==> Codes()[i] != Codes()[j]
  {
    hide Plain;
  }

  lemma CodesDistinct()
    ensures forall i, j :: 0 <= i < j < |Codes()| ==> Codes()[i] != Codes()[j]
  {
    hide Codes;
    EarlyCodesDistinct();
    LateCodesDistinct();
    DriftCodesDistinct();
    LastCodesDistinct();
  }

  lemma NumberInjective(a: Reason, b: Reason)
    requires Number(a) == Number(b)
    ensures a == b
  {
  }

  lemma CodeInjective(a: Reason, b: Reason)
    requires Code(a) == Code(b)
    ensures a == b
  {
    CodesDistinct();
    if Number(a) == Number(b) { NumberInjective(a, b); }
  }
}
