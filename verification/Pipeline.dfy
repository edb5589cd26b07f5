/**
 The decision pipeline after preflight: cost authorisation (arm/engine.ts), runtime checks and receipts
 (ram0na/engine.ts), and the driver with its replay (audit/node_runtime.ts).
 */
module Pipeline {
  import opened Units
  import opened JsonValues
  import opened Canonical
  import opened Doubles
  import opened Money
  import opened Fields
  import opened Contracts
  import opened DeepScan
  import opened Preflight
  import opened Orbit
  import opened Stores

  // ----- ARM

  /** The contents of both stores. */
  datatype Memory = Memory(authority: Authorities, budgets: Budgets)

  const EMPTY: Memory := Memory(map[], map[])

  function CostOf(p: Platform, x: ExecutionInput): (c: Option<int>)
    ensures c.Some? ==> IsSafe(c.value)
  {
    ProjectedCost(p.round, x.resources.gpuCount, x.resources.hours, x.gpuHourCents,
                  x.execution.autoScale, x.execution.maxScaleMultiplier, x.execution.retryOnFail, x.execution.maxRetries)
  }

  function Min(a: SafeInt, b: SafeInt): SafeInt {
    if a < b then a else b
  }

  /** The first policy limit the request exceeds. */
  function LimitReason(x: ExecutionInput, projected: int): Option<Reason> {
    var rules := x.policy.rules;
    if x.execution.autoScale && !rules.allowAutoScale then Some(AutoScaleDenied)
    else if x.resources.gpuCount > rules.maxGpuCount then Some(GpuLimit)
    else if x.resources.hours > rules.maxHours then Some(HoursLimit)
    else if x.execution.maxRetries > rules.maxRetryCount then Some(RetryLimit)
    else if projected > rules.maxTotalCostCents then Some(CostLimit)
    else None
  }

  /** An ARM trace with the costs every non-overflow trace carries. */
  function ArmTraceOf(x: ExecutionInput, projected: SafeInt, decision: Decision, reason: Reason): ArmTrace {
    var allowed := Min(projected, x.policy.rules.maxTotalCostCents);
    var prevented := if projected > allowed then projected - allowed else 0;
    ArmTrace(decision, reason, projected, allowed, if IsSafe(prevented) then prevented else MAX_SAFE,
             x.release.executionId, x.budgetToken)
  }

  function OverflowTrace(x: ExecutionInput): ArmTrace {
    ArmTrace(REFUSE, IntegerOverflow, 0, 0, 0, x.release.executionId, x.budgetToken)
  }

  function ArmResult(p: Platform, m: Memory, x: ExecutionInput, orbit: OrbitTrace): ArmTrace {
    match CostOf(p, x)
    case None => OverflowTrace(x)
    case Some(projected) =>
      var status := BeginStatusOf(m.authority, x.release.executionId);
      if status.InflightExists? then ArmTraceOf(x, projected, REFUSE, ExecutionIdAlreadyConsumed)
      else if status.AllowedExists? then ArmTraceOf(x, projected, REFUSE, ExecutionIdReplayed)
      else if orbit.decision.REFUSE? then ArmTraceOf(x, projected, REFUSE, orbit.reason)
      else if LimitReason(x, projected).Some? then ArmTraceOf(x, projected, REFUSE, LimitReason(x, projected).value)
      else if x.budgetToken.Some? && !CanReserve(m.budgets, x.budgetToken.value, projected)
      then ArmTraceOf(x, projected, REFUSE, BudgetTokenExhausted)
      else ArmTraceOf(x, projected, ALLOW, OkArm)
  }

  /** ARM claims the execution id unless the cost overflows, and reserves budget exactly when it allows. */
  function ArmMemory(p: Platform, m: Memory, x: ExecutionInput, orbit: OrbitTrace, requestHash: Text): Memory {
    match CostOf(p, x)
    case None => m
    case Some(projected) =>
      Memory(AfterBegin(m.authority, x.release.executionId, requestHash),
             if x.budgetToken.Some? && ArmResult(p, m, x, orbit).decision.ALLOW?
             then AfterReserve(m.budgets, x.budgetToken.value, projected) else m.budgets)
  }

  // ----- RAM0NA and receipts

  function RuntimeReason(x: ExecutionInput, projected: int): Option<Reason> {
    if x.runtime.killSwitchActive then Some(KillSwitch)
    else if x.runtime.actualGpuCount > x.resources.gpuCount then Some(RuntimeGpuDrift)
    else if x.runtime.actualHours > x.resources.hours then Some(RuntimeHoursDrift)
    else if x.runtime.actualTotalCostCents > projected then Some(RuntimeCostDrift)
    else None
  }

  function RunStrictRamona(p: Platform, x: ExecutionInput, arm: ArmTrace): RamonaTrace {
    var hash := p.sha256(Canonicalize(RuntimeJson(x.runtime)));
    if arm.decision.REFUSE? then RamonaTrace(REFUSE, arm.reason, hash)
    else match RuntimeReason(x, arm.projected)
      case Some(r) => RamonaTrace(REFUSE, r, hash)
      case None => RamonaTrace(ALLOW, OkRamona, hash)
  }

  function Cents(n: SafeInt): nat {
    if n < 0 then 0 else n
  }

  /** What the decision hash is taken of. */
  function DecidedFields(e: Envelope, decision: Decision, reason: Reason, arm: ArmTrace): seq<(Name, Json)> {
    [(REQUEST_HASH, Str(e.requestHash)), (POLICY_HASH, Str(e.policyHash)), (DECISION, DecisionText(decision)),
     (REASON_CODE, ReasonText(reason)), (POLICY_VERSION, Str(e.input.policy.policyVersion)),
     (EXECUTION_ID, Str(arm.executionId)), (PROJECTED_TOTAL_COST_CENTS, Num(arm.projected)),
     (ALLOWED_COST_CENTS, Num(arm.allowed)), (PREVENTED_COST_CENTS, Num(arm.prevented))]
  }

  function DecisionHash(p: Platform, e: Envelope, decision: Decision, reason: Reason, arm: ArmTrace): Text {
    p.sha256(Canonicalize(Record(DecidedFields(e, decision, reason, arm))))
  }

  function BuildPayload(p: Platform, e: Envelope, orbit: OrbitTrace, arm: ArmTrace, ramona: RamonaTrace): Payload {
    var decision := if orbit.decision.ALLOW? && arm.decision.ALLOW? && ramona.decision.ALLOW? then ALLOW else REFUSE;
    var reason := if decision.ALLOW? then OkAllow else ramona.reason;
    var version := e.input.policy.policyVersion;
    Payload(e.canonicalInput, e.requestHash,
            DecisionOutput(decision, DecisionHash(p, e, decision, reason, arm), e.requestHash, reason,
                           FormatUsdFromCents(p.round, Cents(arm.projected)), FormatUsdFromCents(p.round, Cents(arm.allowed)),
                           FormatUsdFromCents(p.round, Cents(arm.prevented)), version, e.policyHash, arm.executionId),
            PreflightTrace(e.requestHash, e.policyHash, version), orbit, arm, ramona)
  }

  const HMAC_ALGORITHM: Name := "HMAC-SHA256"
  const PUBLIC_ALGORITHM: Name := "ED25519"
  const UNCONFIGURED: Name := "unconfigured"
  const KEY_ID_PREFIX: Name := "receipt-ed25519-"

  function PublicKeyId(fingerprint: Text): Text {
    Ascii(KEY_ID_PREFIX) + if |fingerprint| < 16 then fingerprint else fingerprint[..16]
  }

  function SignPayload(p: Platform, payload: Payload): Receipt {
    var text := Canonicalize(PayloadJson(payload));
    var fingerprint := match p.fingerprint(p.publicKeyPem) case None => [] case Some(f) => f;
    var hmac := match p.signingKey
      case None => HmacSignature(Ascii(HMAC_ALGORITHM), Ascii(UNCONFIGURED), [])
      case Some(key) => HmacSignature(Ascii(HMAC_ALGORITHM), key.1, p.hmac(key.0, text));
    Receipt(payload, Some(hmac),
            Some(PublicSignature(Ascii(PUBLIC_ALGORITHM), PublicKeyId(fingerprint), fingerprint, p.publicKeyPem, p.sign(text))))
  }

  function BuildReceipt(p: Platform, e: Envelope, orbit: OrbitTrace, arm: ArmTrace): Receipt {
    SignPayload(p, BuildPayload(p, e, orbit, arm, RunStrictRamona(p, e.input, arm)))
  }

  // ----- verification

  predicate HmacMatches(p: Platform, r: Receipt, text: Text) {
    p.signingKey.Some? && r.signature.Some? && r.signature.value.algorithm == Ascii(HMAC_ALGORITHM) &&
    r.signature.value.keyId == p.signingKey.value.1 && r.signature.value.value == p.hmac(p.signingKey.value.0, text)
  }

  /** verifyReceiptPublicSignature: None when the receipt's public key cannot be read and the call throws. */
  function VerifyPublicSignature(p: Platform, r: Receipt): Option<bool> {
    if r.verifiable.None? then Some(false) else
    var v := r.verifiable.value;
    if p.isBlank(v.pem) then Some(false) else
    match p.fingerprint(v.pem)
    case None => None
    case Some(f) =>
      if v.algorithm != Ascii(PUBLIC_ALGORITHM) || v.keyId != PublicKeyId(f) || v.fingerprint != f then Some(false)
      else Some(p.verify(Canonicalize(PayloadJson(r.payload)), v.value, v.pem))
  }

  function VerifyReceiptSignature(p: Platform, r: Receipt): Option<bool> {
    if HmacMatches(p, r, Canonicalize(PayloadJson(r.payload))) then Some(true) else VerifyPublicSignature(p, r)
  }

  /** verifyReceiptReplay: the reason code it returns, OkAllow standing for ok; None when it throws. */
  function VerifyReceiptReplay(p: Platform, stored: Receipt, rerun: Receipt): Option<Reason> {
    match (VerifyReceiptSignature(p, stored), VerifyReceiptSignature(p, rerun))
    case (None, _) => None
    case (Some(false), _) => Some(ReceiptSignatureInvalid)
    case (Some(true), None) => None
    case (Some(true), Some(false)) => Some(ReceiptSignatureInvalid)
    case (Some(true), Some(true)) =>
      Some(if Canonicalize(ReceiptJson(stored)) == Canonicalize(ReceiptJson(rerun)) then OkAllow else ReplayMismatch)
  }

  lemma IssuedReceiptsVerify(p: Platform, payload: Payload)
    requires p.Valid()
    ensures VerifyReceiptSignature(p, SignPayload(p, payload)) == Some(true)
  {
  }

  // ----- the driver

  datatype Outcome = Issued(receipt: Receipt) | AtBoundary(failure: TypedFailure)

  /** What an armed request leads to when it finishes. */
  function Commit(m: Memory, r: Receipt): Memory {
    if r.payload.output.decision.ALLOW?
    then m.(authority := AfterCommit(m.authority, r.payload.arm.executionId, r.payload.requestHash, r.payload.output.decisionHash))
    else m
  }

  function Execute(p: Platform, m: Memory, raw: Text): (Outcome, Memory) {
    match RunPreflight(p, raw)
    case Rejected(f) => (AtBoundary(f), m)
    case Accepted(e) =>
      var orbit := RunStrictOrbit(p, e.input);
      var r := BuildReceipt(p, e, orbit, ArmResult(p, m, e.input, orbit));
      (Issued(r), Commit(ArmMemory(p, m, e.input, orbit, e.requestHash), r))
  }

  class Runtime {
    const authority: InMemoryExecutionAuthorityStore
    const budgets: InMemoryBudgetTokenStore

    constructor ()
      ensures fresh(authority) && fresh(budgets) && State() == EMPTY
    {
      authority := new InMemoryExecutionAuthorityStore();
      budgets := new InMemoryBudgetTokenStore();
    }

    ghost function State(): Memory
      reads authority, budgets
    {
      Memory(authority.records, budgets.records)
    }

    method ResetRuntimeState()
      modifies authority, budgets
      ensures State() == EMPTY
    {
      authority.Reset();
      budgets.Reset();
    }

    method SeedBudgetToken(token: Text, max: int)
      modifies budgets
      ensures State() == Memory(old(authority.records), AfterDefine(old(budgets.records), token, max))
    {
      budgets.Define(token, max);
    }

    method RunStrictArm(p: Platform, x: ExecutionInput, orbit: OrbitTrace, requestHash: Text) returns (arm: ArmTrace)
      modifies authority, budgets
      ensures arm == ArmResult(p, old(State()), x, orbit)
      ensures State() == ArmMemory(p, old(State()), x, orbit, requestHash)
    {
      var cost := CostOf(p, x);
      if cost.None? {
        return OverflowTrace(x);
      }
      var projected := cost.value;
      var status := authority.Begin(x.release.executionId, requestHash);
      if status == InflightExists {
        return ArmTraceOf(x, projected, REFUSE, ExecutionIdAlreadyConsumed);
      }
      if status == AllowedExists {
        return ArmTraceOf(x, projected, REFUSE, ExecutionIdReplayed);
      }
      if orbit.decision.REFUSE? {
        return ArmTraceOf(x, projected, REFUSE, orbit.reason);
      }
      var limit := LimitReason(x, projected);
      if limit.Some? {
        return ArmTraceOf(x, projected, REFUSE, limit.value);
      }
      if x.budgetToken.Some? {
        var reserved := budgets.Reserve(x.budgetToken.value, projected);
        if !reserved {
          return ArmTraceOf(x, projected, REFUSE, BudgetTokenExhausted);
        }
      }
      return ArmTraceOf(x, projected, ALLOW, OkArm);
    }

    method ExecuteDeterministicPipeline(p: Platform, raw: Text) returns (result: Outcome)
      modifies authority, budgets
      ensures result == Execute(p, old(State()), raw).0
      ensures State() == Execute(p, old(State()), raw).1
    {
      var preflight := RunStrictPreflight(p, raw);
      if preflight.Rejected? {
        return AtBoundary(preflight.failure);
      }
      var e := preflight.envelope;
      var orbit := RunStrictOrbit(p, e.input);
      var arm := RunStrictArm(p, e.input, orbit, e.requestHash);
      var receipt := BuildReceipt(p, e, orbit, arm);
      if receipt.payload.output.decision.ALLOW? {
        authority.CommitAllow(arm.executionId, e.requestHash, receipt.payload.output.decisionHash);
      }
      return Issued(receipt);
    }

    /** One stored line: its signature, then a run from empty stores, then the comparison. */
    method ReplayStored(p: Platform, line: Option<Receipt>) returns (reason: Option<Reason>)
      modifies authority, budgets
      ensures reason == ReplayLine(p, line)
    {
      hide Execute, VerifyReceiptSignature, VerifyReceiptReplay;
      if line.None? {
        return Some(InvalidJsonSyntax);
      }
      var parsed := line.value;
      var verified := VerifyReceiptSignature(p, parsed);
      if verified.None? {
        return None;
      }
      if !verified.value {
        return Some(ReceiptSignatureInvalid);
      }
      ResetRuntimeState();
      var rerun := ExecuteDeterministicPipeline(p, parsed.payload.canonicalRequest);
      if rerun.AtBoundary? {
        return Some(rerun.failure.reason);
      }
      reason := VerifyReceiptReplay(p, parsed, rerun.receipt);
    }

    /** Replays stored lines one by one; None when a signature check throws. */
    method ReplayReceiptStore(p: Platform, lines: seq<Option<Receipt>>) returns (report: Option<Report>)
      modifies authority, budgets
      ensures report == ReplayLines(p, lines, Report(|lines|, 0, []))
    {
      hide ReplayLine;
      var mismatches: seq<Reason> := [];
      var exactMatches := 0;
      for i := 0 to |lines|
        invariant ReplayLines(p, lines, Report(|lines|, 0, [])) == ReplayLines(p, lines[i..], Report(|lines|, exactMatches, mismatches))
      {
        assert lines[i..][1..] == lines[i + 1..];
        var reason := ReplayStored(p, lines[i]);
        if reason.None? {
          return None;
        }
        if reason.value != OkAllow {
          mismatches := mismatches + [reason.value];
        } else {
          exactMatches := exactMatches + 1;
        }
      }
      return Some(Report(|lines|, exactMatches, mismatches));
    }
  }

  // ----- replay of stored receipts

  datatype Report = Report(total: nat, exactMatches: nat, mismatches: seq<Reason>)

  /** The reason code a stored line replays to, OkAllow for an exact match; None when the check throws. */
  function ReplayLine(p: Platform, line: Option<Receipt>): Option<Reason> {
    match line
    case None => Some(InvalidJsonSyntax)
    case Some(r) =>
      match VerifyReceiptSignature(p, r)
      case None => None
      case Some(false) => Some(ReceiptSignatureInvalid)
      case Some(true) =>
        match Execute(p, EMPTY, r.payload.canonicalRequest).0
        case AtBoundary(f) => Some(f.reason)
        case Issued(rerun) => VerifyReceiptReplay(p, r, rerun)
  }

  function ReplayLines(p: Platform, lines: seq<Option<Receipt>>, sofar: Report): Option<Report> {
    if lines == [] then Some(sofar)
    else match ReplayLine(p, lines[0])
      case None => None
      case Some(reason) =>
        ReplayLines(p, lines[1..],
          if reason == OkAllow then sofar.(exactMatches := sofar.exactMatches + 1)
          else sofar.(mismatches := sofar.mismatches + [reason]))
  }
}
