/** What the texts behind a receipt fix: the signed text, the hashed decision and the printed costs of ram0na/engine.ts. */
module Receipts {
  import opened Units
  import opened JsonValues
  import opened Canonical
  import opened Doubles
  import opened Money
  import opened Fields
  import opened Contracts
  import opened Preflight
  import opened Orbit
  import opened Stores
  import opened Pipeline
  import opened Decisions

  // ----- fields of equivalent records

  lemma SameText(a: seq<(Name, Json)>, b: seq<(Name, Json)>, i: nat)
    requires Equivalent(Record(a), Record(b)) && i < |a| && i < |b| && a[i].0 == b[i].0 && a[i].1.Str? && b[i].1.Str?
    ensures a[i].1 == b[i].1
  {
    hide Record;
    RecordsAgree(a, b, i);
  }

  lemma SameNumber(a: seq<(Name, Json)>, b: seq<(Name, Json)>, i: nat)
    requires Equivalent(Record(a), Record(b)) && i < |a| && i < |b| && a[i].0 == b[i].0 && a[i].1.Num? && b[i].1.Num?
    ensures a[i].1 == b[i].1
  {
    hide Record;
    RecordsAgree(a, b, i);
  }

  lemma SameDecision(d: Decision, f: Decision)
    requires DecisionText(d) == DecisionText(f)
    ensures d == f
  {
    AsciiInjective(if d.ALLOW? then "ALLOW" else "REFUSE", if f.ALLOW? then "ALLOW" else "REFUSE");
  }

  lemma SameReason(r: Reason, s: Reason)
    requires ReasonText(r) == ReasonText(s)
    ensures r == s
  {
    hide Codes;
    AsciiInjective(Code(r), Code(s));
    CodeInjective(r, s);
  }

  // ----- the parts of a payload

  lemma PreflightFixed(a: PreflightTrace, b: PreflightTrace)
    requires Equivalent(Record(PreflightFields(a)), Record(PreflightFields(b)))
    ensures a == b
  {
    hide Record, Equivalent, Ascii;
    var v, w := PreflightFields(a), PreflightFields(b);
    SameText(v, w, 1);
    SameText(v, w, 2);
    SameText(v, w, 3);
  }

  lemma OrbitFixed(a: OrbitTrace, b: OrbitTrace)
    requires Equivalent(Record(OrbitFields(a)), Record(OrbitFields(b)))
    ensures a == b
  {
    hide Record, Equivalent, Ascii, Codes;
    var v, w := OrbitFields(a), OrbitFields(b);
    SameText(v, w, 1);
    SameText(v, w, 2);
    SameText(v, w, 3);
    SameDecision(a.decision, b.decision);
    SameReason(a.reason, b.reason);
  }

  lemma RamonaFixed(a: RamonaTrace, b: RamonaTrace)
    requires Equivalent(Record(RamonaFields(a)), Record(RamonaFields(b)))
    ensures a == b
  {
    hide Record, Equivalent, Ascii, Codes;
    var v, w := RamonaFields(a), RamonaFields(b);
    SameText(v, w, 1);
    SameText(v, w, 2);
    SameText(v, w, 3);
    SameDecision(a.decision, b.decision);
    SameReason(a.reason, b.reason);
  }

  lemma SameFieldCount(a: seq<(Name, Json)>, b: seq<(Name, Json)>)
    requires Equivalent(Record(a), Record(b))
    ensures |a| == |b|
  {
    assert |Record(a).entries| == |a| && |Record(b).entries| == |b|;
  }

  lemma ArmFixed(a: ArmTrace, b: ArmTrace)
    requires Equivalent(Record(ArmFields(a)), Record(ArmFields(b)))
    ensures a == b
  {
    hide Record, Equivalent, Ascii, Codes;
    var v, w := ArmFields(a), ArmFields(b);
    SameFieldCount(v, w);
    SameText(v, w, 0);
    SameText(v, w, 2);
    SameNumber(v, w, 3);
    SameNumber(v, w, 4);
    SameNumber(v, w, 5);
    SameText(v, w, 6);
    if a.budgetToken.Some? { SameText(v, w, 7); }
    SameDecision(a.decision, b.decision);
    SameReason(a.reason, b.reason);
  }

  lemma OutputFixed(a: DecisionOutput, b: DecisionOutput)
    requires Equivalent(Record(OutputFields(a)), Record(OutputFields(b)))
    ensures a == b
  {
    hide Record, Equivalent, Ascii, Codes;
    var v, w := OutputFields(a), OutputFields(b);
    SameText(v, w, 0);
    SameText(v, w, 1);
    SameText(v, w, 2);
    SameText(v, w, 3);
    SameText(v, w, 4);
    SameText(v, w, 5);
    SameText(v, w, 6);
    SameText(v, w, 7);
    SameText(v, w, 8);
    SameText(v, w, 9);
    SameDecision(a.decision, b.decision);
    SameReason(a.reason, b.reason);
  }

  lemma TracesFixed(a: Payload, b: Payload)
    requires Equivalent(Record(TraceFields(a)), Record(TraceFields(b)))
    ensures a.preflight == b.preflight && a.orbit == b.orbit && a.arm == b.arm && a.ramona == b.ramona
  {
    hide Record, Equivalent, PreflightFields, OrbitFields, ArmFields, RamonaFields;
    var v, w := TraceFields(a), TraceFields(b);
    RecordsAgree(v, w, 0);
    RecordsAgree(v, w, 1);
    RecordsAgree(v, w, 2);
    RecordsAgree(v, w, 3);
    PreflightFixed(a.preflight, b.preflight);
    OrbitFixed(a.orbit, b.orbit);
    ArmFixed(a.arm, b.arm);
    RamonaFixed(a.ramona, b.ramona);
  }

  lemma PayloadFixed(a: Payload, b: Payload)
    requires Equivalent(PayloadJson(a), PayloadJson(b))
    ensures a == b
  {
    hide Record, Equivalent, OutputFields, TraceFields, Ascii;
    var v, w := PayloadFields(a), PayloadFields(b);
    SameText(v, w, 1);
    SameText(v, w, 2);
    RecordsAgree(v, w, 3);
    RecordsAgree(v, w, 4);
    OutputFixed(a.output, b.output);
    TracesFixed(a, b);
  }

  lemma PayloadWellFormed(p: Payload)
    ensures WellFormed(PayloadJson(p))
  {
    hide Record, WellFormed, OutputFields, TraceFields, Ascii;
    OutputWellFormed(p.output);
    TracesWellFormed(p);
    assert DistinctNames(PayloadFields(p));
    forall i | 0 <= i < |PayloadFields(p)| ensures WellFormed(PayloadFields(p)[i].1) {
      if PayloadFields(p)[i].1.Str? { TextWellFormed(PayloadFields(p)[i].1); }
    }
    RecordWellFormed(PayloadFields(p));
  }

  lemma TextWellFormed(v: Json)
    requires v.Str?
    ensures WellFormed(v)
  {
  }

  /** The signed text fixes the whole payload: two payloads with the same canonical text are the same, field by field. */
  lemma SignedTextFixesPayload(a: Payload, b: Payload)
    ensures Canonicalize(PayloadJson(a)) == Canonicalize(PayloadJson(b)) <==> a == b
  {
    hide PayloadJson, Canonicalize, Equivalent, WellFormed;
    if Canonicalize(PayloadJson(a)) == Canonicalize(PayloadJson(b)) {
      PayloadWellFormed(a);
      PayloadWellFormed(b);
      CompleteInvariant(PayloadJson(a), PayloadJson(b));
      PayloadFixed(a, b);
    }
  }

  // ----- the decision hash

  lemma DecidedWellFormed(e: Envelope, decision: Decision, reason: Reason, arm: ArmTrace)
    ensures WellFormed(Record(DecidedFields(e, decision, reason, arm)))
  {
    hide Record, Ascii, Codes;
    assert DistinctNames(DecidedFields(e, decision, reason, arm));
    RecordWellFormed(DecidedFields(e, decision, reason, arm));
  }

  /** The text behind the decision hash fixes the decision, its reason, both hashes, the policy version, the id and the costs. */
  lemma DecidedTextFixesDecision(e: Envelope, d: Decision, r: Reason, arm: ArmTrace,
                                 e': Envelope, d': Decision, r': Reason, arm': ArmTrace)
    requires Canonicalize(Record(DecidedFields(e, d, r, arm))) == Canonicalize(Record(DecidedFields(e', d', r', arm')))
    ensures d == d' && r == r' && e.requestHash == e'.requestHash && e.policyHash == e'.policyHash
    ensures e.input.policy.policyVersion == e'.input.policy.policyVersion && arm.executionId == arm'.executionId
    ensures arm.projected == arm'.projected && arm.allowed == arm'.allowed && arm.prevented == arm'.prevented
  {
    hide Record, Canonicalize, Equivalent, WellFormed, Ascii, Codes;
    var v, w := DecidedFields(e, d, r, arm), DecidedFields(e', d', r', arm');
    DecidedWellFormed(e, d, r, arm);
    DecidedWellFormed(e', d', r', arm');
    CompleteInvariant(Record(v), Record(w));
    SameText(v, w, 0);
    SameText(v, w, 1);
    SameText(v, w, 2);
    SameText(v, w, 3);
    SameText(v, w, 4);
    SameText(v, w, 5);
    SameNumber(v, w, 6);
    SameNumber(v, w, 7);
    SameNumber(v, w, 8);
    SameDecision(d, d');
    SameReason(r, r');
  }

  /** What a receipt shows of its decision: every field the decision hash is taken of, read off the receipt itself. */
  function ShownDecision(out: DecisionOutput, arm: ArmTrace): seq<(Name, Json)> {
    [(REQUEST_HASH, Str(out.requestHash)), (POLICY_HASH, Str(out.policyHash)), (DECISION, DecisionText(out.decision)),
     (REASON_CODE, ReasonText(out.reason)), (POLICY_VERSION, Str(out.policyVersion)), (EXECUTION_ID, Str(out.executionId)),
     (PROJECTED_TOTAL_COST_CENTS, Num(arm.projected)), (ALLOWED_COST_CENTS, Num(arm.allowed)),
     (PREVENTED_COST_CENTS, Num(arm.prevented))]
  }

  /** The decision hash on a receipt is that of the decision, reason, hashes, id and costs the receipt shows. */
  lemma DecisionHashIsItsOwn(p: Platform, m: Memory, e: Envelope)
    ensures var r := ReceiptFor(p, m, e).payload;
            r.output.decisionHash == p.sha256(Canonicalize(Record(ShownDecision(r.output, r.arm))))
  {
    hide Canonicalize, Record, Ascii, ArmResult, RunStrictOrbit, PayloadJson, FormatUsdFromCents, RunStrictRamona, DecisionText,
         ReasonText;
  }

  /** The request, its hash, the policy, the execution id and the layer hashes, as they stand on a receipt. */
  lemma ReceiptCarries(p: Platform, m: Memory, e: Envelope)
    ensures var r, x := ReceiptFor(p, m, e).payload, e.input;
            && r.canonicalRequest == e.canonicalInput
            && r.requestHash == r.output.requestHash == r.preflight.requestHash == e.requestHash
            && r.output.policyHash == r.preflight.policyHash == e.policyHash
            && r.output.policyVersion == r.preflight.policyVersion == x.policy.policyVersion
            && r.output.executionId == r.arm.executionId == x.release.executionId && r.arm.budgetToken == x.budgetToken
            && r.orbit.validationHash == p.sha256(Canonicalize(OrbitIntentJson(x.orbitIntent)))
            && r.ramona.runtimeHash == p.sha256(Canonicalize(RuntimeJson(x.runtime)))
  {
    hide Canonicalize, ArmResult, OrbitIntentJson, RuntimeJson, HasMultipleActions, AnyUnsafe, ToolCallsEqual, WrongVersion,
         PayloadJson, FormatUsdFromCents, DecisionHash, RuntimeReason;
    ArmNames(p, m, e.input, RunStrictOrbit(p, e.input));
  }

  lemma ArmNames(p: Platform, m: Memory, x: ExecutionInput, orbit: OrbitTrace)
    ensures ArmResult(p, m, x, orbit).executionId == x.release.executionId && ArmResult(p, m, x, orbit).budgetToken == x.budgetToken
  {
    hide CostOf, LimitReason, CanReserve;
  }

  /** The layers of a receipt: ALLOW when all three allow, and otherwise the reason of the first that refuses. */
  lemma LayersDecide(p: Platform, m: Memory, e: Envelope)
    ensures var r := ReceiptFor(p, m, e).payload;
            && (r.output.decision.ALLOW? <==> r.orbit.decision.ALLOW? && r.arm.decision.ALLOW? && r.ramona.decision.ALLOW?)
            && (r.arm.decision.ALLOW? ==> r.orbit.decision.ALLOW?) && (r.ramona.decision.ALLOW? ==> r.arm.decision.ALLOW?)
            && (r.arm.decision.REFUSE? ==> r.ramona.reason == r.arm.reason)
            && r.output.reason == if r.output.decision.ALLOW? then OkAllow else r.ramona.reason
  {
    hide Canonicalize, RunStrictOrbit, CostOf, PayloadJson, FormatUsdFromCents, LimitReason, CanReserve, DecisionHash, RuntimeJson,
         RuntimeReason;
  }

  // ----- the other hashed texts

  lemma SameFlag(a: seq<(Name, Json)>, b: seq<(Name, Json)>, i: nat)
    requires Equivalent(Record(a), Record(b)) && i < |a| && i < |b| && a[i].0 == b[i].0 && a[i].1.Bool? && b[i].1.Bool?
    ensures a[i].1 == b[i].1
  {
    hide Record;
    RecordsAgree(a, b, i);
  }

  lemma LeafRecord(fields: seq<(Name, Json)>)
    requires DistinctNames(fields) && forall i :: 0 <= i < |fields| ==> !fields[i].1.Arr? && !fields[i].1.Obj?
    ensures WellFormed(Record(fields))
  {
    hide Record;
    RecordWellFormed(fields);
  }

  lemma RulesFixed(r: Rules, s: Rules)
    requires Equivalent(RulesJson(r), RulesJson(s))
    ensures r == s
  {
    hide Record, Equivalent;
    var v, w := RulesFields(r), RulesFields(s);
    SameNumber(v, w, 0);
    SameFlag(v, w, 1);
    SameNumber(v, w, 2);
    SameNumber(v, w, 3);
    SameNumber(v, w, 4);
    SameNumber(v, w, 5);
  }

  function PolicyTextFields(schemaVersion: Text, policyVersion: Text, rules: Rules): seq<(Name, Json)> {
    [(SCHEMA_VERSION, Str(schemaVersion)), (POLICY_VERSION, Str(policyVersion)), (RULES, RulesJson(rules))]
  }

  lemma PolicyTextWellFormed(schemaVersion: Text, policyVersion: Text, rules: Rules)
    ensures WellFormed(Record(PolicyTextFields(schemaVersion, policyVersion, rules)))
  {
    hide Record, WellFormed;
    assert DistinctNames(RulesFields(rules));
    LeafRecord(RulesFields(rules));
    var fields := PolicyTextFields(schemaVersion, policyVersion, rules);
    assert DistinctNames(fields);
    TextWellFormed(fields[0].1);
    TextWellFormed(fields[1].1);
    RecordWellFormed(fields);
  }

  /** The text behind the policy hash and the policy signature fixes both versions and all six rules. */
  lemma PolicyTextFixesPolicy(a: PolicyDocument, b: PolicyDocument)
    ensures PolicyPayload(a.schemaVersion, a.policyVersion, a.rules) == PolicyPayload(b.schemaVersion, b.policyVersion, b.rules) <==>
            a.schemaVersion == b.schemaVersion && a.policyVersion == b.policyVersion && a.rules == b.rules
  {
    hide Record, Canonicalize, Equivalent, WellFormed, RulesJson;
    var v, w := PolicyTextFields(a.schemaVersion, a.policyVersion, a.rules), PolicyTextFields(b.schemaVersion, b.policyVersion, b.rules);
    PolicyTextWellFormed(a.schemaVersion, a.policyVersion, a.rules);
    PolicyTextWellFormed(b.schemaVersion, b.policyVersion, b.rules);
    CompleteInvariant(Record(v), Record(w));
    if Canonicalize(Record(v)) == Canonicalize(Record(w)) {
      SameText(v, w, 0);
      SameText(v, w, 1);
      RecordsAgree(v, w, 2);
      RulesFixed(a.rules, b.rules);
    }
  }

  /** The text behind the runtime hash fixes all four observations. */
  lemma RuntimeTextFixesObservation(a: RuntimeObservation, b: RuntimeObservation)
    ensures Canonicalize(RuntimeJson(a)) == Canonicalize(RuntimeJson(b)) <==> a == b
  {
    hide Record, Canonicalize, Equivalent, WellFormed;
    var v, w := RuntimeFields(a), RuntimeFields(b);
    assert DistinctNames(v) && DistinctNames(w);
    LeafRecord(v);
    LeafRecord(w);
    CompleteInvariant(Record(v), Record(w));
    if Canonicalize(RuntimeJson(a)) == Canonicalize(RuntimeJson(b)) {
      SameFlag(v, w, 0);
      SameNumber(v, w, 1);
      SameNumber(v, w, 2);
      SameNumber(v, w, 3);
    }
  }

  /** What the decision hash of a preflight refusal is taken of. */
  function RefusedFields(requestHash: Text, reason: Reason): seq<(Name, Json)> {
    [(REQUEST_HASH, Str(requestHash)), (DECISION, Word("REFUSE")), (REASON_CODE, ReasonText(reason))]
  }

  /** A refusal at the parse boundary carries the hash of a text that fixes its request hash and its reason. */
  lemma RefusalCarries(p: Platform, requestHash: Text, reason: Reason, other: Text, other': Reason)
    ensures Failed(p, requestHash, reason)
         == Rejected(TypedFailure(requestHash, p.sha256(Canonicalize(Record(RefusedFields(requestHash, reason)))), reason))
    ensures Canonicalize(Record(RefusedFields(requestHash, reason))) == Canonicalize(Record(RefusedFields(other, other'))) <==>
            requestHash == other && reason == other'
  {
    hide Record, Canonicalize, Equivalent, WellFormed, Ascii, Codes;
    var v, w := RefusedFields(requestHash, reason), RefusedFields(other, other');
    assert DistinctNames(v) && DistinctNames(w);
    LeafRecord(v);
    LeafRecord(w);
    CompleteInvariant(Record(v), Record(w));
    if Canonicalize(Record(v)) == Canonicalize(Record(w)) {
      SameText(v, w, 0);
      SameText(v, w, 2);
      SameReason(reason, other');
    }
  }

  // ----- the printed costs

  /** The cents the three texts of a receipt read back to. */
  function PrintedCosts(p: Platform, o: DecisionOutput): (Option<int>, Option<int>, Option<int>) {
    (UsdToCents(p.round, o.totalCostUsd), UsdToCents(p.round, o.allowedCostUsd), UsdToCents(p.round, o.preventedCostUsd))
  }

  /**
   The costs printed on a receipt read back as the exact cost of the request split into an allowed part within the policy
   maximum and the prevented rest; all three are zero when the cost overflows.
   */
  lemma PrintedCostsReadBack(p: Platform, m: Memory, raw: Text, e: Envelope)
    requires p.Valid() && RunPreflight(p, raw) == Accepted(e)
    ensures var cost, limit := TrueCost(e.input), e.input.policy.rules.maxTotalCostCents;
            PrintedCosts(p, ReceiptFor(p, m, e).payload.output) ==
            if cost > MAX_SAFE then (Some(0), Some(0), Some(0))
            else (Some(cost), Some(if cost <= limit then cost else limit), Some(if cost <= limit then 0 else cost - limit))
  {
    hide RunPreflight, RunStrictOrbit, TrueCost, FormatUsdFromCents, UsdToCents, ArmResult, DecisionHash, InRange;
    var orbit := RunStrictOrbit(p, e.input);
    var arm := ArmResult(p, m, e.input, orbit);
    AcceptedInRange(p, raw);
    ArmSplit(p, m, e.input, orbit);
    MoneyRoundTrip(p.round, arm.projected);
    MoneyRoundTrip(p.round, arm.allowed);
    MoneyRoundTrip(p.round, arm.prevented);
  }

  lemma ArmSplit(p: Platform, m: Memory, x: ExecutionInput, orbit: OrbitTrace)
    requires p.Valid() && InRange(x)
    ensures var cost, limit, arm := TrueCost(x), x.policy.rules.maxTotalCostCents, ArmResult(p, m, x, orbit);
            (arm.projected, arm.allowed, arm.prevented) ==
            if cost > MAX_SAFE then (0, 0, 0)
            else (cost, if cost <= limit then cost else limit, if cost <= limit then 0 else cost - limit)
    ensures var arm := ArmResult(p, m, x, orbit); arm.projected >= 0 && arm.allowed >= 0 && arm.prevented >= 0
  {
    hide TrueCost, CostOf, LimitReason, CanReserve;
    CostIsExact(p, x);
    CostPositive(x);
  }
}
