/** What a receipt says: the decision as the first of an ordered list of conditions, and the costs. */
module Decisions {
  import opened Units
  import opened JsonValues
  import opened Canonical
  import opened Doubles
  import opened Fields
  import opened Contracts
  import opened DeepScan
  import opened Preflight
  import opened PreflightReplay
  import opened Orbit
  import opened Stores
  import opened Pipeline

  // ----- the decision as a list of conditions

  /** The exact cost of the request, as an integer. */
  function TrueCost(x: ExecutionInput): int {
    x.resources.gpuCount * (x.resources.hours * (x.gpuHourCents *
      ((if x.execution.autoScale then x.execution.maxScaleMultiplier else 1) *
       (if x.execution.retryOnFail then x.execution.maxRetries + 1 else 1))))
  }

  datatype Condition = Condition(violated: bool, reason: Reason)

  function ClaimConditions(m: Memory, x: ExecutionInput): seq<Condition> {
    var id := x.release.executionId;
    [Condition(TrueCost(x) > MAX_SAFE, IntegerOverflow),
     Condition(id in m.authority && m.authority[id].status.Inflight?, ExecutionIdAlreadyConsumed),
     Condition(id in m.authority && m.authority[id].status.Allowed?, ExecutionIdReplayed)]
  }

  ghost function OrbitConditions(p: Platform, x: ExecutionInput): seq<Condition> {
    [Condition(x.orbitIntent.orbitVersion != Ascii("2.0") || x.orbitIntent.lifecycleState != Ascii("ARMED"), ToolCallSequence),
     Condition((|x.toolCalls| >= 2 && SomeCallNamesAction(p, x)) || MarkedParameters(p, x), OrbitMultipleActions),
     Condition(UnsafeParameters(p, x), ForbiddenActionInParameters),
     Condition(!ToolCallsEqual(x.toolCalls, x.orbitIntent.toolCalls), ToolCallSequence)]
  }

  function LimitConditions(x: ExecutionInput): seq<Condition> {
    [Condition(x.execution.autoScale && !x.policy.rules.allowAutoScale, AutoScaleDenied),
     Condition(x.resources.gpuCount > x.policy.rules.maxGpuCount, GpuLimit),
     Condition(x.resources.hours > x.policy.rules.maxHours, HoursLimit),
     Condition(x.execution.maxRetries > x.policy.rules.maxRetryCount, RetryLimit),
     Condition(TrueCost(x) > x.policy.rules.maxTotalCostCents, CostLimit)]
  }

  function BudgetConditions(m: Memory, x: ExecutionInput): seq<Condition> {
    [Condition(x.budgetToken.Some? && !HasBudget(m, x.budgetToken.value, TrueCost(x)), BudgetTokenExhausted)]
  }

  function RuntimeConditions(x: ExecutionInput): seq<Condition> {
    [Condition(x.runtime.killSwitchActive, KillSwitch),
     Condition(x.runtime.actualGpuCount > x.resources.gpuCount, RuntimeGpuDrift),
     Condition(x.runtime.actualHours > x.resources.hours, RuntimeHoursDrift),
     Condition(x.runtime.actualTotalCostCents > TrueCost(x), RuntimeCostDrift)]
  }

  /** Everything that can refuse an accepted request, in the order in which it is reported. */
  ghost function Conditions(p: Platform, m: Memory, x: ExecutionInput): seq<Condition> {
    ClaimConditions(m, x) + (OrbitConditions(p, x) + (LimitConditions(x) + (BudgetConditions(m, x) + RuntimeConditions(x))))
  }

  /** The token is known and what is left of its maximum covers the cost. */
  predicate HasBudget(m: Memory, token: Text, cost: int) {
    token in m.budgets && cost <= m.budgets[token].max - m.budgets[token].consumed
  }

  predicate SomeCallNamesAction(p: Platform, x: ExecutionInput) {
    exists i :: 0 <= i < |x.toolCalls| && p.namesAction(x.toolCalls[i].tool)
  }

  /** Parameters in one of the three places have an action marker at some depth. */
  ghost predicate MarkedParameters(p: Platform, x: ExecutionInput) {
    exists v, path :: IsIntentParameter(x, v) && MarkerAt(p, v, path)
  }

  /** Parameters in one of the three places are unsafe. */
  ghost predicate UnsafeParameters(p: Platform, x: ExecutionInput) {
    exists v :: IsIntentParameter(x, v) && p.isUnsafeText(Canonicalize(v))
  }

  function FirstViolated(cs: seq<Condition>): Option<Reason> {
    if cs == [] then None else if cs[0].violated then Some(cs[0].reason) else FirstViolated(cs[1..])
  }

  lemma {:induction false} FirstViolatedExact(cs: seq<Condition>)
    ensures FirstViolated(cs).None? <==> forall i :: 0 <= i < |cs| ==> !cs[i].violated
    ensures FirstViolated(cs).Some? ==>
              exists i :: 0 <= i < |cs| && cs[i].violated && cs[i].reason == FirstViolated(cs).value &&
                          forall j :: 0 <= j < i ==> !cs[j].violated
  {
    if cs != [] && !cs[0].violated {
      FirstViolatedExact(cs[1..]);
      assert forall i :: 0 <= i < |cs[1..]| ==> cs[1..][i] == cs[i + 1];
      if FirstViolated(cs).Some? {
        var i :| 0 <= i < |cs[1..]| && cs[1..][i].violated && cs[1..][i].reason == FirstViolated(cs[1..]).value &&
                 forall j :: 0 <= j < i ==> !cs[1..][j].violated;
        forall j | 0 <= j < i + 1 ensures !cs[j].violated { if j > 0 { assert cs[1..][j - 1] == cs[j]; } }
        assert cs[i + 1].violated;
      }
    }
  }

  lemma MarkersMeanMarked(p: Platform, x: ExecutionInput)
    ensures AnyMarkers(p, IntentParameters(x)) <==> MarkedParameters(p, x)
  {
    hide IntentParameters, IsIntentParameter, CountMarkers, MarkerAt;
    var vs := IntentParameters(x);
    forall v ensures v in vs <==> IsIntentParameter(x, v) { IntentParametersExact(x, v); }
    forall v ensures CountMarkers(p, v) > 0 <==> exists path :: MarkerAt(p, v, path) { MarkersExact(p, v); }
    forall v, path | IsIntentParameter(x, v) && MarkerAt(p, v, path) ensures AnyMarkers(p, vs) {
      var i :| 0 <= i < |vs| && vs[i] == v;
      assert CountMarkers(p, vs[i]) > 0;
    }
    if AnyMarkers(p, vs) {
      var i :| 0 <= i < |vs| && CountMarkers(p, vs[i]) > 0;
      assert vs[i] in vs;
    }
  }

  lemma UnsafeMeansUnsafe(p: Platform, x: ExecutionInput)
    ensures AnyUnsafe(p, IntentParameters(x)) <==> UnsafeParameters(p, x)
  {
    hide IntentParameters, IsIntentParameter, Canonicalize;
    var vs := IntentParameters(x);
    forall v ensures v in vs <==> IsIntentParameter(x, v) { IntentParametersExact(x, v); }
    forall v | IsIntentParameter(x, v) && p.isUnsafeText(Canonicalize(v)) ensures AnyUnsafe(p, vs) {
      var i :| 0 <= i < |vs| && vs[i] == v;
      assert p.isUnsafeText(Canonicalize(vs[i]));
    }
    if AnyUnsafe(p, vs) {
      var i :| 0 <= i < |vs| && p.isUnsafeText(Canonicalize(vs[i]));
      assert vs[i] in vs;
    }
  }

  lemma CostIsExact(p: Platform, x: ExecutionInput)
    requires p.Valid() && InRange(x)
    ensures CostOf(p, x) == if TrueCost(x) <= MAX_SAFE then Some(TrueCost(x)) else None
  {
    ExactCost(p.round, x.resources.gpuCount, x.resources.hours, x.gpuHourCents,
              x.execution.autoScale, x.execution.maxScaleMultiplier, x.execution.retryOnFail, x.execution.maxRetries);
  }

  lemma FirstOfCons(c: Condition, cs: seq<Condition>)
    ensures FirstViolated([c] + cs) == if c.violated then Some(c.reason) else FirstViolated(cs)
  {
    assert ([c] + cs)[1..] == cs;
  }

  lemma {:induction false} FirstOfAppend(a: seq<Condition>, b: seq<Condition>)
    ensures FirstViolated(a + b) == if FirstViolated(a).Some? then FirstViolated(a) else FirstViolated(b)
  {
    if a == [] {
      assert a + b == b;
    } else {
      assert (a + b)[1..] == a[1..] + b;
      FirstOfAppend(a[1..], b);
    }
  }

  lemma FirstOfFour(a: Condition, b: Condition, c: Condition, d: Condition)
    ensures FirstViolated([a, b, c, d])
         == if a.violated then Some(a.reason) else if b.violated then Some(b.reason)
            else if c.violated then Some(c.reason) else if d.violated then Some(d.reason) else None
  {
    FirstOfCons(d, []);
    FirstOfCons(c, [d]);
    FirstOfCons(b, [c, d]);
    FirstOfCons(a, [b, c, d]);
    assert [d] + [] == [d] && [c] + [d] == [c, d] && [b] + [c, d] == [b, c, d] && [a] + [b, c, d] == [a, b, c, d];
  }

  lemma OrbitFirst(p: Platform, x: ExecutionInput)
    ensures var t := RunStrictOrbit(p, x);
            FirstViolated(OrbitConditions(p, x)) == if t.decision.ALLOW? then None else Some(t.reason)
  {
    hide IntentParameters, AnyMarkers, AnyUnsafe, MarkedParameters, UnsafeParameters, ToolCallsEqual, Canonicalize;
    var cs := OrbitConditions(p, x);
    MarkersMeanMarked(p, x);
    UnsafeMeansUnsafe(p, x);
    FirstOfFour(cs[0], cs[1], cs[2], cs[3]);
    assert cs == [cs[0], cs[1], cs[2], cs[3]];
  }

  lemma LimitFirst(x: ExecutionInput)
    ensures FirstViolated(LimitConditions(x)) == LimitReason(x, TrueCost(x))
  {
    var cs := LimitConditions(x);
    FirstOfFour(cs[1], cs[2], cs[3], cs[4]);
    FirstOfCons(cs[0], [cs[1], cs[2], cs[3], cs[4]]);
    assert cs == [cs[0]] + [cs[1], cs[2], cs[3], cs[4]];
  }

  lemma RuntimeFirst(x: ExecutionInput)
    ensures FirstViolated(RuntimeConditions(x)) == RuntimeReason(x, TrueCost(x))
  {
    var cs := RuntimeConditions(x);
    FirstOfFour(cs[0], cs[1], cs[2], cs[3]);
    assert cs == [cs[0], cs[1], cs[2], cs[3]];
  }

  lemma ClaimFirst(m: Memory, x: ExecutionInput)
    ensures FirstViolated(ClaimConditions(m, x))
         == if TrueCost(x) > MAX_SAFE then Some(IntegerOverflow)
            else match BeginStatusOf(m.authority, x.release.executionId)
              case Created => None
              case InflightExists => Some(ExecutionIdAlreadyConsumed)
              case AllowedExists => Some(ExecutionIdReplayed)
  {
    var cs := ClaimConditions(m, x);
    FirstOfFour(cs[0], cs[1], cs[2], Condition(false, OkAllow));
    FirstOfAppend(cs, [Condition(false, OkAllow)]);
    FirstOfCons(Condition(false, OkAllow), []);
    assert cs + [Condition(false, OkAllow)] == [cs[0], cs[1], cs[2], Condition(false, OkAllow)];
    assert [Condition(false, OkAllow)] + [] == [Condition(false, OkAllow)];
  }

  lemma BudgetFirst(m: Memory, x: ExecutionInput)
    ensures FirstViolated(BudgetConditions(m, x))
         == if x.budgetToken.Some? && !CanReserve(m.budgets, x.budgetToken.value, TrueCost(x)) then Some(BudgetTokenExhausted) else None
  {
    var cs := BudgetConditions(m, x);
    FirstOfCons(cs[0], []);
    assert [cs[0]] + [] == cs;
  }

  /** The reason the receipt carries: that of the first layer that refuses, or the final approval. */
  function FinalReason(p: Platform, m: Memory, x: ExecutionInput): Reason {
    var arm := ArmResult(p, m, x, RunStrictOrbit(p, x));
    if arm.decision.REFUSE? then arm.reason
    else match RuntimeReason(x, arm.projected) case Some(r) => r case None => OkAllow
  }

  lemma ConditionsSplit(p: Platform, m: Memory, x: ExecutionInput)
    ensures FirstViolated(Conditions(p, m, x))
         == if FirstViolated(ClaimConditions(m, x)).Some? then FirstViolated(ClaimConditions(m, x))
            else if FirstViolated(OrbitConditions(p, x)).Some? then FirstViolated(OrbitConditions(p, x))
            else if FirstViolated(LimitConditions(x)).Some? then FirstViolated(LimitConditions(x))
            else if FirstViolated(BudgetConditions(m, x)).Some? then FirstViolated(BudgetConditions(m, x))
            else FirstViolated(RuntimeConditions(x))
  {
    hide FirstViolated, ClaimConditions, OrbitConditions, LimitConditions, BudgetConditions, RuntimeConditions;
    var runtime := RuntimeConditions(x);
    FirstOfAppend(BudgetConditions(m, x), runtime);
    FirstOfAppend(LimitConditions(x), BudgetConditions(m, x) + runtime);
    FirstOfAppend(OrbitConditions(p, x), LimitConditions(x) + (BudgetConditions(m, x) + runtime));
    FirstOfAppend(ClaimConditions(m, x), OrbitConditions(p, x) + (LimitConditions(x) + (BudgetConditions(m, x) + runtime)));
  }

  lemma FinalReasonIsFirst(p: Platform, m: Memory, x: ExecutionInput)
    requires p.Valid() && InRange(x)
    ensures FinalReason(p, m, x) == match FirstViolated(Conditions(p, m, x)) case None => OkAllow case Some(r) => r
  {
    hide Conditions, FirstViolated, ClaimConditions, OrbitConditions, LimitConditions, BudgetConditions, RuntimeConditions,
         CostOf, TrueCost, RunStrictOrbit, LimitReason, RuntimeReason;
    CostIsExact(p, x);
    ConditionsSplit(p, m, x);
    ClaimFirst(m, x);
    OrbitFirst(p, x);
    LimitFirst(x);
    BudgetFirst(m, x);
    RuntimeFirst(x);
  }

  /** The receipt of an accepted request in a given state of the stores. */
  function ReceiptFor(p: Platform, m: Memory, e: Envelope): Receipt {
    var orbit := RunStrictOrbit(p, e.input);
    BuildReceipt(p, e, orbit, ArmResult(p, m, e.input, orbit))
  }

  lemma ExecuteIssues(p: Platform, m: Memory, raw: Text, e: Envelope)
    requires RunPreflight(p, raw) == Accepted(e)
    ensures Execute(p, m, raw).0 == Issued(ReceiptFor(p, m, e))
  {
    hide RunPreflight, RunStrictOrbit, ArmResult, BuildReceipt, ArmMemory, Commit;
  }

  lemma ReceiptReason(p: Platform, m: Memory, e: Envelope)
    ensures var out := ReceiptFor(p, m, e).payload.output;
            out.reason == FinalReason(p, m, e.input) && (out.decision.ALLOW? <==> FinalReason(p, m, e.input) == OkAllow)
  {
    hide RunStrictOrbit, Canonicalize, PayloadJson, DecisionHash, LimitReason, CostOf, RuntimeJson, IntentParameters;
    OrbitReasons(p, e.input);
    LimitReasons(e.input);
  }

  lemma OrbitReasons(p: Platform, x: ExecutionInput)
    ensures var t := RunStrictOrbit(p, x);
            t.decision.REFUSE? ==> t.reason in {ToolCallSequence, OrbitMultipleActions, ForbiddenActionInParameters}
  {
  }

  lemma LimitReasons(x: ExecutionInput)
    ensures forall c :: LimitReason(x, c).Some? ==>
              LimitReason(x, c).value in {AutoScaleDenied, GpuLimit, HoursLimit, RetryLimit, CostLimit}
  {
  }

  /** A receipt says ALLOW exactly when no condition is violated; otherwise it carries the first violated one's code. */
  lemma DecisionExact(p: Platform, m: Memory, raw: Text, e: Envelope)
    requires p.Valid() && RunPreflight(p, raw) == Accepted(e)
    ensures Execute(p, m, raw).0 == Issued(ReceiptFor(p, m, e))
    ensures var out := ReceiptFor(p, m, e).payload.output;
            match FirstViolated(Conditions(p, m, e.input))
            case None => out.decision == ALLOW && out.reason == OkAllow
            case Some(r) => out.decision == REFUSE && out.reason == r && !IsOk(r)
  {
    hide RunPreflight, ReceiptFor, Execute, Conditions, FinalReason, FirstViolated, InRange;
    ExecuteIssues(p, m, raw, e);
    AcceptedInRange(p, raw);
    FinalReasonIsFirst(p, m, e.input);
    ReceiptReason(p, m, e);
    ConditionReasons(p, m, e.input);
  }

  lemma ConditionReasons(p: Platform, m: Memory, x: ExecutionInput)
    ensures FirstViolated(Conditions(p, m, x)).Some? ==> !IsOk(FirstViolated(Conditions(p, m, x)).value)
  {
    hide Conditions, FirstViolated, ClaimConditions, OrbitConditions, LimitConditions, BudgetConditions, RuntimeConditions,
         TrueCost, RunStrictOrbit, LimitReason, RuntimeReason;
    ConditionsSplit(p, m, x);
    ClaimFirst(m, x);
    OrbitFirst(p, x);
    OrbitReasons(p, x);
    LimitFirst(x);
    LimitReasons(x);
    BudgetFirst(m, x);
    RuntimeFirst(x);
    RuntimeReasons(x);
  }

  lemma RuntimeReasons(x: ExecutionInput)
    ensures forall c :: RuntimeReason(x, c).Some? ==> !IsOk(RuntimeReason(x, c).value)
  {
  }

  predicate CostsOf(x: ExecutionInput, arm: ArmTrace) {
    if TrueCost(x) > MAX_SAFE then arm.projected == 0 && arm.allowed == 0 && arm.prevented == 0
    else arm.projected == TrueCost(x) && arm.allowed + arm.prevented == arm.projected &&
         0 <= arm.prevented && 1 <= arm.allowed <= x.policy.rules.maxTotalCostCents
  }

  lemma TraceCosts(x: ExecutionInput, projected: SafeInt, decision: Decision, reason: Reason)
    requires InRange(x) && projected == TrueCost(x)
    ensures CostsOf(x, ArmTraceOf(x, projected, decision, reason))
  {
    CostPositive(x);
    hide TrueCost;
  }

  lemma ArmCosts(p: Platform, m: Memory, x: ExecutionInput, orbit: OrbitTrace)
    requires p.Valid() && InRange(x)
    ensures CostsOf(x, ArmResult(p, m, x, orbit))
    ensures ArmResult(p, m, x, orbit).decision.ALLOW? ==> LimitReason(x, TrueCost(x)).None? && TrueCost(x) <= MAX_SAFE
  {
    hide CostsOf, TrueCost, CostOf, LimitReason, InRange;
    CostIsExact(p, x);
    var arm := ArmResult(p, m, x, orbit);
    if TrueCost(x) <= MAX_SAFE {
      TraceCosts(x, TrueCost(x), arm.decision, arm.reason);
    } else {
      OverflowCosts(x);
    }
  }

  lemma OverflowCosts(x: ExecutionInput)
    requires TrueCost(x) > MAX_SAFE
    ensures CostsOf(x, OverflowTrace(x))
  {
  }

  lemma ReceiptArm(p: Platform, m: Memory, e: Envelope)
    ensures ReceiptFor(p, m, e).payload.arm == ArmResult(p, m, e.input, RunStrictOrbit(p, e.input))
  {
    hide ArmResult, RunStrictOrbit, RunStrictRamona, Canonicalize, PayloadJson, DecisionHash;
  }

  /** Costs on a receipt: the exact cost split into an allowed and a prevented part; all zero on overflow. */
  lemma CostsAddUp(p: Platform, m: Memory, raw: Text, e: Envelope)
    requires p.Valid() && RunPreflight(p, raw) == Accepted(e)
    ensures CostsOf(e.input, ReceiptFor(p, m, e).payload.arm)
    ensures ReceiptFor(p, m, e).payload.output.decision.ALLOW? ==>
              e.input.runtime.actualTotalCostCents <= TrueCost(e.input) <= e.input.policy.rules.maxTotalCostCents
  {
    hide RunPreflight, RunStrictOrbit, TrueCost, CostsOf, ReceiptFor, ArmResult, InRange;
    var x := e.input;
    AcceptedInRange(p, raw);
    ReceiptArm(p, m, e);
    ArmCosts(p, m, x, RunStrictOrbit(p, x));
    ReceiptReason(p, m, e);
    if ReceiptFor(p, m, e).payload.output.decision.ALLOW? { AllowedParts(p, m, x); }
    ProjectedIsCost(x, ArmResult(p, m, x, RunStrictOrbit(p, x)));
  }

  lemma AllowedParts(p: Platform, m: Memory, x: ExecutionInput)
    requires FinalReason(p, m, x) == OkAllow
    ensures var arm := ArmResult(p, m, x, RunStrictOrbit(p, x));
            arm.decision.ALLOW? && RuntimeReason(x, arm.projected).None? && RunStrictOrbit(p, x).decision.ALLOW?
  {
    hide RunStrictOrbit, LimitReason, CostOf;
    OrbitReasons(p, x);
    LimitReasons(x);
  }

  lemma ProjectedIsCost(x: ExecutionInput, arm: ArmTrace)
    requires CostsOf(x, arm)
    ensures TrueCost(x) <= MAX_SAFE ==> arm.projected == TrueCost(x)
  {
  }

  lemma CostPositive(x: ExecutionInput)
    requires InRange(x)
    ensures TrueCost(x) >= 1
  {
    var scale := if x.execution.autoScale then x.execution.maxScaleMultiplier else 1;
    var tries := if x.execution.retryOnFail then x.execution.maxRetries + 1 else 1;
    Grows(scale, tries);
    Grows(x.gpuHourCents, scale * tries);
    Grows(x.resources.hours, x.gpuHourCents * (scale * tries));
    Grows(x.resources.gpuCount, x.resources.hours * (x.gpuHourCents * (scale * tries)));
  }

  // ----- what an approval excludes at any depth

  predicate CallsUnreserved(cs: seq<ToolCall>) {
    forall i :: 0 <= i < |cs| ==> (cs[i].parameters.Some? ==> !ReservedScan(cs[i].parameters.value))
  }

  lemma {:induction false} ParsedCallsUnreserved(items: seq<Json>, seen: set<Text>, parsed: seq<ToolCall>)
    requires ParseCalls(items, seen, parsed).Good? && CallsUnreserved(parsed)
    ensures CallsUnreserved(ParseCalls(items, seen, parsed).value)
  {
    hide ReservedScan, Known, Fetch;
    if items != [] {
      var call := ParseToolCall(items[0], seen).value;
      ParsedCallsUnreserved(items[1..], seen + {call.tool}, parsed + [call]);
    }
  }

  lemma {:induction false} CallParametersUnreserved(cs: seq<ToolCall>)
    requires CallsUnreserved(cs)
    ensures forall i :: 0 <= i < |CallParameters(cs)| ==> !ReservedScan(CallParameters(cs)[i])
  {
    hide ReservedScan;
    if cs != [] {
      assert cs[0].parameters.Some? ==> !ReservedScan(cs[0].parameters.value);
      CallParametersUnreserved(cs[1..]);
    }
  }

  lemma ListsUnreserved(s: Shape)
    requires ListsOf(s).Good?
    ensures var l := ListsOf(s).value;
            CallsUnreserved(l.toolCalls) && CallsUnreserved(l.orbitCalls) && (l.parameters.Some? ==> !ReservedScan(l.parameters.value))
  {
    hide ReservedScan, Known, Fetch, CallsUnreserved, ParseCalls, ParseSignatures;
    NoneUnreserved();
    ParsedCallsUnreserved(Fetch(s.request, TOOL_CALLS).value.items, {}, []);
    PayloadUnreserved(Fetch(s.orbit, PAYLOAD));
  }

  lemma NoneUnreserved()
    ensures CallsUnreserved([])
  {
  }

  lemma PayloadUnreserved(v: Option<Json>)
    requires ParsePayload(v).Good?
    ensures CallsUnreserved(ParsePayload(v).value)
  {
    ParsedCallsUnreserved(Fetch(v.value.entries, TOOL_CALLS).value.items, {}, []);
  }

  lemma AcceptedUnreserved(p: Platform, raw: Text, e: Envelope)
    requires RunPreflight(p, raw) == Accepted(e)
    ensures var vs := IntentParameters(e.input); forall i :: 0 <= i < |vs| ==> !ReservedScan(vs[i])
  {
    hide RunPreflight, ReservedScan, ShapeOf, StringsOf, ListsOf, NumericChecks, CallsUnreserved, FlagsOf, ParseTrust;
    var root, s, t, l := AcceptedParts(p, raw);
    ListsUnreserved(s);
    var f, trust := FinishedParts(p, s, t, l);
    CallParametersUnreserved(l.toolCalls);
    CallParametersUnreserved(l.orbitCalls);
  }

  /** No parameters of an approved request, wherever they stand, have a reserved key or an action marker at any depth. */
  lemma ApprovedParametersAreClean(p: Platform, m: Memory, raw: Text, e: Envelope, v: Json, path: seq<nat>)
    requires p.Valid() && RunPreflight(p, raw) == Accepted(e) && IsIntentParameter(e.input, v)
    requires ReceiptFor(p, m, e).payload.output.decision.ALLOW?
    ensures !ReservedAt(v, path) && !MarkerAt(p, v, path) && !p.isUnsafeText(Canonicalize(v))
  {
    hide RunPreflight, ReceiptFor, IntentParameters, IsIntentParameter, ReservedAt, MarkerAt, ReservedScan, CountMarkers,
         WrongVersion, Canonicalize;
    IntentParametersExact(e.input, v);
    AcceptedUnreserved(p, raw, e);
    ReservedScanExact(v);
    ReceiptReason(p, m, e);
    AllowedParts(p, m, e.input);
    MarkersExact(p, v);
  }

  // ----- fields the decision does not depend on

  /** The request with another hold state, consumption flag and manual-approval threshold. */
  function WithApproval(x: ExecutionInput, holdState: Text, alreadyConsumed: bool, threshold: SafeInt): ExecutionInput {
    x.(release := x.release.(holdState := holdState, alreadyConsumed := alreadyConsumed),
       policy := x.policy.(rules := x.policy.rules.(requireManualApprovalAboveCents := threshold)))
  }

  lemma OrbitIgnoresApproval(p: Platform, x: ExecutionInput, holdState: Text, alreadyConsumed: bool, threshold: SafeInt)
    ensures RunStrictOrbit(p, WithApproval(x, holdState, alreadyConsumed, threshold)) == RunStrictOrbit(p, x)
  {
    hide CountMarkers, Canonicalize, OrbitIntentJson, ToolCallsEqual, CallParameters;
    assert IntentParameters(WithApproval(x, holdState, alreadyConsumed, threshold)) == IntentParameters(x);
  }

  /** No decision depends on the hold state, the already-consumed flag or the manual-approval threshold of a request. */
  lemma ApprovalFieldsIgnored(p: Platform, m: Memory, x: ExecutionInput, holdState: Text, alreadyConsumed: bool,
                              threshold: SafeInt)
    ensures FinalReason(p, m, WithApproval(x, holdState, alreadyConsumed, threshold)) == FinalReason(p, m, x)
  {
    hide RunStrictOrbit, CostOf, LimitReason, CanReserve, ArmTraceOf, OverflowTrace, RuntimeReason;
    OrbitIgnoresApproval(p, x, holdState, alreadyConsumed, threshold);
    CostIgnoresApproval(p, x, holdState, alreadyConsumed, threshold);
    TraceIgnoresApproval(x, holdState, alreadyConsumed, threshold);
  }

  lemma CostIgnoresApproval(p: Platform, x: ExecutionInput, holdState: Text, alreadyConsumed: bool, threshold: SafeInt)
    ensures var y := WithApproval(x, holdState, alreadyConsumed, threshold);
            && CostOf(p, y) == CostOf(p, x)
            && (forall c :: LimitReason(y, c) == LimitReason(x, c) && RuntimeReason(y, c) == RuntimeReason(x, c))
  {
  }

  lemma TraceIgnoresApproval(x: ExecutionInput, holdState: Text, alreadyConsumed: bool, threshold: SafeInt)
    ensures var y := WithApproval(x, holdState, alreadyConsumed, threshold);
            && OverflowTrace(y) == OverflowTrace(x)
            && (forall c, d, r :: ArmTraceOf(y, c, d, r) == ArmTraceOf(x, c, d, r))
  {
  }

  lemma NoManualCondition(p: Platform, m: Memory, x: ExecutionInput, i: nat)
    requires i < |Conditions(p, m, x)|
    ensures Conditions(p, m, x)[i].reason != ManualApprovalRequired
  {
    hide MarkedParameters, UnsafeParameters, ToolCallsEqual, SomeCallNamesAction, HasBudget, TrueCost;
  }

  /** No receipt carries the manual-approval code, in any state. */
  lemma NeverManualApproval(p: Platform, m: Memory, raw: Text, e: Envelope)
    requires p.Valid() && RunPreflight(p, raw) == Accepted(e)
    ensures ReceiptFor(p, m, e).payload.output.reason != ManualApprovalRequired
  {
    hide RunPreflight, ReceiptFor, Conditions, Execute;
    DecisionExact(p, m, raw, e);
    var cs := Conditions(p, m, e.input);
    FirstViolatedExact(cs);
    if FirstViolated(cs).Some? {
      var i :| 0 <= i < |cs| && cs[i].violated && FirstViolated(cs) == Some(cs[i].reason);
      NoManualCondition(p, m, e.input, i);
    }
  }

  /**
   A request whose exact cost is above its manual-approval threshold is refused exactly when one of the other conditions is
   violated: being above the threshold adds nothing.
   */
  lemma OverThresholdExact(p: Platform, m: Memory, raw: Text, e: Envelope)
    requires p.Valid() && RunPreflight(p, raw) == Accepted(e)
    requires TrueCost(e.input) > e.input.policy.rules.requireManualApprovalAboveCents
    ensures Execute(p, m, raw).0 == Issued(ReceiptFor(p, m, e))
    ensures ReceiptFor(p, m, e).payload.output.decision.REFUSE? <==>
            exists i :: 0 <= i < |Conditions(p, m, e.input)| && Conditions(p, m, e.input)[i].violated
  {
    hide RunPreflight, ReceiptFor, Conditions, Execute, TrueCost;
    DecisionExact(p, m, raw, e);
    FirstViolatedExact(Conditions(p, m, e.input));
  }

  /** Two accepted texts that differ at most in the three approval fields get the same decision and reason in every state. */
  lemma ApprovalFieldsIgnoredInReceipts(p: Platform, m: Memory, raw: Text, e: Envelope, other: Text, f: Envelope,
                                        holdState: Text, alreadyConsumed: bool, threshold: SafeInt)
    requires RunPreflight(p, raw) == Accepted(e) && RunPreflight(p, other) == Accepted(f)
    requires f.input == WithApproval(e.input, holdState, alreadyConsumed, threshold)
    ensures Execute(p, m, raw).0.Issued? && Execute(p, m, other).0.Issued?
    ensures var a, b := Execute(p, m, raw).0.receipt.payload.output, Execute(p, m, other).0.receipt.payload.output;
            a.decision == b.decision && a.reason == b.reason
  {
    hide RunPreflight, ReceiptFor, FinalReason, Execute, WithApproval;
    ExecuteIssues(p, m, raw, e);
    ExecuteIssues(p, m, other, f);
    ReceiptReason(p, m, e);
    ReceiptReason(p, m, f);
    ApprovalFieldsIgnored(p, m, e.input, holdState, alreadyConsumed, threshold);
  }
}
