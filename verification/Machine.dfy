/**
 Interleaved requests as a state machine. A request is armed in one step and finishes in a later one, and other
 requests, budget definitions and resets may come in between, as in simulateConcurrentDuplicate of
 audit/test_helpers.ts. A run is any sequence of events.
 */
module Machine {
  import opened Units
  import opened JsonValues
  import opened Doubles
  import opened Contracts
  import opened Preflight
  import opened Orbit
  import opened Stores
  import opened Pipeline
  import opened Decisions

  datatype Event = Reset | Define(token: Text, max: SafeInt) | Arm(raw: Text) | Finish(k: nat)

  /** A request that has been through ARM, in the epoch (number of resets) in which it was armed. */
  datatype Armed = Armed(epoch: nat, envelope: Envelope, orbit: OrbitTrace, arm: ArmTrace)

  /**
   The stores, the requests armed so far, the receipts issued for them by position, and for each token the
   number of requests armed when it was last defined.
   */
  datatype World = World(memory: Memory, epoch: nat, armed: seq<Armed>, issued: map<nat, Receipt>, definedAt: map<Text, nat>)

  const START: World := World(EMPTY, 0, [], map[], map[])

  function ReceiptOf(p: Platform, a: Armed): Receipt {
    BuildReceipt(p, a.envelope, a.orbit, a.arm)
  }

  function Step(p: Platform, w: World, event: Event): World {
    match event
    case Reset => w.(memory := EMPTY, epoch := w.epoch + 1, definedAt := map[])
    case Define(token, max) =>
      w.(memory := w.memory.(budgets := AfterDefine(w.memory.budgets, token, max)), definedAt := w.definedAt[token := |w.armed|])
    case Arm(raw) =>
      (match RunPreflight(p, raw)
       case Rejected(_) => w
       case Accepted(e) =>
         var orbit := RunStrictOrbit(p, e.input);
         w.(memory := ArmMemory(p, w.memory, e.input, orbit, e.requestHash),
            armed := w.armed + [Armed(w.epoch, e, orbit, ArmResult(p, w.memory, e.input, orbit))]))
    case Finish(k) =>
      if k < |w.armed| && k !in w.issued then
        var r := ReceiptOf(p, w.armed[k]);
        w.(memory := Commit(w.memory, r), issued := w.issued[k := r])
      else w
  }

  function Run(p: Platform, events: seq<Event>): World {
    if events == [] then START else Step(p, Run(p, events[..|events| - 1]), events[|events| - 1])
  }

  /** Executing a request in one go is arming it and finishing it at once. */
  lemma ExecuteIsArmThenFinish(p: Platform, w: World, raw: Text)
    requires RunPreflight(p, raw).Accepted? && forall k :: k in w.issued ==> k < |w.armed|
    ensures var after := Step(p, Step(p, w, Arm(raw)), Finish(|w.armed|));
            Execute(p, w.memory, raw).1 == after.memory && |w.armed| in after.issued &&
            Execute(p, w.memory, raw).0 == Issued(after.issued[|w.armed|])
  {
    hide RunPreflight, RunStrictOrbit, ArmMemory, ArmResult, BuildReceipt, Commit;
  }

  // ----- one-shot authority

  function IdOf(a: Armed): Text {
    a.envelope.input.release.executionId
  }

  predicate Overflowed(a: Armed) {
    a.arm.reason == IntegerOverflow
  }

  /** Request k was approved by ARM: the id was unclaimed when it was armed. */
  predicate ArmAllowed(a: Armed) {
    a.arm.decision.ALLOW?
  }

  predicate SameClaim(a: Armed, b: Armed) {
    a.epoch == b.epoch && IdOf(a) == IdOf(b)
  }

  /** Requests of the present epoch that got past the overflow check have claimed their id. */
  ghost predicate Claimed(w: World) {
    forall k :: 0 <= k < |w.armed| && w.armed[k].epoch == w.epoch && !Overflowed(w.armed[k]) ==>
      IdOf(w.armed[k]) in w.memory.authority
  }

  /** An approval by ARM is the first non-overflow request of its epoch with that id. */
  ghost predicate FirstOnly(w: World) {
    forall j, k :: 0 <= j < k < |w.armed| && ArmAllowed(w.armed[k]) && SameClaim(w.armed[j], w.armed[k]) ==>
      Overflowed(w.armed[j])
  }

  ghost predicate Bookkeeping(p: Platform, w: World) {
    (forall k :: 0 <= k < |w.armed| ==> w.armed[k].epoch <= w.epoch && w.armed[k].arm.executionId == IdOf(w.armed[k])) &&
    (forall k :: k in w.issued ==> k < |w.armed| && w.issued[k] == ReceiptOf(p, w.armed[k]))
  }

  /** An allowed record carries the hashes of an issued receipt that says ALLOW for that id. */
  ghost predicate RecordsBacked(w: World) {
    forall id :: id in w.memory.authority && w.memory.authority[id].status.Allowed? ==> Backed(w, id)
  }

  ghost predicate Backed(w: World, id: Text)
    requires id in w.memory.authority
  {
    exists k :: k in w.issued && BacksRecord(w.issued[k], id, w.memory.authority[id])
  }

  predicate BacksRecord(r: Receipt, id: Text, record: AuthorityRecord) {
    r.payload.output.decision.ALLOW? && r.payload.arm.executionId == id && record.executionId == id &&
    record.requestHash == r.payload.requestHash && record.decisionHash == Some(r.payload.output.decisionHash)
  }

  ghost predicate AuthorityInvariant(p: Platform, w: World) {
    Bookkeeping(p, w) && Claimed(w) && FirstOnly(w) && RecordsBacked(w)
  }

  lemma ArmFacts(p: Platform, m: Memory, x: ExecutionInput, orbit: OrbitTrace, hash: Text)
    requires orbit == RunStrictOrbit(p, x)
    ensures var arm, after := ArmResult(p, m, x, orbit), ArmMemory(p, m, x, orbit, hash);
            arm.executionId == x.release.executionId &&
            (arm.decision.ALLOW? ==> x.release.executionId !in m.authority) &&
            (arm.reason != IntegerOverflow ==> x.release.executionId in after.authority) &&
            (forall id :: id in m.authority ==> id in after.authority && after.authority[id] == m.authority[id]) &&
            (forall id :: id in after.authority && id !in m.authority ==>
               id == x.release.executionId && after.authority[id] == AuthorityRecord(id, Inflight, hash, None))
  {
    hide RunStrictOrbit, LimitReason, CanReserve;
    OrbitReasons(p, x);
    LimitReasons(x);
  }

  lemma ArmKeepsAuthority(p: Platform, w: World, raw: Text)
    requires AuthorityInvariant(p, w)
    ensures AuthorityInvariant(p, Step(p, w, Arm(raw)))
  {
    hide RunPreflight, RunStrictOrbit, ArmMemory, ArmResult, BuildReceipt;
    match RunPreflight(p, raw)
    case Rejected(_) =>
    case Accepted(e) =>
      var orbit := RunStrictOrbit(p, e.input);
      ArmFacts(p, w.memory, e.input, orbit, e.requestHash);
      var after := Step(p, w, Arm(raw));
      assert forall k :: 0 <= k < |w.armed| ==> after.armed[k] == w.armed[k];
      forall id | id in after.memory.authority && after.memory.authority[id].status.Allowed? ensures Backed(after, id) {
        assert Backed(w, id);
      }
  }

  lemma KeepsClaims(p: Platform, w: World, k: nat)
    requires Claimed(w) && FirstOnly(w)
    ensures Claimed(Step(p, w, Finish(k))) && FirstOnly(Step(p, w, Finish(k)))
  {
    hide BuildReceipt;
  }

  lemma KeepsBookkeeping(p: Platform, w: World, k: nat)
    requires Bookkeeping(p, w)
    ensures Bookkeeping(p, Step(p, w, Finish(k)))
  {
    hide BuildReceipt;
  }

  lemma KeepsBacking(p: Platform, w: World, k: nat)
    requires RecordsBacked(w) && k < |w.armed| && k !in w.issued
    ensures RecordsBacked(Step(p, w, Finish(k)))
  {
    hide BuildReceipt;
    var r := ReceiptOf(p, w.armed[k]);
    ReceiptParts(p, w.armed[k]);
    var after := Step(p, w, Finish(k));
    assert after.issued[k] == r;
    forall id | id in after.memory.authority && after.memory.authority[id].status.Allowed? ensures Backed(after, id) {
      if id == r.payload.arm.executionId && SaysAllow(r) {
        assert BacksRecord(after.issued[k], id, after.memory.authority[id]);
      } else {
        assert Backed(w, id);
        var j :| j in w.issued && BacksRecord(w.issued[j], id, w.memory.authority[id]);
        assert after.issued[j] == w.issued[j];
      }
    }
  }

  lemma FinishKeepsAuthority(p: Platform, w: World, k: nat)
    requires AuthorityInvariant(p, w)
    ensures AuthorityInvariant(p, Step(p, w, Finish(k)))
  {
    hide BuildReceipt, Claimed, FirstOnly, Bookkeeping, RecordsBacked;
    KeepsClaims(p, w, k);
    KeepsBookkeeping(p, w, k);
    if k < |w.armed| && k !in w.issued { KeepsBacking(p, w, k); }
  }

  lemma ReceiptParts(p: Platform, a: Armed)
    ensures var r := ReceiptOf(p, a).payload;
            r.arm == a.arm && r.orbit == a.orbit && r.requestHash == a.envelope.requestHash && r.canonicalRequest == a.envelope.canonicalInput &&
            (r.output.decision.ALLOW? ==> a.arm.decision.ALLOW? && RuntimeReason(a.envelope.input, a.arm.projected).None?) &&
            (a.orbit.decision.ALLOW? && a.arm.decision.ALLOW? && RuntimeReason(a.envelope.input, a.arm.projected).None? ==> r.output.decision.ALLOW?)
  {
    hide DecisionHash;
  }

  lemma StepKeepsAuthority(p: Platform, w: World, event: Event)
    requires AuthorityInvariant(p, w)
    ensures AuthorityInvariant(p, Step(p, w, event))
  {
    hide RunPreflight, RunStrictOrbit, ArmMemory, ArmResult, BuildReceipt;
    match event
    case Arm(raw) => ArmKeepsAuthority(p, w, raw);
    case Finish(k) => FinishKeepsAuthority(p, w, k);
    case Reset =>
    case Define(token, max) =>
      var after := Step(p, w, event);
      forall id | id in after.memory.authority && after.memory.authority[id].status.Allowed? ensures Backed(after, id) {
        assert Backed(w, id);
      }
  }

  lemma StartAuthority(p: Platform)
    ensures AuthorityInvariant(p, START)
  {
    hide BuildReceipt;
  }

  lemma {:induction false} RunKeepsAuthority(p: Platform, events: seq<Event>)
    ensures AuthorityInvariant(p, Run(p, events))
  {
    hide Step, AuthorityInvariant;
    StartAuthority(p);
    if events != [] {
      RunKeepsAuthority(p, events[..|events| - 1]);
      StepKeepsAuthority(p, Run(p, events[..|events| - 1]), events[|events| - 1]);
    }
  }

  predicate SaysAllow(r: Receipt) {
    r.payload.output.decision.ALLOW?
  }

  /** In every run, of all receipts for requests armed in one epoch with one execution id, at most one says ALLOW. */
  lemma OneShot(p: Platform, events: seq<Event>, j: nat, k: nat)
    requires var w := Run(p, events);
             j in w.issued && k in w.issued && j < |w.armed| && k < |w.armed| &&
             SameClaim(w.armed[j], w.armed[k])
    requires SaysAllow(Run(p, events).issued[j]) && SaysAllow(Run(p, events).issued[k])
    ensures j == k
  {
    hide Run, BuildReceipt;
    var w := Run(p, events);
    RunKeepsAuthority(p, events);
    ReceiptParts(p, w.armed[j]);
    ReceiptParts(p, w.armed[k]);
    AllowNotOverflow(p, events, j);
    AllowNotOverflow(p, events, k);
  }

  /** The ALLOW belongs to the first of them whose cost did not overflow. */
  lemma FirstGetsAuthority(p: Platform, events: seq<Event>, j: nat, k: nat)
    requires var w := Run(p, events);
             k in w.issued && SaysAllow(w.issued[k]) && j < k < |w.armed| &&
             SameClaim(w.armed[j], w.armed[k])
    ensures Overflowed(Run(p, events).armed[j])
  {
    hide Run, BuildReceipt;
    RunKeepsAuthority(p, events);
    ReceiptParts(p, Run(p, events).armed[k]);
  }

  /** Every armed trace is what ARM computed in some earlier state of the stores. */
  ghost predicate FromArm(p: Platform, a: Armed) {
    a.orbit == RunStrictOrbit(p, a.envelope.input) &&
    exists m :: a.arm == ArmResult(p, m, a.envelope.input, a.orbit)
  }

  lemma {:induction false} ArmedFromArm(p: Platform, events: seq<Event>)
    ensures forall k :: 0 <= k < |Run(p, events).armed| ==> FromArm(p, Run(p, events).armed[k])
  {
    hide RunPreflight, RunStrictOrbit, ArmMemory, ArmResult, BuildReceipt, Commit;
    if events != [] { ArmedFromArm(p, events[..|events| - 1]); }
  }

  lemma AllowNotOverflow(p: Platform, events: seq<Event>, k: nat)
    requires k < |Run(p, events).armed| && ArmAllowed(Run(p, events).armed[k])
    ensures !Overflowed(Run(p, events).armed[k])
  {
    hide Run, RunStrictOrbit, CostOf, LimitReason;
    ArmedFromArm(p, events);
    var a := Run(p, events).armed[k];
    var m :| a.arm == ArmResult(p, m, a.envelope.input, a.orbit);
  }

  function Rank(records: Authorities, id: Text): nat {
    if id !in records then 0 else if records[id].status.Inflight? then 1 else 2
  }

  /** Except at a reset, a record only moves from absent to inflight to allowed. */
  lemma StatusOnlyAdvances(p: Platform, events: seq<Event>, event: Event, id: Text)
    requires !event.Reset?
    ensures Rank(Run(p, events).memory.authority, id) <= Rank(Step(p, Run(p, events), event).memory.authority, id)
  {
    hide Run, RunPreflight, RunStrictOrbit, ArmMemory, ArmResult, BuildReceipt;
    var w := Run(p, events);
    if event.Arm? && RunPreflight(p, event.raw).Accepted? {
      var e := RunPreflight(p, event.raw).envelope;
      ArmFacts(p, w.memory, e.input, RunStrictOrbit(p, e.input), e.requestHash);
    }
  }

  /** In every run an allowed record carries the hashes of an issued ALLOW receipt for its id. */
  lemma AllowedRecordsAreBacked(p: Platform, events: seq<Event>, id: Text)
    requires id in Run(p, events).memory.authority && Run(p, events).memory.authority[id].status.Allowed?
    ensures Backed(Run(p, events), id)
  {
    hide Run, Backed;
    RunKeepsAuthority(p, events);
  }

  // ----- budget conservation

  /** Request a reserved budget on the token: ARM approved it under that token. */
  predicate Reserved(a: Armed, token: Text) {
    ArmAllowed(a) && a.arm.budgetToken == Some(token)
  }

  /** What became of a reservation. */
  datatype Fate = Approved | RefusedLater | Pending

  function FateOf(w: World, k: nat): Fate {
    if k !in w.issued then Pending else if SaysAllow(w.issued[k]) then Approved else RefusedLater
  }

  /** Total reserved on the token by requests at positions from..upTo. */
  function ReservedSum(armed: seq<Armed>, token: Text, from: nat, upTo: nat): int
    requires from <= upTo <= |armed|
    decreases upTo
  {
    if upTo == from then 0
    else ReservedSum(armed, token, from, upTo - 1) + if Reserved(armed[upTo - 1], token) then armed[upTo - 1].arm.projected else 0
  }

  /** The part of that total whose requests met a given fate. */
  function FateSum(w: World, token: Text, fate: Fate, from: nat, upTo: nat): int
    requires from <= upTo <= |w.armed|
    decreases upTo
  {
    if upTo == from then 0
    else FateSum(w, token, fate, from, upTo - 1)
         + if Reserved(w.armed[upTo - 1], token) && FateOf(w, upTo - 1) == fate then w.armed[upTo - 1].arm.projected else 0
  }

  ghost predicate BudgetInvariant(w: World) {
    forall token :: token in w.memory.budgets ==>
      token in w.definedAt && w.definedAt[token] <= |w.armed| &&
      w.memory.budgets[token].consumed == ReservedSum(w.armed, token, w.definedAt[token], |w.armed|) &&
      (w.memory.budgets[token].max >= 0 ==> w.memory.budgets[token].consumed <= w.memory.budgets[token].max)
  }

  lemma {:induction false} SumOfPrefix(a: seq<Armed>, b: seq<Armed>, token: Text, from: nat, upTo: nat)
    requires from <= upTo <= |a| <= |b| && a == b[..|a|]
    ensures ReservedSum(a, token, from, upTo) == ReservedSum(b, token, from, upTo)
    decreases upTo
  {
    if upTo > from {
      SumOfPrefix(a, b, token, from, upTo - 1);
      assert a[upTo - 1] == b[upTo - 1];
    }
  }

  lemma ArmBudgets(p: Platform, m: Memory, x: ExecutionInput, orbit: OrbitTrace, hash: Text, token: Text)
    requires token in m.budgets
    ensures var arm, after := ArmResult(p, m, x, orbit), ArmMemory(p, m, x, orbit, hash);
            after.budgets.Keys == m.budgets.Keys &&
            after.budgets[token] ==
              if arm.decision.ALLOW? && arm.budgetToken == Some(token)
              then m.budgets[token].(consumed := m.budgets[token].consumed + arm.projected) else m.budgets[token]
    ensures var arm := ArmResult(p, m, x, orbit);
            arm.decision.ALLOW? && arm.budgetToken == Some(token) ==> m.budgets[token].consumed + arm.projected <= m.budgets[token].max
  {
    hide LimitReason, CostOf;
  }

  lemma ArmBudgetKeys(p: Platform, m: Memory, x: ExecutionInput, orbit: OrbitTrace, hash: Text)
    ensures ArmMemory(p, m, x, orbit, hash).budgets.Keys == m.budgets.Keys
  {
    hide LimitReason, CostOf;
  }

  lemma ArmKeepsBudgets(p: Platform, w: World, raw: Text)
    requires BudgetInvariant(w)
    ensures BudgetInvariant(Step(p, w, Arm(raw)))
  {
    hide RunPreflight, RunStrictOrbit, ArmMemory, ArmResult, BuildReceipt;
    match RunPreflight(p, raw)
    case Rejected(_) =>
    case Accepted(e) =>
      var orbit := RunStrictOrbit(p, e.input);
      var after := Step(p, w, Arm(raw));
      ArmBudgetKeys(p, w.memory, e.input, orbit, e.requestHash);
      forall token | token in after.memory.budgets
        ensures token in after.definedAt && after.definedAt[token] <= |after.armed| &&
                after.memory.budgets[token].consumed == ReservedSum(after.armed, token, after.definedAt[token], |after.armed|) &&
                (after.memory.budgets[token].max >= 0 ==> after.memory.budgets[token].consumed <= after.memory.budgets[token].max)
      {
        assert token in w.memory.budgets.Keys;
        ArmBudgets(p, w.memory, e.input, orbit, e.requestHash, token);
        SumOfPrefix(w.armed, after.armed, token, w.definedAt[token], |w.armed|);
      }
  }

  lemma StepKeepsBudgets(p: Platform, w: World, event: Event)
    requires BudgetInvariant(w)
    ensures BudgetInvariant(Step(p, w, event))
  {
    hide RunPreflight, RunStrictOrbit, ArmMemory, ArmResult, BuildReceipt;
    match event
    case Arm(raw) => ArmKeepsBudgets(p, w, raw);
    case _ =>
  }

  lemma {:induction false} RunKeepsBudgets(p: Platform, events: seq<Event>)
    ensures BudgetInvariant(Run(p, events))
  {
    hide Step;
    if events != [] {
      RunKeepsBudgets(p, events[..|events| - 1]);
      StepKeepsBudgets(p, Run(p, events[..|events| - 1]), events[|events| - 1]);
    } else {
      assert BudgetInvariant(START);
    }
  }

  // ----- consumption stays within the safe integers

  /** What was consumed is a safe integer, and maxima do not exceed the safe integers. */
  predicate ConsumptionSafe(b: Budgets) {
    forall token :: token in b ==> 0 <= b[token].consumed <= MAX_SAFE && b[token].max <= MAX_SAFE
  }

  lemma ArmKeepsConsumptionSafe(p: Platform, m: Memory, x: ExecutionInput, orbit: OrbitTrace, hash: Text)
    requires p.Valid() && InRange(x) && ConsumptionSafe(m.budgets)
    ensures ConsumptionSafe(ArmMemory(p, m, x, orbit, hash).budgets)
  {
    hide LimitReason, CostOf, TrueCost, InRange;
    CostIsExact(p, x);
    CostPositive(x);
    var after := ArmMemory(p, m, x, orbit, hash);
    ArmBudgetKeys(p, m, x, orbit, hash);
    forall token | token in after.budgets ensures 0 <= after.budgets[token].consumed <= MAX_SAFE && after.budgets[token].max <= MAX_SAFE {
      assert token in m.budgets.Keys;
    }
  }

  lemma StepKeepsConsumptionSafe(p: Platform, w: World, event: Event)
    requires p.Valid() && ConsumptionSafe(w.memory.budgets)
    ensures ConsumptionSafe(Step(p, w, event).memory.budgets)
  {
    hide RunPreflight, RunStrictOrbit, ArmMemory, ArmResult, BuildReceipt, InRange;
    match event
    case Arm(raw) =>
      if RunPreflight(p, raw).Accepted? {
        var e := RunPreflight(p, raw).envelope;
        AcceptedInRange(p, raw);
        ArmKeepsConsumptionSafe(p, w.memory, e.input, RunStrictOrbit(p, e.input), e.requestHash);
      }
    case _ =>
  }

  lemma {:induction false} RunKeepsConsumptionSafe(p: Platform, events: seq<Event>)
    requires p.Valid()
    ensures ConsumptionSafe(Run(p, events).memory.budgets)
  {
    hide Step, ConsumptionSafe;
    if events != [] {
      RunKeepsConsumptionSafe(p, events[..|events| - 1]);
      StepKeepsConsumptionSafe(p, Run(p, events[..|events| - 1]), events[|events| - 1]);
    } else {
      assert ConsumptionSafe(START.memory.budgets) by { NothingConsumed(); }
    }
  }

  lemma NothingConsumed()
    ensures ConsumptionSafe(EMPTY.budgets)
  {
  }

  /** In every reachable state the reservation in doubles decides and stores what exact integers would. */
  lemma ReserveIsExact(p: Platform, events: seq<Event>, token: Text, cost: int)
    requires p.Valid() && 0 <= cost <= MAX_SAFE
    ensures var b := Run(p, events).memory.budgets;
            RoundedReserve(p.round, b, token, cost) == (CanReserve(b, token, cost), AfterReserve(b, token, cost))
  {
    hide Run;
    RunKeepsConsumptionSafe(p, events);
    var b := Run(p, events).memory.budgets;
    if token in b {
      var sum := p.round((b[token].consumed + cost) as real);
      BudgetComparisonExact(b[token].consumed, cost, b[token].max, sum);
    }
  }

  lemma {:induction false} FatesPartition(w: World, token: Text, from: nat, upTo: nat)
    requires from <= upTo <= |w.armed|
    ensures ReservedSum(w.armed, token, from, upTo)
         == FateSum(w, token, Approved, from, upTo) + FateSum(w, token, RefusedLater, from, upTo) + FateSum(w, token, Pending, from, upTo)
    decreases upTo
  {
    if upTo > from { FatesPartition(w, token, from, upTo - 1); }
  }

  /**
   In every run, what a token has consumed is the sum of the costs ARM allowed on it since it was last defined:
   those of ALLOW receipts, those RAM0NA refused afterwards, and those still pending. With a non-negative maximum
   it never exceeds that maximum.
   */
  lemma BudgetConservation(p: Platform, events: seq<Event>, token: Text)
    requires token in Run(p, events).memory.budgets
    ensures var w := Run(p, events);
            var record := w.memory.budgets[token];
            token in w.definedAt && w.definedAt[token] <= |w.armed| &&
            record.consumed == FateSum(w, token, Approved, w.definedAt[token], |w.armed|)
                             + FateSum(w, token, RefusedLater, w.definedAt[token], |w.armed|)
                             + FateSum(w, token, Pending, w.definedAt[token], |w.armed|) &&
            (record.max >= 0 ==> record.consumed <= record.max)
  {
    hide Run;
    var w := Run(p, events);
    RunKeepsBudgets(p, events);
    FatesPartition(w, token, w.definedAt[token], |w.armed|);
  }

  /** A reservation whose receipt refuses was refused by the runtime checks: ARM and Orbit had approved it. */
  lemma RefusedLaterByRuntime(p: Platform, events: seq<Event>, k: nat, token: Text)
    requires k < |Run(p, events).armed| && Reserved(Run(p, events).armed[k], token) && FateOf(Run(p, events), k) == RefusedLater
    ensures var a := Run(p, events).armed[k]; RuntimeReason(a.envelope.input, a.arm.projected).Some?
  {
    hide Run, BuildReceipt, RunStrictOrbit, RuntimeReason, CostOf, LimitReason;
    RunKeepsAuthority(p, events);
    ArmedFromArm(p, events);
    var a := Run(p, events).armed[k];
    ReceiptParts(p, a);
    var m :| a.arm == ArmResult(p, m, a.envelope.input, a.orbit);
  }

  lemma RunStep(p: Platform, events: seq<Event>, event: Event)
    ensures Run(p, events + [event]) == Step(p, Run(p, events), event)
  {
    hide Step;
    assert (events + [event])[..|events|] == events;
  }

  lemma ArmAccepted(p: Platform, w: World, raw: Text, e: Envelope)
    requires RunPreflight(p, raw) == Accepted(e) && w.memory == EMPTY
    ensures var after := Step(p, w, Arm(raw));
            |after.armed| == |w.armed| + 1 && after.issued == w.issued && after.armed[..|w.armed|] == w.armed &&
            after.armed[|w.armed|].envelope == e && ReceiptOf(p, after.armed[|w.armed|]) == ReceiptFor(p, EMPTY, e)
  {
    hide RunPreflight, RunStrictOrbit, ArmMemory, ArmResult, BuildReceipt;
  }

  /**
   Authority is one-shot within an epoch only: with a reset between arming and finishing, every request that is
   approved from empty stores can be approved twice.
   */
  lemma ResetReopensAuthority(p: Platform, raw: Text, e: Envelope, w: World)
    requires RunPreflight(p, raw) == Accepted(e) && SaysAllow(ReceiptFor(p, EMPTY, e))
    requires w == Run(p, [] + [Arm(raw)] + [Reset] + [Arm(raw)] + [Finish(0)] + [Finish(1)])
    ensures |w.armed| == 2 && 0 in w.issued && 1 in w.issued && SaysAllow(w.issued[0]) && SaysAllow(w.issued[1])
    ensures IdOf(w.armed[0]) == IdOf(w.armed[1])
  {
    hide RunPreflight, Run, ReceiptFor, ReceiptOf, Commit;
    var w0 := Run(p, []);
    var e1 := [] + [Arm(raw)];
    var e2 := e1 + [Reset];
    var e3 := e2 + [Arm(raw)];
    RunStep(p, [], Arm(raw));
    RunStep(p, e1, Reset);
    RunStep(p, e2, Arm(raw));
    RunStep(p, e3, Finish(0));
    RunStep(p, e3 + [Finish(0)], Finish(1));
    EmptyRun(p);
    ArmAccepted(p, w0, raw, e);
    ArmAccepted(p, Run(p, e2), raw, e);
    var w3 := Run(p, e3);
    assert w3.armed[..1][0] == w3.armed[0];
  }

  lemma EmptyRun(p: Platform)
    ensures Run(p, []) == START
  {
  }
}
