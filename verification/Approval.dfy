/** A request that every platform's pipeline approves, and what resets do to it. */
module Approval {
  import opened Units
  import opened JsonValues
  import opened Canonical
  import opened Doubles
  import opened Fields
  import opened Contracts
  import opened Preflight
  import opened PreflightReplay
  import opened Orbit
  import opened Stores
  import opened Pipeline
  import opened Decisions
  import opened Machine
  import opened Replay
  import opened Requests

  const A: Text := [0x61]

  const PENDING: Name := "PENDING"

  /**
   One GPU for one hour at one cent, under a policy that allows it but asks for manual approval above zero cents; the
   release is pending and marked as already consumed.
   */
  function SmallRequest(): ExecutionInput {
    var call := ToolCall(A, 0, None);
    ExecutionInput(
      A, A, A, Resources(A, 1, 1), Execution(false, 1, false, 0), [call], None,
      OrbitIntent(Ascii(ORBIT_2), A, A, [call], Ascii(ARMED), [Signature(A, A)]),
      ReleaseRequest(A, Ascii(PENDING), true), RuntimeObservation(false, 0, 0, 0), None,
      PolicyDocument(A, Ascii(PINNED_POLICY_VERSION), None, Rules(1, false, 1, 1, 0, 0)), 1)
  }

  lemma SmallIsAcceptable(p: Platform)
    ensures Acceptable(p, SmallRequest())
  {
    assert |Ascii(ORBIT_2)| == 3 && |Ascii(ARMED)| == 5 && |Ascii(PENDING)| == 7;
  }

  /** Nothing about it is left to key order. */
  lemma SmallIsRigid(y: ExecutionInput)
    requires SameInput(SmallRequest(), y)
    ensures y == SmallRequest()
  {
    hide Ascii;
    var x := SmallRequest();
    assert CallSame(x.toolCalls[0], y.toolCalls[0]) && CallSame(x.orbitIntent.toolCalls[0], y.orbitIntent.toolCalls[0]);
    assert y.toolCalls == [y.toolCalls[0]] && y.orbitIntent.toolCalls == [y.orbitIntent.toolCalls[0]];
    assert y.toolCalls == x.toolCalls && y.orbitIntent.toolCalls == x.orbitIntent.toolCalls && y.parameters == x.parameters;
  }

  lemma SmallHasNoViolation(p: Platform)
    ensures FirstViolated(Conditions(p, EMPTY, SmallRequest())) == None
  {
    hide Ascii, Canonicalize, ToolCallsJson;
    var x := SmallRequest();
    assert forall v :: !IsIntentParameter(x, v);
    assert TrueCost(x) == 1;
    forall i | 0 <= i < |Conditions(p, EMPTY, x)| ensures !Conditions(p, EMPTY, x)[i].violated {
    }
    FirstViolatedExact(Conditions(p, EMPTY, x));
  }

  /**
   On every valid platform some request is accepted and approved from empty stores: one whose exact cost is above its
   manual-approval threshold, whose release is pending, and which says it was consumed before.
   */
  lemma SomeRequestIsApproved(p: Platform) returns (raw: Text, e: Envelope)
    requires p.Valid()
    ensures RunPreflight(p, raw) == Accepted(e)
    ensures TrueCost(e.input) > e.input.policy.rules.requireManualApprovalAboveCents
    ensures e.input.release.holdState == Ascii(PENDING) && e.input.release.alreadyConsumed
    ensures Execute(p, EMPTY, raw).0 == Issued(ReceiptFor(p, EMPTY, e)) && SaysAllow(ReceiptFor(p, EMPTY, e))
  {
    hide RunPreflight, Execute, ReceiptFor, Acceptable, SameInput, Canonicalize, InputJson, Conditions;
    var x := SmallRequest();
    raw := Canonicalize(InputJson(x));
    SmallIsAcceptable(p);
    AcceptableIsAccepted(p, x);
    e := RunPreflight(p, raw).envelope;
    SmallIsRigid(e.input);
    SmallHasNoViolation(p);
    DecisionExact(p, EMPTY, raw, e);
  }

  /** One-shot authority ends at a reset: in some run of every valid platform one execution id gets two ALLOW receipts. */
  lemma TwoApprovalsAcrossReset(p: Platform) returns (events: seq<Event>)
    requires p.Valid()
    ensures var w := Run(p, events);
            && |w.armed| == 2 && 0 in w.issued && 1 in w.issued && SaysAllow(w.issued[0]) && SaysAllow(w.issued[1])
            && IdOf(w.armed[0]) == IdOf(w.armed[1])
  {
    hide RunPreflight, Execute, ReceiptFor, Run;
    var raw, e := SomeRequestIsApproved(p);
    events := [] + [Arm(raw)] + [Reset] + [Arm(raw)] + [Finish(0)] + [Finish(1)];
    ResetReopensAuthority(p, raw, e, Run(p, events));
  }

  lemma ArmClaims(p: Platform, x: ExecutionInput, orbit: OrbitTrace, hash: Text)
    requires CostOf(p, x).Some?
    ensures x.release.executionId in ArmMemory(p, EMPTY, x, orbit, hash).authority
  {
    hide CostOf, LimitReason;
  }

  /**
   Replay is exact only for receipts the stores had no part in: when a request that was approved is sent again, the second
   receipt does not replay.
   */
  lemma RepeatedRequestMismatches(p: Platform, raw: Text, e: Envelope)
    requires p.Valid() && RunPreflight(p, raw) == Accepted(e) && SaysAllow(ReceiptFor(p, EMPTY, e))
    ensures var again := Execute(p, Execute(p, EMPTY, raw).1, raw).0;
            again.Issued? && ReplayLine(p, Some(again.receipt)) == Some(ReplayMismatch)
  {
    hide RunPreflight, RunStrictOrbit, ReceiptFor, ReplayLine, ArmResult, ArmMemory, BuildReceipt, CostOf, InRange, TrueCost,
         CostsOf, LimitReason, CanReserve;
    var m := Execute(p, EMPTY, raw).1;
    AcceptedInRange(p, raw);
    CostIsExact(p, e.input);
    CostsAddUp(p, EMPTY, raw, e);
    ArmClaims(p, e.input, RunStrictOrbit(p, e.input), e.requestHash);
    ReplayExact(p, m, raw, e);
  }
}
