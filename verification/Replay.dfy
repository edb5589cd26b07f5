/** Which receipts reproduce when their canonical request is run again from empty stores. */
module Replay {
  import opened Units
  import opened JsonValues
  import opened Canonical
  import opened Contracts
  import opened Preflight
  import opened PreflightReplay
  import opened Orbit
  import opened Stores
  import opened Pipeline
  import opened Decisions

  /**
   The stores had no part in the ARM trace: the cost overflows before they are read, or the execution id was
   unclaimed and no budget was reserved.
   */
  predicate StateIndependent(p: Platform, m: Memory, x: ExecutionInput) {
    match CostOf(p, x)
    case None => true
    case Some(cost) =>
      x.release.executionId !in m.authority &&
      (RunStrictOrbit(p, x).decision.REFUSE? || LimitReason(x, cost).Some? ||
       x.budgetToken.None? || !CanReserve(m.budgets, x.budgetToken.value, cost))
  }

  /** The ARM trace agrees with that from empty stores, in its reason or altogether, exactly in that case. */
  lemma ArmFromEmpty(p: Platform, m: Memory, x: ExecutionInput)
    ensures var orbit := RunStrictOrbit(p, x);
            var here, empty := ArmResult(p, m, x, orbit), ArmResult(p, EMPTY, x, orbit);
            (StateIndependent(p, m, x) ==> here == empty) && (here.reason == empty.reason ==> StateIndependent(p, m, x))
  {
    hide RunStrictOrbit, CostOf, LimitReason;
    OrbitReasons(p, x);
    LimitReasons(x);
  }

  /** ARM and RAM0NA never look into parameter objects. */
  lemma ArmIgnoresKeyOrder(p: Platform, m: Memory, x: ExecutionInput, y: ExecutionInput, orbit: OrbitTrace)
    requires SameInput(x, y)
    ensures ArmResult(p, m, x, orbit) == ArmResult(p, m, y, orbit)
  {
    hide CanReserve;
  }

  lemma ReceiptIgnoresKeyOrder(p: Platform, e: Envelope, f: Envelope, orbit: OrbitTrace, arm: ArmTrace)
    requires SameRequest(e, f)
    ensures BuildReceipt(p, e, orbit, arm) == BuildReceipt(p, f, orbit, arm)
  {
    hide Canonicalize, SignPayload;
  }

  /** Running the canonical request again issues the receipt of the original request in the new state. */
  lemma RerunReceipt(p: Platform, m: Memory, raw: Text, e: Envelope)
    requires RunPreflight(p, raw) == Accepted(e)
    ensures Execute(p, m, e.canonicalInput).0 == Issued(ReceiptFor(p, m, e))
  {
    hide RunPreflight, Execute, RunStrictOrbit, ArmResult, BuildReceipt, SameInput;
    PreflightReplays(p, raw, e);
    var f := RunPreflight(p, e.canonicalInput).envelope;
    ExecuteIssues(p, m, e.canonicalInput, f);
    OrbitIsOrderFree(p, e.input, f.input);
    var orbit := RunStrictOrbit(p, e.input);
    ArmIgnoresKeyOrder(p, m, e.input, f.input, orbit);
    ReceiptIgnoresKeyOrder(p, e, f, orbit, ArmResult(p, m, e.input, orbit));
  }

  lemma ReceiptVerifies(p: Platform, m: Memory, e: Envelope)
    requires p.Valid()
    ensures VerifyReceiptSignature(p, ReceiptFor(p, m, e)) == Some(true)
    ensures ReceiptFor(p, m, e).payload.canonicalRequest == e.canonicalInput
  {
    hide RunStrictOrbit, ArmResult, VerifyReceiptSignature, Canonicalize, RunStrictRamona, DecisionHash;
    var orbit := RunStrictOrbit(p, e.input);
    var arm := ArmResult(p, m, e.input, orbit);
    IssuedReceiptsVerify(p, BuildPayload(p, e, orbit, arm, RunStrictRamona(p, e.input, arm)));
  }

  lemma SameArmSameReceipt(p: Platform, m: Memory, n: Memory, e: Envelope)
    requires ArmResult(p, m, e.input, RunStrictOrbit(p, e.input)) == ArmResult(p, n, e.input, RunStrictOrbit(p, e.input))
    ensures ReceiptFor(p, m, e) == ReceiptFor(p, n, e)
  {
    hide RunStrictOrbit, ArmResult, BuildReceipt;
  }

  /**
   A receipt issued in any state of the stores, replayed from empty stores, matches exactly when it is state
   independent, and otherwise is reported as a replay mismatch.
   */
  lemma ReplayExact(p: Platform, m: Memory, raw: Text, e: Envelope)
    requires p.Valid() && RunPreflight(p, raw) == Accepted(e)
    ensures Execute(p, m, raw).0 == Issued(ReceiptFor(p, m, e))
    ensures ReplayLine(p, Some(ReceiptFor(p, m, e)))
         == Some(if StateIndependent(p, m, e.input) then OkAllow else ReplayMismatch)
  {
    hide RunPreflight, Execute, RunStrictOrbit, ArmResult, ReceiptFor, VerifyReceiptSignature, StateIndependent, Canonicalize, ReceiptJson;
    ExecuteIssues(p, m, raw, e);
    var stored, rerun := ReceiptFor(p, m, e), ReceiptFor(p, EMPTY, e);
    ReceiptVerifies(p, m, e);
    ReceiptVerifies(p, EMPTY, e);
    RerunReceipt(p, EMPTY, raw, e);
    ArmFromEmpty(p, m, e.input);
    if StateIndependent(p, m, e.input) {
      SameArmSameReceipt(p, m, EMPTY, e);
    } else if Canonicalize(ReceiptJson(stored)) == Canonicalize(ReceiptJson(rerun)) {
      CanonicalTextFixesArmReason(stored, rerun);
      ReceiptArm(p, m, e);
      ReceiptArm(p, EMPTY, e);
    }
  }

  /** From empty stores every receipt replays, budget tokens included: none can be reserved there. */
  lemma FreshReceiptsReplay(p: Platform, raw: Text, e: Envelope)
    requires p.Valid() && RunPreflight(p, raw) == Accepted(e)
    ensures ReplayLine(p, Some(ReceiptFor(p, EMPTY, e))) == Some(OkAllow)
  {
    hide RunPreflight, ReplayLine, RunStrictOrbit, ReceiptFor, CostOf, LimitReason;
    ReplayExact(p, EMPTY, raw, e);
  }

  // ----- whole stores

  predicate Replays(p: Platform, lines: seq<Option<Receipt>>) {
    forall i :: 0 <= i < |lines| ==> ReplayLine(p, lines[i]) == Some(OkAllow)
  }

  /** Every line is counted once, as a match or as a mismatch, and all match exactly when each line does. */
  lemma {:induction false} ReportAccounts(p: Platform, lines: seq<Option<Receipt>>, sofar: Report)
    requires ReplayLines(p, lines, sofar).Some?
    ensures var r := ReplayLines(p, lines, sofar).value;
            r.total == sofar.total && r.exactMatches + |r.mismatches| == sofar.exactMatches + |sofar.mismatches| + |lines| &&
            (r.exactMatches == sofar.exactMatches + |lines| <==> Replays(p, lines)) &&
            r.exactMatches <= sofar.exactMatches + |lines|
  {
    hide ReplayLine;
    if lines != [] {
      var reason := ReplayLine(p, lines[0]).value;
      var next := if reason == OkAllow then sofar.(exactMatches := sofar.exactMatches + 1)
                  else sofar.(mismatches := sofar.mismatches + [reason]);
      ReportAccounts(p, lines[1..], next);
      assert forall i :: 0 <= i < |lines[1..]| ==> lines[1..][i] == lines[i + 1];
    }
  }

  /** The reasons of the lines that do not replay, in the order of the lines. */
  function Mismatches(p: Platform, lines: seq<Option<Receipt>>): seq<Reason> {
    if lines == [] then []
    else
      var n := |lines| - 1;
      Mismatches(p, lines[..n]) +
      (match ReplayLine(p, lines[n]) case Some(reason) => if reason == OkAllow then [] else [reason] case None => [])
  }

  lemma {:induction false} MismatchesFirst(p: Platform, lines: seq<Option<Receipt>>)
    requires lines != []
    ensures Mismatches(p, lines) ==
            (match ReplayLine(p, lines[0]) case Some(reason) => if reason == OkAllow then [] else [reason] case None => []) +
            Mismatches(p, lines[1..])
  {
    hide ReplayLine;
    var n := |lines| - 1;
    if n == 0 {
      assert lines[1..] == [] && lines[..0] == [];
    } else {
      MismatchesFirst(p, lines[..n]);
      assert lines[..n][1..] == lines[1..][..n - 1] && lines[1..][n - 1] == lines[n];
    }
  }

  /** There is a report exactly when no signature check throws, and it lists the reasons of all mismatches in order. */
  lemma {:induction false} ReportExact(p: Platform, lines: seq<Option<Receipt>>, sofar: Report)
    ensures ReplayLines(p, lines, sofar).Some? <==> forall i :: 0 <= i < |lines| ==> ReplayLine(p, lines[i]).Some?
    ensures ReplayLines(p, lines, sofar).Some? ==>
              ReplayLines(p, lines, sofar).value.mismatches == sofar.mismatches + Mismatches(p, lines)
  {
    hide ReplayLine;
    if lines == [] {
      assert sofar.mismatches + [] == sofar.mismatches;
    } else if ReplayLine(p, lines[0]).Some? {
      var reason := ReplayLine(p, lines[0]).value;
      var next := if reason == OkAllow then sofar.(exactMatches := sofar.exactMatches + 1)
                  else sofar.(mismatches := sofar.mismatches + [reason]);
      ReportExact(p, lines[1..], next);
      MismatchesFirst(p, lines);
      assert forall i :: 0 <= i < |lines[1..]| ==> lines[1..][i] == lines[i + 1];
    }
  }
}
