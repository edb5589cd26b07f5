/** shared/state.ts: the execution-authority store and the budget-token store. */
module Stores {
  import opened Units
  import opened JsonValues

  datatype Status = Inflight | Allowed
  datatype AuthorityRecord = AuthorityRecord(executionId: Text, status: Status, requestHash: Text, decisionHash: Option<Text>)
  datatype BudgetRecord = BudgetRecord(budgetToken: Text, max: int, consumed: int)

  type Authorities = map<Text, AuthorityRecord>
  type Budgets = map<Text, BudgetRecord>

  datatype BeginStatus = Created | InflightExists | AllowedExists

  function BeginStatusOf(records: Authorities, id: Text): BeginStatus {
    if id !in records then Created else if records[id].status.Allowed? then AllowedExists else InflightExists
  }

  function AfterBegin(records: Authorities, id: Text, requestHash: Text): Authorities {
    if id in records then records else records[id := AuthorityRecord(id, Inflight, requestHash, None)]
  }

  function AfterCommit(records: Authorities, id: Text, requestHash: Text, decisionHash: Text): Authorities {
    records[id := AuthorityRecord(id, Allowed, requestHash, Some(decisionHash))]
  }

  predicate CanReserve(records: Budgets, token: Text, cost: int) {
    token in records && records[token].consumed + cost <= records[token].max
  }

  function AfterReserve(records: Budgets, token: Text, cost: int): Budgets {
    if CanReserve(records, token, cost)
    then records[token := records[token].(consumed := records[token].consumed + cost)]
    else records
  }

  /** The reservation in doubles, as the code computes it: the sum is rounded before it is compared and stored. */
  function RoundedReserve(round: real -> real, records: Budgets, token: Text, cost: int): (bool, Budgets) {
    if token !in records then (false, records)
    else
      var sum := round((records[token].consumed + cost) as real);
      if sum > records[token].max as real then (false, records)
      else (true, records[token := records[token].(consumed := sum.Floor)])
  }

  function AfterDefine(records: Budgets, token: Text, max: int): Budgets {
    records[token := BudgetRecord(token, max, 0)]
  }

  // ----- what a defined maximum means

  function Sum(costs: seq<int>): int {
    if costs == [] then 0 else costs[0] + Sum(costs[1..])
  }

  /** The records after one reservation attempt for each cost, in order. */
  function AfterReserves(records: Budgets, token: Text, costs: seq<int>): Budgets {
    if costs == [] then records else AfterReserves(AfterReserve(records, token, costs[0]), token, costs[1..])
  }

  /** Every one of the attempts succeeds. */
  predicate AllReserved(records: Budgets, token: Text, costs: seq<int>) {
    costs == [] ||
    (CanReserve(records, token, costs[0]) && AllReserved(AfterReserve(records, token, costs[0]), token, costs[1..]))
  }

  lemma {:induction false} ReservesFit(records: Budgets, token: Text, costs: seq<int>)
    requires token in records && forall i :: 0 <= i < |costs| ==> costs[i] >= 0
    ensures AllReserved(records, token, costs) <==> costs == [] || records[token].consumed + Sum(costs) <= records[token].max
    ensures AllReserved(records, token, costs) ==>
              AfterReserves(records, token, costs)
              == records[token := records[token].(consumed := records[token].consumed + Sum(costs))]
  {
    if costs != [] {
      SumNotNegative(costs[1..]);
      var next := AfterReserve(records, token, costs[0]);
      ReservesFit(next, token, costs[1..]);
    } else {
      assert records[token := records[token]] == records;
    }
  }

  lemma {:induction false} SumNotNegative(costs: seq<int>)
    requires forall i :: 0 <= i < |costs| ==> costs[i] >= 0
    ensures Sum(costs) >= 0
  {
    if costs != [] { SumNotNegative(costs[1..]); }
  }

  /** A token just defined can reserve costs up to the given maximum together and no further, and no other token changes. */
  lemma DefinedMaximum(records: Budgets, token: Text, max: int, costs: seq<int>)
    requires forall i :: 0 <= i < |costs| ==> costs[i] >= 0
    ensures AllReserved(AfterDefine(records, token, max), token, costs) <==> costs == [] || Sum(costs) <= max
    ensures forall other :: other != token ==>
              (other in AfterDefine(records, token, max) <==> other in records) &&
              (other in records ==> AfterDefine(records, token, max)[other] == records[other])
  {
    ReservesFit(AfterDefine(records, token, max), token, costs);
  }

  /** A token that was never defined reserves nothing. */
  lemma UnknownReservesNothing(records: Budgets, token: Text, costs: seq<int>)
    requires token !in records
    ensures AllReserved(records, token, costs) <==> costs == []
    ensures AfterReserves(records, token, costs) == records
  {
    if costs != [] { UnknownReservesNothing(records, token, costs[1..]); }
  }

  class InMemoryExecutionAuthorityStore {
    var records: Authorities

    constructor ()
      ensures records == map[]
    {
      records := map[];
    }

    method Begin(executionId: Text, requestHash: Text) returns (status: BeginStatus)
      modifies this
      ensures status == BeginStatusOf(old(records), executionId)
      ensures records == AfterBegin(old(records), executionId, requestHash)
    {
      if executionId !in records {
        records := records[executionId := AuthorityRecord(executionId, Inflight, requestHash, None)];
        return Created;
      }
      return if records[executionId].status.Allowed? then AllowedExists else InflightExists;
    }

    method CommitAllow(executionId: Text, requestHash: Text, decisionHash: Text)
      modifies this
      ensures records == AfterCommit(old(records), executionId, requestHash, decisionHash)
    {
      records := records[executionId := AuthorityRecord(executionId, Allowed, requestHash, Some(decisionHash))];
    }

    method Reset()
      modifies this
      ensures records == map[]
    {
      records := map[];
    }
  }

  class InMemoryBudgetTokenStore {
    var records: Budgets

    constructor ()
      ensures records == map[]
    {
      records := map[];
    }

    method Define(token: Text, max: int)
      modifies this
      ensures records == AfterDefine(old(records), token, max)
    {
      records := records[token := BudgetRecord(token, max, 0)];
    }

    method Reserve(token: Text, cost: int) returns (reserved: bool)
      modifies this
      ensures reserved == CanReserve(old(records), token, cost)
      ensures records == AfterReserve(old(records), token, cost)
    {
      if token !in records {
        return false;
      }
      var existing := records[token];
      if existing.consumed + cost > existing.max {
        return false;
      }
      records := records[token := existing.(consumed := existing.consumed + cost)];
      return true;
    }

    method Reset()
      modifies this
      ensures records == map[]
    {
      records := map[];
    }
  }
}
