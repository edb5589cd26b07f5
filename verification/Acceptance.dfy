/**
 The texts preflight accepts, exactly: those that spell, up to key order, the JSON form of an acceptable request.
 Nothing in an accepted text is left out of the typed request.
 */
module Acceptance {
  import opened Units
  import opened JsonValues
  import opened StrictParser
  import opened ParserLanguage
  import opened Canonical
  import opened Fields
  import opened Contracts
  import opened DeepScan
  import opened Preflight
  import opened PreflightReplay
  import opened Requests
  import opened Orbit

  // ----- an object with exactly the given fields

  /** `v` is `w` with keys reordered and possibly some negative zeros replaced by zero. */
  predicate Matches(v: Json, w: Json) {
    Tidier(w, v)
  }

  lemma FieldHasKey(fields: seq<(Name, Json)>, i: nat)
    requires i < |fields|
    ensures HasKey(Record(fields).entries, Ascii(fields[i].0))
  {
    assert Record(fields).entries[i].key == Ascii(fields[i].0);
  }

  /** Each field is present with an equivalent value, and every other allowed key is absent. */
  predicate Covers(es: seq<Entry>, fields: seq<(Name, Json)>, allowed: seq<Name>) {
    && (forall i :: 0 <= i < |fields| ==>
          Fetch(es, fields[i].0).Some? && Matches(Fetch(es, fields[i].0).value, fields[i].1))
    && (forall j :: 0 <= j < |allowed| ==> Named(fields, allowed[j]) || Fetch(es, allowed[j]).None?)
  }

  lemma RecordMatches(es: seq<Entry>, fields: seq<(Name, Json)>, allowed: seq<Name>)
    requires DistinctKeys(es) && DistinctNames(fields) && Known(es, allowed).Good? && Covers(es, fields, allowed)
    ensures Matches(Obj(es), Record(fields))
  {
    hide Known, Ascii, IsAllowed;
    var fs := Record(fields).entries;
    KnownExact(es, allowed);
    forall i | 0 <= i < |es| ensures HasKey(fs, es[i].key) { AllowedIsField(es, fields, allowed, i); }
    forall i, j | 0 <= i < |es| && 0 <= j < |fs| && es[i].key == fs[j].key ensures Matches(es[i].value, fs[j].value) {
      IndexUnique(es, i);
      assert fs[j].key == Ascii(fields[j].0);
    }
    SameSize(es, fields);
  }

  lemma AllowedIsField(es: seq<Entry>, fields: seq<(Name, Json)>, allowed: seq<Name>, i: nat)
    requires i < |es| && IsAllowed(es[i].key, allowed) && Covers(es, fields, allowed)
    ensures HasKey(Record(fields).entries, es[i].key)
  {
    hide Ascii, Record, Matches;
    var j :| 0 <= j < |allowed| && Ascii(allowed[j]) == es[i].key;
    assert HasKey(es, Ascii(allowed[j]));
    var k :| 0 <= k < |fields| && fields[k].0 == allowed[j];
    FieldHasKey(fields, k);
  }

  lemma SameSize(es: seq<Entry>, fields: seq<(Name, Json)>)
    requires DistinctKeys(es) && DistinctNames(fields)
    requires forall i :: 0 <= i < |fields| ==> Fetch(es, fields[i].0).Some?
    requires forall i :: 0 <= i < |es| ==> HasKey(Record(fields).entries, es[i].key)
    ensures |es| == |fields|
  {
    hide Ascii;
    var fs := Record(fields).entries;
    FieldKeysDistinct(fields);
    forall k ensures k in KeySet(es) <==> k in KeySet(fs) {
      if k in KeySet(fs) {
        var j :| 0 <= j < |fs| && fs[j].key == k;
        assert Fetch(es, fields[j].0).Some? && HasKey(es, k);
      }
    }
    KeyCount(es);
    KeyCount(fs);
    assert KeySet(es) == KeySet(fs);
  }

  lemma FieldKeysDistinct(fields: seq<(Name, Json)>)
    requires DistinctNames(fields)
    ensures DistinctKeys(Record(fields).entries)
  {
    var es := Record(fields).entries;
    forall i, j | 0 <= i < j < |es| ensures es[i].key != es[j].key {
      if es[i].key == es[j].key { AsciiInjective(fields[i].0, fields[j].0); }
    }
  }

  lemma {:induction false} SelfMatches(v: Json)
    requires WellFormed(v)
    ensures Matches(v, v)
  {
    match v
    case Arr(items) => forall i | 0 <= i < |items| ensures Tidier(items[i], items[i]) { SelfMatches(items[i]); }
    case Obj(es) => forall i | 0 <= i < |es| ensures Tidier(es[i].value, es[i].value) { SelfMatches(es[i].value); }
    case _ =>
  }

  // ----- what a successful check says of the fields

  lemma StringsSay(s: Shape, t: Strings)
    requires StringsOf(s) == Good(t)
    ensures Fetch(s.request, REQUEST_ID) == Some(Str(t.requestId)) && Fetch(s.request, SUBMITTED_REGION) == Some(Str(t.region))
    ensures Fetch(s.actor, USER_ID) == Some(Str(t.userId)) && Fetch(s.resources, GPU_TYPE) == Some(Str(t.gpuType))
    ensures Fetch(s.release, EXECUTION_ID) == Some(Str(t.executionId)) && Fetch(s.release, HOLD_STATE) == Some(Str(t.holdState))
    ensures Fetch(s.orbit, ORBIT_VERSION) == Some(Str(t.orbitVersion)) && Fetch(s.orbit, ACTION) == Some(Str(t.action))
    ensures Fetch(s.orbit, BOUNDARY) == Some(Str(t.boundary)) && Fetch(s.orbit, LIFECYCLE_STATE) == Some(Str(t.lifecycleState))
    ensures Fetch(s.policy, SCHEMA_VERSION) == Some(Str(t.schemaVersion))
    ensures Fetch(s.policy, POLICY_VERSION) == Some(Str(t.policyVersion))
    ensures Fetch(s.request, BUDGET_TOKEN) == TokenJson(t.budgetToken)
  {
    hide Fetch;
    var f := StringFields(s);
    assert forall i :: 0 <= i < 12 ==> f[i].Good?;
    assert f[0].Good? && f[1].Good? && f[2].Good? && f[3].Good? && f[4].Good? && f[5].Good?;
    assert f[6].Good? && f[7].Good? && f[8].Good? && f[9].Good? && f[10].Good? && f[11].Good?;
  }

  lemma NumbersSay(s: Shape)
    requires AllGood(NumericChecks(s))
    ensures var n := NumericChecks(s);
            && Fetch(s.resources, GPU_COUNT) == Some(Num(n[0].value)) && Fetch(s.resources, HOURS) == Some(Num(n[1].value))
            && Fetch(s.execution, MAX_SCALE_MULTIPLIER) == Some(Num(n[2].value))
            && Fetch(s.pricing, GPU_HOUR_CENTS) == Some(Num(n[3].value))
            && Fetch(s.runtime, ACTUAL_GPU_COUNT) == Some(Num(n[4].value))
            && Fetch(s.runtime, ACTUAL_HOURS) == Some(Num(n[5].value))
            && Fetch(s.runtime, ACTUAL_TOTAL_COST_CENTS) == Some(Num(n[6].value))
            && Fetch(s.rules, MAX_TOTAL_COST_CENTS) == Some(Num(n[7].value))
            && Fetch(s.rules, MAX_GPU_COUNT) == Some(Num(n[8].value)) && Fetch(s.rules, MAX_HOURS) == Some(Num(n[9].value))
            && Fetch(s.rules, REQUIRE_MANUAL_APPROVAL_ABOVE_CENTS) == Some(Num(n[10].value))
            && Fetch(s.rules, MAX_RETRY_COUNT) == Some(Num(n[11].value))
            && Fetch(s.execution, MAX_RETRIES) == Some(Num(n[12].value))
  {
    hide ValidateInteger, Fetch;
    var n := NumericChecks(s);
    assert n[0].Good? && n[1].Good? && n[2].Good? && n[3].Good? && n[4].Good? && n[5].Good? && n[6].Good?;
    assert n[7].Good? && n[8].Good? && n[9].Good? && n[10].Good? && n[11].Good? && n[12].Good?;
  }

  lemma FlagsSay(s: Shape, f: Flags)
    requires FlagsOf(s) == Good(f)
    ensures Fetch(s.execution, AUTO_SCALE) == Some(Bool(f.autoScale))
    ensures Fetch(s.execution, RETRY_ON_FAIL) == Some(Bool(f.retryOnFail))
    ensures Fetch(s.release, ALREADY_CONSUMED) == Some(Bool(f.alreadyConsumed))
    ensures Fetch(s.runtime, KILL_SWITCH_ACTIVE) == Some(Bool(f.killSwitch))
    ensures Fetch(s.rules, ALLOW_AUTO_SCALE) == Some(Bool(f.allowAutoScale))
  {
    hide Fetch;
  }

  /** The records of a shape are where they should be and have no other keys. */
  lemma ShapeSays(root: seq<Entry>, s: Shape)
    requires ShapeOf(root) == Good(s)
    ensures Known(root, ROOT_KEYS).Good? && Fetch(root, EXECUTION_REQUEST) == Some(Obj(s.request))
    ensures Fetch(root, POLICY_DOCUMENT) == Some(Obj(s.policy)) && Fetch(root, PRICING_DATA) == Some(Obj(s.pricing))
    ensures Known(s.request, REQUEST_KEYS).Good? && Known(s.pricing, [GPU_HOUR_CENTS]).Good? && Known(s.policy, POLICY_KEYS).Good?
    ensures Fetch(s.request, ACTOR) == Some(Obj(s.actor)) && Known(s.actor, [USER_ID]).Good?
    ensures Fetch(s.request, RESOURCES) == Some(Obj(s.resources)) && Known(s.resources, RESOURCES_KEYS).Good?
    ensures Fetch(s.request, EXECUTION) == Some(Obj(s.execution)) && Known(s.execution, EXECUTION_KEYS).Good?
    ensures Fetch(s.request, ORBIT_INTENT) == Some(Obj(s.orbit)) && Known(s.orbit, ORBIT_KEYS).Good?
    ensures Fetch(s.request, RELEASE_REQUEST) == Some(Obj(s.release)) && Known(s.release, RELEASE_KEYS).Good?
    ensures Fetch(s.request, RUNTIME_OBSERVATION) == Some(Obj(s.runtime)) && Known(s.runtime, RUNTIME_KEYS).Good?
    ensures Fetch(s.policy, RULES) == Some(Obj(s.rules)) && Known(s.rules, RULES_KEYS).Good?
  {
    hide Fetch, Known;
  }

  lemma InnerWellFormed(es: seq<Entry>, name: Name)
    requires WellFormed(Obj(es)) && Fetch(es, name).Some?
    ensures WellFormed(Fetch(es, name).value)
    ensures Fetch(es, name).value.Obj? ==> DistinctKeys(Fetch(es, name).value.entries)
  {
  }

  predicate ShapeTidy(s: Shape) {
    WellFormed(Obj(s.request)) && WellFormed(Obj(s.policy)) && WellFormed(Obj(s.pricing)) && WellFormed(Obj(s.actor)) &&
    WellFormed(Obj(s.resources)) && WellFormed(Obj(s.execution)) && WellFormed(Obj(s.orbit)) && WellFormed(Obj(s.release)) &&
    WellFormed(Obj(s.runtime)) && WellFormed(Obj(s.rules))
  }

  lemma ShapeIsTidy(root: seq<Entry>, s: Shape)
    requires WellFormed(Obj(root)) && ShapeOf(root) == Good(s)
    ensures ShapeTidy(s)
  {
    hide WellFormed, Fetch, Known, ShapeOf;
    ShapeSays(root, s);
    InnerWellFormed(root, EXECUTION_REQUEST);
    InnerWellFormed(root, POLICY_DOCUMENT);
    InnerWellFormed(root, PRICING_DATA);
    InnerWellFormed(s.request, ACTOR);
    InnerWellFormed(s.request, RESOURCES);
    InnerWellFormed(s.request, EXECUTION);
    InnerWellFormed(s.request, ORBIT_INTENT);
    InnerWellFormed(s.request, RELEASE_REQUEST);
    InnerWellFormed(s.request, RUNTIME_OBSERVATION);
    InnerWellFormed(s.policy, RULES);
  }

  lemma TidyKeys(es: seq<Entry>)
    requires WellFormed(Obj(es))
    ensures DistinctKeys(es)
  {
  }

  // ----- record by record

  lemma ResourcesMatch(es: seq<Entry>, r: Resources)
    requires WellFormed(Obj(es)) && Known(es, RESOURCES_KEYS).Good?
    requires Fetch(es, GPU_TYPE) == Some(Str(r.gpuType)) && Fetch(es, GPU_COUNT) == Some(Num(r.gpuCount))
    requires Fetch(es, HOURS) == Some(Num(r.hours))
    ensures Matches(Obj(es), Record(ResourcesFields(r)))
  {
    hide Fetch, Known, WellFormed, DistinctKeys, Record;
    TidyKeys(es);
    var fields := ResourcesFields(r);
    assert fields[0].0 == GPU_TYPE && fields[1].0 == GPU_COUNT && fields[2].0 == HOURS;
    RecordMatches(es, fields, RESOURCES_KEYS);
  }

  lemma ExecutionMatch(es: seq<Entry>, e: Execution)
    requires WellFormed(Obj(es)) && Known(es, EXECUTION_KEYS).Good?
    requires Fetch(es, AUTO_SCALE) == Some(Bool(e.autoScale)) && Fetch(es, RETRY_ON_FAIL) == Some(Bool(e.retryOnFail))
    requires Fetch(es, MAX_SCALE_MULTIPLIER) == Some(Num(e.maxScaleMultiplier))
    requires Fetch(es, MAX_RETRIES) == Some(Num(e.maxRetries))
    ensures Matches(Obj(es), Record(ExecutionFields(e)))
  {
    hide Fetch, Known, WellFormed, DistinctKeys, Record, Matches;
    TidyKeys(es);
    ScalarMatches(Bool(e.autoScale));
    ScalarMatches(Num(e.maxScaleMultiplier));
    ScalarMatches(Bool(e.retryOnFail));
    ScalarMatches(Num(e.maxRetries));
    var fields := ExecutionFields(e);
    assert fields[0].0 == AUTO_SCALE && fields[1].0 == MAX_SCALE_MULTIPLIER;
    assert fields[2].0 == RETRY_ON_FAIL && fields[3].0 == MAX_RETRIES;
    RecordMatches(es, fields, EXECUTION_KEYS);
  }

  lemma ReleaseMatch(es: seq<Entry>, r: ReleaseRequest)
    requires WellFormed(Obj(es)) && Known(es, RELEASE_KEYS).Good?
    requires Fetch(es, EXECUTION_ID) == Some(Str(r.executionId)) && Fetch(es, HOLD_STATE) == Some(Str(r.holdState))
    requires Fetch(es, ALREADY_CONSUMED) == Some(Bool(r.alreadyConsumed))
    ensures Matches(Obj(es), Record(ReleaseFields(r)))
  {
    hide Fetch, Known, WellFormed, DistinctKeys, Record;
    TidyKeys(es);
    var fields := ReleaseFields(r);
    assert fields[0].0 == EXECUTION_ID && fields[1].0 == HOLD_STATE && fields[2].0 == ALREADY_CONSUMED;
    RecordMatches(es, fields, RELEASE_KEYS);
  }

  lemma RuntimeMatch(es: seq<Entry>, r: RuntimeObservation)
    requires WellFormed(Obj(es)) && Known(es, RUNTIME_KEYS).Good?
    requires Fetch(es, KILL_SWITCH_ACTIVE) == Some(Bool(r.killSwitchActive))
    requires Fetch(es, ACTUAL_GPU_COUNT) == Some(Num(r.actualGpuCount))
    requires Fetch(es, ACTUAL_HOURS) == Some(Num(r.actualHours))
    requires Fetch(es, ACTUAL_TOTAL_COST_CENTS) == Some(Num(r.actualTotalCostCents))
    ensures Matches(Obj(es), Record(RuntimeFields(r)))
  {
    hide Fetch, Known, WellFormed, DistinctKeys, Record, Matches;
    TidyKeys(es);
    ScalarMatches(Bool(r.killSwitchActive));
    ScalarMatches(Num(r.actualGpuCount));
    ScalarMatches(Num(r.actualHours));
    ScalarMatches(Num(r.actualTotalCostCents));
    var fields := RuntimeFields(r);
    assert fields[0].0 == KILL_SWITCH_ACTIVE && fields[1].0 == ACTUAL_GPU_COUNT && fields[2].0 == ACTUAL_HOURS;
    assert fields[3].0 == ACTUAL_TOTAL_COST_CENTS;
    RecordMatches(es, fields, RUNTIME_KEYS);
  }

  lemma RulesMatch(es: seq<Entry>, r: Rules)
    requires WellFormed(Obj(es)) && Known(es, RULES_KEYS).Good?
    requires Fetch(es, MAX_TOTAL_COST_CENTS) == Some(Num(r.maxTotalCostCents))
    requires Fetch(es, ALLOW_AUTO_SCALE) == Some(Bool(r.allowAutoScale))
    requires Fetch(es, MAX_GPU_COUNT) == Some(Num(r.maxGpuCount)) && Fetch(es, MAX_HOURS) == Some(Num(r.maxHours))
    requires Fetch(es, REQUIRE_MANUAL_APPROVAL_ABOVE_CENTS) == Some(Num(r.requireManualApprovalAboveCents))
    requires Fetch(es, MAX_RETRY_COUNT) == Some(Num(r.maxRetryCount))
    ensures Matches(Obj(es), Record(RulesFields(r)))
  {
    hide Fetch, Known, WellFormed, DistinctKeys, Record, Matches;
    TidyKeys(es);
    ScalarMatches(Num(r.maxTotalCostCents));
    ScalarMatches(Bool(r.allowAutoScale));
    ScalarMatches(Num(r.maxGpuCount));
    ScalarMatches(Num(r.maxHours));
    ScalarMatches(Num(r.requireManualApprovalAboveCents));
    ScalarMatches(Num(r.maxRetryCount));
    var fields := RulesFields(r);
    assert fields[0].0 == MAX_TOTAL_COST_CENTS && fields[1].0 == ALLOW_AUTO_SCALE && fields[2].0 == MAX_GPU_COUNT;
    assert fields[3].0 == MAX_HOURS && fields[4].0 == REQUIRE_MANUAL_APPROVAL_ABOVE_CENTS && fields[5].0 == MAX_RETRY_COUNT;
    RecordMatches(es, fields, RULES_KEYS);
  }

  lemma SingleMatch(es: seq<Entry>, name: Name, v: Json, w: Json)
    requires WellFormed(Obj(es)) && Known(es, [name]).Good? && Fetch(es, name) == Some(v) && Matches(v, w)
    ensures Matches(Obj(es), Record([(name, w)]))
  {
    hide Fetch, Known, WellFormed, DistinctKeys, Record, Matches;
    TidyKeys(es);
    var fields := [(name, w)];
    assert fields[0].0 == name;
    RecordMatches(es, fields, [name]);
  }

  lemma TrustMatch(p: Platform, v: Option<Json>, payload: Text, t: Trust)
    requires ParseTrust(p, v, payload) == Good(Some(t)) && v.Some? && WellFormed(v.value)
    ensures Matches(v.value, Record(TrustFields(t)))
  {
    hide Fetch, Known, WellFormed, DistinctKeys, Record, Ascii;
    var es := v.value.entries;
    assert v.value == Obj(es);
    TidyKeys(es);
    var fields := TrustFields(t);
    assert fields[0].0 == KEY_VERSION && fields[1].0 == KEY_ID && fields[2].0 == PUBLIC_KEY && fields[3].0 == SIGNATURE;
    RecordMatches(es, fields, TRUST_KEYS);
  }

  lemma CallMatch(item: Json, seen: set<Text>)
    requires WellFormed(item) && ParseToolCall(item, seen).Good?
    ensures Matches(item, ToolCallJson(ParseToolCall(item, seen).value))
  {
    hide Fetch, Known, WellFormed, DistinctKeys, Record, ReservedScan, Matches;
    var c := ParseToolCall(item, seen).value;
    var es := item.entries;
    assert item == Obj(es);
    TidyKeys(es);
    var fields := CallFields(c);
    assert fields[0].0 == TOOL && fields[1].0 == PRIORITY;
    ScalarMatches(Str(c.tool));
    ScalarMatches(Num(c.priority));
    if c.parameters.Some? {
      InnerWellFormed(es, PARAMETERS);
      SelfMatches(c.parameters.value);
      assert fields[2].0 == PARAMETERS;
    }
    RecordMatches(es, fields, CALL_KEYS);
  }

  lemma ScalarMatches(v: Json)
    requires v.Str? || v.Num? || v.Bool?
    ensures Matches(v, v)
  {
  }

  lemma {:induction false} CallsMatch(items: seq<Json>, seen: set<Text>, parsed: seq<ToolCall>)
    requires (forall i :: 0 <= i < |items| ==> WellFormed(items[i])) && ParseCalls(items, seen, parsed).Good?
    ensures var cs := ParseCalls(items, seen, parsed).value;
            && |cs| == |parsed| + |items| && cs[..|parsed|] == parsed
            && forall i :: 0 <= i < |items| ==> Matches(items[i], ToolCallJson(cs[|parsed| + i]))
  {
    hide ParseToolCall, Matches, ToolCallJson, WellFormed;
    if items != [] {
      var c := ParseToolCall(items[0], seen).value;
      CallMatch(items[0], seen);
      CallsMatch(items[1..], seen + {c.tool}, parsed + [c]);
      var cs := ParseCalls(items, seen, parsed).value;
      assert cs[..|parsed| + 1] == parsed + [c];
      assert cs[..|parsed|] == cs[..|parsed| + 1][..|parsed|] && cs[|parsed|] == cs[..|parsed| + 1][|parsed|];
      assert forall i :: 1 <= i < |items| ==> items[i] == items[1..][i - 1];
    }
  }

  lemma ToolCallsMatch(v: Option<Json>)
    requires v.Some? && WellFormed(v.value) && ParseToolCalls(v).Good?
    ensures Matches(v.value, ToolCallsJson(ParseToolCalls(v).value))
  {
    hide ParseCalls, ToolCallJson;
    CallsMatch(v.value.items, {}, []);
  }

  lemma SignatureMatch(item: Json)
    requires WellFormed(item) && ParseSignature(item).Good?
    ensures Matches(item, Record(SignatureFields(ParseSignature(item).value)))
  {
    hide Fetch, Known, WellFormed, DistinctKeys, Record;
    var es := item.entries;
    assert item == Obj(es);
    TidyKeys(es);
    var fields := SignatureFields(ParseSignature(item).value);
    assert fields[0].0 == ALG && fields[1].0 == SIG;
    RecordMatches(es, fields, [ALG, SIG]);
  }

  lemma {:induction false} SignatureItemsMatch(items: seq<Json>, parsed: seq<Signature>)
    requires (forall i :: 0 <= i < |items| ==> WellFormed(items[i])) && ParseSignatureItems(items, parsed).Good?
    ensures var ss := ParseSignatureItems(items, parsed).value;
            && |ss| == |parsed| + |items| && ss[..|parsed|] == parsed
            && forall i :: 0 <= i < |items| ==> Matches(items[i], Record(SignatureFields(ss[|parsed| + i])))
  {
    hide ParseSignature, Matches, Record, WellFormed;
    if items != [] {
      var s := ParseSignature(items[0]).value;
      SignatureMatch(items[0]);
      SignatureItemsMatch(items[1..], parsed + [s]);
      var ss := ParseSignatureItems(items, parsed).value;
      assert ss[..|parsed| + 1] == parsed + [s];
      assert ss[..|parsed|] == ss[..|parsed| + 1][..|parsed|] && ss[|parsed|] == ss[..|parsed| + 1][|parsed|];
      assert forall i :: 1 <= i < |items| ==> items[i] == items[1..][i - 1];
    }
  }

  lemma SignaturesMatch(v: Option<Json>)
    requires v.Some? && WellFormed(v.value) && ParseSignatures(v).Good?
    ensures Matches(v.value, SignaturesJson(ParseSignatures(v).value))
  {
    hide ParseSignatureItems, Record;
    SignatureItemsMatch(v.value.items, []);
  }

  lemma PayloadMatch(v: Option<Json>, o: OrbitIntent)
    requires v.Some? && WellFormed(v.value) && ParsePayload(v) == Good(o.toolCalls)
    ensures Matches(v.value, Record(IntentPayload(o)))
  {
    hide Fetch, Known, WellFormed, DistinctKeys, Record, ReservedScan, Matches, ParseToolCalls, ToolCallsJson;
    var es := v.value.entries;
    assert v.value == Obj(es);
    CallsPresent(es);
    InnerWellFormed(es, TOOL_CALLS);
    ToolCallsMatch(Fetch(es, TOOL_CALLS));
    SingleMatch(es, TOOL_CALLS, Fetch(es, TOOL_CALLS).value, ToolCallsJson(o.toolCalls));
  }

  lemma CallsPresent(es: seq<Entry>)
    requires ParseToolCalls(Fetch(es, TOOL_CALLS)).Good?
    ensures Fetch(es, TOOL_CALLS).Some?
  {
  }

  lemma IntentMatch(es: seq<Entry>, o: OrbitIntent)
    requires WellFormed(Obj(es)) && Known(es, ORBIT_KEYS).Good?
    requires Fetch(es, ORBIT_VERSION) == Some(Str(o.orbitVersion)) && Fetch(es, ACTION) == Some(Str(o.action))
    requires Fetch(es, BOUNDARY) == Some(Str(o.boundary)) && Fetch(es, LIFECYCLE_STATE) == Some(Str(o.lifecycleState))
    requires ParsePayload(Fetch(es, PAYLOAD)) == Good(o.toolCalls) && ParseSignatures(Fetch(es, SIGNATURES)) == Good(o.signatures)
    ensures Matches(Obj(es), Record(IntentFields(o)))
  {
    hide Fetch, Known, WellFormed, DistinctKeys, Record, Matches, ParseToolCalls, ParseSignatureItems, SignaturesJson,
         ReservedScan, IntentPayload;
    TidyKeys(es);
    InnerWellFormed(es, PAYLOAD);
    InnerWellFormed(es, SIGNATURES);
    PayloadMatch(Fetch(es, PAYLOAD), o);
    SignaturesMatch(Fetch(es, SIGNATURES));
    ScalarMatches(Str(o.orbitVersion));
    ScalarMatches(Str(o.action));
    ScalarMatches(Str(o.boundary));
    ScalarMatches(Str(o.lifecycleState));
    var fields := IntentFields(o);
    assert fields[0].0 == ORBIT_VERSION && fields[1].0 == ACTION && fields[2].0 == BOUNDARY && fields[3].0 == PAYLOAD;
    assert fields[4].0 == LIFECYCLE_STATE && fields[5].0 == SIGNATURES;
    RecordMatches(es, fields, ORBIT_KEYS);
  }

  lemma PolicyMatch(p: Platform, es: seq<Entry>, rules: seq<Entry>, d: PolicyDocument, payload: Text)
    requires WellFormed(Obj(es)) && Known(es, POLICY_KEYS).Good?
    requires Fetch(es, SCHEMA_VERSION) == Some(Str(d.schemaVersion)) && Fetch(es, POLICY_VERSION) == Some(Str(d.policyVersion))
    requires Fetch(es, RULES) == Some(Obj(rules)) && Matches(Obj(rules), Record(RulesFields(d.rules)))
    requires ParseTrust(p, Fetch(es, TRUST), payload) == Good(d.trust)
    ensures Matches(Obj(es), Record(PolicyFields(d)))
  {
    hide Fetch, Known, WellFormed, DistinctKeys, Record, Matches, RulesFields, TrustFields, Ascii;
    TidyKeys(es);
    ScalarMatches(Str(d.schemaVersion));
    ScalarMatches(Str(d.policyVersion));
    var fields := PolicyFields(d);
    assert fields[0].0 == SCHEMA_VERSION && fields[1].0 == POLICY_VERSION && fields[2].0 == RULES;
    if d.trust.Some? {
      InnerWellFormed(es, TRUST);
      TrustMatch(p, Fetch(es, TRUST), payload, d.trust.value);
      assert fields[3].0 == TRUST;
    }
    assert DistinctNames(fields);
    RecordMatches(es, fields, POLICY_KEYS);
  }

  // ----- the whole request

  lemma RequestMatch(es: seq<Entry>, s: Shape, x: ExecutionInput)
    requires WellFormed(Obj(es)) && Known(es, REQUEST_KEYS).Good?
    requires Fetch(es, REQUEST_ID) == Some(Str(x.requestId)) && Fetch(es, SUBMITTED_REGION) == Some(Str(x.submittedRegion))
    requires Fetch(es, ACTOR) == Some(Obj(s.actor)) && Matches(Obj(s.actor), Record([(USER_ID, Str(x.userId))]))
    requires Fetch(es, RESOURCES) == Some(Obj(s.resources)) && Matches(Obj(s.resources), Record(ResourcesFields(x.resources)))
    requires Fetch(es, EXECUTION) == Some(Obj(s.execution)) && Matches(Obj(s.execution), Record(ExecutionFields(x.execution)))
    requires Fetch(es, ORBIT_INTENT) == Some(Obj(s.orbit)) && Matches(Obj(s.orbit), Record(IntentFields(x.orbitIntent)))
    requires Fetch(es, RELEASE_REQUEST) == Some(Obj(s.release)) && Matches(Obj(s.release), Record(ReleaseFields(x.release)))
    requires Fetch(es, RUNTIME_OBSERVATION) == Some(Obj(s.runtime)) && Matches(Obj(s.runtime), Record(RuntimeFields(x.runtime)))
    requires ParseToolCalls(Fetch(es, TOOL_CALLS)) == Good(x.toolCalls) && Fetch(es, PARAMETERS) == x.parameters
    requires Fetch(es, BUDGET_TOKEN) == TokenJson(x.budgetToken)
    ensures Matches(Obj(es), Record(RequestFields(x)))
  {
    hide Fetch, Known, WellFormed, DistinctKeys, DistinctNames, Named, Record, Matches, ResourcesFields, ExecutionFields,
         IntentFields, ReleaseFields, RuntimeFields, ToolCallsJson, ParseToolCalls;
    TidyKeys(es);
    ScalarMatches(Str(x.requestId));
    ScalarMatches(Str(x.submittedRegion));
    if x.budgetToken.Some? { ScalarMatches(Str(x.budgetToken.value)); }
    if x.parameters.Some? {
      InnerWellFormed(es, PARAMETERS);
      SelfMatches(x.parameters.value);
    }
    RequestCallsPresent(es);
    InnerWellFormed(es, TOOL_CALLS);
    ToolCallsMatch(Fetch(es, TOOL_CALLS));
    RequestNames(x);
    RequestCovered(es, x);
    RecordMatches(es, RequestFields(x), REQUEST_KEYS);
  }

  lemma RequestCallsPresent(es: seq<Entry>)
    requires ParseToolCalls(Fetch(es, TOOL_CALLS)).Good?
    ensures Fetch(es, TOOL_CALLS).Some?
  {
  }

  lemma RequestCovered(es: seq<Entry>, x: ExecutionInput)
    requires var fields := RequestFields(x);
             forall i :: 0 <= i < |fields| ==>
               Fetch(es, fields[i].0).Some? && Matches(Fetch(es, fields[i].0).value, fields[i].1)
    requires Fetch(es, PARAMETERS) == x.parameters && Fetch(es, BUDGET_TOKEN) == TokenJson(x.budgetToken)
    ensures Covers(es, RequestFields(x), REQUEST_KEYS)
  {
    hide Fetch, Record, Matches, ResourcesFields, ExecutionFields, IntentFields, ReleaseFields, RuntimeFields, ToolCallsJson;
    var fields := RequestFields(x);
    assert forall i :: 0 <= i < 9 ==> fields[i].0 == REQUIRED_KEYS[i];
    forall j | 0 <= j < |REQUEST_KEYS| ensures Named(fields, REQUEST_KEYS[j]) || Fetch(es, REQUEST_KEYS[j]).None? {
      if x.parameters.Some? { assert fields[9].0 == PARAMETERS; }
      if x.budgetToken.Some? { assert fields[|fields| - 1].0 == BUDGET_TOKEN; }
      assert fields[0].0 == REQUEST_ID && fields[1].0 == SUBMITTED_REGION && fields[2].0 == ACTOR && fields[3].0 == RESOURCES;
      assert fields[4].0 == EXECUTION && fields[5].0 == TOOL_CALLS && fields[6].0 == ORBIT_INTENT;
      assert fields[7].0 == RELEASE_REQUEST && fields[8].0 == RUNTIME_OBSERVATION;
    }
  }

  lemma RootMatch(root: seq<Entry>, s: Shape, x: ExecutionInput)
    requires WellFormed(Obj(root)) && Known(root, ROOT_KEYS).Good?
    requires Fetch(root, EXECUTION_REQUEST) == Some(Obj(s.request)) && Matches(Obj(s.request), Record(RequestFields(x)))
    requires Fetch(root, POLICY_DOCUMENT) == Some(Obj(s.policy)) && Matches(Obj(s.policy), Record(PolicyFields(x.policy)))
    requires Fetch(root, PRICING_DATA) == Some(Obj(s.pricing))
    requires Matches(Obj(s.pricing), Record([(GPU_HOUR_CENTS, Num(x.gpuHourCents))]))
    ensures Matches(Obj(root), InputJson(x))
  {
    hide Fetch, Known, WellFormed, DistinctKeys, Record, Matches, RequestFields, PolicyFields;
    TidyKeys(root);
    var fields := RootFields(x);
    assert fields[0].0 == EXECUTION_REQUEST && fields[1].0 == POLICY_DOCUMENT && fields[2].0 == PRICING_DATA;
    RecordMatches(root, fields, ROOT_KEYS);
  }

  lemma ListsSay(s: Shape, l: Lists)
    requires ListsOf(s) == Good(l)
    ensures ParseToolCalls(Fetch(s.request, TOOL_CALLS)) == Good(l.toolCalls) && Fetch(s.request, PARAMETERS) == l.parameters
    ensures ParseSignatures(Fetch(s.orbit, SIGNATURES)) == Good(l.signatures)
    ensures ParsePayload(Fetch(s.orbit, PAYLOAD)) == Good(l.orbitCalls)
  {
    hide Fetch, ParseToolCalls, ParseSignatures, ParsePayload, ReservedScan;
  }

  /** The request section as read. */
  lemma RequestSectionMatches(s: Shape, t: Strings, l: Lists, f: Flags, x: ExecutionInput, trust: Option<Trust>, root: seq<Entry>)
    requires ShapeOf(root) == Good(s) && ShapeTidy(s) && StringsOf(s) == Good(t) && ListsOf(s) == Good(l) && FlagsOf(s) == Good(f)
    requires AllGood(NumericChecks(s)) && x == Build(t, l, NumericChecks(s), f, trust)
    ensures Matches(Obj(s.request), Record(RequestFields(x)))
  {
    hide Fetch, Known, WellFormed, Record, Matches, ShapeOf, StringsOf, ListsOf, FlagsOf, NumericChecks, RequestFields,
         ResourcesFields, ExecutionFields, IntentFields, ReleaseFields, RuntimeFields, ParseToolCalls, ParseSignatures,
         ParsePayload, TokenJson;
    ShapeSays(root, s);
    StringsSay(s, t);
    NumbersSay(s);
    FlagsSay(s, f);
    ListsSay(s, l);
    ScalarMatches(Str(x.userId));
    SingleMatch(s.actor, USER_ID, Str(x.userId), Str(x.userId));
    ResourcesMatch(s.resources, x.resources);
    ExecutionMatch(s.execution, x.execution);
    ReleaseMatch(s.release, x.release);
    RuntimeMatch(s.runtime, x.runtime);
    IntentMatch(s.orbit, x.orbitIntent);
    RequestMatch(s.request, s, x);
  }

  lemma PolicySectionMatches(p: Platform, s: Shape, t: Strings, l: Lists, f: Flags, x: ExecutionInput, trust: Option<Trust>,
                             root: seq<Entry>)
    requires ShapeOf(root) == Good(s) && ShapeTidy(s) && StringsOf(s) == Good(t) && FlagsOf(s) == Good(f)
    requires AllGood(NumericChecks(s)) && x == Build(t, l, NumericChecks(s), f, trust)
    requires var payload := PolicyPayload(t.schemaVersion, t.policyVersion, RulesOf(NumericChecks(s), f));
             ParseTrust(p, Fetch(s.policy, TRUST), payload) == Good(trust)
    ensures Matches(Obj(s.rules), Record(RulesFields(x.policy.rules)))
    ensures Matches(Obj(s.policy), Record(PolicyFields(x.policy)))
    ensures Matches(Obj(s.pricing), Record([(GPU_HOUR_CENTS, Num(x.gpuHourCents))]))
  {
    hide Fetch, Known, WellFormed, Record, Matches, ShapeOf, StringsOf, FlagsOf, NumericChecks, PolicyFields, RulesFields,
         ParseTrust, PolicyPayload;
    ShapeSays(root, s);
    StringsSay(s, t);
    NumbersSay(s);
    FlagsSay(s, f);
    ScalarMatches(Num(x.gpuHourCents));
    SingleMatch(s.pricing, GPU_HOUR_CENTS, Num(x.gpuHourCents), Num(x.gpuHourCents));
    RulesMatch(s.rules, x.policy.rules);
    PolicyMatch(p, s.policy, s.rules, x.policy, PolicyPayload(t.schemaVersion, t.policyVersion, RulesOf(NumericChecks(s), f)));
  }

  /** A value that validates is, up to key order, the JSON form of the typed request it is read as. */
  lemma ValidatedIsPrinted(p: Platform, root: seq<Entry>)
    requires WellFormed(Obj(root)) && Validate(p, root).Good?
    ensures Matches(Obj(root), InputJson(Validate(p, root).value))
  {
    hide ShapeOf, StringsOf, ListsOf, FlagsOf, NumericChecks, WellFormed, Matches, Record, Fetch, Known, FinishValidation,
         RequestFields, PolicyFields, RulesFields, ShapeTidy, ParseTrust, PolicyPayload;
    var s := ShapeOf(root).value;
    var t, l := StringsOf(s).value, ListsOf(s).value;
    var f, trust := FinishedParts(p, s, t, l);
    var x := Validate(p, root).value;
    ShapeSays(root, s);
    ShapeIsTidy(root, s);
    RequestSectionMatches(s, t, l, f, x, trust, root);
    PolicySectionMatches(p, s, t, l, f, x, trust, root);
    RootMatch(root, s, x);
  }

  // ----- the accepted texts

  /** What an accepted text was canonicalized to is the canonical text of the typed request: nothing else was in it. */
  lemma AcceptedIsPrinted(p: Platform, raw: Text, e: Envelope)
    requires RunPreflight(p, raw) == Accepted(e)
    ensures e.canonicalInput == Canonicalize(InputJson(e.input)) && e.requestHash == p.sha256(e.canonicalInput)
  {
    hide Parse, Validate, Canonicalize, WellFormed, Tidier, InputJson, Acceptable, PolicyHash;
    var v := Parse(raw).value;
    ParsedIsWellFormed(raw);
    assert v == Obj(v.entries);
    ValidatedIsPrinted(p, v.entries);
    AcceptedIsAcceptable(p, raw, e);
    InputWellFormed(p, e.input);
    TidierSameNorm(InputJson(e.input), v);
  }

  /**
   A text is accepted exactly when its value is the JSON form of an acceptable request with keys reordered, where
   inside parameters zero may stand for minus zero.
   */
  lemma AcceptanceExact(p: Platform, raw: Text)
    ensures RunPreflight(p, raw).Accepted? <==>
            Parse(raw).Success? && exists x :: Acceptable(p, x) && Matches(Parse(raw).value, InputJson(x))
  {
    hide RunPreflight, Acceptable, Canonicalize, InputJson, Parse, Matches, Validate;
    if RunPreflight(p, raw).Accepted? {
      var e := RunPreflight(p, raw).envelope;
      AcceptedIsAcceptable(p, raw, e);
      var root := AcceptedMatches(p, raw, e);
    }
    if Parse(raw).Success? {
      forall x | Acceptable(p, x) && Matches(Parse(raw).value, InputJson(x)) ensures RunPreflight(p, raw).Accepted? {
        MatchingIsAccepted(p, raw, x);
      }
    }
  }

  lemma AcceptedMatches(p: Platform, raw: Text, e: Envelope) returns (root: seq<Entry>)
    requires RunPreflight(p, raw) == Accepted(e)
    ensures Parse(raw) == Success(Obj(root)) && Matches(Obj(root), InputJson(e.input))
  {
    hide Parse, Validate, Canonicalize, WellFormed, Matches, InputJson, PolicyHash;
    root := Parse(raw).value.entries;
    ParsedIsWellFormed(raw);
    ValidatedIsPrinted(p, root);
  }

  lemma MatchingIsAccepted(p: Platform, raw: Text, x: ExecutionInput)
    requires Parse(raw).Success? && Acceptable(p, x) && Matches(Parse(raw).value, InputJson(x))
    ensures RunPreflight(p, raw).Accepted?
  {
    hide Parse, Validate, Canonicalize, WellFormed, Acceptable, RootFields, PolicyHash, SameInput;
    var v := Parse(raw).value;
    ParsedIsWellFormed(raw);
    InputWellFormed(p, x);
    PrintedRequestReads(p, x);
    assert InputJson(x) == Obj(InputJson(x).entries) && v == Obj(v.entries);
    ValidateAgrees(p, InputJson(x).entries, v.entries);
  }

  // ----- the policy text

  /** The member of the policy document under the given key. */
  function PolicyMember(v: Json, name: Name): Option<Json> {
    match v
    case Obj(root) =>
      (match Fetch(root, POLICY_DOCUMENT) case Some(Obj(policy)) => Fetch(policy, name) case _ => None)
    case _ => None
  }

  /**
   The policy hash is that of the policy document as it was sent, without its trust block and with its keys sorted; a
   policy signature is over the same text.
   */
  lemma PolicyTextIsDocument(p: Platform, raw: Text, e: Envelope)
    requires RunPreflight(p, raw) == Accepted(e)
    ensures var v, d := Parse(raw).value, e.input.policy;
            && PolicyMember(v, SCHEMA_VERSION).Some? && PolicyMember(v, POLICY_VERSION).Some? && PolicyMember(v, RULES).Some?
            && PolicyPayload(d.schemaVersion, d.policyVersion, d.rules) ==
               Canonicalize(Record([(SCHEMA_VERSION, PolicyMember(v, SCHEMA_VERSION).value),
                                    (POLICY_VERSION, PolicyMember(v, POLICY_VERSION).value),
                                    (RULES, PolicyMember(v, RULES).value)]))
            && e.policyHash == p.sha256(PolicyPayload(d.schemaVersion, d.policyVersion, d.rules))
  {
    hide Parse, ShapeOf, StringsOf, ListsOf, FlagsOf, NumericChecks, WellFormed, Matches, Record, Fetch, Known, FinishValidation,
         RequestFields, PolicyFields, RulesFields, ShapeTidy, ParseTrust, Canonicalize;
    ParsedIsWellFormed(raw);
    var root, s, t, l := AcceptedParts(p, raw);
    var f, trust := FinishedParts(p, s, t, l);
    ShapeSays(root, s);
    ShapeIsTidy(root, s);
    StringsSay(s, t);
    PolicySectionMatches(p, s, t, l, f, e.input, trust, root);
    RulesPrintSame(s, e.input.policy.rules);
    RecordPrintsByParts(
      [(SCHEMA_VERSION, Str(t.schemaVersion)), (POLICY_VERSION, Str(t.policyVersion)), (RULES, RulesJson(e.input.policy.rules))],
      [(SCHEMA_VERSION, Str(t.schemaVersion)), (POLICY_VERSION, Str(t.policyVersion)), (RULES, Obj(s.rules))]);
  }

  lemma RulesPrintSame(s: Shape, r: Rules)
    requires ShapeTidy(s) && Matches(Obj(s.rules), Record(RulesFields(r)))
    ensures Canonicalize(Obj(s.rules)) == Canonicalize(RulesJson(r))
  {
    hide Canonicalize, WellFormed, Tidier, Record;
    assert DistinctNames(RulesFields(r));
    LeavesRecordWellFormed(RulesFields(r));
    TidierSameNorm(RulesJson(r), Obj(s.rules));
  }
}
