/**
 Which requests preflight accepts, said of the typed request: printed as JSON it is accepted as itself exactly when it is
 acceptable.
 */
module Requests {
  import opened Units
  import opened JsonValues
  import opened StrictParser
  import opened ParserLanguage
  import opened Canonical
  import opened Doubles
  import opened Fields
  import opened Contracts
  import opened DeepScan
  import opened Preflight
  import opened PreflightReplay
  import opened Orbit

  // ----- records and their fields

  lemma FetchField(fields: seq<(Name, Json)>, i: nat)
    requires DistinctNames(fields) && i < |fields|
    ensures Fetch(Record(fields).entries, fields[i].0) == Some(fields[i].1)
  {
    var es := Record(fields).entries;
    var k := Ascii(fields[i].0);
    assert es[i].key == k;
    var j := IndexOf(es, k);
    AsciiInjective(fields[j].0, fields[i].0);
  }

  predicate Named(fields: seq<(Name, Json)>, name: Name) {
    exists i :: 0 <= i < |fields| && fields[i].0 == name
  }

  lemma FetchMissing(fields: seq<(Name, Json)>, name: Name)
    requires !Named(fields, name)
    ensures Fetch(Record(fields).entries, name) == None
  {
    var es := Record(fields).entries;
    if HasKey(es, Ascii(name)) {
      var j := IndexOf(es, Ascii(name));
      AsciiInjective(fields[j].0, name);
    }
  }

  lemma KnownFields(fields: seq<(Name, Json)>, allowed: seq<Name>)
    requires forall i :: 0 <= i < |fields| ==> fields[i].0 in allowed
    ensures Known(Record(fields).entries, allowed) == Good(())
  {
    var es := Record(fields).entries;
    forall i | 0 <= i < |es| ensures IsAllowed(es[i].key, allowed) {
      var j :| 0 <= j < |allowed| && allowed[j] == fields[i].0;
      assert Ascii(allowed[j]) == es[i].key;
    }
    KnownExact(es, allowed);
  }

  // ----- the JSON form of a typed request

  function ResourcesFields(r: Resources): seq<(Name, Json)> {
    [(GPU_TYPE, Str(r.gpuType)), (GPU_COUNT, Num(r.gpuCount)), (HOURS, Num(r.hours))]
  }

  function ExecutionFields(e: Execution): seq<(Name, Json)> {
    [(AUTO_SCALE, Bool(e.autoScale)), (MAX_SCALE_MULTIPLIER, Num(e.maxScaleMultiplier)),
     (RETRY_ON_FAIL, Bool(e.retryOnFail)), (MAX_RETRIES, Num(e.maxRetries))]
  }

  function ReleaseFields(r: ReleaseRequest): seq<(Name, Json)> {
    [(EXECUTION_ID, Str(r.executionId)), (HOLD_STATE, Str(r.holdState)), (ALREADY_CONSUMED, Bool(r.alreadyConsumed))]
  }

  function TrustFields(t: Trust): seq<(Name, Json)> {
    [(KEY_VERSION, Str(t.keyVersion)), (KEY_ID, Str(t.keyId)), (PUBLIC_KEY, Str(t.publicKey)), (SIGNATURE, Str(t.signature))]
  }

  function PolicyFields(d: PolicyDocument): seq<(Name, Json)> {
    [(SCHEMA_VERSION, Str(d.schemaVersion)), (POLICY_VERSION, Str(d.policyVersion)), (RULES, Record(RulesFields(d.rules)))]
    + OptionalField(TRUST, match d.trust case None => None case Some(t) => Some(Record(TrustFields(t))))
  }

  function TokenJson(t: Option<Text>): Option<Json> {
    match t case None => None case Some(b) => Some(Str(b))
  }

  function RequestFields(x: ExecutionInput): seq<(Name, Json)> {
    [(REQUEST_ID, Str(x.requestId)), (SUBMITTED_REGION, Str(x.submittedRegion)), (ACTOR, Record([(USER_ID, Str(x.userId))])),
     (RESOURCES, Record(ResourcesFields(x.resources))), (EXECUTION, Record(ExecutionFields(x.execution))),
     (TOOL_CALLS, ToolCallsJson(x.toolCalls)), (ORBIT_INTENT, Record(IntentFields(x.orbitIntent))),
     (RELEASE_REQUEST, Record(ReleaseFields(x.release))), (RUNTIME_OBSERVATION, Record(RuntimeFields(x.runtime)))]
    + OptionalField(PARAMETERS, x.parameters) + OptionalField(BUDGET_TOKEN, TokenJson(x.budgetToken))
  }

  function RootFields(x: ExecutionInput): seq<(Name, Json)> {
    [(EXECUTION_REQUEST, Record(RequestFields(x))), (POLICY_DOCUMENT, Record(PolicyFields(x.policy))),
     (PRICING_DATA, Record([(GPU_HOUR_CENTS, Num(x.gpuHourCents))]))]
  }

  /** The request as JSON. */
  function InputJson(x: ExecutionInput): Json {
    Record(RootFields(x))
  }

  /** The records preflight takes apart. */
  function ShapeFor(x: ExecutionInput): Shape {
    Shape(Record(RequestFields(x)).entries, Record(PolicyFields(x.policy)).entries,
          Record([(GPU_HOUR_CENTS, Num(x.gpuHourCents))]).entries, Record([(USER_ID, Str(x.userId))]).entries,
          Record(ResourcesFields(x.resources)).entries, Record(ExecutionFields(x.execution)).entries,
          Record(IntentFields(x.orbitIntent)).entries, Record(ReleaseFields(x.release)).entries,
          Record(RuntimeFields(x.runtime)).entries, Record(RulesFields(x.policy.rules)).entries)
  }

  // ----- what it takes to be accepted

  predicate ParametersOk(v: Option<Json>) {
    v.Some? ==> v.value.Obj? && WellFormed(v.value) && !ReservedScan(v.value)
  }

  /** At least one call, tools not empty and distinct, priorities not negative, no reserved key in parameters. */
  predicate CallsOk(cs: seq<ToolCall>) {
    && cs != []
    && (forall i :: 0 <= i < |cs| ==> cs[i].tool != [] && cs[i].priority >= 0 && ParametersOk(cs[i].parameters))
    && (forall i, j :: 0 <= i < j < |cs| ==> cs[i].tool != cs[j].tool)
  }

  predicate SignaturesOk(ss: seq<Signature>) {
    ss != [] && forall i :: 0 <= i < |ss| ==> ss[i].alg != [] && ss[i].sig != []
  }

  predicate StringsOk(x: ExecutionInput) {
    && x.requestId != [] && x.submittedRegion != [] && x.userId != [] && x.resources.gpuType != []
    && x.release.executionId != [] && x.release.holdState != []
    && x.orbitIntent.orbitVersion != [] && x.orbitIntent.action != [] && x.orbitIntent.boundary != []
    && x.orbitIntent.lifecycleState != []
    && x.policy.schemaVersion != [] && x.policy.policyVersion == Ascii(PINNED_POLICY_VERSION)
    && x.budgetToken != Some([])
  }

  predicate NumbersOk(x: ExecutionInput) {
    && x.resources.gpuCount >= 1 && x.resources.hours >= 1 && x.execution.maxScaleMultiplier >= 1 && x.gpuHourCents >= 1
    && x.runtime.actualGpuCount >= 0 && x.runtime.actualHours >= 0 && x.runtime.actualTotalCostCents >= 0
    && x.policy.rules.maxTotalCostCents >= 1 && x.policy.rules.maxGpuCount >= 1 && x.policy.rules.maxHours >= 1
    && x.policy.rules.requireManualApprovalAboveCents >= 0 && x.policy.rules.maxRetryCount >= 0
    && x.execution.maxRetries >= 0
  }

  /** The trust block is absent, or names the key by its id, the known version, and a signature that verifies. */
  predicate TrustOk(p: Platform, d: PolicyDocument) {
    match d.trust
    case None => true
    case Some(t) =>
      && t.keyVersion == Ascii(TRUST_KEY_VERSION) && t.keyId != [] && t.publicKey != [] && t.signature != []
      && p.deriveKeyId(t.publicKey) == t.keyId
      && p.verifyPolicy(t.publicKey, PolicyPayload(d.schemaVersion, d.policyVersion, d.rules), t.signature)
  }

  predicate Acceptable(p: Platform, x: ExecutionInput) {
    && StringsOk(x) && NumbersOk(x) && CallsOk(x.toolCalls) && CallsOk(x.orbitIntent.toolCalls)
    && ParametersOk(x.parameters) && SignaturesOk(x.orbitIntent.signatures) && TrustOk(p, x.policy)
  }

  // ----- reading the records back

  lemma ResourcesRead(r: Resources)
    ensures var es := Record(ResourcesFields(r)).entries;
            && Known(es, RESOURCES_KEYS) == Good(()) && Fetch(es, GPU_TYPE) == Some(Str(r.gpuType))
            && Fetch(es, GPU_COUNT) == Some(Num(r.gpuCount)) && Fetch(es, HOURS) == Some(Num(r.hours))
  {
    hide Record, Fetch, Known;
    var fields := ResourcesFields(r);
    assert DistinctNames(fields);
    KnownFields(fields, RESOURCES_KEYS);
    FetchField(fields, 0);
    FetchField(fields, 1);
    FetchField(fields, 2);
  }

  lemma ExecutionRead(e: Execution)
    ensures var es := Record(ExecutionFields(e)).entries;
            && Known(es, EXECUTION_KEYS) == Good(()) && Fetch(es, AUTO_SCALE) == Some(Bool(e.autoScale))
            && Fetch(es, MAX_SCALE_MULTIPLIER) == Some(Num(e.maxScaleMultiplier))
            && Fetch(es, RETRY_ON_FAIL) == Some(Bool(e.retryOnFail)) && Fetch(es, MAX_RETRIES) == Some(Num(e.maxRetries))
  {
    hide Record, Fetch, Known;
    var fields := ExecutionFields(e);
    assert DistinctNames(fields);
    KnownFields(fields, EXECUTION_KEYS);
    FetchField(fields, 0);
    FetchField(fields, 1);
    FetchField(fields, 2);
    FetchField(fields, 3);
  }

  lemma ReleaseRead(r: ReleaseRequest)
    ensures var es := Record(ReleaseFields(r)).entries;
            && Known(es, RELEASE_KEYS) == Good(()) && Fetch(es, EXECUTION_ID) == Some(Str(r.executionId))
            && Fetch(es, HOLD_STATE) == Some(Str(r.holdState)) && Fetch(es, ALREADY_CONSUMED) == Some(Bool(r.alreadyConsumed))
  {
    hide Record, Fetch, Known;
    var fields := ReleaseFields(r);
    assert DistinctNames(fields);
    KnownFields(fields, RELEASE_KEYS);
    FetchField(fields, 0);
    FetchField(fields, 1);
    FetchField(fields, 2);
  }

  lemma RuntimeRead(r: RuntimeObservation)
    ensures var es := Record(RuntimeFields(r)).entries;
            && Known(es, RUNTIME_KEYS) == Good(()) && Fetch(es, KILL_SWITCH_ACTIVE) == Some(Bool(r.killSwitchActive))
            && Fetch(es, ACTUAL_GPU_COUNT) == Some(Num(r.actualGpuCount))
            && Fetch(es, ACTUAL_HOURS) == Some(Num(r.actualHours))
            && Fetch(es, ACTUAL_TOTAL_COST_CENTS) == Some(Num(r.actualTotalCostCents))
  {
    hide Record, Fetch, Known;
    var fields := RuntimeFields(r);
    assert DistinctNames(fields);
    KnownFields(fields, RUNTIME_KEYS);
    FetchField(fields, 0);
    FetchField(fields, 1);
    FetchField(fields, 2);
    FetchField(fields, 3);
  }

  lemma RulesRead(r: Rules)
    ensures var es := Record(RulesFields(r)).entries;
            && Known(es, RULES_KEYS) == Good(()) && Fetch(es, MAX_TOTAL_COST_CENTS) == Some(Num(r.maxTotalCostCents))
            && Fetch(es, ALLOW_AUTO_SCALE) == Some(Bool(r.allowAutoScale)) && Fetch(es, MAX_GPU_COUNT) == Some(Num(r.maxGpuCount))
            && Fetch(es, MAX_HOURS) == Some(Num(r.maxHours))
            && Fetch(es, REQUIRE_MANUAL_APPROVAL_ABOVE_CENTS) == Some(Num(r.requireManualApprovalAboveCents))
            && Fetch(es, MAX_RETRY_COUNT) == Some(Num(r.maxRetryCount))
  {
    hide Record, Fetch, Known;
    var fields := RulesFields(r);
    assert DistinctNames(fields);
    KnownFields(fields, RULES_KEYS);
    FetchField(fields, 0);
    FetchField(fields, 1);
    FetchField(fields, 2);
    FetchField(fields, 3);
    FetchField(fields, 4);
    FetchField(fields, 5);
  }

  lemma IntentRead(o: OrbitIntent)
    ensures var es := Record(IntentFields(o)).entries;
            && Known(es, ORBIT_KEYS) == Good(()) && Fetch(es, ORBIT_VERSION) == Some(Str(o.orbitVersion))
            && Fetch(es, ACTION) == Some(Str(o.action)) && Fetch(es, BOUNDARY) == Some(Str(o.boundary))
            && Fetch(es, PAYLOAD) == Some(Record(IntentPayload(o)))
            && Fetch(es, LIFECYCLE_STATE) == Some(Str(o.lifecycleState))
            && Fetch(es, SIGNATURES) == Some(SignaturesJson(o.signatures))
  {
    hide Record, Fetch, Known, SignaturesJson, IntentPayload;
    var fields := IntentFields(o);
    assert DistinctNames(fields);
    KnownFields(fields, ORBIT_KEYS);
    FetchField(fields, 0);
    FetchField(fields, 1);
    FetchField(fields, 2);
    FetchField(fields, 3);
    FetchField(fields, 4);
    FetchField(fields, 5);
  }

  lemma TrustRead(t: Trust)
    ensures var es := Record(TrustFields(t)).entries;
            && Known(es, TRUST_KEYS) == Good(()) && Fetch(es, KEY_VERSION) == Some(Str(t.keyVersion))
            && Fetch(es, KEY_ID) == Some(Str(t.keyId)) && Fetch(es, PUBLIC_KEY) == Some(Str(t.publicKey))
            && Fetch(es, SIGNATURE) == Some(Str(t.signature))
  {
    hide Record, Fetch, Known;
    var fields := TrustFields(t);
    assert DistinctNames(fields);
    KnownFields(fields, TRUST_KEYS);
    FetchField(fields, 0);
    FetchField(fields, 1);
    FetchField(fields, 2);
    FetchField(fields, 3);
  }

  lemma PolicyRead(d: PolicyDocument)
    ensures var es := Record(PolicyFields(d)).entries;
            && Known(es, POLICY_KEYS) == Good(()) && Fetch(es, SCHEMA_VERSION) == Some(Str(d.schemaVersion))
            && Fetch(es, POLICY_VERSION) == Some(Str(d.policyVersion)) && Fetch(es, RULES) == Some(Record(RulesFields(d.rules)))
            && Fetch(es, TRUST) == match d.trust { case None => None case Some(t) => Some(Record(TrustFields(t))) }
  {
    hide Record, Fetch, Known, RulesFields, TrustFields;
    var fields := PolicyFields(d);
    assert DistinctNames(fields);
    KnownFields(fields, POLICY_KEYS);
    FetchField(fields, 0);
    FetchField(fields, 1);
    FetchField(fields, 2);
    if d.trust.Some? { FetchField(fields, 3); } else { FetchMissing(fields, TRUST); }
  }

  lemma RootRead(x: ExecutionInput)
    ensures var es := InputJson(x).entries;
            && Known(es, ROOT_KEYS) == Good(()) && Fetch(es, EXECUTION_REQUEST) == Some(Record(RequestFields(x)))
            && Fetch(es, POLICY_DOCUMENT) == Some(Record(PolicyFields(x.policy)))
            && Fetch(es, PRICING_DATA) == Some(Record([(GPU_HOUR_CENTS, Num(x.gpuHourCents))]))
  {
    hide Record, Fetch, Known, RequestFields, PolicyFields;
    var fields := RootFields(x);
    assert DistinctNames(fields);
    KnownFields(fields, ROOT_KEYS);
    FetchField(fields, 0);
    FetchField(fields, 1);
    FetchField(fields, 2);
  }

  lemma SingleRead(name: Name, v: Json)
    ensures var es := Record([(name, v)]).entries; Known(es, [name]) == Good(()) && Fetch(es, name) == Some(v)
  {
    KnownFields([(name, v)], [name]);
    FetchField([(name, v)], 0);
  }

  const REQUIRED_KEYS: seq<Name> :=
    [REQUEST_ID, SUBMITTED_REGION, ACTOR, RESOURCES, EXECUTION, TOOL_CALLS, ORBIT_INTENT, RELEASE_REQUEST, RUNTIME_OBSERVATION]

  lemma RequiredDistinct()
    ensures forall i, j :: 0 <= i < j < 9 ==> REQUIRED_KEYS[i] != REQUIRED_KEYS[j]
    ensures forall i :: 0 <= i < 9 ==> REQUIRED_KEYS[i] != PARAMETERS && REQUIRED_KEYS[i] != BUDGET_TOKEN
    ensures PARAMETERS != BUDGET_TOKEN
  {
  }

  lemma RequestNames(x: ExecutionInput)
    ensures var fields := RequestFields(x);
            && DistinctNames(fields)
            && (forall i :: 0 <= i < 9 ==> fields[i].0 == REQUIRED_KEYS[i])
            && (forall i :: 0 <= i < |fields| ==> fields[i].0 in REQUEST_KEYS)
            && (x.parameters.None? ==> !Named(fields, PARAMETERS))
            && (x.parameters.Some? ==> |fields| > 9 && fields[9] == (PARAMETERS, x.parameters.value))
            && (x.budgetToken.None? ==> !Named(fields, BUDGET_TOKEN))
            && (x.budgetToken.Some? ==> fields[|fields| - 1] == (BUDGET_TOKEN, Str(x.budgetToken.value)))
  {
    hide Record, ResourcesFields, ExecutionFields, IntentFields, ReleaseFields, RuntimeFields, ToolCallsJson;
    RequiredDistinct();
    var fields := RequestFields(x);
    assert forall i :: 9 <= i < |fields| ==> fields[i].0 == PARAMETERS || fields[i].0 == BUDGET_TOKEN;
    assert forall i :: 0 <= i < 9 ==> REQUIRED_KEYS[i] in REQUEST_KEYS;
    assert PARAMETERS in REQUEST_KEYS && BUDGET_TOKEN in REQUEST_KEYS;
  }

  lemma RequestRead(x: ExecutionInput)
    ensures var es := Record(RequestFields(x)).entries;
            && Known(es, REQUEST_KEYS) == Good(()) && Fetch(es, REQUEST_ID) == Some(Str(x.requestId))
            && Fetch(es, SUBMITTED_REGION) == Some(Str(x.submittedRegion))
            && Fetch(es, ACTOR) == Some(Record([(USER_ID, Str(x.userId))]))
            && Fetch(es, RESOURCES) == Some(Record(ResourcesFields(x.resources)))
            && Fetch(es, EXECUTION) == Some(Record(ExecutionFields(x.execution)))
            && Fetch(es, TOOL_CALLS) == Some(ToolCallsJson(x.toolCalls))
            && Fetch(es, ORBIT_INTENT) == Some(Record(IntentFields(x.orbitIntent)))
            && Fetch(es, RELEASE_REQUEST) == Some(Record(ReleaseFields(x.release)))
            && Fetch(es, RUNTIME_OBSERVATION) == Some(Record(RuntimeFields(x.runtime)))
            && Fetch(es, PARAMETERS) == x.parameters && Fetch(es, BUDGET_TOKEN) == TokenJson(x.budgetToken)
  {
    hide Record, Fetch, Known, ResourcesFields, ExecutionFields, IntentFields, ReleaseFields, RuntimeFields, ToolCallsJson,
         DistinctNames, Named, OptionalField;
    var fields := RequestFields(x);
    RequestNames(x);
    KnownFields(fields, REQUEST_KEYS);
    FetchField(fields, 0);
    FetchField(fields, 1);
    FetchField(fields, 2);
    FetchField(fields, 3);
    FetchField(fields, 4);
    FetchField(fields, 5);
    FetchField(fields, 6);
    FetchField(fields, 7);
    FetchField(fields, 8);
    if x.parameters.Some? { FetchField(fields, 9); } else { FetchMissing(fields, PARAMETERS); }
    if x.budgetToken.Some? { FetchField(fields, |fields| - 1); } else { FetchMissing(fields, BUDGET_TOKEN); }
  }

  /** Preflight takes the printed request apart into the records it was put together from. */
  lemma ShapeRead(x: ExecutionInput)
    ensures ShapeOf(InputJson(x).entries) == Good(ShapeFor(x))
  {
    hide Record, Fetch, Known, ResourcesFields, ExecutionFields, IntentFields, ReleaseFields, RuntimeFields, RulesFields,
         RequestFields, PolicyFields, ToolCallsJson;
    RootRead(x);
    RequestRead(x);
    PolicyRead(x.policy);
    SingleRead(USER_ID, Str(x.userId));
    SingleRead(GPU_HOUR_CENTS, Num(x.gpuHourCents));
    ResourcesRead(x.resources);
    ExecutionRead(x.execution);
    IntentRead(x.orbitIntent);
    ReleaseRead(x.release);
    RuntimeRead(x.runtime);
    RulesRead(x.policy.rules);
  }

  // ----- tool calls and signatures

  lemma CallRead(c: ToolCall)
    ensures var es := ToolCallJson(c).entries;
            && Known(es, CALL_KEYS) == Good(()) && Fetch(es, TOOL) == Some(Str(c.tool))
            && Fetch(es, PRIORITY) == Some(Num(c.priority)) && Fetch(es, PARAMETERS) == c.parameters
  {
    hide Record, Fetch, Known;
    var fields := CallFields(c);
    assert DistinctNames(fields);
    KnownFields(fields, CALL_KEYS);
    FetchField(fields, 0);
    FetchField(fields, 1);
    if c.parameters.Some? { FetchField(fields, 2); } else { FetchMissing(fields, PARAMETERS); }
  }

  function ToolSet(cs: seq<ToolCall>, i: nat): set<Text>
    requires i <= |cs|
  {
    set j | 0 <= j < i :: cs[j].tool
  }

  predicate CallOk(c: ToolCall) {
    c.tool != [] && c.priority >= 0 && ParametersOk(c.parameters)
  }

  lemma CallParses(c: ToolCall, seen: set<Text>)
    requires CallOk(c) && c.tool !in seen
    ensures ParseToolCall(ToolCallJson(c), seen) == Good(c)
  {
    hide Fetch, Known, ReservedScan;
    CallRead(c);
  }

  lemma {:induction false} CallsParse(cs: seq<ToolCall>, i: nat)
    requires CallsOk(cs) && i <= |cs|
    ensures ParseCalls(ToolCallsJson(cs).items[i..], ToolSet(cs, i), cs[..i]) == Good(cs)
    decreases |cs| - i
  {
    hide ParseToolCall, ToolCallJson, ParametersOk;
    var items := ToolCallsJson(cs).items;
    if i == |cs| {
      assert items[i..] == [] && cs[..i] == cs;
    } else {
      assert items[i..][0] == ToolCallJson(cs[i]) && items[i..][1..] == items[i + 1..];
      assert CallOk(cs[i]) && cs[i].tool !in ToolSet(cs, i);
      CallParses(cs[i], ToolSet(cs, i));
      assert ToolSet(cs, i) + {cs[i].tool} == ToolSet(cs, i + 1);
      assert cs[..i] + [cs[i]] == cs[..i + 1];
      CallsParse(cs, i + 1);
    }
  }

  lemma ToolCallsParse(cs: seq<ToolCall>)
    requires CallsOk(cs)
    ensures ParseToolCalls(Some(ToolCallsJson(cs))) == Good(cs)
  {
    hide ParseCalls, CallsOk, ToolCallJson;
    CallsParse(cs, 0);
    assert ToolSet(cs, 0) == {} && cs[..0] == [] && ToolCallsJson(cs).items[0..] == ToolCallsJson(cs).items;
    assert cs != [] by { NotEmptyCalls(cs); }
  }

  lemma NotEmptyCalls(cs: seq<ToolCall>)
    requires CallsOk(cs)
    ensures cs != []
  {
  }

  lemma SignatureParses(s: Signature)
    requires s.alg != [] && s.sig != []
    ensures ParseSignature(Record(SignatureFields(s))) == Good(s)
  {
    hide Record, Fetch, Known;
    var fields := SignatureFields(s);
    assert DistinctNames(fields);
    KnownFields(fields, [ALG, SIG]);
    FetchField(fields, 0);
    FetchField(fields, 1);
  }

  lemma {:induction false} SignatureItemsParse(ss: seq<Signature>, i: nat)
    requires SignaturesOk(ss) && i <= |ss|
    ensures ParseSignatureItems(SignaturesJson(ss).items[i..], ss[..i]) == Good(ss)
    decreases |ss| - i
  {
    hide ParseSignature, Record;
    var items := SignaturesJson(ss).items;
    if i == |ss| {
      assert items[i..] == [] && ss[..i] == ss;
    } else {
      assert items[i..][0] == Record(SignatureFields(ss[i])) && items[i..][1..] == items[i + 1..];
      SignatureParses(ss[i]);
      assert ss[..i] + [ss[i]] == ss[..i + 1];
      SignatureItemsParse(ss, i + 1);
    }
  }

  lemma SignaturesParse(ss: seq<Signature>)
    requires SignaturesOk(ss)
    ensures ParseSignatures(Some(SignaturesJson(ss))) == Good(ss)
  {
    hide ParseSignatureItems;
    SignatureItemsParse(ss, 0);
    assert ss[..0] == [] && SignaturesJson(ss).items[0..] == SignaturesJson(ss).items;
  }

  lemma CallNamesFree()
    ensures !IsReserved(Ascii(TOOL)) && !IsReserved(Ascii(PRIORITY)) && !IsReserved(Ascii(PARAMETERS))
    ensures !IsReserved(Ascii(TOOL_CALLS))
  {
    forall i, name | 0 <= i < |RESERVED| && name in [TOOL, PRIORITY, PARAMETERS, TOOL_CALLS]
      ensures Ascii(RESERVED[i]) != Ascii(name)
    {
      if Ascii(RESERVED[i]) == Ascii(name) { AsciiInjective(RESERVED[i], name); }
    }
    assert TOOL in [TOOL, PRIORITY, PARAMETERS, TOOL_CALLS] && PRIORITY in [TOOL, PRIORITY, PARAMETERS, TOOL_CALLS];
    assert PARAMETERS in [TOOL, PRIORITY, PARAMETERS, TOOL_CALLS] && TOOL_CALLS in [TOOL, PRIORITY, PARAMETERS, TOOL_CALLS];
  }

  lemma CallUnreserved(c: ToolCall)
    requires ParametersOk(c.parameters)
    ensures !ReservedScan(ToolCallJson(c))
  {
    hide IsReserved;
    var es := ToolCallJson(c).entries;
    CallNamesFree();
    ReservedEntriesAny(es);
    forall i | 0 <= i < |es| ensures !IsReserved(es[i].key) && !ReservedScan(es[i].value) {
      assert es[i] == Entry(Ascii(CallFields(c)[i].0), CallFields(c)[i].1);
    }
  }

  lemma PayloadParses(o: OrbitIntent)
    requires CallsOk(o.toolCalls)
    ensures ParsePayload(Some(Record(IntentPayload(o)))) == Good(o.toolCalls)
  {
    hide ParseToolCalls, IsReserved, ToolCallJson, Known, Fetch, ParametersOk;
    var v := Record(IntentPayload(o));
    var calls := ToolCallsJson(o.toolCalls);
    CallNamesFree();
    forall i | 0 <= i < |calls.items| ensures !ReservedScan(calls.items[i]) {
      CallUnreserved(o.toolCalls[i]);
    }
    ReservedItemsAny(calls.items);
    assert v.entries == [Entry(Ascii(TOOL_CALLS), calls)];
    ReservedEntriesAny(v.entries);
    SingleRead(TOOL_CALLS, calls);
    ToolCallsParse(o.toolCalls);
  }

  // ----- the whole request

  function StringsFor(x: ExecutionInput): Strings {
    Strings(x.requestId, x.submittedRegion, x.userId, x.resources.gpuType, x.release.executionId, x.release.holdState,
            x.orbitIntent.orbitVersion, x.orbitIntent.action, x.orbitIntent.boundary, x.orbitIntent.lifecycleState,
            x.policy.schemaVersion, x.policy.policyVersion, x.budgetToken)
  }

  lemma FieldsGood(x: ExecutionInput)
    requires StringsOk(x)
    ensures StringFields(ShapeFor(x)) ==
            [Good(x.requestId), Good(x.submittedRegion), Good(x.userId), Good(x.resources.gpuType), Good(x.release.executionId),
             Good(x.release.holdState), Good(x.orbitIntent.orbitVersion), Good(x.orbitIntent.action),
             Good(x.orbitIntent.boundary), Good(x.orbitIntent.lifecycleState), Good(x.policy.schemaVersion),
             Good(x.policy.policyVersion)]
  {
    hide Record, Fetch, Known, ResourcesFields, ExecutionFields, IntentFields, ReleaseFields, RuntimeFields, RulesFields,
         RequestFields, PolicyFields, ToolCallsJson;
    RequestRead(x);
    PolicyRead(x.policy);
    SingleRead(USER_ID, Str(x.userId));
    ResourcesRead(x.resources);
    IntentRead(x.orbitIntent);
    ReleaseRead(x.release);
    assert Ascii(PINNED_POLICY_VERSION) != [] by { assert |Ascii(PINNED_POLICY_VERSION)| == 9; }
  }

  lemma StringsRead(x: ExecutionInput)
    requires StringsOk(x)
    ensures StringsOf(ShapeFor(x)) == Good(StringsFor(x))
  {
    hide Record, Fetch, RequestFields, ToolCallsJson, StringFields;
    FieldsGood(x);
    RequestRead(x);
    assert ShapeFor(x).request == Record(RequestFields(x)).entries;
  }

  function ListsFor(x: ExecutionInput): Lists {
    Lists(x.toolCalls, x.parameters, x.orbitIntent.signatures, x.orbitIntent.toolCalls)
  }

  lemma ListsRead(x: ExecutionInput)
    requires CallsOk(x.toolCalls) && CallsOk(x.orbitIntent.toolCalls) && ParametersOk(x.parameters)
    requires SignaturesOk(x.orbitIntent.signatures)
    ensures ListsOf(ShapeFor(x)) == Good(ListsFor(x))
  {
    hide Record, Fetch, RequestFields, IntentFields, ToolCallsJson, ParseToolCalls, ParseSignatures, ParsePayload, CallsOk,
         SignaturesOk, IntentPayload, SignaturesJson;
    RequestRead(x);
    IntentRead(x.orbitIntent);
    ToolCallsParse(x.toolCalls);
    SignaturesParse(x.orbitIntent.signatures);
    PayloadParses(x.orbitIntent);
  }

  lemma NumbersRead(x: ExecutionInput)
    requires NumbersOk(x)
    ensures NumericChecks(ShapeFor(x)) ==
            [Good(x.resources.gpuCount), Good(x.resources.hours), Good(x.execution.maxScaleMultiplier), Good(x.gpuHourCents),
             Good(x.runtime.actualGpuCount), Good(x.runtime.actualHours), Good(x.runtime.actualTotalCostCents),
             Good(x.policy.rules.maxTotalCostCents), Good(x.policy.rules.maxGpuCount), Good(x.policy.rules.maxHours),
             Good(x.policy.rules.requireManualApprovalAboveCents), Good(x.policy.rules.maxRetryCount),
             Good(x.execution.maxRetries)]
  {
    hide Record, Fetch, Known, ResourcesFields, ExecutionFields, RuntimeFields, RulesFields, RequestFields, PolicyFields,
         IntentFields, ReleaseFields;
    ResourcesRead(x.resources);
    ExecutionRead(x.execution);
    RuntimeRead(x.runtime);
    RulesRead(x.policy.rules);
    SingleRead(GPU_HOUR_CENTS, Num(x.gpuHourCents));
  }

  lemma FlagsRead(x: ExecutionInput)
    ensures FlagsOf(ShapeFor(x)) == Good(Flags(x.execution.autoScale, x.execution.retryOnFail, x.release.alreadyConsumed,
                                               x.runtime.killSwitchActive, x.policy.rules.allowAutoScale))
  {
    hide Record, Fetch, Known, ResourcesFields, ExecutionFields, RuntimeFields, RulesFields, RequestFields, PolicyFields,
         IntentFields, ReleaseFields;
    ExecutionRead(x.execution);
    ReleaseRead(x.release);
    RuntimeRead(x.runtime);
    RulesRead(x.policy.rules);
  }

  lemma TrustParses(p: Platform, d: PolicyDocument)
    requires TrustOk(p, d)
    ensures ParseTrust(p, Fetch(Record(PolicyFields(d)).entries, TRUST), PolicyPayload(d.schemaVersion, d.policyVersion, d.rules))
         == Good(d.trust)
  {
    hide Record, Fetch, Known, TrustFields, PolicyFields, PolicyPayload;
    PolicyRead(d);
    if d.trust.Some? { TrustRead(d.trust.value); }
    assert Ascii(TRUST_KEY_VERSION) != [] by { assert |Ascii(TRUST_KEY_VERSION)| == 10; }
  }

  /** Preflight reads an acceptable request off its JSON form. */
  lemma PrintedRequestReads(p: Platform, x: ExecutionInput)
    requires Acceptable(p, x)
    ensures Validate(p, InputJson(x).entries) == Good(x)
  {
    hide ShapeOf, StringsOf, ListsOf, FlagsOf, NumericChecks, InputJson, Record, Fetch, ParseTrust, PolicyPayload, CallsOk,
         SignaturesOk, ParametersOk, TrustOk;
    ShapeRead(x);
    StringsRead(x);
    ListsRead(x);
    NumbersRead(x);
    var n := NumericChecks(ShapeFor(x));
    NumericReasonExact(n, None);
    FlagsRead(x);
    TrustParses(p, x.policy);
  }

  lemma LeafWellFormed(v: Json)
    ensures !v.Arr? && !v.Obj? ==> WellFormed(v)
  {
  }

  lemma CallsJsonWellFormed(cs: seq<ToolCall>)
    requires CallsOk(cs)
    ensures WellFormed(ToolCallsJson(cs))
  {
    hide ToolCallJson, ReservedScan;
    forall i | 0 <= i < |cs| ensures WellFormed(ToolCallJson(cs[i])) { ToolCallJsonWellFormed(cs[i]); }
  }

  lemma SignaturesJsonWellFormed(ss: seq<Signature>)
    ensures WellFormed(SignaturesJson(ss))
  {
    hide Record;
    var items := SignaturesJson(ss).items;
    forall i | 0 <= i < |items| ensures WellFormed(items[i]) {
      var fields := SignatureFields(ss[i]);
      assert DistinctNames(fields);
      RecordWellFormed(fields);
      assert items[i] == Record(fields);
    }
  }

  lemma IntentWellFormed(o: OrbitIntent)
    requires CallsOk(o.toolCalls)
    ensures WellFormed(Record(IntentFields(o)))
  {
    hide Record, WellFormed, ToolCallsJson, SignaturesJson;
    CallsJsonWellFormed(o.toolCalls);
    SignaturesJsonWellFormed(o.signatures);
    RecordWellFormed(IntentPayload(o));
    var fields := IntentFields(o);
    assert DistinctNames(fields);
    forall i | 0 <= i < |fields| ensures WellFormed(fields[i].1) { LeafWellFormed(fields[i].1); }
    RecordWellFormed(fields);
  }

  lemma LeavesRecordWellFormed(fields: seq<(Name, Json)>)
    requires DistinctNames(fields) && forall i :: 0 <= i < |fields| ==> !fields[i].1.Arr? && !fields[i].1.Obj?
    ensures WellFormed(Record(fields))
  {
    hide Record;
    RecordWellFormed(fields);
  }

  lemma PolicyWellFormed(d: PolicyDocument)
    ensures WellFormed(Record(PolicyFields(d)))
  {
    hide Record, WellFormed;
    assert DistinctNames(RulesFields(d.rules));
    LeavesRecordWellFormed(RulesFields(d.rules));
    if d.trust.Some? {
      assert DistinctNames(TrustFields(d.trust.value));
      LeavesRecordWellFormed(TrustFields(d.trust.value));
    }
    var fields := PolicyFields(d);
    assert DistinctNames(fields);
    forall i | 0 <= i < |fields| ensures WellFormed(fields[i].1) { LeafWellFormed(fields[i].1); }
    RecordWellFormed(fields);
  }

  lemma SectionsWellFormed(x: ExecutionInput)
    ensures WellFormed(Record([(USER_ID, Str(x.userId))])) && WellFormed(Record(ResourcesFields(x.resources)))
    ensures WellFormed(Record(ExecutionFields(x.execution))) && WellFormed(Record(ReleaseFields(x.release)))
    ensures WellFormed(Record(RuntimeFields(x.runtime))) && WellFormed(Record([(GPU_HOUR_CENTS, Num(x.gpuHourCents))]))
  {
    hide Record, WellFormed;
    assert DistinctNames(ResourcesFields(x.resources)) && DistinctNames(ExecutionFields(x.execution));
    assert DistinctNames(ReleaseFields(x.release)) && DistinctNames(RuntimeFields(x.runtime));
    LeavesRecordWellFormed([(USER_ID, Str(x.userId))]);
    LeavesRecordWellFormed([(GPU_HOUR_CENTS, Num(x.gpuHourCents))]);
    LeavesRecordWellFormed(ResourcesFields(x.resources));
    LeavesRecordWellFormed(ExecutionFields(x.execution));
    LeavesRecordWellFormed(ReleaseFields(x.release));
    LeavesRecordWellFormed(RuntimeFields(x.runtime));
  }

  lemma RequestWellFormed(x: ExecutionInput)
    requires CallsOk(x.toolCalls) && CallsOk(x.orbitIntent.toolCalls) && ParametersOk(x.parameters)
    ensures WellFormed(Record(RequestFields(x)))
  {
    hide Record, WellFormed, ToolCallsJson, IntentFields, ResourcesFields, ExecutionFields, ReleaseFields, RuntimeFields,
         CallsOk, ReservedScan, DistinctNames;
    SectionsWellFormed(x);
    CallsJsonWellFormed(x.toolCalls);
    IntentWellFormed(x.orbitIntent);
    RequestNames(x);
    var fields := RequestFields(x);
    forall i | 0 <= i < |fields| ensures WellFormed(fields[i].1) { LeafWellFormed(fields[i].1); }
    RecordWellFormed(fields);
  }

  lemma InputWellFormed(p: Platform, x: ExecutionInput)
    requires Acceptable(p, x)
    ensures WellFormed(InputJson(x))
  {
    hide Record, WellFormed, RequestFields, PolicyFields, CallsOk, StringsOk, NumbersOk, TrustOk, SignaturesOk, ParametersOk;
    RequestWellFormed(x);
    PolicyWellFormed(x.policy);
    SectionsWellFormed(x);
    assert DistinctNames(RootFields(x));
    RecordWellFormed(RootFields(x));
  }

  /** The canonical text of every acceptable request is accepted, as that request up to key order in parameters. */
  lemma AcceptableIsAccepted(p: Platform, x: ExecutionInput)
    requires Acceptable(p, x)
    ensures RunPreflight(p, Canonicalize(InputJson(x))).Accepted?
    ensures var e := RunPreflight(p, Canonicalize(InputJson(x))).envelope;
            SameInput(x, e.input) && e.canonicalInput == Canonicalize(InputJson(x)) && e.requestHash == p.sha256(e.canonicalInput)
  {
    hide Acceptable, Validate, Parse, Canonicalize, WellFormed, Tidier, RootFields, NormEntries, SameInput;
    var v := InputJson(x);
    InputWellFormed(p, x);
    PrintedRequestReads(p, x);
    RoundTrip(v);
    NormIdempotent(v);
    NormTidier(v);
    assert v == Obj(v.entries) && Norm(v) == Obj(Norm(v).entries);
    ValidateAgrees(p, v.entries, Norm(v).entries);
  }

  // ----- and nothing else is accepted

  lemma FetchWellFormed(es: seq<Entry>, name: Name)
    requires WellFormed(Obj(es)) && Fetch(es, name).Some?
    ensures WellFormed(Fetch(es, name).value)
  {
  }

  lemma ShapeWellFormed(root: seq<Entry>)
    requires WellFormed(Obj(root)) && ShapeOf(root).Good?
    ensures WellFormed(Obj(ShapeOf(root).value.request)) && WellFormed(Obj(ShapeOf(root).value.orbit))
  {
    hide WellFormed, Fetch, Known;
    FetchWellFormed(root, EXECUTION_REQUEST);
    FetchWellFormed(ShapeOf(root).value.request, ORBIT_INTENT);
  }

  /** Calls parsed so far: each fine, their tools distinct and recorded. */
  predicate CallsSoFar(cs: seq<ToolCall>, seen: set<Text>) {
    && (forall i :: 0 <= i < |cs| ==> CallOk(cs[i]) && cs[i].tool in seen)
    && (forall i, j :: 0 <= i < j < |cs| ==> cs[i].tool != cs[j].tool)
  }

  lemma ParsedCallOk(item: Json, seen: set<Text>)
    requires WellFormed(item) && ParseToolCall(item, seen).Good?
    ensures CallOk(ParseToolCall(item, seen).value) && ParseToolCall(item, seen).value.tool !in seen
  {
    hide WellFormed, Fetch, Known, ReservedScan;
    var es := item.entries;
    assert item == Obj(es);
    if Fetch(es, PARAMETERS).Some? { FetchWellFormed(es, PARAMETERS); }
  }

  lemma {:induction false} ParsedCallsOk(items: seq<Json>, seen: set<Text>, parsed: seq<ToolCall>)
    requires (forall i :: 0 <= i < |items| ==> WellFormed(items[i])) && CallsSoFar(parsed, seen)
    requires ParseCalls(items, seen, parsed).Good? && (parsed != [] || items != [])
    ensures CallsOk(ParseCalls(items, seen, parsed).value)
  {
    hide WellFormed, ParseToolCall, ParametersOk;
    if items != [] {
      var call := ParseToolCall(items[0], seen).value;
      ParsedCallOk(items[0], seen);
      assert forall i :: 0 <= i < |items[1..]| ==> items[1..][i] == items[i + 1];
      ParsedCallsOk(items[1..], seen + {call.tool}, parsed + [call]);
    }
  }

  lemma ParsedToolCallsOk(v: Option<Json>)
    requires (v.Some? ==> WellFormed(v.value)) && ParseToolCalls(v).Good?
    ensures CallsOk(ParseToolCalls(v).value)
  {
    hide ParseCalls, CallsOk;
    ParsedCallsOk(v.value.items, {}, []);
  }

  lemma ParsedPayloadOk(v: Option<Json>)
    requires (v.Some? ==> WellFormed(v.value)) && ParsePayload(v).Good?
    ensures CallsOk(ParsePayload(v).value)
  {
    hide ParseToolCalls, CallsOk, WellFormed, Fetch, Known, ReservedScan;
    var es := v.value.entries;
    assert v.value == Obj(es);
    if Fetch(es, TOOL_CALLS).Some? { FetchWellFormed(es, TOOL_CALLS); }
    ParsedToolCallsOk(Fetch(es, TOOL_CALLS));
  }

  lemma {:induction false} ParsedSignaturesOk(items: seq<Json>, parsed: seq<Signature>)
    requires forall i :: 0 <= i < |parsed| ==> parsed[i].alg != [] && parsed[i].sig != []
    requires ParseSignatureItems(items, parsed).Good? && (parsed != [] || items != [])
    ensures SignaturesOk(ParseSignatureItems(items, parsed).value)
  {
    hide Fetch, Known;
    if items != [] {
      ParsedSignaturesOk(items[1..], parsed + [ParseSignature(items[0]).value]);
    }
  }

  lemma ListsOk(s: Shape)
    requires WellFormed(Obj(s.request)) && WellFormed(Obj(s.orbit)) && ListsOf(s).Good?
    ensures var l := ListsOf(s).value;
            CallsOk(l.toolCalls) && CallsOk(l.orbitCalls) && ParametersOk(l.parameters) && SignaturesOk(l.signatures)
  {
    hide WellFormed, Fetch, CallsOk, ParseToolCalls, ParsePayload, ParseSignatureItems, SignaturesOk, ReservedScan;
    if Fetch(s.request, TOOL_CALLS).Some? { FetchWellFormed(s.request, TOOL_CALLS); }
    if Fetch(s.request, PARAMETERS).Some? { FetchWellFormed(s.request, PARAMETERS); }
    if Fetch(s.orbit, PAYLOAD).Some? { FetchWellFormed(s.orbit, PAYLOAD); }
    ParsedToolCallsOk(Fetch(s.request, TOOL_CALLS));
    ParsedPayloadOk(Fetch(s.orbit, PAYLOAD));
    ParsedSignaturesOk(Fetch(s.orbit, SIGNATURES).value.items, []);
  }

  lemma FieldsNotEmpty(s: Shape)
    requires forall i :: 0 <= i < 12 ==> StringFields(s)[i].Good?
    ensures forall i :: 0 <= i < 12 ==> StringFields(s)[i].value != []
  {
    hide Fetch;
  }

  lemma StringsNotEmpty(s: Shape)
    requires StringsOf(s).Good?
    ensures var t := StringsOf(s).value;
            && t.requestId != [] && t.region != [] && t.userId != [] && t.gpuType != [] && t.executionId != []
            && t.holdState != [] && t.orbitVersion != [] && t.action != [] && t.boundary != [] && t.lifecycleState != []
            && t.schemaVersion != [] && t.budgetToken != Some([])
  {
    hide Fetch, StringFields;
    FieldsNotEmpty(s);
  }

  lemma ChecksOk(s: Shape)
    requires AllGood(NumericChecks(s))
    ensures var n := NumericChecks(s);
            && n[0].value >= 1 && n[1].value >= 1 && n[2].value >= 1 && n[3].value >= 1 && n[4].value >= 0
            && n[5].value >= 0 && n[6].value >= 0 && n[7].value >= 1 && n[8].value >= 1 && n[9].value >= 1
            && n[10].value >= 0 && n[11].value >= 0 && n[12].value >= 0
  {
    hide ValidateInteger, Fetch;
    var n := NumericChecks(s);
    assert forall i :: 0 <= i < 13 ==> n[i].Good?;
  }

  lemma ParsedTrustOk(p: Platform, v: Option<Json>, d: PolicyDocument)
    requires ParseTrust(p, v, PolicyPayload(d.schemaVersion, d.policyVersion, d.rules)) == Good(d.trust)
    ensures TrustOk(p, d)
  {
    hide Fetch, Known, PolicyPayload, Ascii;
  }

  lemma BuiltOk(p: Platform, s: Shape, t: Strings, l: Lists)
    requires WellFormed(Obj(s.request)) && WellFormed(Obj(s.orbit))
    requires StringsOf(s) == Good(t) && ListsOf(s) == Good(l) && FinishValidation(p, s, t, l).Good?
    ensures Acceptable(p, FinishValidation(p, s, t, l).value)
  {
    hide WellFormed, StringsOf, ListsOf, FlagsOf, NumericChecks, FinishValidation, ParseTrust, CallsOk, ParametersOk,
         SignaturesOk, TrustOk, Ascii, PolicyPayload;
    var f, trust := FinishedParts(p, s, t, l);
    StringsNotEmpty(s);
    ListsOk(s);
    ChecksOk(s);
    var x := Build(t, l, NumericChecks(s), f, trust);
    ParsedTrustOk(p, Fetch(s.policy, TRUST), x.policy);
  }

  /** Every request preflight accepts is acceptable. */
  lemma AcceptedIsAcceptable(p: Platform, raw: Text, e: Envelope)
    requires RunPreflight(p, raw) == Accepted(e)
    ensures Acceptable(p, e.input)
  {
    hide RunPreflight, WellFormed, StringsOf, ListsOf, ShapeOf, FinishValidation, Acceptable, Parse;
    var root, s, t, l := AcceptedParts(p, raw);
    ParsedIsWellFormed(raw);
    ShapeWellFormed(root);
    BuiltOk(p, s, t, l);
  }

  lemma ValidatedIsAcceptable(p: Platform, root: seq<Entry>)
    requires WellFormed(Obj(root)) && Validate(p, root).Good?
    ensures Acceptable(p, Validate(p, root).value)
  {
    hide WellFormed, StringsOf, ListsOf, ShapeOf, FinishValidation, Acceptable;
    ShapeWellFormed(root);
    var s := ShapeOf(root).value;
    BuiltOk(p, s, StringsOf(s).value, ListsOf(s).value);
  }

  /** Preflight reads a printed request back as itself if and only if the request is acceptable. */
  lemma ReadsBackExactly(p: Platform, x: ExecutionInput)
    requires WellFormed(InputJson(x))
    ensures Validate(p, InputJson(x).entries) == Good(x) <==> Acceptable(p, x)
  {
    hide WellFormed, Validate, Acceptable, RootFields;
    assert InputJson(x) == Obj(InputJson(x).entries);
    if Acceptable(p, x) { PrintedRequestReads(p, x); }
    if Validate(p, InputJson(x).entries) == Good(x) { ValidatedIsAcceptable(p, InputJson(x).entries); }
  }
}
