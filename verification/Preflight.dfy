/**
 preflight/engine.ts: from raw text to a validated request, or a refusal at the parse boundary. Functions give
 the result of each check; methods with loops run the checks the source loops over.
 */
module Preflight {
  import opened Units
  import opened JsonValues
  import opened StrictParser
  import opened Canonical
  import opened Doubles
  import opened Fields
  import opened Contracts
  import opened DeepScan

  const PINNED_POLICY_VERSION: Name := "policy.v1"
  const TRUST_KEY_VERSION: Name := "ed25519.v1"

  // ----- keys

  /** Property names that JavaScript enumerates before all others. */
  predicate IsArrayIndex(k: Text) {
    k != [] && AllDigits(k) && (k[0] == ZERO ==> |k| == 1) && DigitsValue(k) < 0xFFFF_FFFF
  }

  function Filter(ks: seq<Text>, index: bool): (r: seq<Text>)
    ensures forall k :: k in r <==> k in ks && IsArrayIndex(k) == index
  {
    if ks == [] then []
    else (if IsArrayIndex(ks[0]) == index then [ks[0]] else []) + Filter(ks[1..], index)
  }

  /** Object.keys, up to the order of the array indices among themselves. */
  function ObjectKeys(es: seq<Entry>): seq<Text> {
    Filter(Keys(es), true) + Filter(Keys(es), false)
  }

  predicate IsAllowed(k: Text, allowed: seq<Name>) {
    exists i :: 0 <= i < |allowed| && Ascii(allowed[i]) == k
  }

  /** The code for the first key that is not allowed. */
  function ScanKeys(ks: seq<Text>, allowed: seq<Name>): Option<Reason> {
    if ks == [] then None
    else if IsAllowed(ks[0], allowed) then ScanKeys(ks[1..], allowed)
    else Some(if IsReserved(ks[0]) then NonDeterministicInput else SchemaValidation)
  }

  method RejectUnknownKeys(es: seq<Entry>, allowed: seq<Name>) returns (r: Option<Reason>)
    ensures r == ScanKeys(ObjectKeys(es), allowed)
  {
    var keys := ObjectKeys(es);
    for i := 0 to |keys|
      invariant ScanKeys(keys, allowed) == ScanKeys(keys[i..], allowed)
    {
      assert keys[i..][1..] == keys[i + 1..];
      if !IsAllowed(keys[i], allowed) {
        if IsReserved(keys[i]) { return Some(NonDeterministicInput); }
        return Some(SchemaValidation);
      }
    }
    return None;
  }

  function Known(es: seq<Entry>, allowed: seq<Name>): Checked<()> {
    match ScanKeys(ObjectKeys(es), allowed) case None => Good(()) case Some(r) => Bad(r)
  }

  lemma {:induction false} ScanKeysExact(ks: seq<Text>, allowed: seq<Name>)
    ensures ScanKeys(ks, allowed).None? <==> forall k :: k in ks ==> IsAllowed(k, allowed)
  {
    if ks != [] {
      ScanKeysExact(ks[1..], allowed);
      assert ks == [ks[0]] + ks[1..];
    }
  }

  /** Whatever the enumeration order, an object passes exactly when it has no other keys. */
  lemma KnownExact(es: seq<Entry>, allowed: seq<Name>)
    ensures Known(es, allowed).Good? <==> forall i :: 0 <= i < |es| ==> IsAllowed(es[i].key, allowed)
  {
    ScanKeysExact(ObjectKeys(es), allowed);
    forall k ensures k in ObjectKeys(es) <==> HasKey(es, k) {
      if HasKey(es, k) { assert Keys(es)[IndexOf(es, k)] == k; }
    }
    forall i | 0 <= i < |es| ensures es[i].key in ObjectKeys(es) { assert HasKey(es, es[i].key); }
  }

  predicate Foreign(k: Text, allowed: seq<Name>) {
    !IsAllowed(k, allowed) && !IsArrayIndex(k)
  }

  /** Of two keys that are not allowed, one of them reserved, the first one decides. */
  lemma KeyCheckDependsOnOrder(a: Entry, b: Entry, allowed: seq<Name>)
    requires Foreign(a.key, allowed) && Foreign(b.key, allowed) && IsReserved(a.key) && !IsReserved(b.key)
    ensures Known([a, b], allowed) == Bad(NonDeterministicInput)
    ensures Known([b, a], allowed) == Bad(SchemaValidation)
  {
    hide IsAllowed, IsArrayIndex, IsReserved;
    TwoKeys(a, b);
    TwoKeys(b, a);
  }

  lemma TwoKeys(a: Entry, b: Entry)
    requires !IsArrayIndex(a.key) && !IsArrayIndex(b.key)
    ensures ObjectKeys([a, b]) == [a.key, b.key]
  {
    hide IsArrayIndex;
    var ks := Keys([a, b]);
    var tail := ks[1..];
    var nothing: seq<Text> := [];
    assert ks == [a.key, b.key] && tail == [b.key] && tail[1..] == nothing;
    assert Filter(tail, false) == [b.key] && Filter(tail, true) == nothing;
  }

  // ----- single fields

  function Fetch(es: seq<Entry>, name: Name): Option<Json> {
    Get(es, Ascii(name))
  }

  function RecordAt(es: seq<Entry>, name: Name): Checked<seq<Entry>> {
    match Fetch(es, name) case Some(Obj(fs)) => Good(fs) case _ => Bad(SchemaValidation)
  }

  /** expectString: a non-empty string. */
  function ExpectString(v: Option<Json>): Checked<Text> {
    match v case Some(Str(s)) => if s == [] then Bad(TypeMismatch) else Good(s) case _ => Bad(TypeMismatch)
  }

  function StringAt(es: seq<Entry>, name: Name): Checked<Text> {
    ExpectString(Fetch(es, name))
  }

  function BoolAt(es: seq<Entry>, name: Name): Checked<bool> {
    match Fetch(es, name) case Some(Bool(b)) => Good(b) case _ => Bad(TypeMismatch)
  }

  function ValidateInteger(v: Option<Json>, minimum: int, allowZero: bool): (r: Checked<SafeInt>)
    ensures r.Good? ==> r.value >= minimum && (allowZero || r.value != 0) && v == Some(Num(r.value))
  {
    match v
    case Some(NegZero) => Bad(InvalidJsonNumber)
    case Some(Num(n)) =>
      if !allowZero && n == 0 then Bad(TypeMismatch)
      else if n < minimum then Bad(if n < 0 then TypeMismatch else InvalidJsonNumber)
      else Good(n)
    case _ => Bad(TypeMismatch)
  }

  /** A strictly positive integer field, or one that may be zero. */
  function PositiveAt(es: seq<Entry>, name: Name): Checked<SafeInt> {
    ValidateInteger(Fetch(es, name), 1, false)
  }

  function CountAt(es: seq<Entry>, name: Name): Checked<SafeInt> {
    ValidateInteger(Fetch(es, name), 0, true)
  }

  // ----- the shape of the request

  datatype Shape = Shape(request: seq<Entry>, policy: seq<Entry>, pricing: seq<Entry>, actor: seq<Entry>,
                         resources: seq<Entry>, execution: seq<Entry>, orbit: seq<Entry>, release: seq<Entry>,
                         runtime: seq<Entry>, rules: seq<Entry>)

  const ROOT_KEYS: seq<Name> := [EXECUTION_REQUEST, POLICY_DOCUMENT, PRICING_DATA]
  const REQUEST_KEYS: seq<Name> :=
    [REQUEST_ID, SUBMITTED_REGION, ACTOR, RESOURCES, EXECUTION, TOOL_CALLS, PARAMETERS, ORBIT_INTENT, RELEASE_REQUEST,
     RUNTIME_OBSERVATION, BUDGET_TOKEN]
  const RESOURCES_KEYS: seq<Name> := [GPU_TYPE, GPU_COUNT, HOURS]
  const EXECUTION_KEYS: seq<Name> := [AUTO_SCALE, MAX_SCALE_MULTIPLIER, RETRY_ON_FAIL, MAX_RETRIES]
  const ORBIT_KEYS: seq<Name> := [ORBIT_VERSION, ACTION, BOUNDARY, PAYLOAD, LIFECYCLE_STATE, SIGNATURES]
  const RELEASE_KEYS: seq<Name> := [EXECUTION_ID, HOLD_STATE, ALREADY_CONSUMED]
  const RUNTIME_KEYS: seq<Name> := [KILL_SWITCH_ACTIVE, ACTUAL_GPU_COUNT, ACTUAL_HOURS, ACTUAL_TOTAL_COST_CENTS]
  const POLICY_KEYS: seq<Name> := [SCHEMA_VERSION, POLICY_VERSION, RULES, TRUST]
  const RULES_KEYS: seq<Name> :=
    [MAX_TOTAL_COST_CENTS, ALLOW_AUTO_SCALE, MAX_GPU_COUNT, MAX_HOURS, REQUIRE_MANUAL_APPROVAL_ABOVE_CENTS, MAX_RETRY_COUNT]
  const TRUST_KEYS: seq<Name> := [KEY_VERSION, KEY_ID, PUBLIC_KEY, SIGNATURE]
  const CALL_KEYS: seq<Name> := [TOOL, PRIORITY, PARAMETERS]

  function ShapeOf(root: seq<Entry>): Checked<Shape> {
    var _ :- Known(root, ROOT_KEYS);
    var request :- RecordAt(root, EXECUTION_REQUEST);
    var policy :- RecordAt(root, POLICY_DOCUMENT);
    var pricing :- RecordAt(root, PRICING_DATA);
    var _ :- Known(request, REQUEST_KEYS);
    RequestShape(request, policy, pricing)
  }

  /** The six records inside the execution request. */
  datatype Sections = Sections(actor: seq<Entry>, resources: seq<Entry>, execution: seq<Entry>, orbit: seq<Entry>,
                               release: seq<Entry>, runtime: seq<Entry>)

  function SectionsOf(request: seq<Entry>): Checked<Sections> {
    var actor :- RecordAt(request, ACTOR);
    var resources :- RecordAt(request, RESOURCES);
    var execution :- RecordAt(request, EXECUTION);
    var orbit :- RecordAt(request, ORBIT_INTENT);
    var release :- RecordAt(request, RELEASE_REQUEST);
    var runtime :- RecordAt(request, RUNTIME_OBSERVATION);
    Good(Sections(actor, resources, execution, orbit, release, runtime))
  }

  function SectionsKnown(c: Sections): Checked<()> {
    var _ :- Known(c.actor, [USER_ID]);
    var _ :- Known(c.resources, RESOURCES_KEYS);
    var _ :- Known(c.execution, EXECUTION_KEYS);
    var _ :- Known(c.orbit, ORBIT_KEYS);
    var _ :- Known(c.release, RELEASE_KEYS);
    Known(c.runtime, RUNTIME_KEYS)
  }

  function RequestShape(request: seq<Entry>, policy: seq<Entry>, pricing: seq<Entry>): Checked<Shape> {
    var c :- SectionsOf(request);
    var _ :- SectionsKnown(c);
    var _ :- Known(pricing, [GPU_HOUR_CENTS]);
    var _ :- Known(policy, POLICY_KEYS);
    var rules :- RecordAt(policy, RULES);
    var _ :- Known(rules, RULES_KEYS);
    Good(Shape(request, policy, pricing, c.actor, c.resources, c.execution, c.orbit, c.release, c.runtime, rules))
  }

  // ----- groups of fields

  datatype Strings = Strings(requestId: Text, region: Text, userId: Text, gpuType: Text, executionId: Text, holdState: Text,
                             orbitVersion: Text, action: Text, boundary: Text, lifecycleState: Text,
                             schemaVersion: Text, policyVersion: Text, budgetToken: Option<Text>)

  function StringFields(s: Shape): (fields: seq<Checked<Text>>)
    ensures |fields| == 12
  {
    [StringAt(s.request, REQUEST_ID), StringAt(s.request, SUBMITTED_REGION), StringAt(s.actor, USER_ID),
     StringAt(s.resources, GPU_TYPE), StringAt(s.release, EXECUTION_ID), StringAt(s.release, HOLD_STATE),
     StringAt(s.orbit, ORBIT_VERSION), StringAt(s.orbit, ACTION), StringAt(s.orbit, BOUNDARY),
     StringAt(s.orbit, LIFECYCLE_STATE), StringAt(s.policy, SCHEMA_VERSION), StringAt(s.policy, POLICY_VERSION)]
  }

  function StringsFrom(f: seq<Checked<Text>>, token: Checked<Option<Text>>): Checked<Strings>
    requires |f| == 12
  {
    if exists i :: 0 <= i < |f| && f[i].Bad? then Bad(TypeMismatch) else
    var budgetToken :- token;
    assert forall i :: 0 <= i < |f| ==> f[i].Good?;
    Good(Strings(f[0].value, f[1].value, f[2].value, f[3].value, f[4].value, f[5].value, f[6].value, f[7].value,
                 f[8].value, f[9].value, f[10].value, f[11].value, budgetToken))
  }

  function StringsOf(s: Shape): Checked<Strings> {
    StringsFrom(StringFields(s), TokenOf(Fetch(s.request, BUDGET_TOKEN)))
  }

  function TokenOf(v: Option<Json>): Checked<Option<Text>> {
    if v.None? then Good(None)
    else match ExpectString(v) case Good(t) => Good(Some(t)) case Bad(r) => Bad(r)
  }

  datatype Flags = Flags(autoScale: bool, retryOnFail: bool, alreadyConsumed: bool, killSwitch: bool, allowAutoScale: bool)

  function FlagsOf(s: Shape): Checked<Flags> {
    var autoScale :- BoolAt(s.execution, AUTO_SCALE);
    var retryOnFail :- BoolAt(s.execution, RETRY_ON_FAIL);
    var alreadyConsumed :- BoolAt(s.release, ALREADY_CONSUMED);
    var killSwitch :- BoolAt(s.runtime, KILL_SWITCH_ACTIVE);
    var allowAutoScale :- BoolAt(s.rules, ALLOW_AUTO_SCALE);
    Good(Flags(autoScale, retryOnFail, alreadyConsumed, killSwitch, allowAutoScale))
  }

  /** The thirteen numeric checks, in the order in which they are reported. */
  function NumericChecks(s: Shape): (checks: seq<Checked<SafeInt>>)
    ensures |checks| == 13
  {
    [PositiveAt(s.resources, GPU_COUNT), PositiveAt(s.resources, HOURS), PositiveAt(s.execution, MAX_SCALE_MULTIPLIER),
     PositiveAt(s.pricing, GPU_HOUR_CENTS), CountAt(s.runtime, ACTUAL_GPU_COUNT), CountAt(s.runtime, ACTUAL_HOURS),
     CountAt(s.runtime, ACTUAL_TOTAL_COST_CENTS), PositiveAt(s.rules, MAX_TOTAL_COST_CENTS),
     PositiveAt(s.rules, MAX_GPU_COUNT), PositiveAt(s.rules, MAX_HOURS),
     CountAt(s.rules, REQUIRE_MANUAL_APPROVAL_ABOVE_CENTS), CountAt(s.rules, MAX_RETRY_COUNT),
     CountAt(s.execution, MAX_RETRIES)]
  }

  /** An invalid number anywhere is reported first; otherwise the first failed check is. */
  function NumericReason(checks: seq<Checked<SafeInt>>, first: Option<Reason>): Option<Reason> {
    if checks == [] then first
    else match checks[0]
      case Good(_) => NumericReason(checks[1..], first)
      case Bad(r) =>
        if r == InvalidJsonNumber then Some(r)
        else NumericReason(checks[1..], if first.None? then Some(r) else first)
  }

  method FirstNumericReason(checks: seq<Checked<SafeInt>>) returns (r: Option<Reason>)
    ensures r == NumericReason(checks, None)
  {
    r := None;
    for i := 0 to |checks|
      invariant NumericReason(checks, None) == NumericReason(checks[i..], r)
    {
      assert checks[i..][1..] == checks[i + 1..];
      if checks[i].Bad? {
        if checks[i].reason == InvalidJsonNumber { return Some(InvalidJsonNumber); }
        if r.None? { r := Some(checks[i].reason); }
      }
    }
  }

  predicate AllGood(checks: seq<Checked<SafeInt>>) {
    forall i :: 0 <= i < |checks| ==> checks[i].Good?
  }

  lemma {:induction false} NumericReasonExact(checks: seq<Checked<SafeInt>>, first: Option<Reason>)
    ensures NumericReason(checks, first).None? <==> first.None? && AllGood(checks)
  {
    if checks != [] {
      match checks[0]
      case Good(_) => NumericReasonExact(checks[1..], first);
      case Bad(r) => NumericReasonExact(checks[1..], if first.None? then Some(r) else first);
      assert forall i :: 0 <= i < |checks[1..]| ==> checks[1..][i] == checks[i + 1];
    }
  }

  // ----- tool calls, parameters, signatures

  function ParseParameters(v: Option<Json>): Checked<Option<Json>> {
    match v
    case None => Good(None)
    case Some(Obj(_)) => if ReservedScan(v.value) then Bad(NonDeterministicInput) else Good(v)
    case _ => Bad(SchemaValidation)
  }

  function ParseToolCall(item: Json, seen: set<Text>): Checked<ToolCall> {
    if !item.Obj? then Bad(SchemaValidation) else
    var _ :- Known(item.entries, CALL_KEYS);
    var tool :- StringAt(item.entries, TOOL);
    var priority :- CountAt(item.entries, PRIORITY);
    if tool in seen then Bad(SchemaValidation) else
    var parameters :- ParseParameters(Fetch(item.entries, PARAMETERS));
    Good(ToolCall(tool, priority, parameters))
  }

  function ParseCalls(items: seq<Json>, seen: set<Text>, parsed: seq<ToolCall>): Checked<seq<ToolCall>> {
    if items == [] then Good(parsed) else
    var call :- ParseToolCall(items[0], seen);
    ParseCalls(items[1..], seen + {call.tool}, parsed + [call])
  }

  function ParseToolCalls(v: Option<Json>): Checked<seq<ToolCall>> {
    match v
    case Some(Arr(items)) => if items == [] then Bad(SchemaValidation) else ParseCalls(items, {}, [])
    case _ => Bad(SchemaValidation)
  }

  method ToolCallsLoop(v: Option<Json>) returns (r: Checked<seq<ToolCall>>)
    ensures r == ParseToolCalls(v)
  {
    if v.None? || !v.value.Arr? || v.value.items == [] {
      return Bad(SchemaValidation);
    }
    var items := v.value.items;
    var parsed: seq<ToolCall> := [];
    var seenTools: set<Text> := {};
    for i := 0 to |items|
      invariant ParseCalls(items, {}, []) == ParseCalls(items[i..], seenTools, parsed)
    {
      assert items[i..][1..] == items[i + 1..];
      if !items[i].Obj? {
        return Bad(SchemaValidation);
      }
      var unknown := RejectUnknownKeys(items[i].entries, CALL_KEYS);
      if unknown.Some? {
        return Bad(unknown.value);
      }
      var tool, priority := StringAt(items[i].entries, TOOL), CountAt(items[i].entries, PRIORITY);
      if tool.Bad? || priority.Bad? {
        return Bad(if tool.Good? then priority.reason else TypeMismatch);
      }
      if tool.value in seenTools {
        return Bad(SchemaValidation);
      }
      var parameters := ParseParameters(Fetch(items[i].entries, PARAMETERS));
      if parameters.Bad? {
        return Bad(parameters.reason);
      }
      seenTools := seenTools + {tool.value};
      parsed := parsed + [ToolCall(tool.value, priority.value, parameters.value)];
    }
    return Good(parsed);
  }

  function ParseSignature(item: Json): Checked<Signature> {
    if !item.Obj? then Bad(SchemaValidation) else
    var _ :- Known(item.entries, [ALG, SIG]);
    var alg :- StringAt(item.entries, ALG);
    var sig :- StringAt(item.entries, SIG);
    Good(Signature(alg, sig))
  }

  function ParseSignatureItems(items: seq<Json>, parsed: seq<Signature>): Checked<seq<Signature>> {
    if items == [] then Good(parsed) else
    var s :- ParseSignature(items[0]);
    ParseSignatureItems(items[1..], parsed + [s])
  }

  function ParseSignatures(v: Option<Json>): Checked<seq<Signature>> {
    match v
    case Some(Arr(items)) => if items == [] then Bad(SchemaValidation) else ParseSignatureItems(items, [])
    case _ => Bad(SchemaValidation)
  }

  method SignaturesLoop(v: Option<Json>) returns (r: Checked<seq<Signature>>)
    ensures r == ParseSignatures(v)
  {
    if v.None? || !v.value.Arr? || v.value.items == [] {
      return Bad(SchemaValidation);
    }
    var items := v.value.items;
    var parsed: seq<Signature> := [];
    for i := 0 to |items|
      invariant ParseSignatureItems(items, []) == ParseSignatureItems(items[i..], parsed)
    {
      assert items[i..][1..] == items[i + 1..];
      var signature := ParseSignature(items[i]);
      if signature.Bad? {
        return Bad(signature.reason);
      }
      parsed := parsed + [signature.value];
    }
    return Good(parsed);
  }

  function ParsePayload(v: Option<Json>): Checked<seq<ToolCall>> {
    match v
    case Some(Obj(es)) =>
      if ReservedScan(v.value) then Bad(NonDeterministicInput) else
      var _ :- Known(es, [TOOL_CALLS]);
      ParseToolCalls(Fetch(es, TOOL_CALLS))
    case _ => Bad(SchemaValidation)
  }

  function ParseTrust(p: Platform, v: Option<Json>, payload: Text): Checked<Option<Trust>> {
    match v
    case None => Good(None)
    case Some(Obj(es)) =>
      var _ :- Known(es, TRUST_KEYS);
      var version, keyId, publicKey, signature :=
        StringAt(es, KEY_VERSION), StringAt(es, KEY_ID), StringAt(es, PUBLIC_KEY), StringAt(es, SIGNATURE);
      if version.Bad? || keyId.Bad? || publicKey.Bad? || signature.Bad? then Bad(InvalidPolicySignature)
      else if p.deriveKeyId(publicKey.value) != keyId.value then Bad(PolicyKeyIdMismatch)
      else if version.value != Ascii(TRUST_KEY_VERSION) || !p.verifyPolicy(publicKey.value, payload, signature.value)
      then Bad(InvalidPolicySignature)
      else Good(Some(Trust(version.value, keyId.value, publicKey.value, signature.value)))
    case _ => Bad(InvalidPolicySignature)
  }

  // ----- the whole check

  /** The parts whose values come from loops, checked in source order. */
  datatype Lists = Lists(toolCalls: seq<ToolCall>, parameters: Option<Json>, signatures: seq<Signature>, orbitCalls: seq<ToolCall>)

  function ListsOf(s: Shape): Checked<Lists> {
    var toolCalls :- ParseToolCalls(Fetch(s.request, TOOL_CALLS));
    var parameters :- ParseParameters(Fetch(s.request, PARAMETERS));
    var signatures :- ParseSignatures(Fetch(s.orbit, SIGNATURES));
    var orbitCalls :- ParsePayload(Fetch(s.orbit, PAYLOAD));
    Good(Lists(toolCalls, parameters, signatures, orbitCalls))
  }

  function RulesOf(checks: seq<Checked<SafeInt>>, f: Flags): Rules
    requires |checks| == 13 && AllGood(checks)
  {
    Rules(checks[7].value, f.allowAutoScale, checks[8].value, checks[9].value, checks[10].value, checks[11].value)
  }

  function Build(t: Strings, l: Lists, n: seq<Checked<SafeInt>>, f: Flags, trust: Option<Trust>): ExecutionInput
    requires |n| == 13 && AllGood(n)
  {
    ExecutionInput(
      t.requestId, t.region, t.userId,
      Resources(t.gpuType, n[0].value, n[1].value),
      Execution(f.autoScale, n[2].value, f.retryOnFail, n[12].value),
      l.toolCalls, l.parameters,
      OrbitIntent(t.orbitVersion, t.action, t.boundary, l.orbitCalls, t.lifecycleState, l.signatures),
      ReleaseRequest(t.executionId, t.holdState, f.alreadyConsumed),
      RuntimeObservation(f.killSwitch, n[4].value, n[5].value, n[6].value),
      t.budgetToken,
      PolicyDocument(t.schemaVersion, t.policyVersion, trust, RulesOf(n, f)),
      n[3].value)
  }

  function Validate(p: Platform, root: seq<Entry>): Checked<ExecutionInput> {
    var s :- ShapeOf(root);
    var t :- StringsOf(s);
    var l :- ListsOf(s);
    FinishValidation(p, s, t, l)
  }

  function FinishValidation(p: Platform, s: Shape, t: Strings, l: Lists): Checked<ExecutionInput> {
    var n := NumericChecks(s);
    if NumericReason(n, None).Some? then Bad(NumericReason(n, None).value) else
    NumericReasonExact(n, None);
    var f :- FlagsOf(s);
    if t.policyVersion != Ascii(PINNED_POLICY_VERSION) then Bad(PolicyVersionMismatch) else
    var trust :- ParseTrust(p, Fetch(s.policy, TRUST), PolicyPayload(t.schemaVersion, t.policyVersion, RulesOf(n, f)));
    Good(Build(t, l, n, f, trust))
  }

  datatype TypedFailure = TypedFailure(requestHash: Text, decisionHash: Text, reason: Reason)
  datatype PreflightResult = Accepted(envelope: Envelope) | Rejected(failure: TypedFailure)

  function Failed(p: Platform, requestHash: Text, reason: Reason): PreflightResult {
    var body := Record([(REQUEST_HASH, Str(requestHash)), (DECISION, DecisionText(REFUSE)), (REASON_CODE, ReasonText(reason))]);
    Rejected(TypedFailure(requestHash, p.sha256(Canonicalize(body)), reason))
  }

  function FailureCode(reason: FailureReason): Reason {
    match reason
    case DuplicateKeys => DuplicateJsonKeys
    case InvalidNumber => InvalidJsonNumber
    case InvalidSyntax => InvalidJsonSyntax
  }

  function PolicyHash(p: Platform, policy: PolicyDocument): Text {
    p.sha256(PolicyPayload(policy.schemaVersion, policy.policyVersion, policy.rules))
  }

  function RunPreflight(p: Platform, raw: Text): PreflightResult {
    match Parse(raw)
    case Failure(e) => Failed(p, p.sha256(raw), FailureCode(e))
    case Success(v) =>
      if !v.Obj? then Failed(p, p.sha256(raw), SchemaValidation) else
      var canonical := Canonicalize(v);
      match Validate(p, v.entries)
      case Bad(reason) => Failed(p, p.sha256(canonical), reason)
      case Good(input) => Accepted(Envelope(canonical, p.sha256(canonical), PolicyHash(p, input.policy), input))
  }

  method RunStrictPreflight(p: Platform, raw: Text) returns (r: PreflightResult)
    ensures r == RunPreflight(p, raw)
  {
    var parsed := ParseStrictJson(raw);
    if parsed.Failure? {
      return Failed(p, p.sha256(raw), FailureCode(parsed.reason));
    }
    if !parsed.value.Obj? {
      return Failed(p, p.sha256(raw), SchemaValidation);
    }
    var canonical := Canonicalize(parsed.value);
    var requestHash := p.sha256(canonical);
    var shape := ShapeOf(parsed.value.entries);
    if shape.Bad? {
      return Failed(p, requestHash, shape.reason);
    }
    var s := shape.value;
    var strings := StringsOf(s);
    if strings.Bad? {
      return Failed(p, requestHash, strings.reason);
    }
    var toolCalls := ToolCallsLoop(Fetch(s.request, TOOL_CALLS));
    if toolCalls.Bad? {
      return Failed(p, requestHash, toolCalls.reason);
    }
    var parameters := ParseParameters(Fetch(s.request, PARAMETERS));
    if parameters.Bad? {
      return Failed(p, requestHash, parameters.reason);
    }
    var signatures := SignaturesLoop(Fetch(s.orbit, SIGNATURES));
    if signatures.Bad? {
      return Failed(p, requestHash, signatures.reason);
    }
    var orbitCalls := ParsePayload(Fetch(s.orbit, PAYLOAD));
    if orbitCalls.Bad? {
      return Failed(p, requestHash, orbitCalls.reason);
    }
    var lists := Lists(toolCalls.value, parameters.value, signatures.value, orbitCalls.value);
    var numeric := FirstNumericReason(NumericChecks(s));
    if numeric.Some? {
      return Failed(p, requestHash, numeric.value);
    }
    var input := FinishValidation(p, s, strings.value, lists);
    match input {
      case Bad(reason) => return Failed(p, requestHash, reason);
      case Good(built) => return Accepted(Envelope(canonical, requestHash, PolicyHash(p, built.policy), built));
    }
  }

  lemma AcceptedParts(p: Platform, raw: Text) returns (root: seq<Entry>, s: Shape, t: Strings, l: Lists)
    requires RunPreflight(p, raw).Accepted?
    ensures Parse(raw) == Success(Obj(root)) && RunPreflight(p, raw).envelope.canonicalInput == Canonicalize(Obj(root))
    ensures ShapeOf(root) == Good(s) && StringsOf(s) == Good(t) && ListsOf(s) == Good(l)
    ensures FinishValidation(p, s, t, l) == Validate(p, root) == Good(RunPreflight(p, raw).envelope.input)
  {
    root := Parse(raw).value.entries;
    s := ShapeOf(root).value;
    t := StringsOf(s).value;
    l := ListsOf(s).value;
  }

  predicate InRange(x: ExecutionInput) {
    x.resources.gpuCount >= 1 && x.resources.hours >= 1 && x.gpuHourCents >= 1 &&
    x.execution.maxScaleMultiplier >= 1 && x.execution.maxRetries >= 0 && x.policy.rules.maxTotalCostCents >= 1 &&
    x.runtime.actualTotalCostCents >= 0
  }

  lemma ChecksInRange(s: Shape)
    requires AllGood(NumericChecks(s))
    ensures var n := NumericChecks(s);
            n[0].value >= 1 && n[1].value >= 1 && n[2].value >= 1 && n[3].value >= 1 && n[6].value >= 0 &&
            n[7].value >= 1 && n[12].value >= 0
  {
    hide ValidateInteger, Fetch;
    var n := NumericChecks(s);
    assert n[0].Good? && n[1].Good? && n[2].Good? && n[3].Good? && n[6].Good? && n[7].Good? && n[12].Good?;
  }

  lemma BuiltInRange(t: Strings, l: Lists, n: seq<Checked<SafeInt>>, f: Flags, trust: Option<Trust>)
    requires |n| == 13 && AllGood(n)
    requires n[0].value >= 1 && n[1].value >= 1 && n[2].value >= 1 && n[3].value >= 1 && n[6].value >= 0 &&
             n[7].value >= 1 && n[12].value >= 0
    ensures InRange(Build(t, l, n, f, trust))
  {
  }

  lemma FinishedParts(p: Platform, s: Shape, t: Strings, l: Lists) returns (f: Flags, trust: Option<Trust>)
    requires FinishValidation(p, s, t, l).Good?
    ensures var n := NumericChecks(s);
            AllGood(n) && FlagsOf(s) == Good(f) && t.policyVersion == Ascii(PINNED_POLICY_VERSION) &&
            ParseTrust(p, Fetch(s.policy, TRUST), PolicyPayload(t.schemaVersion, t.policyVersion, RulesOf(n, f))) == Good(trust) &&
            FinishValidation(p, s, t, l) == Good(Build(t, l, n, f, trust))
  {
    var n := NumericChecks(s);
    NumericReasonExact(n, None);
    f := FlagsOf(s).value;
    trust := ParseTrust(p, Fetch(s.policy, TRUST), PolicyPayload(t.schemaVersion, t.policyVersion, RulesOf(n, f))).value;
  }

  lemma FinishedInRange(p: Platform, s: Shape, t: Strings, l: Lists)
    requires FinishValidation(p, s, t, l).Good?
    ensures InRange(FinishValidation(p, s, t, l).value)
  {
    var f, trust := FinishedParts(p, s, t, l);
    ChecksInRange(s);
    BuiltInRange(t, l, NumericChecks(s), f, trust);
  }

  /** The numbers of an accepted request are in the ranges the cost computation relies on. */
  lemma AcceptedInRange(p: Platform, raw: Text)
    requires RunPreflight(p, raw).Accepted?
    ensures InRange(RunPreflight(p, raw).envelope.input)
  {
    var root, s, t, l := AcceptedParts(p, raw);
    FinishedInRange(p, s, t, l);
  }
}
