/**
 Preflight does not depend on key order: a request that is accepted stays accepted, with the same hashes and the
 same meaning, when its keys are reordered or its text is replaced by the canonical one.
 */
module PreflightReplay {
  import opened Units
  import opened JsonValues
  import opened StrictParser
  import opened ParserLanguage
  import opened Canonical
  import opened Fields
  import opened Contracts
  import opened DeepScan
  import opened Preflight

  /** `w` is `v` with keys reordered and possibly some negative zeros replaced by zero. */
  predicate Tidier(v: Json, w: Json) {
    match (v, w)
    case (Null, Null) => true
    case (Bool(a), Bool(b)) => a == b
    case (Num(a), Num(b)) => a == b
    case (NegZero, Num(b)) => b == 0
    case (NegZero, NegZero) => true
    case (Str(a), Str(b)) => a == b
    case (Arr(a), Arr(b)) => |a| == |b| && forall i :: 0 <= i < |a| ==> Tidier(a[i], b[i])
    case (Obj(a), Obj(b)) =>
      |a| == |b| &&
      (forall i :: 0 <= i < |a| ==> HasKey(b, a[i].key)) &&
      forall i, j :: 0 <= i < |a| && 0 <= j < |b| && a[i].key == b[j].key ==> Tidier(a[i].value, b[j].value)
    case _ => false
  }

  lemma {:induction false} TidierEquivalent(v: Json, w: Json)
    requires Tidier(v, w)
    ensures Equivalent(v, w)
  {
    match v
    case Arr(items) =>
      forall i | 0 <= i < |items| ensures Equivalent(items[i], w.items[i]) { TidierEquivalent(items[i], w.items[i]); }
    case Obj(es) =>
      forall i, j | 0 <= i < |es| && 0 <= j < |w.entries| && es[i].key == w.entries[j].key
        ensures Equivalent(es[i].value, w.entries[j].value)
      {
        TidierEquivalent(es[i].value, w.entries[j].value);
      }
    case _ =>
  }

  lemma {:induction false} NormTidier(v: Json)
    requires WellFormed(v)
    ensures Tidier(v, Norm(v))
  {
    match v
    case Arr(items) =>
      forall i | 0 <= i < |items| ensures Tidier(items[i], NormItems(items)[i]) {
        NormItemsAt(items, i);
        NormTidier(items[i]);
      }
    case Obj(es) =>
      var ks := Sort(Keys(es));
      var fs := NormEntries(es, ks);
      SortedKeys(es);
      forall i | 0 <= i < |es| ensures HasKey(fs, es[i].key) { NormGet(es, es[i].key); }
      forall i, j | 0 <= i < |es| && 0 <= j < |fs| && es[i].key == fs[j].key ensures Tidier(es[i].value, fs[j].value) {
        NormEntriesAt(es, ks, j);
        IndexUnique(es, i);
        NormTidier(es[i].value);
      }
    case _ =>
  }

  /** Tidier values have the same normal form. */
  lemma TidierSameNorm(v: Json, w: Json)
    requires WellFormed(v) && WellFormed(w) && Tidier(v, w)
    ensures Norm(v) == Norm(w) && Canonicalize(v) == Canonicalize(w)
  {
    TidierEquivalent(v, w);
    CompleteInvariant(v, w);
    RoundTrip(v);
    RoundTrip(w);
  }

  // ----- what a request means

  /** Both absent, or two values with the same normal form. */
  predicate OptSame(v: Option<Json>, w: Option<Json>) {
    match (v, w)
    case (None, None) => true
    case (Some(a), Some(b)) => WellFormed(a) && WellFormed(b) && Norm(a) == Norm(b)
    case _ => false
  }

  predicate CallSame(c: ToolCall, d: ToolCall) {
    c.tool == d.tool && c.priority == d.priority && OptSame(c.parameters, d.parameters)
  }

  predicate CallsSame(cs: seq<ToolCall>, ds: seq<ToolCall>) {
    |cs| == |ds| && forall i :: 0 <= i < |cs| ==> CallSame(cs[i], ds[i])
  }

  /** Two parsed requests that differ at most in the key order and signs of zero inside parameter objects. */
  predicate SameInput(x: ExecutionInput, y: ExecutionInput) {
    CallsSame(x.toolCalls, y.toolCalls) && OptSame(x.parameters, y.parameters) &&
    CallsSame(x.orbitIntent.toolCalls, y.orbitIntent.toolCalls) &&
    x.(toolCalls := y.toolCalls, parameters := y.parameters,
       orbitIntent := x.orbitIntent.(toolCalls := y.orbitIntent.toolCalls)) == y
  }

  // ----- single fields

  predicate Related(es: seq<Entry>, fs: seq<Entry>) {
    WellFormed(Obj(es)) && WellFormed(Obj(fs)) && Tidier(Obj(es), Obj(fs))
  }

  predicate OptTidier(v: Option<Json>, w: Option<Json>) {
    match (v, w)
    case (None, None) => true
    case (Some(a), Some(b)) => WellFormed(a) && WellFormed(b) && Tidier(a, b)
    case _ => false
  }

  lemma FetchRelated(es: seq<Entry>, fs: seq<Entry>, name: Name)
    requires Related(es, fs)
    ensures OptTidier(Fetch(es, name), Fetch(fs, name))
  {
    SameKeys(es, fs);
  }

  lemma KnownRelated(es: seq<Entry>, fs: seq<Entry>, allowed: seq<Name>)
    requires Related(es, fs) && Known(es, allowed).Good?
    ensures Known(fs, allowed) == Good(())
  {
    KnownExact(es, allowed);
    SameKeys(es, fs);
    forall i | 0 <= i < |fs| ensures IsAllowed(fs[i].key, allowed) {
      assert HasKey(fs, fs[i].key);
      assert es[IndexOf(es, fs[i].key)].key == fs[i].key;
    }
    KnownExact(fs, allowed);
  }

  lemma RecordRelated(es: seq<Entry>, fs: seq<Entry>, name: Name)
    requires Related(es, fs) && RecordAt(es, name).Good?
    ensures RecordAt(fs, name).Good? && Related(RecordAt(es, name).value, RecordAt(fs, name).value)
  {
    FetchRelated(es, fs, name);
  }

  lemma StringRelated(es: seq<Entry>, fs: seq<Entry>, name: Name)
    requires Related(es, fs)
    ensures StringAt(fs, name) == StringAt(es, name)
  {
    FetchRelated(es, fs, name);
  }

  lemma BoolRelated(es: seq<Entry>, fs: seq<Entry>, name: Name)
    requires Related(es, fs)
    ensures BoolAt(fs, name) == BoolAt(es, name)
  {
    FetchRelated(es, fs, name);
  }

  lemma IntegerRelated(es: seq<Entry>, fs: seq<Entry>, name: Name, minimum: int, allowZero: bool)
    requires Related(es, fs) && ValidateInteger(Fetch(es, name), minimum, allowZero).Good?
    ensures ValidateInteger(Fetch(fs, name), minimum, allowZero) == ValidateInteger(Fetch(es, name), minimum, allowZero)
  {
    FetchRelated(es, fs, name);
  }

  // ----- shape and groups

  predicate SectionsRelated(c: Sections, d: Sections) {
    Related(c.actor, d.actor) && Related(c.resources, d.resources) && Related(c.execution, d.execution) &&
    Related(c.orbit, d.orbit) && Related(c.release, d.release) && Related(c.runtime, d.runtime)
  }

  predicate ShapeRelated(s: Shape, t: Shape) {
    Related(s.request, t.request) && Related(s.policy, t.policy) && Related(s.pricing, t.pricing) &&
    Related(s.actor, t.actor) && Related(s.resources, t.resources) && Related(s.execution, t.execution) &&
    Related(s.orbit, t.orbit) && Related(s.release, t.release) && Related(s.runtime, t.runtime) && Related(s.rules, t.rules)
  }

  lemma SectionsAgree(es: seq<Entry>, fs: seq<Entry>)
    requires Related(es, fs) && SectionsOf(es).Good?
    ensures SectionsOf(fs).Good? && SectionsRelated(SectionsOf(es).value, SectionsOf(fs).value)
  {
    RecordRelated(es, fs, ACTOR);
    RecordRelated(es, fs, RESOURCES);
    RecordRelated(es, fs, EXECUTION);
    RecordRelated(es, fs, ORBIT_INTENT);
    RecordRelated(es, fs, RELEASE_REQUEST);
    RecordRelated(es, fs, RUNTIME_OBSERVATION);
  }

  lemma SectionsKnownAgree(c: Sections, d: Sections)
    requires SectionsRelated(c, d) && SectionsKnown(c).Good?
    ensures SectionsKnown(d).Good?
  {
    KnownRelated(c.actor, d.actor, [USER_ID]);
    KnownRelated(c.resources, d.resources, RESOURCES_KEYS);
    KnownRelated(c.execution, d.execution, EXECUTION_KEYS);
    KnownRelated(c.orbit, d.orbit, ORBIT_KEYS);
    KnownRelated(c.release, d.release, RELEASE_KEYS);
    KnownRelated(c.runtime, d.runtime, RUNTIME_KEYS);
  }

  lemma RequestShapeAgrees(request: seq<Entry>, policy: seq<Entry>, pricing: seq<Entry>,
                           request': seq<Entry>, policy': seq<Entry>, pricing': seq<Entry>)
    requires Related(request, request') && Related(policy, policy') && Related(pricing, pricing')
    requires RequestShape(request, policy, pricing).Good?
    ensures RequestShape(request', policy', pricing').Good?
    ensures ShapeRelated(RequestShape(request, policy, pricing).value, RequestShape(request', policy', pricing').value)
  {
    SectionsAgree(request, request');
    SectionsKnownAgree(SectionsOf(request).value, SectionsOf(request').value);
    KnownRelated(pricing, pricing', [GPU_HOUR_CENTS]);
    KnownRelated(policy, policy', POLICY_KEYS);
    RecordRelated(policy, policy', RULES);
    KnownRelated(RecordAt(policy, RULES).value, RecordAt(policy', RULES).value, RULES_KEYS);
  }

  lemma ShapesAgree(es: seq<Entry>, fs: seq<Entry>)
    requires Related(es, fs) && ShapeOf(es).Good?
    ensures ShapeOf(fs).Good? && ShapeRelated(ShapeOf(es).value, ShapeOf(fs).value)
  {
    KnownRelated(es, fs, ROOT_KEYS);
    RecordRelated(es, fs, EXECUTION_REQUEST);
    RecordRelated(es, fs, POLICY_DOCUMENT);
    RecordRelated(es, fs, PRICING_DATA);
    KnownRelated(RecordAt(es, EXECUTION_REQUEST).value, RecordAt(fs, EXECUTION_REQUEST).value, REQUEST_KEYS);
    RequestShapeAgrees(RecordAt(es, EXECUTION_REQUEST).value, RecordAt(es, POLICY_DOCUMENT).value, RecordAt(es, PRICING_DATA).value,
                       RecordAt(fs, EXECUTION_REQUEST).value, RecordAt(fs, POLICY_DOCUMENT).value, RecordAt(fs, PRICING_DATA).value);
  }

  lemma StringFieldsAgree(s: Shape, t: Shape)
    requires ShapeRelated(s, t)
    ensures StringFields(t) == StringFields(s)
  {
    StringRelated(s.request, t.request, REQUEST_ID);
    StringRelated(s.request, t.request, SUBMITTED_REGION);
    StringRelated(s.actor, t.actor, USER_ID);
    StringRelated(s.resources, t.resources, GPU_TYPE);
    StringRelated(s.release, t.release, EXECUTION_ID);
    StringRelated(s.release, t.release, HOLD_STATE);
    StringRelated(s.orbit, t.orbit, ORBIT_VERSION);
    StringRelated(s.orbit, t.orbit, ACTION);
    StringRelated(s.orbit, t.orbit, BOUNDARY);
    StringRelated(s.orbit, t.orbit, LIFECYCLE_STATE);
    StringRelated(s.policy, t.policy, SCHEMA_VERSION);
    StringRelated(s.policy, t.policy, POLICY_VERSION);
  }

  lemma TokensAgree(es: seq<Entry>, fs: seq<Entry>)
    requires Related(es, fs)
    ensures TokenOf(Fetch(fs, BUDGET_TOKEN)) == TokenOf(Fetch(es, BUDGET_TOKEN))
  {
    FetchRelated(es, fs, BUDGET_TOKEN);
  }

  lemma StringsAgree(s: Shape, t: Shape)
    requires ShapeRelated(s, t)
    ensures StringsOf(t) == StringsOf(s)
  {
    StringFieldsAgree(s, t);
    TokensAgree(s.request, t.request);
  }

  lemma FlagsAgree(s: Shape, t: Shape)
    requires ShapeRelated(s, t)
    ensures FlagsOf(t) == FlagsOf(s)
  {
    BoolRelated(s.execution, t.execution, AUTO_SCALE);
    BoolRelated(s.execution, t.execution, RETRY_ON_FAIL);
    BoolRelated(s.release, t.release, ALREADY_CONSUMED);
    BoolRelated(s.runtime, t.runtime, KILL_SWITCH_ACTIVE);
    BoolRelated(s.rules, t.rules, ALLOW_AUTO_SCALE);
  }

  lemma ChecksAgree(s: Shape, t: Shape)
    requires ShapeRelated(s, t) && AllGood(NumericChecks(s))
    ensures NumericChecks(t) == NumericChecks(s)
  {
    var n := NumericChecks(s);
    assert n[0].Good? && n[1].Good? && n[2].Good? && n[3].Good? && n[4].Good? && n[5].Good? && n[6].Good?;
    assert n[7].Good? && n[8].Good? && n[9].Good? && n[10].Good? && n[11].Good? && n[12].Good?;
    IntegerRelated(s.resources, t.resources, GPU_COUNT, 1, false);
    IntegerRelated(s.resources, t.resources, HOURS, 1, false);
    IntegerRelated(s.execution, t.execution, MAX_SCALE_MULTIPLIER, 1, false);
    IntegerRelated(s.pricing, t.pricing, GPU_HOUR_CENTS, 1, false);
    IntegerRelated(s.runtime, t.runtime, ACTUAL_GPU_COUNT, 0, true);
    IntegerRelated(s.runtime, t.runtime, ACTUAL_HOURS, 0, true);
    IntegerRelated(s.runtime, t.runtime, ACTUAL_TOTAL_COST_CENTS, 0, true);
    IntegerRelated(s.rules, t.rules, MAX_TOTAL_COST_CENTS, 1, false);
    IntegerRelated(s.rules, t.rules, MAX_GPU_COUNT, 1, false);
    IntegerRelated(s.rules, t.rules, MAX_HOURS, 1, false);
    IntegerRelated(s.rules, t.rules, REQUIRE_MANUAL_APPROVAL_ABOVE_CENTS, 0, true);
    IntegerRelated(s.rules, t.rules, MAX_RETRY_COUNT, 0, true);
    IntegerRelated(s.execution, t.execution, MAX_RETRIES, 0, true);
  }

  // ----- lists

  lemma {:induction false} ReservedAgrees(v: Json, w: Json)
    requires WellFormed(v) && WellFormed(w) && Tidier(v, w) && !ReservedScan(v)
    ensures !ReservedScan(w)
    decreases v
  {
    match v
    case Arr(items) =>
      ReservedItemsAny(items);
      forall i | 0 <= i < |items| ensures !ReservedScan(w.items[i]) { ReservedAgrees(items[i], w.items[i]); }
      ReservedItemsAny(w.items);
    case Obj(es) =>
      var fs := w.entries;
      SameKeys(es, fs);
      ReservedEntriesAny(es);
      forall j | 0 <= j < |fs| ensures !IsReserved(fs[j].key) && !ReservedScan(fs[j].value) {
        assert HasKey(fs, fs[j].key);
        var i := IndexOf(es, fs[j].key);
        ReservedAgrees(es[i].value, fs[j].value);
      }
      ReservedEntriesAny(fs);
    case _ =>
  }

  lemma ParametersAgree(v: Option<Json>, w: Option<Json>)
    requires OptTidier(v, w) && ParseParameters(v).Good?
    ensures ParseParameters(w).Good? && OptSame(ParseParameters(v).value, ParseParameters(w).value)
  {
    if v.Some? {
      ReservedAgrees(v.value, w.value);
      TidierSameNorm(v.value, w.value);
    }
  }

  lemma ToolCallAgrees(v: Json, w: Json, seen: set<Text>)
    requires WellFormed(v) && WellFormed(w) && Tidier(v, w) && ParseToolCall(v, seen).Good?
    ensures ParseToolCall(w, seen).Good? && CallSame(ParseToolCall(v, seen).value, ParseToolCall(w, seen).value)
  {
    var es, fs := v.entries, w.entries;
    KnownRelated(es, fs, CALL_KEYS);
    StringRelated(es, fs, TOOL);
    IntegerRelated(es, fs, PRIORITY, 0, true);
    FetchRelated(es, fs, PARAMETERS);
    ParametersAgree(Fetch(es, PARAMETERS), Fetch(fs, PARAMETERS));
  }

  predicate ItemsTidier(a: seq<Json>, b: seq<Json>) {
    |a| == |b| && forall i :: 0 <= i < |a| ==> WellFormed(a[i]) && WellFormed(b[i]) && Tidier(a[i], b[i])
  }

  lemma {:induction false} CallsAgree(a: seq<Json>, b: seq<Json>, seen: set<Text>, done: seq<ToolCall>, done': seq<ToolCall>)
    requires ItemsTidier(a, b) && ParseCalls(a, seen, done).Good? && CallsSame(done, done')
    ensures ParseCalls(b, seen, done').Good?
    ensures CallsSame(ParseCalls(a, seen, done).value, ParseCalls(b, seen, done').value)
  {
    if a != [] {
      ToolCallAgrees(a[0], b[0], seen);
      var c, d := ParseToolCall(a[0], seen).value, ParseToolCall(b[0], seen).value;
      CallsAgree(a[1..], b[1..], seen + {c.tool}, done + [c], done' + [d]);
    }
  }

  lemma ToolCallsAgree(v: Option<Json>, w: Option<Json>)
    requires OptTidier(v, w) && ParseToolCalls(v).Good?
    ensures ParseToolCalls(w).Good? && CallsSame(ParseToolCalls(v).value, ParseToolCalls(w).value)
  {
    CallsAgree(v.value.items, w.value.items, {}, [], []);
  }

  lemma SignatureAgrees(v: Json, w: Json)
    requires WellFormed(v) && WellFormed(w) && Tidier(v, w) && ParseSignature(v).Good?
    ensures ParseSignature(w) == ParseSignature(v)
  {
    KnownRelated(v.entries, w.entries, [ALG, SIG]);
    StringRelated(v.entries, w.entries, ALG);
    StringRelated(v.entries, w.entries, SIG);
  }

  lemma {:induction false} SignatureItemsAgree(a: seq<Json>, b: seq<Json>, done: seq<Signature>)
    requires ItemsTidier(a, b) && ParseSignatureItems(a, done).Good?
    ensures ParseSignatureItems(b, done) == ParseSignatureItems(a, done)
  {
    if a != [] {
      SignatureAgrees(a[0], b[0]);
      SignatureItemsAgree(a[1..], b[1..], done + [ParseSignature(a[0]).value]);
    }
  }

  lemma PayloadAgrees(v: Option<Json>, w: Option<Json>)
    requires OptTidier(v, w) && ParsePayload(v).Good?
    ensures ParsePayload(w).Good? && CallsSame(ParsePayload(v).value, ParsePayload(w).value)
  {
    var es, fs := v.value.entries, w.value.entries;
    ReservedAgrees(v.value, w.value);
    KnownRelated(es, fs, [TOOL_CALLS]);
    FetchRelated(es, fs, TOOL_CALLS);
    ToolCallsAgree(Fetch(es, TOOL_CALLS), Fetch(fs, TOOL_CALLS));
  }

  predicate ListsRelated(l: Lists, m: Lists) {
    CallsSame(l.toolCalls, m.toolCalls) && OptSame(l.parameters, m.parameters) &&
    l.signatures == m.signatures && CallsSame(l.orbitCalls, m.orbitCalls)
  }

  lemma RequestListsAgree(es: seq<Entry>, fs: seq<Entry>)
    requires Related(es, fs) && ParseToolCalls(Fetch(es, TOOL_CALLS)).Good? && ParseParameters(Fetch(es, PARAMETERS)).Good?
    ensures var c, d := ParseToolCalls(Fetch(es, TOOL_CALLS)), ParseToolCalls(Fetch(fs, TOOL_CALLS));
            d.Good? && CallsSame(c.value, d.value)
    ensures var c, d := ParseParameters(Fetch(es, PARAMETERS)), ParseParameters(Fetch(fs, PARAMETERS));
            d.Good? && OptSame(c.value, d.value)
  {
    FetchRelated(es, fs, TOOL_CALLS);
    FetchRelated(es, fs, PARAMETERS);
    ToolCallsAgree(Fetch(es, TOOL_CALLS), Fetch(fs, TOOL_CALLS));
    ParametersAgree(Fetch(es, PARAMETERS), Fetch(fs, PARAMETERS));
  }

  lemma OrbitListsAgree(es: seq<Entry>, fs: seq<Entry>)
    requires Related(es, fs) && ParseSignatures(Fetch(es, SIGNATURES)).Good? && ParsePayload(Fetch(es, PAYLOAD)).Good?
    ensures ParseSignatures(Fetch(fs, SIGNATURES)) == ParseSignatures(Fetch(es, SIGNATURES))
    ensures var c, d := ParsePayload(Fetch(es, PAYLOAD)), ParsePayload(Fetch(fs, PAYLOAD));
            d.Good? && CallsSame(c.value, d.value)
  {
    FetchRelated(es, fs, SIGNATURES);
    FetchRelated(es, fs, PAYLOAD);
    SignatureItemsAgree(Fetch(es, SIGNATURES).value.items, Fetch(fs, SIGNATURES).value.items, []);
    PayloadAgrees(Fetch(es, PAYLOAD), Fetch(fs, PAYLOAD));
  }

  lemma ListsAgree(s: Shape, t: Shape)
    requires ShapeRelated(s, t) && ListsOf(s).Good?
    ensures ListsOf(t).Good? && ListsRelated(ListsOf(s).value, ListsOf(t).value)
  {
    RequestListsAgree(s.request, t.request);
    OrbitListsAgree(s.orbit, t.orbit);
  }

  lemma TrustAgrees(p: Platform, v: Option<Json>, w: Option<Json>, payload: Text)
    requires OptTidier(v, w) && ParseTrust(p, v, payload).Good?
    ensures ParseTrust(p, w, payload) == ParseTrust(p, v, payload)
  {
    if v.Some? {
      var es, fs := v.value.entries, w.value.entries;
      KnownRelated(es, fs, TRUST_KEYS);
      StringRelated(es, fs, KEY_VERSION);
      StringRelated(es, fs, KEY_ID);
      StringRelated(es, fs, PUBLIC_KEY);
      StringRelated(es, fs, SIGNATURE);
    }
  }

  // ----- the whole check

  lemma BuildAgrees(t: Strings, l: Lists, m: Lists, n: seq<Checked<SafeInt>>, f: Flags, trust: Option<Trust>)
    requires ListsRelated(l, m) && |n| == 13 && AllGood(n)
    ensures SameInput(Build(t, l, n, f, trust), Build(t, m, n, f, trust))
  {
  }

  lemma FinishAgrees(p: Platform, s: Shape, s': Shape, t: Strings, l: Lists, m: Lists)
    requires ShapeRelated(s, s') && ListsRelated(l, m) && FinishValidation(p, s, t, l).Good?
    ensures FinishValidation(p, s', t, m).Good?
    ensures SameInput(FinishValidation(p, s, t, l).value, FinishValidation(p, s', t, m).value)
  {
    var f, trust := FinishedParts(p, s, t, l);
    var n := NumericChecks(s);
    ChecksAgree(s, s');
    NumericReasonExact(n, None);
    FlagsAgree(s, s');
    FetchRelated(s.policy, s'.policy, TRUST);
    TrustAgrees(p, Fetch(s.policy, TRUST), Fetch(s'.policy, TRUST), PolicyPayload(t.schemaVersion, t.policyVersion, RulesOf(n, f)));
    BuildAgrees(t, l, m, n, f, trust);
  }

  lemma ValidateAgrees(p: Platform, es: seq<Entry>, fs: seq<Entry>)
    requires Related(es, fs) && Validate(p, es).Good?
    ensures Validate(p, fs).Good? && SameInput(Validate(p, es).value, Validate(p, fs).value)
  {
    var s := ShapeOf(es).value;
    ShapesAgree(es, fs);
    var s' := ShapeOf(fs).value;
    StringsAgree(s, s');
    ListsAgree(s, s');
    FinishAgrees(p, s, s', StringsOf(s).value, ListsOf(s).value, ListsOf(s').value);
  }

  /** Same canonical text, hashes, and request up to the order of keys in its parameters. */
  predicate SameRequest(e: Envelope, f: Envelope) {
    e.canonicalInput == f.canonicalInput && e.requestHash == f.requestHash && e.policyHash == f.policyHash &&
    SameInput(e.input, f.input)
  }

  lemma {:induction false} AcceptsTidier(p: Platform, raw: Text, e: Envelope, other: Text, w: Json)
    requires RunPreflight(p, raw) == Accepted(e) && Parse(other) == Success(w) && Tidier(Parse(raw).value, w)
    ensures RunPreflight(p, other).Accepted? && SameRequest(e, RunPreflight(p, other).envelope)
  {
    ParsedIsWellFormed(raw);
    ParsedIsWellFormed(other);
    var v := Parse(raw).value;
    TidierSameNorm(v, w);
    ValidateAgrees(p, v.entries, w.entries);
  }

  /** A text that differs from an accepted one only in white space, spelling and key order is accepted alike. */
  lemma AcceptanceIsOrderFree(p: Platform, raw: Text, other: Text, v: Json, w: Json)
    requires Parse(raw) == Success(v) && Parse(other) == Success(w) && Tidier(v, w) && Tidier(w, v)
    ensures RunPreflight(p, raw).Accepted? <==> RunPreflight(p, other).Accepted?
    ensures RunPreflight(p, raw).Accepted? && RunPreflight(p, other).Accepted? ==>
              SameRequest(RunPreflight(p, raw).envelope, RunPreflight(p, other).envelope)
  {
    if RunPreflight(p, raw).Accepted? { AcceptsTidier(p, raw, RunPreflight(p, raw).envelope, other, w); }
    if RunPreflight(p, other).Accepted? { AcceptsTidier(p, other, RunPreflight(p, other).envelope, raw, v); }
  }

  /** Preflight accepts its own canonical output as the same request. */
  lemma PreflightReplays(p: Platform, raw: Text, e: Envelope)
    requires RunPreflight(p, raw) == Accepted(e)
    ensures RunPreflight(p, e.canonicalInput).Accepted?
    ensures SameRequest(e, RunPreflight(p, e.canonicalInput).envelope)
  {
    ParsedIsWellFormed(raw);
    var v := Parse(raw).value;
    RoundTrip(v);
    NormTidier(v);
    AcceptsTidier(p, raw, e, Canonicalize(v), Norm(v));
  }
}
