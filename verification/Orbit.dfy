/** orbit/engine.ts: intent validation. The text predicates of the platform stand for its normalising matchers. */
module Orbit {
  import opened Units
  import opened JsonValues
  import opened Canonical
  import opened Fields
  import opened Contracts
  import opened DeepScan
  import opened PreflightReplay

  function ParametersList(p: Option<Json>): seq<Json> {
    match p case None => [] case Some(v) => [v]
  }

  function ParametersOf(c: ToolCall): seq<Json> {
    ParametersList(c.parameters)
  }

  function CallParameters(cs: seq<ToolCall>): seq<Json> {
    if cs == [] then [] else ParametersOf(cs[0]) + CallParameters(cs[1..])
  }

  /** intentParameterObjects: request parameters, then those of the tool calls, then those of the intent's tool calls. */
  function IntentParameters(x: ExecutionInput): seq<Json> {
    ParametersList(x.parameters) + CallParameters(x.toolCalls) + CallParameters(x.orbitIntent.toolCalls)
  }

  predicate SomeCallHas(cs: seq<ToolCall>, v: Json) {
    exists i :: 0 <= i < |cs| && cs[i].parameters == Some(v)
  }

  /** The three places for parameters: the request itself, its tool calls, and the tool calls of its intent. */
  predicate IsIntentParameter(x: ExecutionInput, v: Json) {
    x.parameters == Some(v) || SomeCallHas(x.toolCalls, v) || SomeCallHas(x.orbitIntent.toolCalls, v)
  }

  lemma {:induction false} CallParametersExact(cs: seq<ToolCall>, v: Json)
    ensures v in CallParameters(cs) <==> SomeCallHas(cs, v)
  {
    if cs != [] {
      CallParametersExact(cs[1..], v);
      assert cs[0].parameters == Some(v) ==> SomeCallHas(cs, v);
      assert forall i :: 0 <= i < |cs[1..]| ==> cs[1..][i] == cs[i + 1];
    }
  }

  /** What Orbit looks at is what stands in one of the three places, no more and no less. */
  lemma IntentParametersExact(x: ExecutionInput, v: Json)
    ensures v in IntentParameters(x) <==> IsIntentParameter(x, v)
  {
    hide CallParameters, SomeCallHas;
    CallParametersExact(x.toolCalls, v);
    CallParametersExact(x.orbitIntent.toolCalls, v);
  }

  /** The loop over a list of tool calls that pushes their parameter objects. */
  method PushCallParameters(cs: seq<ToolCall>, before: seq<Json>) returns (parameters: seq<Json>)
    ensures parameters == before + CallParameters(cs)
  {
    parameters := before;
    for i := 0 to |cs|
      invariant parameters + CallParameters(cs[i..]) == before + CallParameters(cs)
    {
      assert cs[i..][1..] == cs[i + 1..];
      if cs[i].parameters.Some? { parameters := parameters + [cs[i].parameters.value]; }
    }
    assert cs[|cs|..] == [] && parameters + [] == parameters;
  }

  method IntentParameterObjects(x: ExecutionInput) returns (parameters: seq<Json>)
    ensures parameters == IntentParameters(x)
    ensures forall v :: v in parameters <==> IsIntentParameter(x, v)
  {
    hide SomeCallHas, IntentParameters, CallParameters;
    parameters := [];
    if x.parameters.Some? { parameters := parameters + [x.parameters.value]; }
    parameters := PushCallParameters(x.toolCalls, parameters);
    parameters := PushCallParameters(x.orbitIntent.toolCalls, parameters);
    assert parameters == IntentParameters(x) by { PartsOfIntent(x); }
    forall v ensures v in parameters <==> IsIntentParameter(x, v) { IntentParametersExact(x, v); }
  }

  lemma PartsOfIntent(x: ExecutionInput)
    ensures IntentParameters(x) == ParametersList(x.parameters) + CallParameters(x.toolCalls) + CallParameters(x.orbitIntent.toolCalls)
  {
  }

  predicate NamesSeveralActions(p: Platform, cs: seq<ToolCall>) {
    |cs| > 1 && exists i :: 0 <= i < |cs| && p.namesAction(cs[i].tool)
  }

  predicate AnyMarkers(p: Platform, vs: seq<Json>) {
    exists i :: 0 <= i < |vs| && CountMarkers(p, vs[i]) > 0
  }

  predicate AnyUnsafe(p: Platform, vs: seq<Json>) {
    exists i :: 0 <= i < |vs| && p.isUnsafeText(Canonicalize(vs[i]))
  }

  predicate HasMultipleActions(p: Platform, x: ExecutionInput) {
    NamesSeveralActions(p, x.toolCalls) || AnyMarkers(p, IntentParameters(x))
  }

  predicate ToolCallsEqual(a: seq<ToolCall>, b: seq<ToolCall>) {
    Canonicalize(ToolCallsJson(a)) == Canonicalize(ToolCallsJson(b))
  }

  const ORBIT_2: Name := "2.0"
  const ARMED: Name := "ARMED"

  predicate WrongVersion(x: ExecutionInput) {
    x.orbitIntent.orbitVersion != Ascii(ORBIT_2) || x.orbitIntent.lifecycleState != Ascii(ARMED)
  }

  function RunStrictOrbit(p: Platform, x: ExecutionInput): OrbitTrace {
    var hash := p.sha256(Canonicalize(OrbitIntentJson(x.orbitIntent)));
    if WrongVersion(x) then OrbitTrace(REFUSE, ToolCallSequence, hash)
    else if HasMultipleActions(p, x) then OrbitTrace(REFUSE, OrbitMultipleActions, hash)
    else if AnyUnsafe(p, IntentParameters(x)) then OrbitTrace(REFUSE, ForbiddenActionInParameters, hash)
    else if !ToolCallsEqual(x.toolCalls, x.orbitIntent.toolCalls) then OrbitTrace(REFUSE, ToolCallSequence, hash)
    else OrbitTrace(ALLOW, OkOrbit, hash)
  }

  // ----- independence from key order

  predicate EntryQuiet(p: Platform, e: Entry) {
    FieldMarkers(p, e) == 0 && CountMarkers(p, e.value) == 0
  }

  lemma {:induction false} MarkersNorm(p: Platform, v: Json)
    requires WellFormed(v)
    ensures CountMarkers(p, v) == 0 <==> CountMarkers(p, Norm(v)) == 0
    decreases v, 1
  {
    match v
    case Arr(items) =>
      CountItemsZero(p, items);
      CountItemsZero(p, NormItems(items));
      forall i | 0 <= i < |items| ensures CountMarkers(p, items[i]) == 0 <==> CountMarkers(p, NormItems(items)[i]) == 0 {
        NormItemsAt(items, i);
        MarkersNorm(p, items[i]);
      }
    case Obj(es) => EntriesNorm(p, es);
    case _ =>
  }

  lemma {:induction false} EntryNorm(p: Platform, es: seq<Entry>, k: Text, i: nat)
    requires WellFormed(Obj(es)) && i < |es|
    ensures EntryQuiet(p, Entry(k, Norm(es[i].value))) <==> EntryQuiet(p, Entry(k, es[i].value))
    decreases es, 0
  {
    MarkersNorm(p, es[i].value);
  }

  lemma {:induction false} EntriesNorm(p: Platform, es: seq<Entry>)
    requires WellFormed(Obj(es))
    ensures CountInEntries(p, es) == 0 <==> CountInEntries(p, NormEntries(es, Sort(Keys(es)))) == 0
    decreases es, 1
  {
    var ks := Sort(Keys(es));
    var fs := NormEntries(es, ks);
    SortedKeys(es);
    EntriesQuiet(p, es);
    EntriesQuiet(p, fs);
    forall j | 0 <= j < |fs| ensures EntryQuiet(p, fs[j]) <==> EntryQuiet(p, es[IndexOf(es, ks[j])]) {
      NormEntriesAt(es, ks, j);
      EntryNorm(p, es, ks[j], IndexOf(es, ks[j]));
    }
    forall i | 0 <= i < |es| && !EntryQuiet(p, es[i]) ensures CountInEntries(p, fs) != 0 {
      assert HasKey(es, es[i].key);
      var j :| 0 <= j < |ks| && ks[j] == es[i].key;
      IndexUnique(es, i);
      assert !EntryQuiet(p, fs[j]);
    }
  }

  lemma EntriesQuiet(p: Platform, es: seq<Entry>)
    ensures CountInEntries(p, es) == 0 <==> forall i :: 0 <= i < |es| ==> EntryQuiet(p, es[i])
  {
    CountEntriesZero(p, es);
  }

  lemma OptSamePrints(p: Platform, v: Json, w: Json)
    requires OptSame(Some(v), Some(w))
    ensures Canonicalize(v) == Canonicalize(w)
    ensures CountMarkers(p, v) > 0 <==> CountMarkers(p, w) > 0
  {
    NormIdempotent(v);
    NormIdempotent(w);
    MarkersNorm(p, v);
    MarkersNorm(p, w);
  }

  lemma {:induction false} CallParametersSame(a: seq<ToolCall>, b: seq<ToolCall>)
    requires CallsSame(a, b)
    ensures var v, w := CallParameters(a), CallParameters(b);
            |v| == |w| && forall i :: 0 <= i < |v| ==> OptSame(Some(v[i]), Some(w[i]))
  {
    if a != [] {
      assert CallSame(a[0], b[0]);
      CallParametersSame(a[1..], b[1..]);
    }
  }

  lemma CallPrintsSame(p: Platform, c: ToolCall, d: ToolCall)
    requires CallSame(c, d)
    ensures Canonicalize(ToolCallJson(c)) == Canonicalize(ToolCallJson(d))
  {
    if c.parameters.Some? { OptSamePrints(p, c.parameters.value, d.parameters.value); }
    RecordPrintsByParts(CallFields(c), CallFields(d));
  }

  lemma CallsPrintSame(p: Platform, a: seq<ToolCall>, b: seq<ToolCall>)
    requires CallsSame(a, b)
    ensures Canonicalize(ToolCallsJson(a)) == Canonicalize(ToolCallsJson(b))
  {
    forall i | 0 <= i < |a| ensures Canonicalize(ToolCallJson(a[i])) == Canonicalize(ToolCallJson(b[i])) {
      assert CallSame(a[i], b[i]);
      CallPrintsSame(p, a[i], b[i]);
    }
    ItemsByParts(ToolCallsJson(a).items, ToolCallsJson(b).items);
  }

  lemma IntentPrintsSame(p: Platform, a: OrbitIntent, b: OrbitIntent)
    requires CallsSame(a.toolCalls, b.toolCalls) && a.(toolCalls := b.toolCalls) == b
    ensures Canonicalize(OrbitIntentJson(a)) == Canonicalize(OrbitIntentJson(b))
  {
    CallsPrintSame(p, a.toolCalls, b.toolCalls);
    RecordPrintsByParts(IntentPayload(a), IntentPayload(b));
    RecordPrintsByParts(IntentFields(a), IntentFields(b));
  }

  lemma ParametersSame(p: Platform, x: ExecutionInput, y: ExecutionInput)
    requires SameInput(x, y)
    ensures var v, w := IntentParameters(x), IntentParameters(y);
            |v| == |w| && forall i :: 0 <= i < |v| ==>
              Canonicalize(v[i]) == Canonicalize(w[i]) && (CountMarkers(p, v[i]) > 0 <==> CountMarkers(p, w[i]) > 0)
  {
    hide Canonicalize, CountMarkers, CallsSame, CallParameters;
    CallParametersSame(x.toolCalls, y.toolCalls);
    CallParametersSame(x.orbitIntent.toolCalls, y.orbitIntent.toolCalls);
    var v, w := IntentParameters(x), IntentParameters(y);
    forall i | 0 <= i < |v| ensures Canonicalize(v[i]) == Canonicalize(w[i]) && (CountMarkers(p, v[i]) > 0 <==> CountMarkers(p, w[i]) > 0) {
      assert OptSame(Some(v[i]), Some(w[i]));
      OptSamePrints(p, v[i], w[i]);
    }
  }

  /** Orbit's trace, hash included, is the same for requests that differ only in key order. */
  lemma OrbitIsOrderFree(p: Platform, x: ExecutionInput, y: ExecutionInput)
    requires SameInput(x, y)
    ensures RunStrictOrbit(p, x) == RunStrictOrbit(p, y)
  {
    hide Canonicalize, CountMarkers, OptSame, ToolCallsJson, OrbitIntentJson;
    ParametersSame(p, x, y);
    IntentPrintsSame(p, x.orbitIntent, y.orbitIntent);
    CallsPrintSame(p, x.toolCalls, y.toolCalls);
    CallsPrintSame(p, x.orbitIntent.toolCalls, y.orbitIntent.toolCalls);
    forall i | 0 <= i < |x.toolCalls| ensures x.toolCalls[i].tool == y.toolCalls[i].tool {
      assert CallSame(x.toolCalls[i], y.toolCalls[i]);
    }
  }

  // ----- what the comparison of tool calls means

  lemma ToolCallJsonWellFormed(c: ToolCall)
    requires c.parameters.Some? ==> WellFormed(c.parameters.value)
    ensures WellFormed(ToolCallJson(c))
  {
    RecordWellFormed(CallFields(c));
  }

  lemma EquivalentCalls(c: ToolCall, d: ToolCall)
    requires c.parameters.Some? ==> WellFormed(c.parameters.value)
    requires d.parameters.Some? ==> WellFormed(d.parameters.value)
    requires Equivalent(ToolCallJson(c), ToolCallJson(d))
    ensures CallSame(c, d)
  {
    var a, b := CallFields(c), CallFields(d);
    RecordsAgree(a, b, 0);
    RecordsAgree(a, b, 1);
    assert |a| == |b|;
    if c.parameters.Some? {
      RecordsAgree(a, b, 2);
      CompleteInvariant(c.parameters.value, d.parameters.value);
      RoundTrip(c.parameters.value);
      RoundTrip(d.parameters.value);
    }
  }

  predicate CallsWellFormed(cs: seq<ToolCall>) {
    forall i :: 0 <= i < |cs| ==> (cs[i].parameters.Some? ==> WellFormed(cs[i].parameters.value))
  }

  /** The intent's tool calls match exactly when they are the request's, one by one, up to key order in parameters. */
  lemma ToolCallsEqualExact(p: Platform, a: seq<ToolCall>, b: seq<ToolCall>)
    requires CallsWellFormed(a) && CallsWellFormed(b)
    ensures ToolCallsEqual(a, b) <==> CallsSame(a, b)
  {
    if CallsSame(a, b) { CallsPrintSame(p, a, b); }
    if ToolCallsEqual(a, b) {
      forall i | 0 <= i < |a| ensures WellFormed(ToolCallJson(a[i])) { ToolCallJsonWellFormed(a[i]); }
      forall i | 0 <= i < |b| ensures WellFormed(ToolCallJson(b[i])) { ToolCallJsonWellFormed(b[i]); }
      CompleteInvariant(ToolCallsJson(a), ToolCallsJson(b));
      forall i | 0 <= i < |a| ensures CallSame(a[i], b[i]) {
        assert ToolCallsJson(a).items[i] == ToolCallJson(a[i]) && ToolCallsJson(b).items[i] == ToolCallJson(b[i]);
        EquivalentCalls(a[i], b[i]);
      }
    }
  }
}
