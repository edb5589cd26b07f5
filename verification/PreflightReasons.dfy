/**
 Which reason a request gets that preflight refuses after parsing: that of the first requirement it violates, in one
 fixed order. The requirements are stated of the JSON value itself.
 */
module PreflightReasons {
  import opened Units
  import opened JsonValues
  import opened StrictParser
  import opened ParserLanguage
  import opened Canonical
  import opened Fields
  import opened Contracts
  import opened DeepScan
  import opened Preflight
  import opened PreflightReplay
  import opened Requests
  import opened Acceptance
  import opened Decisions

  // ----- requirements

  /** Property access on a value that may be absent or no object. */
  function Of(v: Option<Json>, name: Name): Option<Json> {
    match v case Some(Obj(es)) => Get(es, Ascii(name)) case _ => None
  }

  function EntriesOf(v: Option<Json>): seq<Entry> {
    match v case Some(Obj(es)) => es case _ => []
  }

  function ItemsOf(v: Option<Json>): seq<Json> {
    match v case Some(Arr(items)) => items case _ => []
  }

  predicate IsRecord(v: Option<Json>) {
    v.Some? && v.value.Obj?
  }

  predicate IsNonEmptyText(v: Option<Json>) {
    v.Some? && v.value.Str? && v.value.s != []
  }

  predicate IsFlag(v: Option<Json>) {
    v.Some? && v.value.Bool?
  }

  predicate IsMinusZero(v: Option<Json>) {
    v == Some(NegZero)
  }

  predicate IsInteger(v: Option<Json>, least: int) {
    v.Some? && v.value.Num? && v.value.n >= least
  }

  predicate InList(k: Text, allowed: seq<Name>) {
    exists j :: 0 <= j < |allowed| && k == Ascii(allowed[j])
  }

  ghost predicate OnlyKeys(v: Option<Json>, allowed: seq<Name>) {
    forall i :: 0 <= i < |EntriesOf(v)| ==> InList(EntriesOf(v)[i].key, allowed)
  }

  /** The first key, in the order of enumeration, that is not allowed is a reserved one. */
  ghost predicate ReservedFirst(v: Option<Json>, allowed: seq<Name>) {
    var ks := ObjectKeys(EntriesOf(v));
    exists i :: 0 <= i < |ks| && IsReserved(ks[i]) && !InList(ks[i], allowed) && forall j :: 0 <= j < i ==> InList(ks[j], allowed)
  }

  function RecordRule(v: Option<Json>): Condition {
    Condition(!IsRecord(v), SchemaValidation)
  }

  ghost function KeyRule(v: Option<Json>, allowed: seq<Name>): Condition {
    Condition(!OnlyKeys(v, allowed), if ReservedFirst(v, allowed) then NonDeterministicInput else SchemaValidation)
  }

  function TextRule(v: Option<Json>): Condition {
    Condition(!IsNonEmptyText(v), TypeMismatch)
  }

  ghost function RootConditions(r: Option<Json>): seq<Condition> {
    [KeyRule(r, ROOT_KEYS), RecordRule(Of(r, EXECUTION_REQUEST)), RecordRule(Of(r, POLICY_DOCUMENT)),
     RecordRule(Of(r, PRICING_DATA)), KeyRule(Of(r, EXECUTION_REQUEST), REQUEST_KEYS)]
  }

  function SectionConditions(q: Option<Json>): seq<Condition> {
    [RecordRule(Of(q, ACTOR)), RecordRule(Of(q, RESOURCES)), RecordRule(Of(q, EXECUTION)), RecordRule(Of(q, ORBIT_INTENT)),
     RecordRule(Of(q, RELEASE_REQUEST)), RecordRule(Of(q, RUNTIME_OBSERVATION))]
  }

  ghost function SectionKeyConditions(q: Option<Json>): seq<Condition> {
    [KeyRule(Of(q, ACTOR), [USER_ID]), KeyRule(Of(q, RESOURCES), RESOURCES_KEYS), KeyRule(Of(q, EXECUTION), EXECUTION_KEYS),
     KeyRule(Of(q, ORBIT_INTENT), ORBIT_KEYS), KeyRule(Of(q, RELEASE_REQUEST), RELEASE_KEYS),
     KeyRule(Of(q, RUNTIME_OBSERVATION), RUNTIME_KEYS)]
  }

  ghost function PolicyConditions(d: Option<Json>, g: Option<Json>): seq<Condition> {
    [KeyRule(g, [GPU_HOUR_CENTS]), KeyRule(d, POLICY_KEYS), RecordRule(Of(d, RULES)), KeyRule(Of(d, RULES), RULES_KEYS)]
  }

  ghost function ShapeConditions(r: Option<Json>): seq<Condition> {
    var q, d, g := Of(r, EXECUTION_REQUEST), Of(r, POLICY_DOCUMENT), Of(r, PRICING_DATA);
    RootConditions(r) + (SectionConditions(q) + (SectionKeyConditions(q) + PolicyConditions(d, g)))
  }

  /** The records of the request, taken as empty where there is none. */
  function ShapeAt(r: Option<Json>): Shape {
    var q, d, g := Of(r, EXECUTION_REQUEST), Of(r, POLICY_DOCUMENT), Of(r, PRICING_DATA);
    Shape(EntriesOf(q), EntriesOf(d), EntriesOf(g), EntriesOf(Of(q, ACTOR)), EntriesOf(Of(q, RESOURCES)),
          EntriesOf(Of(q, EXECUTION)), EntriesOf(Of(q, ORBIT_INTENT)), EntriesOf(Of(q, RELEASE_REQUEST)),
          EntriesOf(Of(q, RUNTIME_OBSERVATION)), EntriesOf(Of(d, RULES)))
  }

  /** Twelve texts, and the budget token where there is one, are strings that are not empty. */
  function StringConditions(q: Option<Json>, d: Option<Json>): seq<Condition> {
    var orbit := Of(q, ORBIT_INTENT);
    [Condition(!(&& IsNonEmptyText(Of(q, REQUEST_ID)) && IsNonEmptyText(Of(q, SUBMITTED_REGION))
                 && IsNonEmptyText(Of(Of(q, ACTOR), USER_ID)) && IsNonEmptyText(Of(Of(q, RESOURCES), GPU_TYPE))
                 && IsNonEmptyText(Of(Of(q, RELEASE_REQUEST), EXECUTION_ID))
                 && IsNonEmptyText(Of(Of(q, RELEASE_REQUEST), HOLD_STATE))
                 && IsNonEmptyText(Of(orbit, ORBIT_VERSION)) && IsNonEmptyText(Of(orbit, ACTION))
                 && IsNonEmptyText(Of(orbit, BOUNDARY)) && IsNonEmptyText(Of(orbit, LIFECYCLE_STATE))
                 && IsNonEmptyText(Of(d, SCHEMA_VERSION)) && IsNonEmptyText(Of(d, POLICY_VERSION))
                 && (Of(q, BUDGET_TOKEN).Some? ==> IsNonEmptyText(Of(q, BUDGET_TOKEN)))), TypeMismatch)]
  }

  /** Parameters, where there are any, are an object without a reserved key at any depth. */
  ghost function ParameterConditions(v: Option<Json>): seq<Condition> {
    [Condition(v.Some? && !v.value.Obj?, SchemaValidation),
     Condition(v.Some? && exists path :: ReservedAt(v.value, path), NonDeterministicInput)]
  }

  /** The tool of a call is that of an earlier one. */
  predicate ToolUsedBefore(items: seq<Json>, i: nat)
    requires i < |items|
  {
    exists j :: 0 <= j < i && Of(Some(items[j]), TOOL) == Of(Some(items[i]), TOOL)
  }

  ghost function CallConditions(items: seq<Json>, i: nat): seq<Condition>
    requires i < |items|
  {
    var c := Some(items[i]);
    [RecordRule(c), KeyRule(c, CALL_KEYS), TextRule(Of(c, TOOL)), Condition(IsMinusZero(Of(c, PRIORITY)), InvalidJsonNumber),
     Condition(!IsInteger(Of(c, PRIORITY), 0), TypeMismatch), Condition(ToolUsedBefore(items, i), SchemaValidation)]
    + ParameterConditions(Of(c, PARAMETERS))
  }

  ghost function CallsConditions(items: seq<Json>, i: nat): seq<Condition>
    requires i <= |items|
    decreases |items| - i
  {
    if i == |items| then [] else CallConditions(items, i) + CallsConditions(items, i + 1)
  }

  function ListRule(v: Option<Json>): Condition {
    Condition(ItemsOf(v) == [], SchemaValidation)
  }

  ghost function ToolCallConditions(v: Option<Json>): seq<Condition> {
    [ListRule(v)] + CallsConditions(ItemsOf(v), 0)
  }

  ghost function SignatureConditions(items: seq<Json>): seq<Condition> {
    if items == [] then []
    else
      var c := Some(items[0]);
      [RecordRule(c), KeyRule(c, [ALG, SIG]), TextRule(Of(c, ALG)), TextRule(Of(c, SIG))] + SignatureConditions(items[1..])
  }

  ghost function PayloadConditions(v: Option<Json>): seq<Condition> {
    [RecordRule(v), Condition(v.Some? && exists path :: ReservedAt(v.value, path), NonDeterministicInput),
     KeyRule(v, [TOOL_CALLS])] + ToolCallConditions(Of(v, TOOL_CALLS))
  }

  ghost function ListConditions(q: Option<Json>): seq<Condition> {
    var orbit := Of(q, ORBIT_INTENT);
    ToolCallConditions(Of(q, TOOL_CALLS)) + (ParameterConditions(Of(q, PARAMETERS)) +
      (([ListRule(Of(orbit, SIGNATURES))] + SignatureConditions(ItemsOf(Of(orbit, SIGNATURES)))) +
       PayloadConditions(Of(orbit, PAYLOAD))))
  }

  /** The thirteen numbers with the least value each may have. */
  function Numbers(q: Option<Json>, d: Option<Json>, g: Option<Json>): seq<(Option<Json>, int)> {
    var resources, execution, runtime, rules := Of(q, RESOURCES), Of(q, EXECUTION), Of(q, RUNTIME_OBSERVATION), Of(d, RULES);
    [(Of(resources, GPU_COUNT), 1), (Of(resources, HOURS), 1), (Of(execution, MAX_SCALE_MULTIPLIER), 1),
     (Of(g, GPU_HOUR_CENTS), 1), (Of(runtime, ACTUAL_GPU_COUNT), 0), (Of(runtime, ACTUAL_HOURS), 0),
     (Of(runtime, ACTUAL_TOTAL_COST_CENTS), 0), (Of(rules, MAX_TOTAL_COST_CENTS), 1), (Of(rules, MAX_GPU_COUNT), 1),
     (Of(rules, MAX_HOURS), 1), (Of(rules, REQUIRE_MANUAL_APPROVAL_ABOVE_CENTS), 0), (Of(rules, MAX_RETRY_COUNT), 0),
     (Of(execution, MAX_RETRIES), 0)]
  }

  /** Minus zero anywhere among the numbers is reported before any other fault in them. */
  function NumberConditions(ns: seq<(Option<Json>, int)>): seq<Condition> {
    [Condition(exists i :: 0 <= i < |ns| && IsMinusZero(ns[i].0), InvalidJsonNumber),
     Condition(exists i :: 0 <= i < |ns| && !IsInteger(ns[i].0, ns[i].1), TypeMismatch)]
  }

  function FlagConditions(q: Option<Json>, d: Option<Json>): seq<Condition> {
    [Condition(!(&& IsFlag(Of(Of(q, EXECUTION), AUTO_SCALE)) && IsFlag(Of(Of(q, EXECUTION), RETRY_ON_FAIL))
                 && IsFlag(Of(Of(q, RELEASE_REQUEST), ALREADY_CONSUMED))
                 && IsFlag(Of(Of(q, RUNTIME_OBSERVATION), KILL_SWITCH_ACTIVE))
                 && IsFlag(Of(Of(d, RULES), ALLOW_AUTO_SCALE))), TypeMismatch)]
  }

  function TextOf(v: Option<Json>): Text {
    match v case Some(Str(s)) => s case _ => []
  }

  function ValueOf(v: Option<Json>): Json {
    match v case Some(w) => w case None => Null
  }

  /** The policy document without its trust block. */
  function SignedPolicy(d: Option<Json>): Json {
    Record([(SCHEMA_VERSION, ValueOf(Of(d, SCHEMA_VERSION))), (POLICY_VERSION, ValueOf(Of(d, POLICY_VERSION))),
            (RULES, ValueOf(Of(d, RULES)))])
  }

  const KNOWN_KEY_VERSION: Name := "ed25519.v1"
  const KNOWN_POLICY_VERSION: Name := "policy.v1"

  predicate TrustTexts(t: Option<Json>) {
    IsNonEmptyText(Of(t, KEY_VERSION)) && IsNonEmptyText(Of(t, KEY_ID)) && IsNonEmptyText(Of(t, PUBLIC_KEY)) &&
    IsNonEmptyText(Of(t, SIGNATURE))
  }

  predicate TrustVerifies(p: Platform, t: Option<Json>, text: Text) {
    Of(t, KEY_VERSION) == Some(Word(KNOWN_KEY_VERSION)) && p.verifyPolicy(TextOf(Of(t, PUBLIC_KEY)), text, TextOf(Of(t, SIGNATURE)))
  }

  ghost function TrustConditions(p: Platform, t: Option<Json>, text: Text): seq<Condition> {
    if t.None? then []
    else
      [Condition(!IsRecord(t), InvalidPolicySignature), KeyRule(t, TRUST_KEYS), Condition(!TrustTexts(t), InvalidPolicySignature),
       Condition(p.deriveKeyId(TextOf(Of(t, PUBLIC_KEY))) != TextOf(Of(t, KEY_ID)), PolicyKeyIdMismatch),
       Condition(!TrustVerifies(p, t, text), InvalidPolicySignature)]
  }

  function VersionConditions(d: Option<Json>): seq<Condition> {
    [Condition(Of(d, POLICY_VERSION) != Some(Word(KNOWN_POLICY_VERSION)), PolicyVersionMismatch)]
  }

  ghost function FinishConditions(p: Platform, q: Option<Json>, d: Option<Json>, g: Option<Json>): seq<Condition> {
    NumberConditions(Numbers(q, d, g)) + (FlagConditions(q, d) + (VersionConditions(d) + TrustConditions(p, Of(d, TRUST), Canonicalize(SignedPolicy(d)))))
  }

  /** Everything a request must satisfy, in the order in which a violation is reported. */
  ghost function Requirements(p: Platform, v: Json): seq<Condition> {
    var r := Some(v);
    var q, d, g := Of(r, EXECUTION_REQUEST), Of(r, POLICY_DOCUMENT), Of(r, PRICING_DATA);
    [RecordRule(r)] + (ShapeConditions(r) + (StringConditions(q, d) + (ListConditions(q) + FinishConditions(p, q, d, g))))
  }

  // ----- lists of conditions

  /** Position of the first violated condition, or the length. */
  function FirstIndex(cs: seq<Condition>): (i: nat)
    ensures i <= |cs| && (i < |cs| ==> cs[i].violated) && forall j :: 0 <= j < i ==> !cs[j].violated
    ensures FirstViolated(cs) == if i < |cs| then Some(cs[i].reason) else None
  {
    if cs == [] || cs[0].violated then 0
    else
      var i := FirstIndex(cs[1..]);
      assert forall j :: 0 < j < 1 + i ==> cs[j] == cs[1..][j - 1];
      1 + i
  }

  lemma KeyRuleExact(es: seq<Entry>, allowed: seq<Name>)
    ensures var c := KeyRule(Some(Obj(es)), allowed); Known(es, allowed) == if c.violated then Bad(c.reason) else Good(())
  {
    hide IsReserved, ObjectKeys, Ascii;
    KnownExact(es, allowed);
    assert forall k :: IsAllowed(k, allowed) <==> InList(k, allowed);
    ScanKeysReason(ObjectKeys(es), allowed);
  }

  lemma {:induction false} ScanKeysReason(ks: seq<Text>, allowed: seq<Name>)
    ensures var r := ScanKeys(ks, allowed);
            r.Some? ==> r.value == if (exists i :: 0 <= i < |ks| && IsReserved(ks[i]) && !InList(ks[i], allowed) &&
                                         forall j :: 0 <= j < i ==> InList(ks[j], allowed))
                                   then NonDeterministicInput else SchemaValidation
  {
    hide IsReserved, Ascii;
    if ks != [] {
      assert IsAllowed(ks[0], allowed) <==> InList(ks[0], allowed);
      var ts := ks[1..];
      ScanKeysReason(ts, allowed);
      if InList(ks[0], allowed) {
        if i :| 0 <= i < |ks| && IsReserved(ks[i]) && !InList(ks[i], allowed) && forall j :: 0 <= j < i ==> InList(ks[j], allowed) {
          assert ts[i - 1] == ks[i] && forall j :: 0 <= j < i - 1 ==> ts[j] == ks[j + 1];
        }
        if i :| 0 <= i < |ts| && IsReserved(ts[i]) && !InList(ts[i], allowed) && forall j :: 0 <= j < i ==> InList(ts[j], allowed) {
          assert ts[i] == ks[i + 1] && forall j :: 0 <= j <= i ==> InList(ks[j], allowed);
        }
      }
    }
  }

  lemma {:induction false} FirstThen(a: seq<Condition>, b: seq<Condition>)
    ensures FirstViolated(a + b) == if FirstViolated(a).Some? then FirstViolated(a) else FirstViolated(b)
  {
    FirstOfAppend(a, b);
  }

  lemma RecordAtExact(es: seq<Entry>, name: Name)
    ensures var v := Of(Some(Obj(es)), name);
            RecordAt(es, name) == (if IsRecord(v) then Good(EntriesOf(v)) else Bad(SchemaValidation)) &&
            (IsRecord(v) ==> v == Some(Obj(EntriesOf(v))))
  {
    hide Get;
  }

  // ----- the records

  lemma RootFirst(root: seq<Entry>)
    ensures var r := Some(Obj(root));
            var q, d, g := Of(r, EXECUTION_REQUEST), Of(r, POLICY_DOCUMENT), Of(r, PRICING_DATA);
            match FirstViolated(RootConditions(r))
            case Some(e) => ShapeOf(root) == Bad(e)
            case None => ShapeOf(root) == RequestShape(EntriesOf(q), EntriesOf(d), EntriesOf(g)) &&
                         q == Some(Obj(EntriesOf(q))) && d == Some(Obj(EntriesOf(d))) && g == Some(Obj(EntriesOf(g)))
  {
    hide Known, OnlyKeys, ReservedFirst, Of, RequestShape, RecordAt, FirstViolated, EntriesOf;
    var r := Some(Obj(root));
    var cs := RootConditions(r);
    var i := FirstIndex(cs);
    assert cs[0] == KeyRule(r, ROOT_KEYS) && cs[1] == RecordRule(Of(r, EXECUTION_REQUEST));
    assert cs[2] == RecordRule(Of(r, POLICY_DOCUMENT)) && cs[3] == RecordRule(Of(r, PRICING_DATA));
    assert cs[4] == KeyRule(Of(r, EXECUTION_REQUEST), REQUEST_KEYS);
    KeyRuleExact(root, ROOT_KEYS);
    RecordAtExact(root, EXECUTION_REQUEST);
    RecordAtExact(root, POLICY_DOCUMENT);
    RecordAtExact(root, PRICING_DATA);
    KeyRuleExact(EntriesOf(Of(r, EXECUTION_REQUEST)), REQUEST_KEYS);
  }

  function SectionsAt(q: Option<Json>): Sections {
    Sections(EntriesOf(Of(q, ACTOR)), EntriesOf(Of(q, RESOURCES)), EntriesOf(Of(q, EXECUTION)), EntriesOf(Of(q, ORBIT_INTENT)),
             EntriesOf(Of(q, RELEASE_REQUEST)), EntriesOf(Of(q, RUNTIME_OBSERVATION)))
  }

  ghost predicate SectionsPresent(q: Option<Json>) {
    IsRecord(Of(q, ACTOR)) && IsRecord(Of(q, RESOURCES)) && IsRecord(Of(q, EXECUTION)) && IsRecord(Of(q, ORBIT_INTENT)) &&
    IsRecord(Of(q, RELEASE_REQUEST)) && IsRecord(Of(q, RUNTIME_OBSERVATION))
  }

  lemma SectionsFirst(es: seq<Entry>)
    ensures var q := Some(Obj(es));
            match FirstViolated(SectionConditions(q))
            case Some(e) => SectionsOf(es) == Bad(e)
            case None => SectionsOf(es) == Good(SectionsAt(q)) && SectionsPresent(q)
  {
    hide Of, RecordAt, FirstViolated, EntriesOf, IsRecord;
    var q := Some(Obj(es));
    var cs := SectionConditions(q);
    var i := FirstIndex(cs);
    assert cs[0] == RecordRule(Of(q, ACTOR)) && cs[1] == RecordRule(Of(q, RESOURCES)) && cs[2] == RecordRule(Of(q, EXECUTION));
    assert cs[3] == RecordRule(Of(q, ORBIT_INTENT)) && cs[4] == RecordRule(Of(q, RELEASE_REQUEST));
    assert cs[5] == RecordRule(Of(q, RUNTIME_OBSERVATION));
    RecordAtExact(es, ACTOR);
    RecordAtExact(es, RESOURCES);
    RecordAtExact(es, EXECUTION);
    RecordAtExact(es, ORBIT_INTENT);
    RecordAtExact(es, RELEASE_REQUEST);
    RecordAtExact(es, RUNTIME_OBSERVATION);
  }

  lemma KeyRuleAt(v: Option<Json>, allowed: seq<Name>)
    requires IsRecord(v)
    ensures var c := KeyRule(v, allowed); Known(EntriesOf(v), allowed) == if c.violated then Bad(c.reason) else Good(())
  {
    hide Known, OnlyKeys, ReservedFirst;
    KeyRuleExact(EntriesOf(v), allowed);
  }

  lemma SectionKeysFirst(q: Option<Json>)
    requires SectionsPresent(q)
    ensures SectionsKnown(SectionsAt(q)) ==
            match FirstViolated(SectionKeyConditions(q)) { case Some(e) => Bad(e) case None => Good(()) }
  {
    hide Of, FirstViolated, EntriesOf, IsRecord, Known, OnlyKeys, ReservedFirst, KeyRule;
    var cs := SectionKeyConditions(q);
    var i := FirstIndex(cs);
    KeyRuleAt(Of(q, ACTOR), [USER_ID]);
    KeyRuleAt(Of(q, RESOURCES), RESOURCES_KEYS);
    KeyRuleAt(Of(q, EXECUTION), EXECUTION_KEYS);
    KeyRuleAt(Of(q, ORBIT_INTENT), ORBIT_KEYS);
    KeyRuleAt(Of(q, RELEASE_REQUEST), RELEASE_KEYS);
    KeyRuleAt(Of(q, RUNTIME_OBSERVATION), RUNTIME_KEYS);
    assert cs[0] == KeyRule(Of(q, ACTOR), [USER_ID]) && cs[1] == KeyRule(Of(q, RESOURCES), RESOURCES_KEYS);
    assert cs[2] == KeyRule(Of(q, EXECUTION), EXECUTION_KEYS) && cs[3] == KeyRule(Of(q, ORBIT_INTENT), ORBIT_KEYS);
    assert cs[4] == KeyRule(Of(q, RELEASE_REQUEST), RELEASE_KEYS) && cs[5] == KeyRule(Of(q, RUNTIME_OBSERVATION), RUNTIME_KEYS);
  }

  lemma RequestFirst(q: Option<Json>, d: Option<Json>, g: Option<Json>)
    requires IsRecord(q) && IsRecord(d) && IsRecord(g)
    ensures var cs := SectionConditions(q) + (SectionKeyConditions(q) + PolicyConditions(d, g));
            var c := SectionsAt(q);
            RequestShape(EntriesOf(q), EntriesOf(d), EntriesOf(g)) ==
            match FirstViolated(cs)
            case Some(e) => Bad(e)
            case None => Good(Shape(EntriesOf(q), EntriesOf(d), EntriesOf(g), c.actor, c.resources, c.execution, c.orbit, c.release,
                                    c.runtime, EntriesOf(Of(d, RULES))))
  {
    hide Of, FirstViolated, Known, OnlyKeys, ReservedFirst, KeyRule, SectionsOf, SectionsKnown, SectionConditions,
         SectionKeyConditions, SectionsPresent, RecordAt;
    FirstThen(SectionConditions(q), SectionKeyConditions(q) + PolicyConditions(d, g));
    FirstThen(SectionKeyConditions(q), PolicyConditions(d, g));
    SectionsFirst(EntriesOf(q));
    assert q == Some(Obj(EntriesOf(q))) && d == Some(Obj(EntriesOf(d)));
    if SectionsPresent(q) { SectionKeysFirst(q); }
    var cs := PolicyConditions(d, g);
    var i := FirstIndex(cs);
    KeyRuleAt(g, [GPU_HOUR_CENTS]);
    KeyRuleAt(d, POLICY_KEYS);
    RecordAtExact(EntriesOf(d), RULES);
    if IsRecord(Of(d, RULES)) { KeyRuleAt(Of(d, RULES), RULES_KEYS); }
    assert cs[0] == KeyRule(g, [GPU_HOUR_CENTS]) && cs[1] == KeyRule(d, POLICY_KEYS);
    assert cs[2] == RecordRule(Of(d, RULES)) && cs[3] == KeyRule(Of(d, RULES), RULES_KEYS);
  }

  lemma ShapeFirst(root: seq<Entry>)
    ensures var r := Some(Obj(root));
            ShapeOf(root) == match FirstViolated(ShapeConditions(r)) { case Some(e) => Bad(e) case None => Good(ShapeAt(r)) }
    ensures ShapeOf(root).Good? ==> IsRecord(Of(Some(Obj(root)), EXECUTION_REQUEST)) && IsRecord(Of(Some(Obj(root)), POLICY_DOCUMENT))
                                    && IsRecord(Of(Some(Obj(root)), PRICING_DATA))
  {
    hide Of, FirstViolated, RootConditions, SectionConditions, SectionKeyConditions, PolicyConditions, RequestShape, ShapeOf;
    var r := Some(Obj(root));
    var q, d, g := Of(r, EXECUTION_REQUEST), Of(r, POLICY_DOCUMENT), Of(r, PRICING_DATA);
    FirstThen(RootConditions(r), SectionConditions(q) + (SectionKeyConditions(q) + PolicyConditions(d, g)));
    RootFirst(root);
    if FirstViolated(RootConditions(r)).None? { RequestFirst(q, d, g); }
  }

  // ----- texts, numbers and flags

  lemma FetchIsOf(v: Option<Json>, name: Name)
    ensures Fetch(EntriesOf(v), name) == Of(v, name)
  {
  }

  lemma TextExact(es: seq<Entry>, name: Name)
    ensures StringAt(es, name) == if IsNonEmptyText(Fetch(es, name)) then Good(Fetch(es, name).value.s) else Bad(TypeMismatch)
  {
    hide Fetch;
  }

  lemma StringsFirst(s: Shape)
    ensures var good := IsNonEmptyText(Fetch(s.request, REQUEST_ID)) && IsNonEmptyText(Fetch(s.request, SUBMITTED_REGION))
                        && IsNonEmptyText(Fetch(s.actor, USER_ID)) && IsNonEmptyText(Fetch(s.resources, GPU_TYPE))
                        && IsNonEmptyText(Fetch(s.release, EXECUTION_ID)) && IsNonEmptyText(Fetch(s.release, HOLD_STATE))
                        && IsNonEmptyText(Fetch(s.orbit, ORBIT_VERSION)) && IsNonEmptyText(Fetch(s.orbit, ACTION))
                        && IsNonEmptyText(Fetch(s.orbit, BOUNDARY)) && IsNonEmptyText(Fetch(s.orbit, LIFECYCLE_STATE))
                        && IsNonEmptyText(Fetch(s.policy, SCHEMA_VERSION)) && IsNonEmptyText(Fetch(s.policy, POLICY_VERSION))
                        && (Fetch(s.request, BUDGET_TOKEN).Some? ==> IsNonEmptyText(Fetch(s.request, BUDGET_TOKEN)));
            if good then StringsOf(s).Good? else StringsOf(s) == Bad(TypeMismatch)
  {
    hide Fetch;
    var f := StringFields(s);
    if forall i :: 0 <= i < 12 ==> f[i].Good? {
      assert f[0].Good? && f[1].Good? && f[2].Good? && f[3].Good? && f[4].Good? && f[5].Good?;
      assert f[6].Good? && f[7].Good? && f[8].Good? && f[9].Good? && f[10].Good? && f[11].Good?;
    } else {
      var i :| 0 <= i < 12 && f[i].Bad?;
    }
  }

  lemma FirstOfOne(c: Condition)
    ensures FirstViolated([c]) == if c.violated then Some(c.reason) else None
  {
    FirstOfCons(c, []);
    assert [c] + [] == [c];
  }

  lemma StringStageFirst(r: Option<Json>)
    ensures var q, d := Of(r, EXECUTION_REQUEST), Of(r, POLICY_DOCUMENT);
            match FirstViolated(StringConditions(q, d))
            case Some(e) => StringsOf(ShapeAt(r)) == Bad(e)
            case None => StringsOf(ShapeAt(r)).Good?
  {
    hide Of, EntriesOf, Fetch, StringsOf, IsNonEmptyText, FirstViolated;
    var q, d := Of(r, EXECUTION_REQUEST), Of(r, POLICY_DOCUMENT);
    FirstOfOne(StringConditions(q, d)[0]);
    assert StringConditions(q, d) == [StringConditions(q, d)[0]];
    StringsFirst(ShapeAt(r));
    FetchIsOf(q, REQUEST_ID);
    FetchIsOf(q, SUBMITTED_REGION);
    FetchIsOf(Of(q, ACTOR), USER_ID);
    FetchIsOf(Of(q, RESOURCES), GPU_TYPE);
    FetchIsOf(Of(q, RELEASE_REQUEST), EXECUTION_ID);
    FetchIsOf(Of(q, RELEASE_REQUEST), HOLD_STATE);
    FetchIsOf(Of(q, ORBIT_INTENT), ORBIT_VERSION);
    FetchIsOf(Of(q, ORBIT_INTENT), ACTION);
    FetchIsOf(Of(q, ORBIT_INTENT), BOUNDARY);
    FetchIsOf(Of(q, ORBIT_INTENT), LIFECYCLE_STATE);
    FetchIsOf(d, SCHEMA_VERSION);
    FetchIsOf(d, POLICY_VERSION);
    FetchIsOf(q, BUDGET_TOKEN);
  }

  lemma IntegerExact(v: Option<Json>, least: int)
    requires least == 0 || least == 1
    ensures ValidateInteger(v, least, least == 0) ==
            if IsMinusZero(v) then Bad(InvalidJsonNumber) else if !IsInteger(v, least) then Bad(TypeMismatch) else Good(v.value.n)
  {
  }

  /** An invalid number anywhere is reported, otherwise what was found first, otherwise nothing. */
  lemma {:induction false} NumericReasonIs(checks: seq<Checked<SafeInt>>, first: Option<Reason>)
    requires first != Some(InvalidJsonNumber)
    ensures NumericReason(checks, first) ==
            if exists i :: 0 <= i < |checks| && checks[i] == Bad(InvalidJsonNumber) then Some(InvalidJsonNumber)
            else if first.Some? then first
            else FirstBad(checks)
  {
    if checks != [] {
      var c := checks[0];
      NumericReasonIs(checks[1..], if c.Bad? && c != Bad(InvalidJsonNumber) && first.None? then Some(c.reason) else first);
      assert forall i :: 0 <= i < |checks[1..]| ==> checks[1..][i] == checks[i + 1];
    }
  }

  /** The reason of the first check that fails. */
  function FirstBad(checks: seq<Checked<SafeInt>>): Option<Reason> {
    if checks == [] then None else if checks[0].Bad? then Some(checks[0].reason) else FirstBad(checks[1..])
  }

  lemma {:induction false} FirstBadIs(checks: seq<Checked<SafeInt>>)
    requires forall i :: 0 <= i < |checks| ==> checks[i].Good? || checks[i] == Bad(TypeMismatch)
    ensures FirstBad(checks) == if AllGood(checks) then None else Some(TypeMismatch)
  {
    if checks != [] {
      FirstBadIs(checks[1..]);
      assert forall i :: 0 <= i < |checks[1..]| ==> checks[1..][i] == checks[i + 1];
    }
  }

  predicate ChecksFor(checks: seq<Checked<SafeInt>>, ns: seq<(Option<Json>, int)>) {
    |checks| == |ns| && forall i :: 0 <= i < |ns| ==>
      (ns[i].1 == 0 || ns[i].1 == 1) && checks[i] == ValidateInteger(ns[i].0, ns[i].1, ns[i].1 == 0)
  }

  lemma NumbersFirst(checks: seq<Checked<SafeInt>>, ns: seq<(Option<Json>, int)>)
    requires ChecksFor(checks, ns)
    ensures NumericReason(checks, None) == FirstViolated(NumberConditions(ns))
  {
    hide ValidateInteger, IsMinusZero, FirstViolated, FirstBad, NumericReason;
    var cs := NumberConditions(ns);
    FirstOfCons(cs[0], [cs[1]]);
    FirstOfOne(cs[1]);
    assert cs == [cs[0]] + [cs[1]];
    forall i | 0 <= i < |ns|
      ensures checks[i] == (if IsMinusZero(ns[i].0) then Bad(InvalidJsonNumber)
                            else if !IsInteger(ns[i].0, ns[i].1) then Bad(TypeMismatch) else Good(ns[i].0.value.n))
    {
      IntegerExact(ns[i].0, ns[i].1);
    }
    NumericReasonIs(checks, None);
    if !cs[0].violated { FirstBadIs(checks); }
    if cs[0].violated {
      var i :| 0 <= i < |ns| && IsMinusZero(ns[i].0);
      assert checks[i] == Bad(InvalidJsonNumber);
    }
  }

  lemma PositiveIs(v: Option<Json>, name: Name)
    ensures PositiveAt(EntriesOf(v), name) == ValidateInteger(Of(v, name), 1, false)
  {
    hide ValidateInteger;
    FetchIsOf(v, name);
  }

  lemma CountIs(v: Option<Json>, name: Name)
    ensures CountAt(EntriesOf(v), name) == ValidateInteger(Of(v, name), 0, true)
  {
    hide ValidateInteger;
    FetchIsOf(v, name);
  }

  lemma NumberStage(r: Option<Json>)
    ensures var q, d, g := Of(r, EXECUTION_REQUEST), Of(r, POLICY_DOCUMENT), Of(r, PRICING_DATA);
            ChecksFor(NumericChecks(ShapeAt(r)), Numbers(q, d, g))
  {
    hide Of, EntriesOf, Fetch, ValidateInteger, PositiveAt, CountAt;
    var q, d, g := Of(r, EXECUTION_REQUEST), Of(r, POLICY_DOCUMENT), Of(r, PRICING_DATA);
    var resources, execution, runtime, rules := Of(q, RESOURCES), Of(q, EXECUTION), Of(q, RUNTIME_OBSERVATION), Of(d, RULES);
    PositiveIs(resources, GPU_COUNT);
    PositiveIs(resources, HOURS);
    PositiveIs(execution, MAX_SCALE_MULTIPLIER);
    PositiveIs(g, GPU_HOUR_CENTS);
    CountIs(runtime, ACTUAL_GPU_COUNT);
    CountIs(runtime, ACTUAL_HOURS);
    CountIs(runtime, ACTUAL_TOTAL_COST_CENTS);
    PositiveIs(rules, MAX_TOTAL_COST_CENTS);
    PositiveIs(rules, MAX_GPU_COUNT);
    PositiveIs(rules, MAX_HOURS);
    CountIs(rules, REQUIRE_MANUAL_APPROVAL_ABOVE_CENTS);
    CountIs(rules, MAX_RETRY_COUNT);
    CountIs(execution, MAX_RETRIES);
    var n, ns := NumericChecks(ShapeAt(r)), Numbers(q, d, g);
    ThirteenChecks(n, ns);
  }

  lemma ThirteenChecks(n: seq<Checked<SafeInt>>, ns: seq<(Option<Json>, int)>)
    requires |n| == 13 && |ns| == 13
    requires ns[0].1 == 1 && ns[1].1 == 1 && ns[2].1 == 1 && ns[3].1 == 1 && ns[4].1 == 0 && ns[5].1 == 0 && ns[6].1 == 0
    requires ns[7].1 == 1 && ns[8].1 == 1 && ns[9].1 == 1 && ns[10].1 == 0 && ns[11].1 == 0 && ns[12].1 == 0
    requires n[0] == ValidateInteger(ns[0].0, 1, false) && n[1] == ValidateInteger(ns[1].0, 1, false)
    requires n[2] == ValidateInteger(ns[2].0, 1, false) && n[3] == ValidateInteger(ns[3].0, 1, false)
    requires n[4] == ValidateInteger(ns[4].0, 0, true) && n[5] == ValidateInteger(ns[5].0, 0, true)
    requires n[6] == ValidateInteger(ns[6].0, 0, true) && n[7] == ValidateInteger(ns[7].0, 1, false)
    requires n[8] == ValidateInteger(ns[8].0, 1, false) && n[9] == ValidateInteger(ns[9].0, 1, false)
    requires n[10] == ValidateInteger(ns[10].0, 0, true) && n[11] == ValidateInteger(ns[11].0, 0, true)
    requires n[12] == ValidateInteger(ns[12].0, 0, true)
    ensures ChecksFor(n, ns)
  {
    hide ValidateInteger;
  }

  lemma FlagsFirst(r: Option<Json>)
    ensures var q, d := Of(r, EXECUTION_REQUEST), Of(r, POLICY_DOCUMENT);
            match FirstViolated(FlagConditions(q, d))
            case Some(e) => FlagsOf(ShapeAt(r)) == Bad(e)
            case None => FlagsOf(ShapeAt(r)).Good?
  {
    hide Of, EntriesOf, Fetch, FirstViolated;
    var q, d := Of(r, EXECUTION_REQUEST), Of(r, POLICY_DOCUMENT);
    FirstOfOne(FlagConditions(q, d)[0]);
    assert FlagConditions(q, d) == [FlagConditions(q, d)[0]];
    FetchIsOf(Of(q, EXECUTION), AUTO_SCALE);
    FetchIsOf(Of(q, EXECUTION), RETRY_ON_FAIL);
    FetchIsOf(Of(q, RELEASE_REQUEST), ALREADY_CONSUMED);
    FetchIsOf(Of(q, RUNTIME_OBSERVATION), KILL_SWITCH_ACTIVE);
    FetchIsOf(Of(d, RULES), ALLOW_AUTO_SCALE);
  }

  // ----- lists

  lemma ParametersFirst(v: Option<Json>)
    ensures match FirstViolated(ParameterConditions(v))
            case Some(e) => ParseParameters(v) == Bad(e)
            case None => ParseParameters(v) == Good(v)
  {
    hide FirstViolated, ReservedAt, ReservedScan;
    var cs := ParameterConditions(v);
    FirstOfCons(cs[0], [cs[1]]);
    FirstOfOne(cs[1]);
    assert cs == [cs[0]] + [cs[1]];
    if v.Some? { ReservedScanExact(v.value); }
  }

  lemma CallFirst(items: seq<Json>, i: nat, seen: set<Text>)
    requires i < |items|
    requires forall t :: t in seen <==> exists j :: 0 <= j < i && Of(Some(items[j]), TOOL) == Some(Str(t))
    requires forall j :: 0 <= j < i ==> IsNonEmptyText(Of(Some(items[j]), TOOL))
    ensures match FirstViolated(CallConditions(items, i))
            case Some(e) => ParseToolCall(items[i], seen) == Bad(e)
            case None => ParseToolCall(items[i], seen).Good? &&
                         Of(Some(items[i]), TOOL) == Some(Str(ParseToolCall(items[i], seen).value.tool)) &&
                         IsNonEmptyText(Of(Some(items[i]), TOOL))
  {
    hide FirstViolated, ReservedAt, ReservedScan, Of, Fetch, Known, OnlyKeys, ReservedFirst, ParameterConditions, ParseParameters,
         ValidateInteger;
    var c := Some(items[i]);
    var es := EntriesOf(c);
    var cs := [RecordRule(c), KeyRule(c, CALL_KEYS), TextRule(Of(c, TOOL)), Condition(IsMinusZero(Of(c, PRIORITY)), InvalidJsonNumber),
               Condition(!IsInteger(Of(c, PRIORITY), 0), TypeMismatch), Condition(ToolUsedBefore(items, i), SchemaValidation)];
    FirstThen(cs, ParameterConditions(Of(c, PARAMETERS)));
    var k := FirstIndex(cs);
    assert cs[0] == RecordRule(c) && cs[1] == KeyRule(c, CALL_KEYS) && cs[2] == TextRule(Of(c, TOOL));
    assert cs[3] == Condition(IsMinusZero(Of(c, PRIORITY)), InvalidJsonNumber);
    assert cs[4] == Condition(!IsInteger(Of(c, PRIORITY), 0), TypeMismatch);
    assert cs[5] == Condition(ToolUsedBefore(items, i), SchemaValidation);
    if items[i].Obj? {
      KeyRuleExact(es, CALL_KEYS);
      FetchIsOf(c, TOOL);
      FetchIsOf(c, PRIORITY);
      FetchIsOf(c, PARAMETERS);
      TextExact(es, TOOL);
      IntegerExact(Of(c, PRIORITY), 0);
      ParametersFirst(Of(c, PARAMETERS));
    }
  }

  lemma {:induction false} CallsFirst(items: seq<Json>, i: nat, seen: set<Text>, parsed: seq<ToolCall>)
    requires i <= |items|
    requires forall t :: t in seen <==> exists j :: 0 <= j < i && Of(Some(items[j]), TOOL) == Some(Str(t))
    requires forall j :: 0 <= j < i ==> IsNonEmptyText(Of(Some(items[j]), TOOL))
    ensures match FirstViolated(CallsConditions(items, i))
            case Some(e) => ParseCalls(items[i..], seen, parsed) == Bad(e)
            case None => ParseCalls(items[i..], seen, parsed).Good?
    decreases |items| - i
  {
    hide FirstViolated, Of, ParseToolCall, CallConditions, IsNonEmptyText;
    if i == |items| {
      NothingViolated();
      assert items[i..] == [];
    } else {
      assert items[i..][0] == items[i] && items[i..][1..] == items[i + 1..];
      FirstThen(CallConditions(items, i), CallsConditions(items, i + 1));
      CallFirst(items, i, seen);
      if ParseToolCall(items[i], seen).Good? {
        var call := ParseToolCall(items[i], seen).value;
        CallsFirst(items, i + 1, seen + {call.tool}, parsed + [call]);
      }
    }
  }

  lemma NothingViolated()
    ensures FirstViolated([]) == None
  {
  }

  lemma ToolCallsFirst(v: Option<Json>)
    ensures match FirstViolated(ToolCallConditions(v))
            case Some(e) => ParseToolCalls(v) == Bad(e)
            case None => ParseToolCalls(v).Good?
  {
    hide FirstViolated, ParseCalls, CallsConditions;
    var items := ItemsOf(v);
    FirstOfCons(ListRule(v), CallsConditions(items, 0));
    CallsFirst(items, 0, {}, []);
    assert items[0..] == items;
  }

  lemma SignatureFirst(item: Json)
    ensures var c := Some(item);
            match FirstViolated([RecordRule(c), KeyRule(c, [ALG, SIG]), TextRule(Of(c, ALG)), TextRule(Of(c, SIG))])
            case Some(e) => ParseSignature(item) == Bad(e)
            case None => ParseSignature(item).Good?
  {
    hide FirstViolated, Of, Fetch, Known, OnlyKeys, ReservedFirst;
    var c := Some(item);
    FirstOfFour(RecordRule(c), KeyRule(c, [ALG, SIG]), TextRule(Of(c, ALG)), TextRule(Of(c, SIG)));
    if item.Obj? {
      var es := item.entries;
      KeyRuleExact(es, [ALG, SIG]);
      FetchIsOf(c, ALG);
      FetchIsOf(c, SIG);
      TextExact(es, ALG);
      TextExact(es, SIG);
    }
  }

  lemma {:induction false} SignaturesFirst(items: seq<Json>, parsed: seq<Signature>)
    ensures match FirstViolated(SignatureConditions(items))
            case Some(e) => ParseSignatureItems(items, parsed) == Bad(e)
            case None => ParseSignatureItems(items, parsed).Good?
  {
    hide FirstViolated, Of, ParseSignature, KeyRule, RecordRule, TextRule;
    if items == [] {
      NothingViolated();
    } else {
      var c := Some(items[0]);
      FirstThen([RecordRule(c), KeyRule(c, [ALG, SIG]), TextRule(Of(c, ALG)), TextRule(Of(c, SIG))], SignatureConditions(items[1..]));
      SignatureFirst(items[0]);
      if ParseSignature(items[0]).Good? { SignaturesFirst(items[1..], parsed + [ParseSignature(items[0]).value]); }
    }
  }

  lemma SignatureListFirst(v: Option<Json>)
    ensures match FirstViolated([ListRule(v)] + SignatureConditions(ItemsOf(v)))
            case Some(e) => ParseSignatures(v) == Bad(e)
            case None => ParseSignatures(v).Good?
  {
    hide FirstViolated, ParseSignatureItems, SignatureConditions;
    FirstOfCons(ListRule(v), SignatureConditions(ItemsOf(v)));
    SignaturesFirst(ItemsOf(v), []);
  }

  lemma PayloadFirst(v: Option<Json>)
    ensures match FirstViolated(PayloadConditions(v))
            case Some(e) => ParsePayload(v) == Bad(e)
            case None => ParsePayload(v).Good?
  {
    hide FirstViolated, ParseToolCalls, ToolCallConditions, Of, Fetch, Known, OnlyKeys, ReservedFirst, ReservedAt, ReservedScan;
    var reserved := Condition(v.Some? && exists path :: ReservedAt(v.value, path), NonDeterministicInput);
    var cs := [RecordRule(v), reserved, KeyRule(v, [TOOL_CALLS])];
    var calls := Of(v, TOOL_CALLS);
    FirstThen(cs, ToolCallConditions(calls));
    var k := FirstIndex(cs);
    assert cs[0] == RecordRule(v) && cs[1] == reserved && cs[2] == KeyRule(v, [TOOL_CALLS]);
    if IsRecord(v) {
      ReservedScanExact(v.value);
      KeyRuleExact(v.value.entries, [TOOL_CALLS]);
      FetchIsOf(v, TOOL_CALLS);
      ToolCallsFirst(calls);
    }
  }

  lemma ListsFirst(r: Option<Json>)
    ensures match FirstViolated(ListConditions(Of(r, EXECUTION_REQUEST)))
            case Some(e) => ListsOf(ShapeAt(r)) == Bad(e)
            case None => ListsOf(ShapeAt(r)).Good?
  {
    hide FirstViolated, Of, Fetch, EntriesOf, ParseToolCalls, ParseSignatures, ParsePayload, ParseParameters, ToolCallConditions,
         SignatureConditions, PayloadConditions, ParameterConditions, ListRule, ItemsOf;
    var q := Of(r, EXECUTION_REQUEST);
    var orbit := Of(q, ORBIT_INTENT);
    var signatures := Of(orbit, SIGNATURES);
    var a, b := ToolCallConditions(Of(q, TOOL_CALLS)), ParameterConditions(Of(q, PARAMETERS));
    var c, d := [ListRule(signatures)] + SignatureConditions(ItemsOf(signatures)), PayloadConditions(Of(orbit, PAYLOAD));
    FirstThen(a, b + (c + d));
    FirstThen(b, c + d);
    FirstThen(c, d);
    FetchIsOf(q, TOOL_CALLS);
    FetchIsOf(q, PARAMETERS);
    FetchIsOf(orbit, SIGNATURES);
    FetchIsOf(orbit, PAYLOAD);
    ToolCallsFirst(Of(q, TOOL_CALLS));
    ParametersFirst(Of(q, PARAMETERS));
    SignatureListFirst(signatures);
    PayloadFirst(Of(orbit, PAYLOAD));
  }

  // ----- the policy

  lemma TrustFirst(p: Platform, t: Option<Json>, text: Text)
    ensures match FirstViolated(TrustConditions(p, t, text))
            case Some(e) => ParseTrust(p, t, text) == Bad(e)
            case None => ParseTrust(p, t, text).Good?
  {
    hide FirstViolated, Of, Fetch, Known, OnlyKeys, ReservedFirst, Ascii;
    if t.None? {
      NothingViolated();
    } else {
      var cs := TrustConditions(p, t, text);
      var k := FirstIndex(cs);
      assert cs[0] == Condition(!IsRecord(t), InvalidPolicySignature) && cs[1] == KeyRule(t, TRUST_KEYS);
      assert cs[2] == Condition(!TrustTexts(t), InvalidPolicySignature);
      assert cs[3] == Condition(p.deriveKeyId(TextOf(Of(t, PUBLIC_KEY))) != TextOf(Of(t, KEY_ID)), PolicyKeyIdMismatch);
      assert cs[4] == Condition(!TrustVerifies(p, t, text), InvalidPolicySignature);
      if IsRecord(t) {
        var es := t.value.entries;
        KeyRuleExact(es, TRUST_KEYS);
        FetchIsOf(t, KEY_VERSION);
        FetchIsOf(t, KEY_ID);
        FetchIsOf(t, PUBLIC_KEY);
        FetchIsOf(t, SIGNATURE);
        TextExact(es, KEY_VERSION);
        TextExact(es, KEY_ID);
        TextExact(es, PUBLIC_KEY);
        TextExact(es, SIGNATURE);
      }
    }
  }

  /** The signed text is that of the policy document without its trust block. */
  lemma SignedPolicyText(root: seq<Entry>, s: Shape, t: Strings, f: Flags)
    requires WellFormed(Obj(root)) && ShapeOf(root) == Good(s) && StringsOf(s) == Good(t) && FlagsOf(s) == Good(f)
    requires AllGood(NumericChecks(s))
    ensures PolicyPayload(t.schemaVersion, t.policyVersion, RulesOf(NumericChecks(s), f))
         == Canonicalize(SignedPolicy(Of(Some(Obj(root)), POLICY_DOCUMENT)))
  {
    hide ShapeOf, StringsOf, FlagsOf, NumericChecks, WellFormed, Record, Fetch, Known, RulesFields, ShapeTidy, Canonicalize, Of,
         EntriesOf, Matches;
    var rules := RulesOf(NumericChecks(s), f);
    ShapeSays(root, s);
    ShapeIsTidy(root, s);
    StringsSay(s, t);
    NumbersSay(s);
    FlagsSay(s, f);
    RulesTidy(s);
    RulesMatch(s.rules, rules);
    RulesPrintSame(s, rules);
    var d := Of(Some(Obj(root)), POLICY_DOCUMENT);
    FetchOf(root, POLICY_DOCUMENT);
    FetchOf(s.policy, SCHEMA_VERSION);
    FetchOf(s.policy, POLICY_VERSION);
    FetchOf(s.policy, RULES);
    RecordPrintsByParts(
      [(SCHEMA_VERSION, Str(t.schemaVersion)), (POLICY_VERSION, Str(t.policyVersion)), (RULES, RulesJson(rules))],
      [(SCHEMA_VERSION, ValueOf(Of(d, SCHEMA_VERSION))), (POLICY_VERSION, ValueOf(Of(d, POLICY_VERSION))), (RULES, ValueOf(Of(d, RULES)))]);
  }

  lemma RulesTidy(s: Shape)
    requires ShapeTidy(s)
    ensures WellFormed(Obj(s.rules))
  {
  }

  lemma FetchOf(es: seq<Entry>, name: Name)
    ensures Fetch(es, name) == Of(Some(Obj(es)), name)
  {
  }

  lemma FinishFirst(p: Platform, root: seq<Entry>, s: Shape, t: Strings, l: Lists)
    requires WellFormed(Obj(root)) && ShapeOf(root) == Good(s) && s == ShapeAt(Some(Obj(root))) && StringsOf(s) == Good(t)
    ensures var r := Some(Obj(root));
            match FirstViolated(FinishConditions(p, Of(r, EXECUTION_REQUEST), Of(r, POLICY_DOCUMENT), Of(r, PRICING_DATA)))
            case Some(e) => FinishValidation(p, s, t, l) == Bad(e)
            case None => FinishValidation(p, s, t, l).Good?
  {
    hide FirstViolated, Of, Fetch, ShapeOf, ShapeAt, StringsOf, FlagsOf, NumericChecks, NumberConditions, Numbers, FlagConditions,
         TrustConditions, ParseTrust, WellFormed, NumericReason, Canonicalize, SignedPolicy, PolicyPayload, Ascii;
    var r := Some(Obj(root));
    var q, d, g := Of(r, EXECUTION_REQUEST), Of(r, POLICY_DOCUMENT), Of(r, PRICING_DATA);
    var n := NumericChecks(s);
    var text := Canonicalize(SignedPolicy(d));
    var a, b, c := NumberConditions(Numbers(q, d, g)), FlagConditions(q, d), TrustConditions(p, Of(d, TRUST), text);
    FirstThen(a, b + (VersionConditions(d) + c));
    FirstThen(b, VersionConditions(d) + c);
    FirstThen(VersionConditions(d), c);
    FirstOfOne(VersionConditions(d)[0]);
    assert VersionConditions(d) == [VersionConditions(d)[0]];
    NumberStage(r);
    NumbersFirst(n, Numbers(q, d, g));
    FlagsFirst(r);
    NumericReasonExact(n, None);
    if NumericReason(n, None).None? && FlagsOf(s).Good? {
      var f := FlagsOf(s).value;
      SignedPolicyText(root, s, t, f);
      PolicyStrings(root, s, t);
      TrustFirst(p, Of(d, TRUST), text);
    }
  }

  lemma PolicyStrings(root: seq<Entry>, s: Shape, t: Strings)
    requires ShapeOf(root) == Good(s) && StringsOf(s) == Good(t)
    ensures var d := Of(Some(Obj(root)), POLICY_DOCUMENT);
            Of(d, POLICY_VERSION) == Some(Str(t.policyVersion)) && Of(d, TRUST) == Fetch(s.policy, TRUST)
  {
    hide Of, Fetch, ShapeOf, StringsOf;
    ShapeSays(root, s);
    StringsSay(s, t);
    FetchOf(root, POLICY_DOCUMENT);
    FetchOf(s.policy, POLICY_VERSION);
    FetchOf(s.policy, TRUST);
  }

  // ----- the whole check

  /** Validation of an object gives the reason of the first violated requirement, or a typed request. */
  lemma ValidateFirst(p: Platform, root: seq<Entry>)
    requires WellFormed(Obj(root))
    ensures match FirstViolated(Requirements(p, Obj(root)))
            case Some(e) => Validate(p, root) == Bad(e)
            case None => Validate(p, root).Good?
  {
    hide FirstViolated, Of, ShapeOf, ShapeAt, StringsOf, ListsOf, FinishValidation, ShapeConditions, StringConditions, ListConditions,
         FinishConditions, WellFormed;
    var v := Obj(root);
    var r := Some(v);
    var q, d, g := Of(r, EXECUTION_REQUEST), Of(r, POLICY_DOCUMENT), Of(r, PRICING_DATA);
    var s := ShapeAt(r);
    var finish := FinishConditions(p, q, d, g);
    FirstOfCons(RecordRule(r), ShapeConditions(r) + (StringConditions(q, d) + (ListConditions(q) + finish)));
    FirstThen(ShapeConditions(r), StringConditions(q, d) + (ListConditions(q) + finish));
    FirstThen(StringConditions(q, d), ListConditions(q) + finish);
    FirstThen(ListConditions(q), finish);
    ShapeFirst(root);
    StringStageFirst(r);
    ListsFirst(r);
    if ShapeOf(root).Good? && StringsOf(s).Good? && ListsOf(s).Good? {
      FinishFirst(p, root, s, StringsOf(s).value, ListsOf(s).value);
    }
  }

  /**
   A text that is a JSON document is refused with the reason of the first requirement its value violates, and accepted
   exactly when it violates none. The request hash is that of the canonical text, or of the text itself for a value that
   is no object.
   */
  lemma PreflightReasonExact(p: Platform, raw: Text)
    requires Parse(raw).Success?
    ensures var v := Parse(raw).value;
            match FirstViolated(Requirements(p, v))
            case None => RunPreflight(p, raw).Accepted?
            case Some(e) => RunPreflight(p, raw) == Failed(p, p.sha256(if v.Obj? then Canonicalize(v) else raw), e)
  {
    hide FirstViolated, Parse, Validate, ShapeConditions, StringConditions, ListConditions, FinishConditions, WellFormed, Canonicalize,
         Failed, PolicyHash, Of;
    var v := Parse(raw).value;
    ParsedIsWellFormed(raw);
    if v.Obj? {
      assert v == Obj(v.entries);
      ValidateFirst(p, v.entries);
    } else {
      var r := Some(v);
      var q, d, g := Of(r, EXECUTION_REQUEST), Of(r, POLICY_DOCUMENT), Of(r, PRICING_DATA);
      FirstOfCons(RecordRule(r), ShapeConditions(r) + (StringConditions(q, d) + (ListConditions(q) + FinishConditions(p, q, d, g))));
    }
  }

  // ----- the reasons there are

  /** The seven reasons a typed check gives. */
  predicate IsTypedReason(e: Reason) {
    e in {SchemaValidation, TypeMismatch, InvalidJsonNumber, NonDeterministicInput, PolicyVersionMismatch, PolicyKeyIdMismatch,
          InvalidPolicySignature}
  }

  ghost predicate Typed(cs: seq<Condition>) {
    forall i :: 0 <= i < |cs| ==> IsTypedReason(cs[i].reason)
  }

  lemma TypedAppend(a: seq<Condition>, b: seq<Condition>)
    requires Typed(a) && Typed(b)
    ensures Typed(a + b)
  {
    hide IsTypedReason;
  }

  lemma {:induction false} CallsTyped(items: seq<Json>, i: nat)
    requires i <= |items|
    ensures Typed(CallsConditions(items, i))
    decreases |items| - i
  {
    hide CallConditions, IsTypedReason;
    if i < |items| {
      CallTyped(items, i);
      CallsTyped(items, i + 1);
      TypedAppend(CallConditions(items, i), CallsConditions(items, i + 1));
    }
  }

  lemma CallTyped(items: seq<Json>, i: nat)
    requires i < |items|
    ensures Typed(CallConditions(items, i))
  {
    hide OnlyKeys, ReservedFirst, ReservedAt, Of, ToolUsedBefore;
  }

  lemma {:induction false} SignaturesTyped(items: seq<Json>)
    ensures Typed(SignatureConditions(items))
  {
    hide OnlyKeys, ReservedFirst, Of;
    if items != [] { SignaturesTyped(items[1..]); }
  }

  lemma ToolCallsTyped(v: Option<Json>)
    ensures Typed(ToolCallConditions(v))
  {
    hide CallsConditions;
    CallsTyped(ItemsOf(v), 0);
  }

  lemma ListsTyped(q: Option<Json>)
    ensures Typed(ListConditions(q))
  {
    hide OnlyKeys, ReservedFirst, ReservedAt, Of, ToolCallConditions, SignatureConditions;
    var orbit := Of(q, ORBIT_INTENT);
    ToolCallsTyped(Of(q, TOOL_CALLS));
    ToolCallsTyped(Of(Of(orbit, PAYLOAD), TOOL_CALLS));
    SignaturesTyped(ItemsOf(Of(orbit, SIGNATURES)));
  }

  lemma FinishTyped(p: Platform, q: Option<Json>, d: Option<Json>, g: Option<Json>)
    ensures Typed(FinishConditions(p, q, d, g))
  {
    hide OnlyKeys, ReservedFirst, Of, Numbers, Canonicalize, TrustVerifies, TrustTexts;
  }

  lemma ShapeTyped(r: Option<Json>)
    ensures Typed(ShapeConditions(r))
  {
    hide OnlyKeys, ReservedFirst, Of;
  }

  /** Every typed refusal carries one of the seven reasons. */
  lemma TypedReasonsOnly(p: Platform, raw: Text)
    requires Parse(raw).Success? && RunPreflight(p, raw).Rejected?
    ensures IsTypedReason(RunPreflight(p, raw).failure.reason)
  {
    hide Parse, RunPreflight, ShapeConditions, StringConditions, ListConditions, FinishConditions, IsTypedReason, Of, FirstViolated;
    var v := Parse(raw).value;
    var r := Some(v);
    var q, d, g := Of(r, EXECUTION_REQUEST), Of(r, POLICY_DOCUMENT), Of(r, PRICING_DATA);
    var cs := Requirements(p, v);
    PreflightReasonExact(p, raw);
    ShapeTyped(r);
    StringsTyped(q, d);
    ListsTyped(q);
    FinishTyped(p, q, d, g);
    TypedAppend(ListConditions(q), FinishConditions(p, q, d, g));
    TypedAppend(StringConditions(q, d), ListConditions(q) + FinishConditions(p, q, d, g));
    TypedAppend(ShapeConditions(r), StringConditions(q, d) + (ListConditions(q) + FinishConditions(p, q, d, g)));
    assert IsTypedReason(RecordRule(r).reason) by { RecordReasonTyped(r); }
    TypedAppend([RecordRule(r)], ShapeConditions(r) + (StringConditions(q, d) + (ListConditions(q) + FinishConditions(p, q, d, g))));
    var i := FirstIndex(cs);
    assert Typed(cs);
  }

  lemma RecordReasonTyped(r: Option<Json>)
    ensures IsTypedReason(RecordRule(r).reason)
  {
  }

  lemma StringsTyped(q: Option<Json>, d: Option<Json>)
    ensures Typed(StringConditions(q, d))
  {
    hide Of, IsNonEmptyText;
  }
}
