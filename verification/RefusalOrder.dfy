/**
 How far a preflight refusal depends on key order: exactly when the first check that fails is a key check on a mixed object,
 one with reserved and unreserved keys that are not allowed, none of them an array index.
 */
module RefusalOrder {
  import opened Units
  import opened JsonValues
  import opened Grammar
  import opened StrictParser
  import opened ParserLanguage
  import opened Canonical
  import opened Fields
  import opened Contracts
  import opened DeepScan
  import opened Preflight
  import opened PreflightReplay
  import opened KeyOrder
  import opened Sequences

  // ----- every value, in every key order, has a text

  function PlainTree(v: Json): Tree
    decreases v, 0
  {
    match v
    case Null => NullWord
    case Bool(b) => BoolWord(b)
    case Num(n) => NumberTree(n)
    case NegZero => Number(true, [ZERO])
    case Str(s) => Quoted(Pieces(s))
    case Arr(items) => Array([], PlainItems(items))
    case Obj(es) => Object([], PlainMembers(es))
  }

  function PlainItems(items: seq<Json>): (r: seq<Item>)
    decreases items, 0
  {
    if items == [] then [] else [Item([], PlainTree(items[0]), [])] + PlainItems(items[1..])
  }

  function PlainMembers(es: seq<Entry>): (r: seq<Member>)
    decreases es, 0
  {
    if es == [] then []
    else [Member([], Pieces(es[0].key), [], [], PlainTree(es[0].value), [])] + PlainMembers(es[1..])
  }

  lemma {:induction false} PlainTreeMeaning(v: Json)
    requires WellFormed(v)
    ensures Valid(PlainTree(v)) && Meaning(PlainTree(v)) == v
    decreases v, 0
  {
    match v
    case Num(n) => NumberTreeMeaning(n);
    case NegZero =>
      NatTextValue(0);
    case Str(s) => PiecesOfMeaning(s);
    case Arr(items) => PlainItemsMeaning(items);
    case Obj(es) =>
      PlainMembersMeaning(es);
      MembersKeys(PlainMembers(es));
    case _ =>
  }

  lemma {:induction false} PlainItemsMeaning(items: seq<Json>)
    requires forall i :: 0 <= i < |items| ==> WellFormed(items[i])
    ensures ValidItems(PlainItems(items)) && ItemsMeaning(PlainItems(items)) == items
    decreases items, 0
  {
    if items != [] {
      PlainTreeMeaning(items[0]);
      PlainItemsMeaning(items[1..]);
      assert PlainItems(items)[1..] == PlainItems(items[1..]);
    }
  }

  lemma {:induction false} PlainMembersMeaning(es: seq<Entry>)
    requires forall i :: 0 <= i < |es| ==> WellFormed(es[i].value)
    ensures ValidMembers(PlainMembers(es)) && MembersMeaning(PlainMembers(es)) == es
    decreases es, 0
  {
    if es != [] {
      PlainTreeMeaning(es[0].value);
      PiecesOfMeaning(es[0].key);
      PlainMembersMeaning(es[1..]);
      MembersCons(PlainMembers(es)[0], PlainMembers(es[1..]));
    }
  }

  /** Every value, whatever the order of its keys, is the value of some text. */
  lemma EveryValueHasText(v: Json) returns (t: Text)
    requires WellFormed(v)
    ensures Parse(t) == Success(v)
  {
    hide Valid, Meaning, Spell, Parse, WellFormed;
    PlainTreeMeaning(v);
    t := Spell(PlainTree(v), []);
    assert [] + t == t;
    DocumentParses(t, [], PlainTree(v), []);
  }

  // ----- values with reserved keys first, or last, at every depth

  function Arrange(v: Json, first: bool): Json
    decreases v, 0
  {
    match v
    case Arr(items) => Arr(ArrangeItems(items, first))
    case Obj(es) => Obj(Parted(ArrangeEntries(es, first), first))
    case _ => v
  }

  function ArrangeItems(items: seq<Json>, first: bool): (r: seq<Json>)
    ensures |r| == |items|
    decreases items, 0
  {
    if items == [] then [] else [Arrange(items[0], first)] + ArrangeItems(items[1..], first)
  }

  function ArrangeEntries(es: seq<Entry>, first: bool): (r: seq<Entry>)
    ensures |r| == |es|
    decreases es, 0
  {
    if es == [] then [] else [Entry(es[0].key, Arrange(es[0].value, first))] + ArrangeEntries(es[1..], first)
  }

  lemma {:induction false} ArrangeItemsAt(items: seq<Json>, first: bool, i: nat)
    requires i < |items|
    ensures ArrangeItems(items, first)[i] == Arrange(items[i], first)
  {
    if i > 0 { ArrangeItemsAt(items[1..], first, i - 1); }
  }

  lemma {:induction false} ArrangeEntriesAt(es: seq<Entry>, first: bool, i: nat)
    requires i < |es|
    ensures ArrangeEntries(es, first)[i] == Entry(es[i].key, Arrange(es[i].value, first))
  {
    if i > 0 { ArrangeEntriesAt(es[1..], first, i - 1); }
  }

  /** Every object at any depth has its reserved keys first, or last. */
  predicate Arranged(v: Json, first: bool) {
    match v
    case Arr(items) => forall i :: 0 <= i < |items| ==> Arranged(items[i], first)
    case Obj(es) => Ordered(Keys(es), first) && forall i :: 0 <= i < |es| ==> Arranged(es[i].value, first)
    case _ => true
  }

  /** Equal up to key order, in both directions, so that signs of zero agree too. */
  predicate Twins(v: Json, w: Json) {
    WellFormed(v) && WellFormed(w) && Tidier(v, w) && Tidier(w, v)
  }

  lemma KeysOfPermuted(es: seq<Entry>, fs: seq<Entry>)
    requires multiset(es) == multiset(fs) && DistinctKeys(es)
    ensures DistinctKeys(fs)
  {
    PermutedMembers(es, fs);
    assert Distinct(es);
    DistinctPermuted(es, fs);
    forall i, j | 0 <= i < j < |fs| ensures fs[i].key != fs[j].key {
      assert fs[i] in es && fs[j] in es;
      var k :| 0 <= k < |es| && es[k] == fs[i];
      var l :| 0 <= l < |es| && es[l] == fs[j];
      assert k != l;
    }
  }

  lemma TidierObjects(es: seq<Entry>, fs: seq<Entry>)
    requires |es| == |fs| && forall i :: 0 <= i < |es| ==> HasKey(fs, es[i].key)
    requires forall i, j :: 0 <= i < |es| && 0 <= j < |fs| && es[i].key == fs[j].key ==> Tidier(es[i].value, fs[j].value)
    ensures Tidier(Obj(es), Obj(fs))
  {
  }

  /** Any value can be arranged. */
  lemma {:induction false} ArrangeTwin(v: Json, first: bool)
    requires WellFormed(v)
    ensures Twins(v, Arrange(v, first)) && Arranged(Arrange(v, first), first)
    decreases v
  {
    match v
    case Arr(items) =>
      forall i | 0 <= i < |items|
        ensures ArrangeItems(items, first)[i] == Arrange(items[i], first)
        ensures Twins(items[i], Arrange(items[i], first)) && Arranged(Arrange(items[i], first), first)
      {
        ArrangeItemsAt(items, first, i);
        ArrangeTwin(items[i], first);
      }
    case Obj(es) =>
      forall i | 0 <= i < |es|
        ensures ArrangeEntries(es, first)[i] == Entry(es[i].key, Arrange(es[i].value, first))
        ensures Twins(es[i].value, Arrange(es[i].value, first)) && Arranged(Arrange(es[i].value, first), first)
      {
        ArrangeEntriesAt(es, first, i);
        ArrangeTwin(es[i].value, first);
      }
      ArrangedObject(es, ArrangeEntries(es, first), first);
    case _ =>
  }

  lemma ArrangedObject(es: seq<Entry>, ms: seq<Entry>, first: bool)
    requires DistinctKeys(es) && |ms| == |es|
    requires forall i :: 0 <= i < |es| ==>
               ms[i].key == es[i].key && Twins(es[i].value, ms[i].value) && Arranged(ms[i].value, first)
    ensures Twins(Obj(es), Obj(Parted(ms, first))) && Arranged(Obj(Parted(ms, first)), first)
  {
    hide Parted, Ordered, IsReserved, Tidier, Arranged, WellFormed;
    var fs := Parted(ms, first);
    PartedPermutes(ms, first);
    PartedOrdered(ms, first);
    KeysOfPermuted(ms, fs);
    forall j | 0 <= j < |fs| ensures exists i :: 0 <= i < |es| && fs[j] == ms[i] {
      assert fs[j] in ms;
    }
    PermutedKeys(ms, fs);
    forall i | 0 <= i < |es| ensures HasKey(fs, es[i].key) {
      assert HasKey(ms, ms[i].key);
    }
    forall j | 0 <= j < |fs| ensures HasKey(es, fs[j].key) && WellFormed(fs[j].value) && Arranged(fs[j].value, first) {
      var i :| 0 <= i < |es| && fs[j] == ms[i];
      assert es[i].key == fs[j].key;
    }
    forall i, j | 0 <= i < |es| && 0 <= j < |fs| && es[i].key == fs[j].key
      ensures Tidier(es[i].value, fs[j].value) && Tidier(fs[j].value, es[i].value)
    {
      var k :| 0 <= k < |es| && fs[j] == ms[k];
    }
    TidierObjects(es, fs);
    TidierObjects(fs, es);
    ObjectFacts(es, fs, first);
  }

  lemma ObjectFacts(es: seq<Entry>, fs: seq<Entry>, first: bool)
    requires DistinctKeys(es) && DistinctKeys(fs)
    ensures (forall i :: 0 <= i < |es| ==> WellFormed(es[i].value)) ==> WellFormed(Obj(es))
    ensures (forall i :: 0 <= i < |fs| ==> WellFormed(fs[i].value)) ==> WellFormed(Obj(fs))
    ensures Ordered(Keys(fs), first) && (forall i :: 0 <= i < |fs| ==> Arranged(fs[i].value, first)) ==> Arranged(Obj(fs), first)
  {
  }

  // ----- the key check a refusal comes from

  /** A key check: the entries of an object, and the names it may have. */
  datatype KeyCheck = KeyCheck(entries: seq<Entry>, allowed: seq<Name>)

  predicate Fails(c: KeyCheck) {
    Known(c.entries, c.allowed).Bad?
  }

  function FirstFailing(cs: seq<KeyCheck>): Option<KeyCheck> {
    if cs == [] then None else if Fails(cs[0]) then Some(cs[0]) else FirstFailing(cs[1..])
  }

  function One(c: KeyCheck): Option<KeyCheck> {
    if Fails(c) then Some(c) else None
  }

  function SectionChecks(c: Sections, pricing: seq<Entry>, policy: seq<Entry>): (cs: seq<KeyCheck>)
    ensures |cs| == 8
  {
    [KeyCheck(c.actor, [USER_ID]), KeyCheck(c.resources, RESOURCES_KEYS), KeyCheck(c.execution, EXECUTION_KEYS),
     KeyCheck(c.orbit, ORBIT_KEYS), KeyCheck(c.release, RELEASE_KEYS), KeyCheck(c.runtime, RUNTIME_KEYS),
     KeyCheck(pricing, [GPU_HOUR_CENTS]), KeyCheck(policy, POLICY_KEYS)]
  }

  /** The key check by which RequestShape refuses; None when it accepts or refuses for another reason. */
  function RequestCheck(request: seq<Entry>, policy: seq<Entry>, pricing: seq<Entry>): Option<KeyCheck> {
    if SectionsOf(request).Bad? then None
    else
      var first := FirstFailing(SectionChecks(SectionsOf(request).value, pricing, policy));
      if first.Some? then first
      else if RecordAt(policy, RULES).Bad? then None
      else One(KeyCheck(RecordAt(policy, RULES).value, RULES_KEYS))
  }

  function ShapeCheck(root: seq<Entry>): Option<KeyCheck> {
    if Fails(KeyCheck(root, ROOT_KEYS)) then Some(KeyCheck(root, ROOT_KEYS))
    else if RecordAt(root, EXECUTION_REQUEST).Bad? || RecordAt(root, POLICY_DOCUMENT).Bad? || RecordAt(root, PRICING_DATA).Bad? then None
    else
      var request := RecordAt(root, EXECUTION_REQUEST).value;
      if Fails(KeyCheck(request, REQUEST_KEYS)) then Some(KeyCheck(request, REQUEST_KEYS))
      else RequestCheck(request, RecordAt(root, POLICY_DOCUMENT).value, RecordAt(root, PRICING_DATA).value)
  }

  function CallCheck(item: Json): Option<KeyCheck> {
    if item.Obj? then One(KeyCheck(item.entries, CALL_KEYS)) else None
  }

  function CallsCheck(items: seq<Json>, seen: set<Text>): Option<KeyCheck> {
    if items == [] then None
    else if CallCheck(items[0]).Some? then CallCheck(items[0])
    else
      match ParseToolCall(items[0], seen)
      case Bad(_) => None
      case Good(call) => CallsCheck(items[1..], seen + {call.tool})
  }

  function ToolCallsCheck(v: Option<Json>): Option<KeyCheck> {
    match v case Some(Arr(items)) => CallsCheck(items, {}) case _ => None
  }

  function SignatureCheck(item: Json): Option<KeyCheck> {
    if item.Obj? then One(KeyCheck(item.entries, [ALG, SIG])) else None
  }

  function SignatureItemsCheck(items: seq<Json>): Option<KeyCheck> {
    if items == [] then None
    else if SignatureCheck(items[0]).Some? then SignatureCheck(items[0])
    else if ParseSignature(items[0]).Bad? then None
    else SignatureItemsCheck(items[1..])
  }

  function SignaturesCheck(v: Option<Json>): Option<KeyCheck> {
    match v case Some(Arr(items)) => SignatureItemsCheck(items) case _ => None
  }

  function PayloadCheck(v: Option<Json>): Option<KeyCheck> {
    match v
    case Some(Obj(es)) =>
      if ReservedScan(v.value) then None
      else if Fails(KeyCheck(es, [TOOL_CALLS])) then Some(KeyCheck(es, [TOOL_CALLS]))
      else ToolCallsCheck(Fetch(es, TOOL_CALLS))
    case _ => None
  }

  function ListsCheck(s: Shape): Option<KeyCheck> {
    if ParseToolCalls(Fetch(s.request, TOOL_CALLS)).Bad? then ToolCallsCheck(Fetch(s.request, TOOL_CALLS))
    else if ParseParameters(Fetch(s.request, PARAMETERS)).Bad? then None
    else if ParseSignatures(Fetch(s.orbit, SIGNATURES)).Bad? then SignaturesCheck(Fetch(s.orbit, SIGNATURES))
    else PayloadCheck(Fetch(s.orbit, PAYLOAD))
  }

  function TrustCheck(v: Option<Json>): Option<KeyCheck> {
    match v case Some(Obj(es)) => One(KeyCheck(es, TRUST_KEYS)) case _ => None
  }

  function FinishCheck(s: Shape, t: Strings): Option<KeyCheck> {
    if NumericReason(NumericChecks(s), None).Some? || FlagsOf(s).Bad? || t.policyVersion != Ascii(PINNED_POLICY_VERSION) then None
    else TrustCheck(Fetch(s.policy, TRUST))
  }

  /** The key check by which preflight refuses a request; None when it accepts or refuses for another reason. */
  function FailingCheck(root: seq<Entry>): Option<KeyCheck> {
    if ShapeOf(root).Bad? then ShapeCheck(root)
    else
      var s := ShapeOf(root).value;
      if StringsOf(s).Bad? then None
      else if ListsOf(s).Bad? then ListsCheck(s)
      else FinishCheck(s, StringsOf(s).value)
  }

  // ----- it is the check that fails

  /** A result is the refusal of the check that was found. */
  predicate Explains<T>(c: Option<KeyCheck>, r: Checked<T>) {
    c.Some? ==> Fails(c.value) && r.Bad? && r.reason == Known(c.value.entries, c.value.allowed).reason
  }

  lemma SectionsExplained(c: Sections, pricing: seq<Entry>, policy: seq<Entry>)
    ensures var first := FirstFailing(SectionChecks(c, pricing, policy));
            first == if SectionsKnown(c).Bad? then first
                     else if Known(pricing, [GPU_HOUR_CENTS]).Bad? then Some(KeyCheck(pricing, [GPU_HOUR_CENTS]))
                     else One(KeyCheck(policy, POLICY_KEYS))
    ensures SectionsKnown(c).Bad? ==>
              var first := FirstFailing(SectionChecks(c, pricing, policy)); first.Some? && Explains(first, SectionsKnown(c))
  {
    hide Known;
    var cs := SectionChecks(c, pricing, policy);
    FirstSteps(cs, 0);
    FirstSteps(cs, 1);
    FirstSteps(cs, 2);
    FirstSteps(cs, 3);
    FirstSteps(cs, 4);
    FirstSteps(cs, 5);
    FirstSteps(cs, 6);
    FirstSteps(cs, 7);
    FirstSteps(cs, 8);
    assert cs[0..] == cs;
  }

  lemma FirstSteps(cs: seq<KeyCheck>, i: nat)
    requires i <= |cs|
    ensures FirstFailing(cs[i..]) == if i == |cs| then None else if Fails(cs[i]) then Some(cs[i]) else FirstFailing(cs[i + 1..])
  {
    hide Fails;
    if i < |cs| { assert cs[i..][1..] == cs[i + 1..]; }
  }

  lemma RequestExplained(request: seq<Entry>, policy: seq<Entry>, pricing: seq<Entry>)
    ensures Explains(RequestCheck(request, policy, pricing), RequestShape(request, policy, pricing))
    ensures RequestCheck(request, policy, pricing).None? && RequestShape(request, policy, pricing).Bad? ==>
              RequestShape(request, policy, pricing).reason == SchemaValidation
  {
    hide Known, SectionsKnown, SectionChecks, FirstFailing, RecordAt;
    RecordReason(policy, RULES);
    SectionsReason(request);
    if SectionsOf(request).Good? { SectionsExplained(SectionsOf(request).value, pricing, policy); }
  }

  lemma RecordReason(es: seq<Entry>, name: Name)
    ensures RecordAt(es, name).Bad? ==> RecordAt(es, name).reason == SchemaValidation
  {
  }

  lemma SectionsReason(request: seq<Entry>)
    ensures SectionsOf(request).Bad? ==> SectionsOf(request).reason == SchemaValidation
  {
    hide RecordAt;
    RecordReason(request, ACTOR);
    RecordReason(request, RESOURCES);
    RecordReason(request, EXECUTION);
    RecordReason(request, ORBIT_INTENT);
    RecordReason(request, RELEASE_REQUEST);
    RecordReason(request, RUNTIME_OBSERVATION);
  }

  lemma ShapeExplained(root: seq<Entry>)
    ensures Explains(ShapeCheck(root), ShapeOf(root))
    ensures ShapeCheck(root).None? && ShapeOf(root).Bad? ==> ShapeOf(root).reason == SchemaValidation
  {
    hide Known, RecordAt, RequestCheck, RequestShape;
    RecordReason(root, EXECUTION_REQUEST);
    RecordReason(root, POLICY_DOCUMENT);
    RecordReason(root, PRICING_DATA);
    if RecordAt(root, EXECUTION_REQUEST).Good? && RecordAt(root, POLICY_DOCUMENT).Good? && RecordAt(root, PRICING_DATA).Good? {
      RequestExplained(RecordAt(root, EXECUTION_REQUEST).value, RecordAt(root, POLICY_DOCUMENT).value,
                       RecordAt(root, PRICING_DATA).value);
    }
  }

  lemma CallExplained(item: Json, seen: set<Text>)
    ensures Explains(CallCheck(item), ParseToolCall(item, seen))
  {
    hide Known, Fetch, ReservedScan;
  }

  lemma {:induction false} CallsExplained(items: seq<Json>, seen: set<Text>, parsed: seq<ToolCall>)
    ensures Explains(CallsCheck(items, seen), ParseCalls(items, seen, parsed))
  {
    hide ParseToolCall, CallCheck, Known;
    if items != [] {
      CallExplained(items[0], seen);
      match ParseToolCall(items[0], seen) {
        case Bad(_) =>
        case Good(call) => CallsExplained(items[1..], seen + {call.tool}, parsed + [call]);
      }
    }
  }

  lemma ToolCallsExplained(v: Option<Json>)
    ensures Explains(ToolCallsCheck(v), ParseToolCalls(v))
  {
    hide ParseCalls, CallsCheck, Known;
    match v
    case Some(Arr(items)) =>
      CallsExplained(items, {}, []);
      NoCallsCheck();
    case _ =>
  }

  lemma NoCallsCheck()
    ensures CallsCheck([], {}) == None
  {
  }

  lemma {:induction false} SignaturesExplained(items: seq<Json>, parsed: seq<Signature>)
    ensures Explains(SignatureItemsCheck(items), ParseSignatureItems(items, parsed))
  {
    hide Known, Fetch;
    if items != [] {
      if ParseSignature(items[0]).Good? {
        SignaturesExplained(items[1..], parsed + [ParseSignature(items[0]).value]);
      }
    }
  }

  lemma PayloadExplained(v: Option<Json>)
    ensures Explains(PayloadCheck(v), ParsePayload(v))
  {
    hide Known, Fetch, ParseToolCalls, ToolCallsCheck, ReservedScan;
    if v.Some? && v.value.Obj? { ToolCallsExplained(Fetch(v.value.entries, TOOL_CALLS)); }
  }

  lemma ListsExplained(s: Shape)
    ensures Explains(ListsCheck(s), ListsOf(s))
  {
    hide Known, Fetch, ParseToolCalls, ToolCallsCheck, ParsePayload, PayloadCheck, ParseSignatureItems, SignatureItemsCheck,
         ReservedScan;
    ToolCallsExplained(Fetch(s.request, TOOL_CALLS));
    PayloadExplained(Fetch(s.orbit, PAYLOAD));
    match Fetch(s.orbit, SIGNATURES)
    case Some(Arr(items)) =>
      SignaturesExplained(items, []);
      NoSignaturesCheck();
    case _ =>
  }

  lemma NoSignaturesCheck()
    ensures SignatureItemsCheck([]) == None
  {
  }

  lemma TrustExplained(p: Platform, v: Option<Json>, payload: Text)
    ensures Explains(TrustCheck(v), ParseTrust(p, v, payload))
  {
    hide Known, Fetch;
  }

  lemma FinishExplained(p: Platform, s: Shape, t: Strings, l: Lists)
    ensures Explains(FinishCheck(s, t), FinishValidation(p, s, t, l))
  {
    hide Known, Fetch, ParseTrust, TrustCheck, NumericChecks, FlagsOf, PolicyPayload, Build;
    var n := NumericChecks(s);
    NumericReasonExact(n, None);
    if NumericReason(n, None).None? && FlagsOf(s).Good? {
      TrustExplained(p, Fetch(s.policy, TRUST), PolicyPayload(t.schemaVersion, t.policyVersion, RulesOf(n, FlagsOf(s).value)));
    }
  }

  /** When a failing key check is found, the refusal is that of the check. */
  lemma CheckExplained(p: Platform, root: seq<Entry>)
    ensures Explains(FailingCheck(root), Validate(p, root))
  {
    hide Known, ShapeOf, ShapeCheck, StringsOf, ListsOf, ListsCheck, FinishCheck, FinishValidation;
    ShapeExplained(root);
    if ShapeOf(root).Good? {
      var s := ShapeOf(root).value;
      if StringsOf(s).Good? {
        ListsExplained(s);
        if ListsOf(s).Good? { FinishExplained(p, s, StringsOf(s).value, ListsOf(s).value); }
      }
    }
  }

  // ----- twins are refused by twin checks, or for the same other reason

  predicate ObjectTwins(es: seq<Entry>, fs: seq<Entry>) {
    Related(es, fs) && Related(fs, es)
  }

  predicate OptTwins(v: Option<Json>, w: Option<Json>) {
    OptTidier(v, w) && OptTidier(w, v)
  }

  predicate CheckTwins(c: Option<KeyCheck>, d: Option<KeyCheck>) {
    && c.Some? == d.Some?
    && (c.Some? ==> c.value.allowed == d.value.allowed && ObjectTwins(c.value.entries, d.value.entries))
  }

  /** Both accepted, or both refused for the same reason. */
  predicate SameVerdict<T, U>(a: Checked<T>, b: Checked<U>) {
    (a.Good? <==> b.Good?) && (a.Bad? && b.Bad? ==> a.reason == b.reason)
  }

  lemma FetchTwins(es: seq<Entry>, fs: seq<Entry>, name: Name)
    requires ObjectTwins(es, fs)
    ensures OptTwins(Fetch(es, name), Fetch(fs, name))
  {
    hide Related, OptTidier, Fetch;
    FetchRelated(es, fs, name);
    FetchRelated(fs, es, name);
  }

  lemma KnownTwins(es: seq<Entry>, fs: seq<Entry>, allowed: seq<Name>)
    requires ObjectTwins(es, fs)
    ensures Fails(KeyCheck(es, allowed)) <==> Fails(KeyCheck(fs, allowed))
    ensures CheckTwins(One(KeyCheck(es, allowed)), One(KeyCheck(fs, allowed)))
  {
    hide Related, Known;
    if Known(es, allowed).Good? { KnownRelated(es, fs, allowed); }
    if Known(fs, allowed).Good? { KnownRelated(fs, es, allowed); }
  }

  lemma RecordTwins(es: seq<Entry>, fs: seq<Entry>, name: Name)
    requires ObjectTwins(es, fs)
    ensures RecordAt(es, name).Good? <==> RecordAt(fs, name).Good?
    ensures RecordAt(es, name).Good? ==> ObjectTwins(RecordAt(es, name).value, RecordAt(fs, name).value)
  {
    hide Related, RecordAt;
    if RecordAt(es, name).Good? { RecordRelated(es, fs, name); }
    if RecordAt(fs, name).Good? { RecordRelated(fs, es, name); }
  }

  predicate SectionsTwins(c: Sections, d: Sections) {
    ObjectTwins(c.actor, d.actor) && ObjectTwins(c.resources, d.resources) && ObjectTwins(c.execution, d.execution) &&
    ObjectTwins(c.orbit, d.orbit) && ObjectTwins(c.release, d.release) && ObjectTwins(c.runtime, d.runtime)
  }

  lemma SectionsOfTwins(es: seq<Entry>, fs: seq<Entry>)
    requires ObjectTwins(es, fs)
    ensures SectionsOf(es).Good? <==> SectionsOf(fs).Good?
    ensures SectionsOf(es).Good? ==> SectionsTwins(SectionsOf(es).value, SectionsOf(fs).value)
  {
    hide ObjectTwins, RecordAt;
    RecordTwins(es, fs, ACTOR);
    RecordTwins(es, fs, RESOURCES);
    RecordTwins(es, fs, EXECUTION);
    RecordTwins(es, fs, ORBIT_INTENT);
    RecordTwins(es, fs, RELEASE_REQUEST);
    RecordTwins(es, fs, RUNTIME_OBSERVATION);
  }

  lemma {:induction false} FirstFailingTwins(cs: seq<KeyCheck>, ds: seq<KeyCheck>)
    requires |cs| == |ds|
    requires forall i :: 0 <= i < |cs| ==> cs[i].allowed == ds[i].allowed && ObjectTwins(cs[i].entries, ds[i].entries)
    ensures CheckTwins(FirstFailing(cs), FirstFailing(ds))
  {
    hide ObjectTwins, Fails;
    if cs != [] {
      KnownTwins(cs[0].entries, ds[0].entries, cs[0].allowed);
      forall i | 0 <= i < |cs[1..]|
        ensures cs[1..][i].allowed == ds[1..][i].allowed && ObjectTwins(cs[1..][i].entries, ds[1..][i].entries)
      {
        assert cs[1..][i] == cs[i + 1] && ds[1..][i] == ds[i + 1];
      }
      FirstFailingTwins(cs[1..], ds[1..]);
    }
  }

  lemma RequestCheckTwins(request: seq<Entry>, policy: seq<Entry>, pricing: seq<Entry>,
                          request': seq<Entry>, policy': seq<Entry>, pricing': seq<Entry>)
    requires ObjectTwins(request, request') && ObjectTwins(policy, policy') && ObjectTwins(pricing, pricing')
    ensures CheckTwins(RequestCheck(request, policy, pricing), RequestCheck(request', policy', pricing'))
  {
    hide ObjectTwins, RecordAt, SectionsOf, Fails, FirstFailing, One;
    SectionsOfTwins(request, request');
    if SectionsOf(request).Good? {
      FirstFailingTwins(SectionChecks(SectionsOf(request).value, pricing, policy),
                        SectionChecks(SectionsOf(request').value, pricing', policy'));
      RecordTwins(policy, policy', RULES);
      if RecordAt(policy, RULES).Good? { KnownTwins(RecordAt(policy, RULES).value, RecordAt(policy', RULES).value, RULES_KEYS); }
    }
  }

  lemma ShapeCheckTwins(es: seq<Entry>, fs: seq<Entry>)
    requires ObjectTwins(es, fs)
    ensures CheckTwins(ShapeCheck(es), ShapeCheck(fs))
  {
    hide ObjectTwins, RecordAt, Fails, RequestCheck;
    KnownTwins(es, fs, ROOT_KEYS);
    RecordTwins(es, fs, EXECUTION_REQUEST);
    RecordTwins(es, fs, POLICY_DOCUMENT);
    RecordTwins(es, fs, PRICING_DATA);
    if RecordAt(es, EXECUTION_REQUEST).Good? && RecordAt(es, POLICY_DOCUMENT).Good? && RecordAt(es, PRICING_DATA).Good? {
      KnownTwins(RecordAt(es, EXECUTION_REQUEST).value, RecordAt(fs, EXECUTION_REQUEST).value, REQUEST_KEYS);
      RequestCheckTwins(RecordAt(es, EXECUTION_REQUEST).value, RecordAt(es, POLICY_DOCUMENT).value,
                        RecordAt(es, PRICING_DATA).value, RecordAt(fs, EXECUTION_REQUEST).value,
                        RecordAt(fs, POLICY_DOCUMENT).value, RecordAt(fs, PRICING_DATA).value);
    }
  }

  predicate ShapeTwins(s: Shape, t: Shape) {
    ShapeRelated(s, t) && ShapeRelated(t, s)
  }

  lemma ShapesTwins(es: seq<Entry>, fs: seq<Entry>)
    requires ObjectTwins(es, fs)
    ensures ShapeOf(es).Good? <==> ShapeOf(fs).Good?
    ensures ShapeOf(es).Good? ==> ShapeTwins(ShapeOf(es).value, ShapeOf(fs).value)
  {
    hide Related, ShapeOf, ShapeRelated;
    if ShapeOf(es).Good? { ShapesAgree(es, fs); }
    if ShapeOf(fs).Good? { ShapesAgree(fs, es); }
  }

  // ----- lists

  lemma IntegerTwins(v: Option<Json>, w: Option<Json>, minimum: int, allowZero: bool)
    requires OptTwins(v, w)
    ensures ValidateInteger(w, minimum, allowZero) == ValidateInteger(v, minimum, allowZero)
  {
    if v.Some? { ScalarTwins(v.value, w.value); }
  }

  lemma ScalarTwins(v: Json, w: Json)
    requires Tidier(v, w) && Tidier(w, v)
    ensures !v.Arr? && !v.Obj? ==> v == w
    ensures v.Arr? <==> w.Arr?
    ensures v.Obj? <==> w.Obj?
  {
  }

  lemma ReservedTwins(v: Json, w: Json)
    requires Twins(v, w)
    ensures ReservedScan(v) <==> ReservedScan(w)
  {
    hide ReservedScan, Tidier, WellFormed;
    if !ReservedScan(v) { ReservedAgrees(v, w); }
    if !ReservedScan(w) { ReservedAgrees(w, v); }
  }

  lemma ParametersTwins(v: Option<Json>, w: Option<Json>)
    requires OptTwins(v, w)
    ensures SameVerdict(ParseParameters(v), ParseParameters(w))
  {
    hide ReservedScan, Tidier, WellFormed;
    if v.Some? {
      ScalarTwins(v.value, w.value);
      ReservedTwins(v.value, w.value);
    }
  }

  lemma TwinEntries(v: Json, w: Json)
    requires Twins(v, w)
    ensures v.Obj? <==> w.Obj?
    ensures v.Obj? ==> ObjectTwins(v.entries, w.entries)
    ensures v.Arr? <==> w.Arr?
    ensures v.Arr? ==> |v.items| == |w.items| && forall i :: 0 <= i < |v.items| ==> Twins(v.items[i], w.items[i])
  {
    if v.Obj? { assert v == Obj(v.entries) && w == Obj(w.entries); }
  }

  lemma CallTwins(v: Json, w: Json, seen: set<Text>)
    requires Twins(v, w)
    ensures CheckTwins(CallCheck(v), CallCheck(w))
    ensures CallCheck(v).None? ==> SameVerdict(ParseToolCall(v, seen), ParseToolCall(w, seen))
    ensures ParseToolCall(v, seen).Good? && ParseToolCall(w, seen).Good? ==>
              ParseToolCall(v, seen).value.tool == ParseToolCall(w, seen).value.tool
  {
    hide Known, Fetch, Twins, ObjectTwins, OptTwins, ParseParameters, ValidateInteger, One, ExpectString;
    TwinEntries(v, w);
    if v.Obj? {
      var es, fs := v.entries, w.entries;
      KnownTwins(es, fs, CALL_KEYS);
      FetchTwins(es, fs, TOOL);
      StringTwins(Fetch(es, TOOL), Fetch(fs, TOOL));
      FetchTwins(es, fs, PRIORITY);
      IntegerTwins(Fetch(es, PRIORITY), Fetch(fs, PRIORITY), 0, true);
      FetchTwins(es, fs, PARAMETERS);
      ParametersTwins(Fetch(es, PARAMETERS), Fetch(fs, PARAMETERS));
      OneFails(KeyCheck(es, CALL_KEYS));
    }
  }

  lemma OneFails(c: KeyCheck)
    ensures One(c).None? <==> Known(c.entries, c.allowed).Good?
  {
  }

  lemma StringTwins(v: Option<Json>, w: Option<Json>)
    requires OptTwins(v, w)
    ensures ExpectString(v) == ExpectString(w)
  {
    if v.Some? { ScalarTwins(v.value, w.value); }
  }

  lemma {:induction false} CallsTwins(a: seq<Json>, b: seq<Json>, seen: set<Text>, done: seq<ToolCall>, done': seq<ToolCall>)
    requires |a| == |b| && forall i :: 0 <= i < |a| ==> Twins(a[i], b[i])
    ensures CheckTwins(CallsCheck(a, seen), CallsCheck(b, seen))
    ensures CallsCheck(a, seen).None? ==> SameVerdict(ParseCalls(a, seen, done), ParseCalls(b, seen, done'))
  {
    hide ParseToolCall, CallCheck, Twins, ObjectTwins;
    if a != [] {
      CallTwins(a[0], b[0], seen);
      CallExplained(a[0], seen);
      forall i | 0 <= i < |a[1..]| ensures Twins(a[1..][i], b[1..][i]) {
        assert a[1..][i] == a[i + 1] && b[1..][i] == b[i + 1];
      }
      if CallCheck(a[0]).None? && ParseToolCall(a[0], seen).Good? {
        var c, d := ParseToolCall(a[0], seen).value, ParseToolCall(b[0], seen).value;
        CallsTwins(a[1..], b[1..], seen + {c.tool}, done + [c], done' + [d]);
      }
    }
  }

  lemma ToolCallsTwins(v: Option<Json>, w: Option<Json>)
    requires OptTwins(v, w)
    ensures CheckTwins(ToolCallsCheck(v), ToolCallsCheck(w))
    ensures ToolCallsCheck(v).None? ==> SameVerdict(ParseToolCalls(v), ParseToolCalls(w))
  {
    hide ParseCalls, CallsCheck, ObjectTwins, Tidier, WellFormed;
    if v.Some? {
      TwinEntries(v.value, w.value);
      if v.value.Arr? { CallsTwins(v.value.items, w.value.items, {}, [], []); }
    }
  }

  lemma SignatureTwins(v: Json, w: Json)
    requires Twins(v, w)
    ensures CheckTwins(SignatureCheck(v), SignatureCheck(w))
    ensures SignatureCheck(v).None? ==> SameVerdict(ParseSignature(v), ParseSignature(w))
  {
    hide Known, Fetch, Twins, ObjectTwins, OptTwins, One, ExpectString;
    TwinEntries(v, w);
    if v.Obj? {
      var es, fs := v.entries, w.entries;
      KnownTwins(es, fs, [ALG, SIG]);
      FetchTwins(es, fs, ALG);
      StringTwins(Fetch(es, ALG), Fetch(fs, ALG));
      FetchTwins(es, fs, SIG);
      StringTwins(Fetch(es, SIG), Fetch(fs, SIG));
      OneFails(KeyCheck(es, [ALG, SIG]));
    }
  }

  lemma {:induction false} SignatureItemsTwins(a: seq<Json>, b: seq<Json>, done: seq<Signature>, done': seq<Signature>)
    requires |a| == |b| && forall i :: 0 <= i < |a| ==> Twins(a[i], b[i])
    ensures CheckTwins(SignatureItemsCheck(a), SignatureItemsCheck(b))
    ensures SignatureItemsCheck(a).None? ==> SameVerdict(ParseSignatureItems(a, done), ParseSignatureItems(b, done'))
  {
    hide ParseSignature, SignatureCheck, Twins, ObjectTwins;
    if a != [] {
      SignatureTwins(a[0], b[0]);
      forall i | 0 <= i < |a[1..]| ensures Twins(a[1..][i], b[1..][i]) {
        assert a[1..][i] == a[i + 1] && b[1..][i] == b[i + 1];
      }
      if SignatureCheck(a[0]).None? && ParseSignature(a[0]).Good? {
        SignatureItemsTwins(a[1..], b[1..], done + [ParseSignature(a[0]).value], done' + [ParseSignature(b[0]).value]);
      }
    }
  }

  lemma SignaturesTwins(v: Option<Json>, w: Option<Json>)
    requires OptTwins(v, w)
    ensures CheckTwins(SignaturesCheck(v), SignaturesCheck(w))
    ensures SignaturesCheck(v).None? ==> SameVerdict(ParseSignatures(v), ParseSignatures(w))
  {
    hide ParseSignatureItems, SignatureItemsCheck, ObjectTwins, Tidier, WellFormed;
    if v.Some? {
      TwinEntries(v.value, w.value);
      if v.value.Arr? { SignatureItemsTwins(v.value.items, w.value.items, [], []); }
    }
  }

  lemma PayloadTwins(v: Option<Json>, w: Option<Json>)
    requires OptTwins(v, w)
    ensures CheckTwins(PayloadCheck(v), PayloadCheck(w))
    ensures PayloadCheck(v).None? ==> SameVerdict(ParsePayload(v), ParsePayload(w))
  {
    hide Known, Fetch, ParseToolCalls, ToolCallsCheck, ObjectTwins, Tidier, WellFormed, ReservedScan;
    if v.Some? {
      TwinEntries(v.value, w.value);
      if v.value.Obj? {
        var es, fs := v.value.entries, w.value.entries;
        ReservedTwins(v.value, w.value);
        KnownTwins(es, fs, [TOOL_CALLS]);
        FetchTwins(es, fs, TOOL_CALLS);
        ToolCallsTwins(Fetch(es, TOOL_CALLS), Fetch(fs, TOOL_CALLS));
      }
    }
  }

  lemma ListsTwins(s: Shape, t: Shape)
    requires ShapeTwins(s, t)
    ensures CheckTwins(ListsCheck(s), ListsCheck(t))
    ensures ListsCheck(s).None? ==> SameVerdict(ListsOf(s), ListsOf(t))
  {
    hide Known, Fetch, ParseToolCalls, ToolCallsCheck, ParsePayload, PayloadCheck, ParseSignatures, SignaturesCheck,
         ParseParameters, Related, ObjectTwins, OptTwins;
    assert ObjectTwins(s.request, t.request) && ObjectTwins(s.orbit, t.orbit) by { RequestAndOrbit(s, t); }
    FetchTwins(s.request, t.request, TOOL_CALLS);
    FetchTwins(s.request, t.request, PARAMETERS);
    FetchTwins(s.orbit, t.orbit, SIGNATURES);
    FetchTwins(s.orbit, t.orbit, PAYLOAD);
    var calls, calls' := Fetch(s.request, TOOL_CALLS), Fetch(t.request, TOOL_CALLS);
    ToolCallsTwins(calls, calls');
    ToolCallsExplained(calls);
    ToolCallsExplained(calls');
    ParametersTwins(Fetch(s.request, PARAMETERS), Fetch(t.request, PARAMETERS));
    SignaturesTwins(Fetch(s.orbit, SIGNATURES), Fetch(t.orbit, SIGNATURES));
    SignaturesCheckExplained(Fetch(s.orbit, SIGNATURES));
    SignaturesCheckExplained(Fetch(t.orbit, SIGNATURES));
    PayloadTwins(Fetch(s.orbit, PAYLOAD), Fetch(t.orbit, PAYLOAD));
  }

  lemma SignaturesCheckExplained(v: Option<Json>)
    ensures Explains(SignaturesCheck(v), ParseSignatures(v))
  {
    hide Known, ParseSignatureItems, SignatureItemsCheck;
    match v
    case Some(Arr(items)) =>
      SignaturesExplained(items, []);
      NoSignaturesCheck();
    case _ =>
  }

  lemma RequestAndOrbit(s: Shape, t: Shape)
    requires ShapeTwins(s, t)
    ensures ObjectTwins(s.request, t.request) && ObjectTwins(s.orbit, t.orbit) && ObjectTwins(s.policy, t.policy)
  {
    hide Related;
  }

  // ----- numbers, trust, and the whole request

  lemma NumbersTwins(s: Shape, t: Shape)
    requires ShapeTwins(s, t)
    ensures NumericChecks(t) == NumericChecks(s)
  {
    hide Related, Fetch, ValidateInteger, OptTwins;
    AllTwins(s, t);
    FieldTwins(s.resources, t.resources, GPU_COUNT);
    FieldTwins(s.resources, t.resources, HOURS);
    FieldTwins(s.execution, t.execution, MAX_SCALE_MULTIPLIER);
    FieldTwins(s.pricing, t.pricing, GPU_HOUR_CENTS);
    FieldTwins(s.runtime, t.runtime, ACTUAL_GPU_COUNT);
    FieldTwins(s.runtime, t.runtime, ACTUAL_HOURS);
    FieldTwins(s.runtime, t.runtime, ACTUAL_TOTAL_COST_CENTS);
    FieldTwins(s.rules, t.rules, MAX_TOTAL_COST_CENTS);
    FieldTwins(s.rules, t.rules, MAX_GPU_COUNT);
    FieldTwins(s.rules, t.rules, MAX_HOURS);
    FieldTwins(s.rules, t.rules, REQUIRE_MANUAL_APPROVAL_ABOVE_CENTS);
    FieldTwins(s.rules, t.rules, MAX_RETRY_COUNT);
    FieldTwins(s.execution, t.execution, MAX_RETRIES);
  }

  lemma FieldTwins(es: seq<Entry>, fs: seq<Entry>, name: Name)
    requires ObjectTwins(es, fs)
    ensures PositiveAt(es, name) == PositiveAt(fs, name) && CountAt(es, name) == CountAt(fs, name)
  {
    hide Related, Fetch, ValidateInteger, OptTwins;
    FetchTwins(es, fs, name);
    IntegerTwins(Fetch(es, name), Fetch(fs, name), 1, false);
    IntegerTwins(Fetch(es, name), Fetch(fs, name), 0, true);
  }

  lemma AllTwins(s: Shape, t: Shape)
    requires ShapeTwins(s, t)
    ensures ObjectTwins(s.resources, t.resources) && ObjectTwins(s.execution, t.execution) && ObjectTwins(s.pricing, t.pricing)
    ensures ObjectTwins(s.runtime, t.runtime) && ObjectTwins(s.rules, t.rules)
  {
    hide Related;
  }

  lemma TrustTwins(p: Platform, v: Option<Json>, w: Option<Json>, payload: Text)
    requires OptTwins(v, w)
    ensures CheckTwins(TrustCheck(v), TrustCheck(w))
    ensures TrustCheck(v).None? ==> SameVerdict(ParseTrust(p, v, payload), ParseTrust(p, w, payload))
  {
    hide Known, Fetch, ObjectTwins, Tidier, WellFormed, One, ExpectString;
    if v.Some? {
      TwinEntries(v.value, w.value);
      if v.value.Obj? {
        var es, fs := v.value.entries, w.value.entries;
        KnownTwins(es, fs, TRUST_KEYS);
        OneFails(KeyCheck(es, TRUST_KEYS));
        OneFails(KeyCheck(fs, TRUST_KEYS));
        TrustStrings(es, fs, KEY_VERSION);
        TrustStrings(es, fs, KEY_ID);
        TrustStrings(es, fs, PUBLIC_KEY);
        TrustStrings(es, fs, SIGNATURE);
      }
    }
  }

  lemma TrustStrings(es: seq<Entry>, fs: seq<Entry>, name: Name)
    requires ObjectTwins(es, fs)
    ensures StringAt(es, name) == StringAt(fs, name)
  {
    hide ObjectTwins, OptTwins, Fetch, ExpectString;
    FetchTwins(es, fs, name);
    StringTwins(Fetch(es, name), Fetch(fs, name));
  }

  lemma FinishTwins(p: Platform, s: Shape, s': Shape, t: Strings, l: Lists, m: Lists)
    requires ShapeTwins(s, s')
    ensures CheckTwins(FinishCheck(s, t), FinishCheck(s', t))
    ensures FinishCheck(s, t).None? ==> SameVerdict(FinishValidation(p, s, t, l), FinishValidation(p, s', t, m))
  {
    hide Known, Fetch, ParseTrust, TrustCheck, NumericChecks, FlagsOf, PolicyPayload, Build, Related, ObjectTwins, OptTwins,
         ShapeRelated;
    NumbersTwins(s, s');
    FlagsAgree(s, s');
    RequestAndOrbit(s, s');
    FetchTwins(s.policy, s'.policy, TRUST);
    var n := NumericChecks(s);
    NumericReasonExact(n, None);
    if NumericReason(n, None).None? && FlagsOf(s).Good? {
      TrustTwins(p, Fetch(s.policy, TRUST), Fetch(s'.policy, TRUST),
                 PolicyPayload(t.schemaVersion, t.policyVersion, RulesOf(n, FlagsOf(s).value)));
    }
  }

  /** Twin requests fail at twin key checks, or get the same verdict. */
  lemma ValidateTwins(p: Platform, es: seq<Entry>, fs: seq<Entry>)
    requires ObjectTwins(es, fs)
    ensures CheckTwins(FailingCheck(es), FailingCheck(fs))
    ensures FailingCheck(es).None? ==> SameVerdict(Validate(p, es), Validate(p, fs))
  {
    hide Known, ShapeOf, ShapeCheck, StringsOf, ListsOf, ListsCheck, FinishCheck, FinishValidation, ObjectTwins, ShapeRelated;
    ShapesTwins(es, fs);
    ShapeCheckTwins(es, fs);
    ShapeExplained(es);
    ShapeExplained(fs);
    if ShapeOf(es).Good? {
      var s, t := ShapeOf(es).value, ShapeOf(fs).value;
      StringsAgree(s, t);
      if StringsOf(s).Good? {
        ListsTwins(s, t);
        ListsExplained(s);
        ListsExplained(t);
        if ListsOf(s).Good? { FinishTwins(p, s, t, StringsOf(s).value, ListsOf(s).value, ListsOf(t).value); }
      }
    }
  }

  // ----- in an arranged request, the failing check sees arranged entries

  predicate EntriesArranged(es: seq<Entry>, first: bool) {
    Arranged(Obj(es), first)
  }

  predicate OptArranged(v: Option<Json>, first: bool) {
    v.Some? ==> Arranged(v.value, first)
  }

  predicate CheckArranged(c: Option<KeyCheck>, first: bool) {
    c.Some? ==> EntriesArranged(c.value.entries, first)
  }

  lemma FetchArranged(es: seq<Entry>, name: Name, first: bool)
    requires EntriesArranged(es, first)
    ensures OptArranged(Fetch(es, name), first)
    ensures RecordAt(es, name).Good? ==> EntriesArranged(RecordAt(es, name).value, first)
  {
    hide Ordered;
  }

  lemma {:induction false} FirstFailingArranged(cs: seq<KeyCheck>, first: bool)
    requires forall i :: 0 <= i < |cs| ==> EntriesArranged(cs[i].entries, first)
    ensures CheckArranged(FirstFailing(cs), first)
  {
    hide Fails, EntriesArranged;
    if cs != [] { FirstFailingArranged(cs[1..], first); }
  }

  lemma SectionsArranged(request: seq<Entry>, first: bool)
    requires EntriesArranged(request, first) && SectionsOf(request).Good?
    ensures var c := SectionsOf(request).value;
            EntriesArranged(c.actor, first) && EntriesArranged(c.resources, first) && EntriesArranged(c.execution, first) &&
            EntriesArranged(c.orbit, first) && EntriesArranged(c.release, first) && EntriesArranged(c.runtime, first)
  {
    hide EntriesArranged, RecordAt;
    FetchArranged(request, ACTOR, first);
    FetchArranged(request, RESOURCES, first);
    FetchArranged(request, EXECUTION, first);
    FetchArranged(request, ORBIT_INTENT, first);
    FetchArranged(request, RELEASE_REQUEST, first);
    FetchArranged(request, RUNTIME_OBSERVATION, first);
  }

  lemma RequestCheckArranged(request: seq<Entry>, policy: seq<Entry>, pricing: seq<Entry>, first: bool)
    requires EntriesArranged(request, first) && EntriesArranged(policy, first) && EntriesArranged(pricing, first)
    ensures CheckArranged(RequestCheck(request, policy, pricing), first)
  {
    hide EntriesArranged, RecordAt, Fails, SectionsOf;
    FetchArranged(policy, RULES, first);
    if SectionsOf(request).Good? {
      SectionsArranged(request, first);
      FirstFailingArranged(SectionChecks(SectionsOf(request).value, pricing, policy), first);
    }
  }

  lemma ShapeCheckArranged(root: seq<Entry>, first: bool)
    requires EntriesArranged(root, first)
    ensures CheckArranged(ShapeCheck(root), first)
    ensures ShapeOf(root).Good? ==>
              var s := ShapeOf(root).value;
              EntriesArranged(s.request, first) && EntriesArranged(s.orbit, first) && EntriesArranged(s.policy, first)
  {
    hide EntriesArranged, RecordAt, Known, RequestCheck, SectionsOf;
    FetchArranged(root, EXECUTION_REQUEST, first);
    FetchArranged(root, POLICY_DOCUMENT, first);
    FetchArranged(root, PRICING_DATA, first);
    if RecordAt(root, EXECUTION_REQUEST).Good? && RecordAt(root, POLICY_DOCUMENT).Good? && RecordAt(root, PRICING_DATA).Good? {
      var request := RecordAt(root, EXECUTION_REQUEST).value;
      RequestCheckArranged(request, RecordAt(root, POLICY_DOCUMENT).value, RecordAt(root, PRICING_DATA).value, first);
      if SectionsOf(request).Good? { SectionsArranged(request, first); }
    }
  }

  lemma CallCheckArranged(item: Json, first: bool)
    requires Arranged(item, first)
    ensures CheckArranged(CallCheck(item), first) && CheckArranged(SignatureCheck(item), first)
  {
    hide Known, Arranged;
    if item.Obj? { assert item == Obj(item.entries); }
  }

  lemma {:induction false} CallsCheckArranged(items: seq<Json>, seen: set<Text>, first: bool)
    requires forall i :: 0 <= i < |items| ==> Arranged(items[i], first)
    ensures CheckArranged(CallsCheck(items, seen), first)
  {
    hide Arranged, CallCheck, ParseToolCall, EntriesArranged;
    if items != [] {
      CallCheckArranged(items[0], first);
      if ParseToolCall(items[0], seen).Good? {
        CallsCheckArranged(items[1..], seen + {ParseToolCall(items[0], seen).value.tool}, first);
      }
    }
  }

  lemma {:induction false} SignatureItemsCheckArranged(items: seq<Json>, first: bool)
    requires forall i :: 0 <= i < |items| ==> Arranged(items[i], first)
    ensures CheckArranged(SignatureItemsCheck(items), first)
  {
    hide Arranged, SignatureCheck, ParseSignature, EntriesArranged;
    if items != [] {
      CallCheckArranged(items[0], first);
      SignatureItemsCheckArranged(items[1..], first);
    }
  }

  lemma ArrayArranged(v: Json, first: bool)
    requires v.Arr? && Arranged(v, first)
    ensures forall i :: 0 <= i < |v.items| ==> Arranged(v.items[i], first)
  {
  }

  lemma ToolCallsCheckArranged(v: Option<Json>, first: bool)
    requires OptArranged(v, first)
    ensures CheckArranged(ToolCallsCheck(v), first) && CheckArranged(SignaturesCheck(v), first)
  {
    hide Arranged, CallsCheck, SignatureItemsCheck, EntriesArranged;
    if v.Some? && v.value.Arr? {
      ArrayArranged(v.value, first);
      CallsCheckArranged(v.value.items, {}, first);
      SignatureItemsCheckArranged(v.value.items, first);
    }
  }

  lemma PayloadCheckArranged(v: Option<Json>, first: bool)
    requires OptArranged(v, first)
    ensures CheckArranged(PayloadCheck(v), first) && CheckArranged(TrustCheck(v), first)
  {
    hide Arranged, ToolCallsCheck, Known, Fetch, ReservedScan;
    if v.Some? && v.value.Obj? {
      assert v.value == Obj(v.value.entries);
      FetchArranged(v.value.entries, TOOL_CALLS, first);
      ToolCallsCheckArranged(Fetch(v.value.entries, TOOL_CALLS), first);
    }
  }

  lemma FailingCheckArranged(root: seq<Entry>, first: bool)
    requires EntriesArranged(root, first)
    ensures CheckArranged(FailingCheck(root), first)
  {
    hide EntriesArranged, ShapeOf, ShapeCheck, StringsOf, ListsOf, Fetch, ToolCallsCheck, SignaturesCheck, PayloadCheck, TrustCheck,
         ParseToolCalls, ParseSignatures, ParseParameters, NumericChecks, FlagsOf, OptArranged;
    ShapeCheckArranged(root, first);
    if ShapeOf(root).Good? {
      var s := ShapeOf(root).value;
      FetchArranged(s.request, TOOL_CALLS, first);
      FetchArranged(s.orbit, SIGNATURES, first);
      FetchArranged(s.orbit, PAYLOAD, first);
      FetchArranged(s.policy, TRUST, first);
      ToolCallsCheckArranged(Fetch(s.request, TOOL_CALLS), first);
      ToolCallsCheckArranged(Fetch(s.orbit, SIGNATURES), first);
      PayloadCheckArranged(Fetch(s.orbit, PAYLOAD), first);
      PayloadCheckArranged(Fetch(s.policy, TRUST), first);
    }
  }

  // ----- refusals of texts

  /** A text whose value is a given one up to key order. */
  ghost predicate Reordering(v: Json, other: Text) {
    Parse(other).Success? && Twins(v, Parse(other).value)
  }

  /** The refusal is that of a key check on a mixed object. */
  predicate MixedRefusal(root: seq<Entry>) {
    FailingCheck(root).Some? && Mixed(FailingCheck(root).value.entries, FailingCheck(root).value.allowed)
  }

  lemma TwinKeys(es: seq<Entry>, fs: seq<Entry>)
    requires ObjectTwins(es, fs)
    ensures forall k :: HasKey(es, k) <==> HasKey(fs, k)
  {
    SameKeys(es, fs);
  }

  /** Without a mixed object at the failing check, twins get the same verdict. */
  lemma UnmixedTwins(p: Platform, es: seq<Entry>, fs: seq<Entry>)
    requires ObjectTwins(es, fs) && !MixedRefusal(es)
    ensures SameVerdict(Validate(p, es), Validate(p, fs))
  {
    hide ObjectTwins, Validate, FailingCheck, Known, Mixed;
    ValidateTwins(p, es, fs);
    CheckExplained(p, es);
    CheckExplained(p, fs);
    if FailingCheck(es).Some? {
      var c, d := FailingCheck(es).value, FailingCheck(fs).value;
      TwinKeys(c.entries, d.entries);
      UnmixedKnown(c.entries, d.entries, c.allowed);
    }
  }

  /** With one, the arranged twins are refused for different reasons. */
  lemma MixedTwin(p: Platform, root: seq<Entry>, first: bool)
    requires WellFormed(Obj(root)) && MixedRefusal(root)
    ensures var w := Arrange(Obj(root), first);
            Twins(Obj(root), w) && w.Obj? && Validate(p, w.entries) == Bad(KeyReason(first))
  {
    hide Validate, FailingCheck, Known, Mixed, Parted, Ordered, Tidier, WellFormed;
    ArrangeTwin(Obj(root), first);
    var fs := Arrange(Obj(root), first).entries;
    assert Arrange(Obj(root), first) == Obj(fs);
    assert ObjectTwins(root, fs);
    ValidateTwins(p, root, fs);
    CheckExplained(p, fs);
    FailingCheckArranged(fs, first);
    var c, d := FailingCheck(root).value, FailingCheck(fs).value;
    TwinKeys(c.entries, d.entries);
    SameForeign(c.entries, d.entries, c.allowed);
    OrderedEntries(d.entries, first);
    MixedKnown(d.entries, d.allowed, first);
  }

  lemma OrderedEntries(es: seq<Entry>, first: bool)
    requires EntriesArranged(es, first)
    ensures Ordered(Keys(es), first)
  {
  }

  lemma TwinsPrintSame(v: Json, w: Json)
    requires Twins(v, w)
    ensures Canonicalize(v) == Canonicalize(w)
  {
    hide Tidier, WellFormed, Canonicalize;
    TidierSameNorm(v, w);
  }

  /** What preflight does with a text that has a given object as its value. */
  lemma RefusalOf(p: Platform, raw: Text, root: seq<Entry>)
    requires Parse(raw) == Success(Obj(root))
    ensures RunPreflight(p, raw).Accepted? <==> Validate(p, root).Good?
    ensures Validate(p, root).Bad? ==>
              RunPreflight(p, raw) == Failed(p, p.sha256(Canonicalize(Obj(root))), Validate(p, root).reason)
  {
    hide Parse, Validate, Canonicalize, Record;
  }

  /**
   The refusal of an object, exactly: all texts of the same value up to key order get the very same typed failure, both hashes
   included, if and only if the first check that fails is not a key check on a mixed object.
   */
  lemma RefusalOrderExact(p: Platform, raw: Text, root: seq<Entry>)
    requires Parse(raw) == Success(Obj(root)) && RunPreflight(p, raw).Rejected?
    ensures (forall other :: Reordering(Obj(root), other) ==> RunPreflight(p, other) == RunPreflight(p, raw)) <==>
            !MixedRefusal(root)
  {
    hide Parse, Validate, RunPreflight, Canonicalize, MixedRefusal, Failed, Arrange, WellFormed, Tidier;
    ParsedIsWellFormed(raw);
    RefusalOf(p, raw, root);
    if MixedRefusal(root) {
      var a := MixedText(p, raw, root, true);
      var b := MixedText(p, raw, root, false);
      assert Reordering(Obj(root), a) && Reordering(Obj(root), b);
      assert RunPreflight(p, a) != RunPreflight(p, b);
    } else {
      forall other | Reordering(Obj(root), other) ensures RunPreflight(p, other) == RunPreflight(p, raw) {
        var w := Parse(other).value;
        TwinEntries(Obj(root), w);
        assert w == Obj(w.entries);
        UnmixedTwins(p, root, w.entries);
        TwinsPrintSame(Obj(root), w);
        RefusalOf(p, other, w.entries);
      }
    }
  }

  lemma FailedReason(p: Platform, hash: Text, reason: Reason)
    ensures Failed(p, hash, reason).Rejected? && Failed(p, hash, reason).failure.reason == reason
  {
  }

  lemma MixedText(p: Platform, raw: Text, root: seq<Entry>, first: bool) returns (other: Text)
    requires Parse(raw) == Success(Obj(root)) && MixedRefusal(root)
    ensures Reordering(Obj(root), other)
    ensures RunPreflight(p, other).Rejected? && RunPreflight(p, other).failure.reason == KeyReason(first)
  {
    hide Parse, Validate, RunPreflight, Canonicalize, MixedRefusal, Failed, Arrange, WellFormed, Tidier;
    ParsedIsWellFormed(raw);
    MixedTwin(p, root, first);
    var w := Arrange(Obj(root), first);
    assert w == Obj(w.entries);
    other := EveryValueHasText(w);
    RefusalOf(p, other, w.entries);
    FailedReason(p, p.sha256(Canonicalize(w)), KeyReason(first));
  }

  /** A text that is no object is refused for the same reason however it is written, with the hash of the text itself. */
  lemma NonObjectRefusal(p: Platform, raw: Text)
    requires Parse(raw).Success? && !Parse(raw).value.Obj?
    ensures RunPreflight(p, raw) == Failed(p, p.sha256(raw), SchemaValidation)
    ensures forall other :: Reordering(Parse(raw).value, other) ==>
              RunPreflight(p, other) == Failed(p, p.sha256(other), SchemaValidation)
  {
    hide Parse, Failed, Tidier, WellFormed;
    forall other | Reordering(Parse(raw).value, other)
      ensures RunPreflight(p, other) == Failed(p, p.sha256(other), SchemaValidation)
    {
      TwinEntries(Parse(raw).value, Parse(other).value);
    }
  }

  // ----- two texts

  const TIMESTAMP: Name := "timestamp"
  const OTHER_KEY: Name := "x"

  lemma ExampleKeys()
    ensures IsReserved(Ascii(TIMESTAMP)) && !IsReserved(Ascii(OTHER_KEY)) && Ascii(TIMESTAMP) != Ascii(OTHER_KEY)
    ensures Foreign(Ascii(TIMESTAMP), ROOT_KEYS) && Foreign(Ascii(OTHER_KEY), ROOT_KEYS)
  {
    assert RESERVED[0] == TIMESTAMP;
    assert |Ascii(TIMESTAMP)| == 9 && |Ascii(OTHER_KEY)| == 1;
    assert Ascii(TIMESTAMP)[0] == 0x74 && Ascii(OTHER_KEY)[0] == 0x78;
    forall i | 0 <= i < |RESERVED| ensures Ascii(RESERVED[i]) != Ascii(OTHER_KEY) {
      ReservedLength(i);
      assert |Ascii(RESERVED[i])| == |RESERVED[i]|;
    }
    forall i | 0 <= i < |ROOT_KEYS| ensures Ascii(ROOT_KEYS[i]) != Ascii(OTHER_KEY) && Ascii(ROOT_KEYS[i]) != Ascii(TIMESTAMP) {
      assert |Ascii(ROOT_KEYS[i])| == |ROOT_KEYS[i]| && |ROOT_KEYS[i]| > 9;
    }
  }

  lemma ReservedLength(i: nat)
    requires i < |RESERVED|
    ensures |RESERVED[i]| > 1
  {
  }

  /** Two texts with the same value up to key order, a root with the keys timestamp and x, refused for different reasons. */
  lemma RefusalDependsOnOrder(p: Platform) returns (raw: Text, other: Text)
    ensures Parse(raw).Success? && Reordering(Parse(raw).value, other)
    ensures RunPreflight(p, raw).Rejected? && RunPreflight(p, raw).failure.reason == NonDeterministicInput
    ensures RunPreflight(p, other).Rejected? && RunPreflight(p, other).failure.reason == SchemaValidation
  {
    hide Parse, RunPreflight, Canonicalize, Failed, Ascii, IsReserved, Foreign, Known;
    ExampleKeys();
    var a, b := Entry(Ascii(TIMESTAMP), Null), Entry(Ascii(OTHER_KEY), Null);
    var es, fs := [a, b], [b, a];
    assert WellFormed(Obj(es)) && WellFormed(Obj(fs));
    TwoOrders(a, b);
    raw := EveryValueHasText(Obj(es));
    other := EveryValueHasText(Obj(fs));
    KeyCheckDependsOnOrder(a, b, ROOT_KEYS);
    RefusalOf(p, raw, es);
    RefusalOf(p, other, fs);
    FailedReason(p, p.sha256(Canonicalize(Obj(es))), NonDeterministicInput);
    FailedReason(p, p.sha256(Canonicalize(Obj(fs))), SchemaValidation);
  }

  lemma TwoOrders(a: Entry, b: Entry)
    requires a.key != b.key && a.value == Null && b.value == Null
    ensures Twins(Obj([a, b]), Obj([b, a]))
  {
    var es, fs := [a, b], [b, a];
    assert es[0].key == fs[1].key && es[1].key == fs[0].key;
    assert HasKey(fs, es[0].key) && HasKey(fs, es[1].key) && HasKey(es, fs[0].key) && HasKey(es, fs[1].key);
  }
}
