/** Recursive scans of JSON values, and what they find stated by paths into the value. */
module DeepScan {
  import opened Units
  import opened JsonValues
  import opened Contracts
  import opened BrowserParser

  /** The value a path of positions leads to. */
  function At(v: Json, path: seq<nat>): Option<Json> {
    if path == [] then Some(v)
    else match v
      case Arr(items) => if path[0] < |items| then At(items[path[0]], path[1..]) else None
      case Obj(es) => if path[0] < |es| then At(es[path[0]].value, path[1..]) else None
      case _ => None
  }

  const RESERVED_TIMES: seq<Name> := ["timestamp", "time", "now", "random", "nonce", "session_id"]
  const RESERVED_CODE: seq<Name> := ["eval", "exec", "shell", "command", "commands"]
  const RESERVED_LINKS: seq<Name> := ["__proto__", "constructor", "prototype", "depends_on", "previous_step_id"]
  const RESERVED: seq<Name> := RESERVED_TIMES + RESERVED_CODE + RESERVED_LINKS

  /** RESERVED_UNSAFE_FIELDS.has(key) */
  predicate IsReserved(key: Text) {
    exists i :: 0 <= i < |RESERVED| && Ascii(RESERVED[i]) == key
  }

  /** Does an object at this path have a reserved key? */
  predicate ReservedAt(v: Json, path: seq<nat>) {
    match At(v, path)
    case Some(Obj(es)) => exists i :: 0 <= i < |es| && IsReserved(es[i].key)
    case _ => false
  }

  /** rejectReservedFieldsRecursive: true stands for the non-deterministic-input code, false for null. */
  function ReservedScan(v: Json): bool
    decreases v, 0
  {
    match v
    case Arr(items) => ReservedItems(items)
    case Obj(es) => ReservedEntries(es)
    case _ => false
  }

  function ReservedItems(items: seq<Json>): bool
    decreases items, 0
  {
    items != [] && (ReservedScan(items[0]) || ReservedItems(items[1..]))
  }

  function ReservedEntries(es: seq<Entry>): bool
    decreases es, 0
  {
    es != [] && (IsReserved(es[0].key) || ReservedScan(es[0].value) || ReservedEntries(es[1..]))
  }

  method RejectReservedFieldsRecursive(v: Json) returns (found: bool)
    ensures found == ReservedScan(v)
    decreases v
  {
    match v
    case Arr(items) =>
      for i := 0 to |items|
        invariant ReservedItems(items) == ReservedItems(items[i..])
      {
        assert items[i..][1..] == items[i + 1..];
        var nested := RejectReservedFieldsRecursive(items[i]);
        if nested { return true; }
      }
      return false;
    case Obj(es) =>
      for i := 0 to |es|
        invariant ReservedEntries(es) == ReservedEntries(es[i..])
      {
        assert es[i..][1..] == es[i + 1..];
        if IsReserved(es[i].key) { return true; }
        var nested := RejectReservedFieldsRecursive(es[i].value);
        if nested { return true; }
      }
      return false;
    case _ => return false;
  }

  lemma {:induction false} ReservedItemsAny(items: seq<Json>)
    ensures ReservedItems(items) <==> exists i :: 0 <= i < |items| && ReservedScan(items[i])
  {
    if items != [] {
      ReservedItemsAny(items[1..]);
      assert forall i :: 0 <= i < |items[1..]| ==> items[1..][i] == items[i + 1];
    }
  }

  lemma {:induction false} ReservedEntriesAny(es: seq<Entry>)
    ensures ReservedEntries(es) <==> exists i :: 0 <= i < |es| && (IsReserved(es[i].key) || ReservedScan(es[i].value))
  {
    if es != [] {
      ReservedEntriesAny(es[1..]);
      assert forall i :: 0 <= i < |es[1..]| ==> es[1..][i] == es[i + 1];
    }
  }

  /** A reserved key anywhere makes the scan refuse. */
  lemma {:induction false} ReservedScanComplete(v: Json, path: seq<nat>)
    requires ReservedAt(v, path)
    ensures ReservedScan(v)
    decreases |path|
  {
    if v.Arr? { ReservedItemsAny(v.items); }
    if v.Obj? { ReservedEntriesAny(v.entries); }
    if path != [] {
      if v.Arr? { ReservedScanComplete(v.items[path[0]], path[1..]); }
      if v.Obj? { ReservedScanComplete(v.entries[path[0]].value, path[1..]); }
    }
  }

  lemma StepInto(v: Json, i: nat, path: seq<nat>)
    requires (v.Arr? && i < |v.items|) || (v.Obj? && i < |v.entries|)
    ensures At(v, [i] + path) == At(if v.Arr? then v.items[i] else v.entries[i].value, path)
  {
    assert ([i] + path)[1..] == path;
  }

  /** A refusal has a witness. */
  lemma {:induction false} ReservedScanSound(v: Json) returns (path: seq<nat>)
    requires ReservedScan(v)
    ensures ReservedAt(v, path)
    decreases v
  {
    path := [];
    match v
    case Arr(items) =>
      ReservedItemsAny(items);
      var i :| 0 <= i < |items| && ReservedScan(items[i]);
      var deeper := ReservedScanSound(items[i]);
      path := [i] + deeper;
      StepInto(v, i, deeper);
    case Obj(es) =>
      ReservedEntriesAny(es);
      var i :| 0 <= i < |es| && (IsReserved(es[i].key) || ReservedScan(es[i].value));
      if !IsReserved(es[i].key) {
        var deeper := ReservedScanSound(es[i].value);
        path := [i] + deeper;
        StepInto(v, i, deeper);
      }
  }

  lemma ReservedScanExact(v: Json)
    ensures ReservedScan(v) <==> exists path :: ReservedAt(v, path)
  {
    if ReservedScan(v) { var path := ReservedScanSound(v); }
    forall path | ReservedAt(v, path) ensures ReservedScan(v) { ReservedScanComplete(v, path); }
  }

  // ----- action markers (orbit/engine.ts)

  /** Does the value at this path mark a nested action: a marker string, or a field that holds one or more actions? */
  predicate MarkerAt(p: Platform, v: Json, path: seq<nat>) {
    match At(v, path)
    case Some(Str(s)) => p.isMarkerText(s)
    case Some(Obj(es)) => exists i :: 0 <= i < |es| && p.isActionField(es[i].key) && es[i].value != Arr([])
    case _ => false
  }

  function FieldMarkers(p: Platform, e: Entry): nat {
    if !p.isActionField(e.key) then 0 else if e.value.Arr? then |e.value.items| else 1
  }

  /** countNestedActionMarkers */
  function CountMarkers(p: Platform, v: Json): nat
    decreases v, 0
  {
    match v
    case Arr(items) => CountInItems(p, items)
    case Str(s) => if p.isMarkerText(s) then 1 else 0
    case Obj(es) => CountInEntries(p, es)
    case _ => 0
  }

  function CountInItems(p: Platform, items: seq<Json>): nat
    decreases items, 0
  {
    if items == [] then 0 else CountMarkers(p, items[0]) + CountInItems(p, items[1..])
  }

  function CountInEntries(p: Platform, es: seq<Entry>): nat
    decreases es, 0
  {
    if es == [] then 0 else FieldMarkers(p, es[0]) + CountMarkers(p, es[0].value) + CountInEntries(p, es[1..])
  }

  method CountNestedActionMarkers(p: Platform, v: Json) returns (markers: nat)
    ensures markers == CountMarkers(p, v)
    decreases v
  {
    markers := 0;
    match v
    case Arr(items) =>
      for i := 0 to |items|
        invariant markers + CountInItems(p, items[i..]) == CountInItems(p, items)
      {
        assert items[i..][1..] == items[i + 1..];
        var nested := CountNestedActionMarkers(p, items[i]);
        markers := markers + nested;
      }
    case Str(s) => if p.isMarkerText(s) { markers := 1; }
    case Obj(es) =>
      for i := 0 to |es|
        invariant markers + CountInEntries(p, es[i..]) == CountInEntries(p, es)
      {
        assert es[i..][1..] == es[i + 1..];
        if p.isActionField(es[i].key) {
          markers := markers + if es[i].value.Arr? then |es[i].value.items| else 1;
        }
        var nested := CountNestedActionMarkers(p, es[i].value);
        markers := markers + nested;
      }
    case _ =>
  }

  lemma {:induction false} CountItemsZero(p: Platform, items: seq<Json>)
    ensures CountInItems(p, items) == 0 <==> forall i :: 0 <= i < |items| ==> CountMarkers(p, items[i]) == 0
  {
    if items != [] {
      CountItemsZero(p, items[1..]);
      assert forall i :: 0 <= i < |items[1..]| ==> items[1..][i] == items[i + 1];
    }
  }

  lemma {:induction false} CountEntriesZero(p: Platform, es: seq<Entry>)
    ensures CountInEntries(p, es) == 0 <==>
            forall i :: 0 <= i < |es| ==> FieldMarkers(p, es[i]) == 0 && CountMarkers(p, es[i].value) == 0
  {
    if es != [] {
      CountEntriesZero(p, es[1..]);
      assert forall i :: 0 <= i < |es[1..]| ==> es[1..][i] == es[i + 1];
    }
  }

  lemma {:induction false} MarkersComplete(p: Platform, v: Json, path: seq<nat>)
    requires MarkerAt(p, v, path)
    ensures CountMarkers(p, v) > 0
    decreases |path|
  {
    if v.Arr? { CountItemsZero(p, v.items); }
    if v.Obj? { CountEntriesZero(p, v.entries); }
    if path != [] {
      if v.Arr? { MarkersComplete(p, v.items[path[0]], path[1..]); }
      if v.Obj? { MarkersComplete(p, v.entries[path[0]].value, path[1..]); }
    }
  }

  lemma {:induction false} MarkersSound(p: Platform, v: Json) returns (path: seq<nat>)
    requires CountMarkers(p, v) > 0
    ensures MarkerAt(p, v, path)
    decreases v
  {
    path := [];
    match v
    case Arr(items) =>
      CountItemsZero(p, items);
      var i :| 0 <= i < |items| && CountMarkers(p, items[i]) != 0;
      var deeper := MarkersSound(p, items[i]);
      path := [i] + deeper;
      StepInto(v, i, deeper);
    case Obj(es) =>
      CountEntriesZero(p, es);
      var i :| 0 <= i < |es| && !(FieldMarkers(p, es[i]) == 0 && CountMarkers(p, es[i].value) == 0);
      if FieldMarkers(p, es[i]) == 0 {
        var deeper := MarkersSound(p, es[i].value);
        path := [i] + deeper;
        StepInto(v, i, deeper);
      } else {
        assert p.isActionField(es[i].key) && es[i].value != Arr([]);
      }
    case _ =>
  }

  /** The count is zero exactly when no depth holds an action field or a marker string. */
  lemma MarkersExact(p: Platform, v: Json)
    ensures CountMarkers(p, v) == 0 <==> forall path :: !MarkerAt(p, v, path)
  {
    if CountMarkers(p, v) > 0 { var path := MarkersSound(p, v); }
    forall path | MarkerAt(p, v, path) ensures CountMarkers(p, v) > 0 { MarkersComplete(p, v, path); }
  }
}
