/** JSON values as the strict parser produces them. */
module JsonValues {
  import opened Units

  const MAX_SAFE: int := 0x1F_FFFF_FFFF_FFFF

  predicate IsSafe(n: int) {
    -MAX_SAFE <= n <= MAX_SAFE
  }

  /** A number JSON.stringify and the parser both keep exactly; zero here is positive zero. */
  type SafeInt = n: int | IsSafe(n)

  /** Objects keep their entries in insertion order; negative zero is a number of its own. */
  datatype Json =
    | Null
    | Bool(b: bool)
    | Num(n: SafeInt)
    | NegZero
    | Str(s: Text)
    | Arr(items: seq<Json>)
    | Obj(entries: seq<Entry>)

  datatype Entry = Entry(key: Text, value: Json)

  predicate DistinctKeys(es: seq<Entry>) {
    forall i, j :: 0 <= i < j < |es| ==> es[i].key != es[j].key
  }

  /** No object has a repeated key, as in every JavaScript value. */
  predicate WellFormed(v: Json) {
    match v
    case Arr(items) => forall i :: 0 <= i < |items| ==> WellFormed(items[i])
    case Obj(es) => DistinctKeys(es) && forall i :: 0 <= i < |es| ==> WellFormed(es[i].value)
    case _ => true
  }

  predicate HasKey(es: seq<Entry>, k: Text) {
    exists i :: 0 <= i < |es| && es[i].key == k
  }

  function KeySet(es: seq<Entry>): set<Text> {
    set i | 0 <= i < |es| :: es[i].key
  }

  lemma KeysAppend(es: seq<Entry>, e: Entry)
    ensures KeySet(es + [e]) == KeySet(es) + {e.key}
  {
    assert (es + [e])[|es|] == e;
    forall i | 0 <= i < |es| ensures es[i].key in KeySet(es + [e]) {
      assert (es + [e])[i] == es[i];
    }
  }

  /** Position of a key. */
  function IndexOf(es: seq<Entry>, k: Text): (i: nat)
    requires HasKey(es, k)
    ensures i < |es| && es[i].key == k
  {
    if es[0].key == k then 0
    else
      assert HasKey(es[1..], k) by {
        var i :| 0 <= i < |es| && es[i].key == k;
        assert es[1..][i - 1].key == k;
      }
      1 + IndexOf(es[1..], k)
  }

  /** Property access: the value stored under a key, or undefined. */
  function Get(es: seq<Entry>, k: Text): Option<Json> {
    if HasKey(es, k) then Some(es[IndexOf(es, k)].value) else None
  }

  /** Equal up to the order of object keys and the sign of zero. */
  predicate Equivalent(v: Json, w: Json) {
    match (v, w)
    case (Null, Null) => true
    case (Bool(a), Bool(b)) => a == b
    case (Num(a), Num(b)) => a == b
    case (Num(a), NegZero) => a == 0
    case (NegZero, Num(b)) => b == 0
    case (NegZero, NegZero) => true
    case (Str(a), Str(b)) => a == b
    case (Arr(a), Arr(b)) =>
      |a| == |b| && forall i :: 0 <= i < |a| ==> Equivalent(a[i], b[i])
    case (Obj(a), Obj(b)) =>
      |a| == |b| &&
      (forall i :: 0 <= i < |a| ==> HasKey(b, a[i].key)) &&
      forall i, j :: 0 <= i < |a| && 0 <= j < |b| && a[i].key == b[j].key ==> Equivalent(a[i].value, b[j].value)
    case _ => false
  }
}
