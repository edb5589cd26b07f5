/** The key-shuffling harness of audit/harness.ts: whatever the generator's state, shuffling keys keeps the canonical text. */
module Reorder {
  import opened Units
  import opened JsonValues
  import opened StrictParser
  import opened Canonical
  import opened BrowserParser

  const TWO32: nat := 0x1_0000_0000

  /** One step of the linear congruential generator, on 32-bit unsigned integers. */
  function NextState(state: nat): (next: nat)
    ensures next < TWO32
  {
    (state * 1664525 + 1013904223) % TWO32
  }

  lemma ModStep(a: nat, b: nat)
    ensures (a + b) % TWO32 == (a % TWO32 + b) % TWO32
  {
    ModShift(a % TWO32 + b, a / TWO32);
  }

  lemma ModShift(x: nat, q: nat)
    ensures (x + q * TWO32) % TWO32 == x % TWO32
  {
  }

  /** The generator's increment and multiplier: what it makes of zero, and by how much its next state grows from one state to the next. */
  lemma GeneratorExact(state: nat)
    ensures NextState(0) == 1_013_904_223
    ensures NextState(state + 1) == (NextState(state) + 1_664_525) % TWO32
  {
    ModStep(state * 1664525 + 1013904223, 1664525);
  }

  /** The number a generator in this state draws between two bounds. */
  function Draw(state: nat, min: int, max: int): (r: int)
    requires min <= max
    ensures min <= r <= max
  {
    min + NextState(state) % (max - min + 1)
  }

  function Swapped<T>(s: seq<T>, i: nat, j: nat): (r: seq<T>)
    requires i < |s| && j < |s|
    ensures multiset(r) == multiset(s)
  {
    s[i := s[j]][j := s[i]]
  }

  /** Fisher-Yates from a position down: at each position a swap with one at or below it, drawn from the generator. */
  function ShuffleFrom<T>(s: seq<T>, state: nat, index: int): (r: (seq<T>, nat))
    requires index < |s|
    ensures multiset(r.0) == multiset(s)
    decreases index
  {
    if index <= 0 then (s, state)
    else
      ShuffleFrom(Swapped(s, index, Draw(state, 0, index)), NextState(state), index - 1)
  }

  lemma ShuffleStep<T>(s: seq<T>, state: nat, index: int)
    requires 0 < index < |s|
    ensures ShuffleFrom(s, state, index) ==
            ShuffleFrom(Swapped(s, index, Draw(state, 0, index)), NextState(state), index - 1)
  {
  }

  lemma ShuffleEnd<T>(s: seq<T>, state: nat, index: int)
    requires index < |s| && index <= 0
    ensures ShuffleFrom(s, state, index) == (s, state)
  {
  }

  class Rng {
    var state: nat

    constructor (seed: int)
      ensures state == seed % TWO32
    {
      state := seed % TWO32;
    }

    method Int(min: int, max: int) returns (r: int)
      requires min <= max
      modifies this
      ensures state == NextState(old(state))
      ensures r == Draw(old(state), min, max)
    {
      state := NextState(state);
      r := min + state % (max - min + 1);
    }

    /** Fisher-Yates from the last position down: a permutation of the items. */
    method Shuffle<T>(items: seq<T>) returns (shuffled: seq<T>)
      modifies this
      ensures (shuffled, state) == ShuffleFrom(items, old(state), |items| - 1)
      ensures multiset(shuffled) == multiset(items)
    {
      hide NextState, Draw, ShuffleFrom;
      var next := new T[|items|](i requires 0 <= i < |items| => items[i]);
      assert next[..] == items;
      var index := next.Length - 1;
      while index > 0
        invariant -1 <= index < next.Length
        invariant ShuffleFrom(next[..], state, index) == ShuffleFrom(items, old(state), |items| - 1)
      {
        ghost var before := next[..];
        ShuffleStep(before, state, index);
        var swapIndex := Int(0, index);
        next[index], next[swapIndex] := next[swapIndex], next[index];
        assert next[..] == Swapped(before, index, swapIndex);
        index := index - 1;
      }
      ShuffleEnd(next[..], state, index);
      return next[..];
    }
  }

  /** reorderJson: plain assignment rebuilds each object, so a `__proto__` property is lost. */
  method {:induction false} ReorderJson(v: Json, rng: Rng) returns (r: Json)
    requires WellFormed(v)
    modifies rng
    ensures WellFormed(r) && Equivalent(r, StripProto(v))
    decreases v
  {
    match v
    case Arr(items) =>
      var next: seq<Json> := [];
      for i := 0 to |items|
        invariant |next| == i
        invariant forall k :: 0 <= k < i ==> WellFormed(next[k]) && Equivalent(next[k], StripProto(items[k]))
      {
        var item := ReorderJson(items[i], rng);
        next := next + [item];
      }
      forall k | 0 <= k < |items| ensures StripItems(items)[k] == StripProto(items[k]) { StripItemsAt(items, k); }
      return Arr(next);
    case Obj(es) =>
      var reordered := rng.Shuffle(es);
      var next: seq<Entry> := [];
      for i := 0 to |reordered|
        invariant Rebuilt(next, reordered[..i])
      {
        var e := reordered[i];
        ShuffledEntry(es, reordered, i);
        var item := ReorderJson(e.value, rng);
        RebuildStep(next, reordered, i, item);
        next := Assign(next, Entry(e.key, item));
      }
      assert reordered[..|reordered|] == reordered;
      RebuiltEquivalent(next, reordered, es);
      return Obj(next);
    case _ => return v;
  }

  /** `next` has the keys of `from`, except `__proto__`, each with a value equal up to order to the stripped one. */
  ghost predicate Rebuilt(next: seq<Entry>, from: seq<Entry>) {
    && DistinctKeys(next)
    && (forall i :: 0 <= i < |next| ==> WellFormed(next[i].value) && next[i].key != PROTO && Matches(next[i], from))
    && (forall k :: 0 <= k < |from| && from[k].key != PROTO ==> HasKey(next, from[k].key))
  }

  ghost predicate Matches(e: Entry, from: seq<Entry>) {
    exists k :: 0 <= k < |from| && from[k].key == e.key && Equivalent(e.value, StripProto(from[k].value))
  }

  lemma ShuffledEntry(es: seq<Entry>, shuffled: seq<Entry>, i: nat)
    requires multiset(shuffled) == multiset(es) && i < |shuffled| && WellFormed(Obj(es))
    ensures shuffled[i] in es && shuffled[i].value < Obj(es) && WellFormed(shuffled[i].value)
    ensures forall k :: 0 <= k < i ==> shuffled[k].key != shuffled[i].key
  {
    assert shuffled[i] in multiset(es);
    var j :| 0 <= j < |es| && es[j] == shuffled[i];
    forall k | 0 <= k < i ensures shuffled[k].key != shuffled[i].key {
      assert shuffled[k] in multiset(es);
      var l :| 0 <= l < |es| && es[l] == shuffled[k];
      if shuffled[k].key == shuffled[i].key {
        TwiceInBag(shuffled, k, i);
        OnceInBag(es, j);
      }
    }
  }

  lemma TwiceInBag<T>(s: seq<T>, i: nat, j: nat)
    requires i < j < |s| && s[i] == s[j]
    ensures multiset(s)[s[i]] >= 2
  {
    assert s == s[..i] + [s[i]] + s[i + 1..j] + [s[j]] + s[j + 1..];
  }

  lemma OnceInBag(es: seq<Entry>, j: nat)
    requires DistinctKeys(es) && j < |es|
    ensures multiset(es)[es[j]] == 1
  {
    assert es == es[..j] + [es[j]] + es[j + 1..];
    assert es[j] !in es[..j] && es[j] !in es[j + 1..];
  }

  lemma MatchesMore(next: seq<Entry>, from: seq<Entry>, i: nat)
    requires i < |from| && Rebuilt(next, from[..i])
    ensures forall j :: 0 <= j < |next| ==> Matches(next[j], from[..i + 1])
    ensures forall k :: 0 <= k < i && from[k].key != PROTO ==> HasKey(next, from[k].key)
  {
    forall j | 0 <= j < |next| ensures Matches(next[j], from[..i + 1]) {
      assert Matches(next[j], from[..i]);
      var k :| 0 <= k < |from[..i]| && from[..i][k].key == next[j].key && Equivalent(next[j].value, StripProto(from[..i][k].value));
      assert from[..i + 1][k] == from[..i][k];
    }
    forall k | 0 <= k < i && from[k].key != PROTO ensures HasKey(next, from[k].key) {
      assert from[..i][k] == from[k];
    }
  }

  lemma NotYetPresent(next: seq<Entry>, from: seq<Entry>, i: nat)
    requires i < |from| && Rebuilt(next, from[..i])
    requires forall k :: 0 <= k < i ==> from[k].key != from[i].key
    ensures !HasKey(next, from[i].key)
  {
    forall j | 0 <= j < |next| ensures next[j].key != from[i].key {
      assert Matches(next[j], from[..i]);
      var k :| 0 <= k < |from[..i]| && from[..i][k].key == next[j].key;
      assert from[..i][k] == from[k];
    }
  }

  lemma RebuildStep(next: seq<Entry>, from: seq<Entry>, i: nat, item: Json)
    requires i < |from| && Rebuilt(next, from[..i])
    requires forall k :: 0 <= k < i ==> from[k].key != from[i].key
    requires WellFormed(item) && Equivalent(item, StripProto(from[i].value))
    ensures Rebuilt(Assign(next, Entry(from[i].key, item)), from[..i + 1])
  {
    var e := Entry(from[i].key, item);
    var done := from[..i + 1];
    MatchesMore(next, from, i);
    NotYetPresent(next, from, i);
    assert done[i] == from[i];
    assert Matches(e, done);
    forall k | 0 <= k < |done| && done[k].key != PROTO
      ensures HasKey(Assign(next, e), done[k].key)
    {
      assert done[k] == from[k];
      KeysAppend(next, e);
      HasKeySet(next, done[k].key);
      HasKeySet(next + [e], done[k].key);
    }
  }

  lemma HasKeySet(es: seq<Entry>, k: Text)
    ensures HasKey(es, k) <==> k in KeySet(es)
  {
  }

  lemma {:induction false} StripItemsAt(items: seq<Json>, i: nat)
    requires i < |items|
    ensures StripItems(items)[i] == StripProto(items[i])
    decreases i
  {
    if i > 0 { StripItemsAt(items[1..], i - 1); }
  }

  lemma {:induction false} StripEntriesMembers(es: seq<Entry>)
    ensures forall e :: e in StripEntries(es) <==>
              exists j :: 0 <= j < |es| && es[j].key != PROTO && e == Entry(es[j].key, StripProto(es[j].value))
  {
    if es != [] {
      StripEntriesMembers(es[1..]);
      forall e ensures e in StripEntries(es) <==>
              exists j :: 0 <= j < |es| && es[j].key != PROTO && e == Entry(es[j].key, StripProto(es[j].value)) {
        assert forall j :: 0 <= j < |es[1..]| ==> es[1..][j] == es[j + 1];
        if e in StripEntries(es[1..]) {
          var j :| 0 <= j < |es[1..]| && es[1..][j].key != PROTO && e == Entry(es[1..][j].key, StripProto(es[1..][j].value));
          assert es[j + 1].key != PROTO;
        }
        if j :| 1 <= j < |es| && es[j].key != PROTO && e == Entry(es[j].key, StripProto(es[j].value)) {
          assert es[1..][j - 1] == es[j];
        }
      }
    }
  }

  lemma {:induction false} StripEntriesDistinct(es: seq<Entry>)
    requires DistinctKeys(es)
    ensures DistinctKeys(StripEntries(es))
  {
    if es != [] {
      StripEntriesDistinct(es[1..]);
      StripEntriesMembers(es[1..]);
      var tail := StripEntries(es[1..]);
      forall i | 0 <= i < |tail| ensures tail[i].key != es[0].key {
        assert tail[i] in tail;
        var j :| 0 <= j < |es[1..]| && es[1..][j].key != PROTO && tail[i] == Entry(es[1..][j].key, StripProto(es[1..][j].value));
        assert es[1..][j] == es[j + 1];
      }
    }
  }

  lemma {:induction false} StripWellFormed(v: Json)
    requires WellFormed(v)
    ensures WellFormed(StripProto(v))
  {
    match v
    case Arr(items) =>
      forall i | 0 <= i < |items| ensures WellFormed(StripItems(items)[i]) {
        StripItemsAt(items, i);
        StripWellFormed(items[i]);
      }
    case Obj(es) =>
      StripEntriesDistinct(es);
      StripEntriesMembers(es);
      var fs := StripEntries(es);
      forall i | 0 <= i < |fs| ensures WellFormed(fs[i].value) {
        assert fs[i] in fs;
        var j :| 0 <= j < |es| && es[j].key != PROTO && fs[i] == Entry(es[j].key, StripProto(es[j].value));
        StripWellFormed(es[j].value);
      }
    case _ =>
  }

  lemma RebuiltEquivalent(next: seq<Entry>, shuffled: seq<Entry>, es: seq<Entry>)
    requires Rebuilt(next, shuffled) && multiset(shuffled) == multiset(es) && WellFormed(Obj(es))
    ensures WellFormed(Obj(next)) && Equivalent(Obj(next), Obj(StripEntries(es)))
  {
    var fs := StripEntries(es);
    StripEntriesDistinct(es);
    StripEntriesMembers(es);
    forall i | 0 <= i < |next| ensures HasKey(fs, next[i].key) {
      var k := Source(next, shuffled, es, i);
      var e := Entry(es[k].key, StripProto(es[k].value));
      assert e in fs;
    }
    forall j | 0 <= j < |fs| ensures HasKey(next, fs[j].key) {
      assert fs[j] in fs;
      var k :| 0 <= k < |es| && es[k].key != PROTO && fs[j] == Entry(es[k].key, StripProto(es[k].value));
      assert es[k] in multiset(shuffled);
      var l :| 0 <= l < |shuffled| && shuffled[l] == es[k];
      assert HasKey(next, shuffled[l].key);
    }
    SameSize(next, fs);
    forall i, j | 0 <= i < |next| && 0 <= j < |fs| && next[i].key == fs[j].key ensures Equivalent(next[i].value, fs[j].value) {
      var k := Source(next, shuffled, es, i);
      assert fs[j] in fs;
    }
  }

  lemma Source(next: seq<Entry>, shuffled: seq<Entry>, es: seq<Entry>, i: nat) returns (k: nat)
    requires Rebuilt(next, shuffled) && multiset(shuffled) == multiset(es) && i < |next|
    ensures k < |es| && es[k].key == next[i].key != PROTO && Equivalent(next[i].value, StripProto(es[k].value))
  {
    assert Matches(next[i], shuffled);
    var l :| 0 <= l < |shuffled| && shuffled[l].key == next[i].key && Equivalent(next[i].value, StripProto(shuffled[l].value));
    assert shuffled[l] in multiset(es);
    k :| 0 <= k < |es| && es[k] == shuffled[l];
  }

  lemma SameSize(a: seq<Entry>, b: seq<Entry>)
    requires DistinctKeys(a) && DistinctKeys(b)
    requires forall i :: 0 <= i < |a| ==> HasKey(b, a[i].key)
    requires forall j :: 0 <= j < |b| ==> HasKey(a, b[j].key)
    ensures |a| == |b|
  {
    KeyCount(a);
    KeyCount(b);
    assert KeySet(a) == KeySet(b);
  }

  /**
   Every result of reorderJson prints as the original does, for all generator states, exactly when the
   original mentions no `__proto__` key.
   */
  lemma ReorderedPrintsSame(v: Json, r: Json)
    requires WellFormed(v) && WellFormed(r) && Equivalent(r, StripProto(v))
    ensures Canonicalize(r) == Canonicalize(StripProto(v))
    ensures Canonicalize(r) == Canonicalize(v) <==> !MentionsProto(v)
  {
    StripWellFormed(v);
    CompleteInvariant(r, StripProto(v));
    CompleteInvariant(StripProto(v), v);
    StripUnchanged(v);
    if MentionsProto(v) { StrippedDiffers(v); } else { NormEquivalent(v); CompleteInvariant(v, v); }
  }

  /** A value that mentions `__proto__` is not equal up to order to its stripped form. */
  lemma {:induction false} StrippedDiffers(v: Json)
    requires WellFormed(v) && MentionsProto(v)
    ensures !Equivalent(StripProto(v), v)
  {
    match v
    case Arr(items) =>
      var i :| 0 <= i < |items| && MentionsProto(items[i]);
      StripItemsAt(items, i);
      StrippedDiffers(items[i]);
    case Obj(es) =>
      var i :| 0 <= i < |es| && (es[i].key == PROTO || MentionsProto(es[i].value));
      if es[i].key != PROTO { StrippedDiffers(es[i].value); }
      StrippedEntryDiffers(es, i);
  }

  lemma StrippedEntryDiffers(es: seq<Entry>, i: nat)
    requires DistinctKeys(es) && i < |es|
    requires es[i].key == PROTO || !Equivalent(StripProto(es[i].value), es[i].value)
    ensures !Equivalent(Obj(StripEntries(es)), Obj(es))
  {
    var fs := StripEntries(es);
    StripEntriesDistinct(es);
    StripEntriesMembers(es);
    if es[i].key == PROTO {
      forall j | 0 <= j < |fs| ensures fs[j].key != PROTO { assert fs[j] in fs; }
      assert HasKey(es, PROTO) && !HasKey(fs, PROTO);
      if Equivalent(Obj(fs), Obj(es)) { SameKeys(fs, es); }
    } else {
      var e := Entry(es[i].key, StripProto(es[i].value));
      assert e in fs;
      var j :| 0 <= j < |fs| && fs[j] == e;
    }
  }

  // ----- the shortest text with the key

  /** The object whose only key is `__proto__`. */
  function ProtoValue(): Json {
    Obj([Entry(PROTO, Null)])
  }

  lemma ProtoValueFacts()
    ensures WellFormed(ProtoValue()) && MentionsProto(ProtoValue()) && StripProto(ProtoValue()) == Obj([])
    ensures Norm(ProtoValue()) == ProtoValue()
  {
    hide Ascii;
    var es := [Entry(PROTO, Null)];
    assert es[1..] == [];
    assert StripEntries(es) == StripEntries(es[1..]);
    assert Keys(es) == [PROTO] && [PROTO][1..] == [];
    assert Sort(Keys(es)) == [PROTO];
    assert HasKey(es, PROTO) by { assert es[0].key == PROTO; }
    assert NormEntries(es, [PROTO]) == [Entry(PROTO, Norm(es[IndexOf(es, PROTO)].value))] + NormEntries(es, [PROTO][1..]);
  }

  /** A text both parsers accept with different values. */
  lemma ProtoTextSplitsParsers() returns (source: Text)
    ensures Parse(source) == Success(ProtoValue()) && BrowserParse(source) == Success(Obj([]))
  {
    hide ProtoValue, Canonicalize, Parse, BrowserParse, StripProto, Norm, WellFormed;
    ProtoValueFacts();
    source := Canonicalize(ProtoValue());
    RoundTrip(ProtoValue());
    ParsersAgree(source);
  }

  /** Whatever the generator draws, shuffling that value changes its canonical text. */
  lemma ProtoLostInShuffle(r: Json)
    requires WellFormed(r) && Equivalent(r, StripProto(ProtoValue()))
    ensures Canonicalize(r) != Canonicalize(ProtoValue())
  {
    hide ProtoValue, Canonicalize, StripProto, WellFormed, MentionsProto, Equivalent;
    ProtoValueFacts();
    ReorderedPrintsSame(ProtoValue(), r);
  }
}
