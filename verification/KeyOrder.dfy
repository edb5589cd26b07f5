/** One key check of preflight: when its answer depends on the order of the keys. */
module KeyOrder {
  import opened Units
  import opened JsonValues
  import opened Canonical
  import opened Contracts
  import opened DeepScan
  import opened Preflight
  import opened Sequences

  // ----- one key check

  function KeyReason(reserved: bool): Reason {
    if reserved then NonDeterministicInput else SchemaValidation
  }

  predicate HasForeign(es: seq<Entry>, allowed: seq<Name>, reserved: bool) {
    exists i :: 0 <= i < |es| && !IsAllowed(es[i].key, allowed) && IsReserved(es[i].key) == reserved
  }

  predicate HasForeignIndex(es: seq<Entry>, allowed: seq<Name>) {
    exists i :: 0 <= i < |es| && !IsAllowed(es[i].key, allowed) && IsArrayIndex(es[i].key)
  }

  /** Keys of both kinds that are not allowed, none of them an array index. */
  predicate Mixed(es: seq<Entry>, allowed: seq<Name>) {
    HasForeign(es, allowed, true) && HasForeign(es, allowed, false) && !HasForeignIndex(es, allowed)
  }

  /** Reserved keys come first, or come last. */
  predicate Ordered(ks: seq<Text>, first: bool) {
    forall i, j :: 0 <= i < j < |ks| ==>
      if first then IsReserved(ks[j]) ==> IsReserved(ks[i]) else IsReserved(ks[i]) ==> IsReserved(ks[j])
  }

  lemma ReservedIsNoIndex(k: Text)
    requires IsReserved(k)
    ensures !IsArrayIndex(k)
  {
    var i :| 0 <= i < |RESERVED| && Ascii(RESERVED[i]) == k;
    StartsWithLetter(i);
    assert k[0] == RESERVED[i][0] as int;
  }

  lemma StartsWithLetter(i: nat)
    requires i < |RESERVED|
    ensures |RESERVED[i]| > 0 && RESERVED[i][0] as int > 0x39
  {
  }

  lemma {:induction false} ScanAppend(a: seq<Text>, b: seq<Text>, allowed: seq<Name>)
    ensures ScanKeys(a + b, allowed) == if ScanKeys(a, allowed).Some? then ScanKeys(a, allowed) else ScanKeys(b, allowed)
  {
    hide IsAllowed, IsReserved;
    if a == [] {
      assert a + b == b;
    } else {
      ScanAppend(a[1..], b, allowed);
      assert (a + b)[1..] == a[1..] + b;
    }
  }

  /** When all keys that are not allowed are of one kind, the scan reports that kind. */
  lemma {:induction false} ScanUniform(ks: seq<Text>, allowed: seq<Name>, reserved: bool)
    requires forall k :: k in ks && !IsAllowed(k, allowed) ==> IsReserved(k) == reserved
    ensures ScanKeys(ks, allowed) == if exists k :: k in ks && !IsAllowed(k, allowed) then Some(KeyReason(reserved)) else None
  {
    hide IsAllowed, IsReserved;
    if ks != [] {
      ScanUniform(ks[1..], allowed, reserved);
      assert forall k :: k in ks <==> k == ks[0] || k in ks[1..];
    }
  }

  /** When one kind comes first and occurs, the scan reports it. */
  lemma {:induction false} ScanOrdered(ks: seq<Text>, allowed: seq<Name>, first: bool)
    requires Ordered(ks, first)
    requires exists k :: k in ks && !IsAllowed(k, allowed) && IsReserved(k) == first
    ensures ScanKeys(ks, allowed) == Some(KeyReason(first))
  {
    hide IsAllowed, IsReserved;
    var k :| k in ks && !IsAllowed(k, allowed) && IsReserved(k) == first;
    var j :| 0 <= j < |ks| && ks[j] == k;
    if IsAllowed(ks[0], allowed) {
      assert ks[1..][j - 1] == k;
      forall i, l | 0 <= i < l < |ks[1..]|
        ensures if first then IsReserved(ks[1..][l]) ==> IsReserved(ks[1..][i]) else IsReserved(ks[1..][i]) ==> IsReserved(ks[1..][l])
      {
        assert ks[1..][i] == ks[i + 1] && ks[1..][l] == ks[l + 1];
      }
      ScanOrdered(ks[1..], allowed, first);
    }
  }

  lemma {:induction false} FilterOrdered(ks: seq<Text>, first: bool, index: bool)
    requires Ordered(ks, first)
    ensures Ordered(Filter(ks, index), first)
  {
    hide IsArrayIndex, IsReserved;
    if ks != [] {
      var tail := ks[1..];
      forall i, j | 0 <= i < j < |tail|
        ensures if first then IsReserved(tail[j]) ==> IsReserved(tail[i]) else IsReserved(tail[i]) ==> IsReserved(tail[j])
      {
        assert tail[i] == ks[i + 1] && tail[j] == ks[j + 1];
      }
      FilterOrdered(tail, first, index);
      forall j | 0 <= j < |Filter(tail, index)|
        ensures if first then IsReserved(Filter(tail, index)[j]) ==> IsReserved(ks[0])
                else IsReserved(ks[0]) ==> IsReserved(Filter(tail, index)[j])
      {
        assert Filter(tail, index)[j] in Filter(tail, index);
        var l :| 0 <= l < |tail| && tail[l] == Filter(tail, index)[j];
        assert tail[l] == ks[l + 1];
      }
    }
  }

  lemma KeysMembers(es: seq<Entry>)
    ensures |Keys(es)| == |es| && forall i :: 0 <= i < |es| ==> Keys(es)[i] == es[i].key
    ensures forall k :: k in Keys(es) <==> exists i :: 0 <= i < |es| && es[i].key == k
  {
    forall i | 0 <= i < |es| ensures es[i].key in Keys(es) { assert Keys(es)[i] == es[i].key; }
  }

  /** A key check fails with the schema code when a key that is not allowed is an array index: such keys are enumerated first. */
  lemma IndexFirst(es: seq<Entry>, allowed: seq<Name>)
    requires HasForeignIndex(es, allowed)
    ensures Known(es, allowed) == Bad(SchemaValidation)
  {
    hide IsAllowed, IsReserved, IsArrayIndex;
    KeysMembers(es);
    var front := Filter(Keys(es), true);
    forall k | k in front ensures !IsReserved(k) {
      if IsReserved(k) { ReservedIsNoIndex(k); }
    }
    var i :| 0 <= i < |es| && !IsAllowed(es[i].key, allowed) && IsArrayIndex(es[i].key);
    assert es[i].key in front;
    ScanUniform(front, allowed, false);
    ScanAppend(front, Filter(Keys(es), false), allowed);
  }

  lemma UniformKnown(es: seq<Entry>, allowed: seq<Name>, reserved: bool)
    requires HasForeign(es, allowed, reserved) && !HasForeign(es, allowed, !reserved)
    ensures Known(es, allowed) == Bad(KeyReason(reserved))
  {
    hide IsAllowed, IsReserved, IsArrayIndex;
    KeysMembers(es);
    var ks := ObjectKeys(es);
    forall k ensures k in ks <==> k in Keys(es) {}
    var i :| 0 <= i < |es| && !IsAllowed(es[i].key, allowed) && IsReserved(es[i].key) == reserved;
    assert es[i].key in ks;
    forall k | k in ks && !IsAllowed(k, allowed) ensures IsReserved(k) == reserved {
      var j :| 0 <= j < |es| && es[j].key == k;
    }
    ScanUniform(ks, allowed, reserved);
  }

  lemma NothingForeign(es: seq<Entry>, allowed: seq<Name>)
    requires !HasForeign(es, allowed, true) && !HasForeign(es, allowed, false)
    ensures Known(es, allowed) == Good(())
  {
    hide IsAllowed, IsReserved, ObjectKeys;
    forall i | 0 <= i < |es| ensures IsAllowed(es[i].key, allowed) {
      assert IsReserved(es[i].key) == true || IsReserved(es[i].key) == false;
    }
    KnownExact(es, allowed);
  }

  /** On a mixed object the kind that comes first decides. */
  lemma MixedKnown(es: seq<Entry>, allowed: seq<Name>, first: bool)
    requires Mixed(es, allowed) && Ordered(Keys(es), first)
    ensures Known(es, allowed) == Bad(KeyReason(first))
  {
    hide IsAllowed, IsReserved, IsArrayIndex, Ordered;
    KeysMembers(es);
    var front, back := Filter(Keys(es), true), Filter(Keys(es), false);
    forall k | k in front ensures IsAllowed(k, allowed) {
      var i :| 0 <= i < |es| && es[i].key == k;
    }
    ScanUniform(front, allowed, first);
    ScanAppend(front, back, allowed);
    FilterOrdered(Keys(es), first, false);
    assert HasForeign(es, allowed, first);
    var i :| 0 <= i < |es| && !IsAllowed(es[i].key, allowed) && IsReserved(es[i].key) == first;
    assert es[i].key in back;
    ScanOrdered(back, allowed, first);
  }

  // ----- rearranging entries

  function Pick(es: seq<Entry>, reserved: bool): (r: seq<Entry>)
    ensures forall e :: e in r <==> e in es && IsReserved(e.key) == reserved
  {
    if es == [] then []
    else (if IsReserved(es[0].key) == reserved then [es[0]] else []) + Pick(es[1..], reserved)
  }

  /** The entries with reserved keys first, or last. */
  function Parted(es: seq<Entry>, first: bool): (r: seq<Entry>)
    ensures forall e :: e in r <==> e in es
  {
    Pick(es, first) + Pick(es, !first)
  }

  lemma {:induction false} PickCounts(es: seq<Entry>, reserved: bool)
    ensures multiset(Pick(es, reserved)) + multiset(Pick(es, !reserved)) == multiset(es)
  {
    hide IsReserved;
    if es != [] {
      PickCounts(es[1..], reserved);
      assert es == [es[0]] + es[1..];
    }
  }

  lemma PartedPermutes(es: seq<Entry>, first: bool)
    ensures multiset(Parted(es, first)) == multiset(es) && |Parted(es, first)| == |es|
  {
    hide IsReserved;
    PickCounts(es, first);
    PermutedMembers(Parted(es, first), es);
  }

  lemma PartedOrdered(es: seq<Entry>, first: bool)
    ensures Ordered(Keys(Parted(es, first)), first)
  {
    hide IsReserved;
    var a, b := Pick(es, first), Pick(es, !first);
    var fs: seq<Entry> := a + b;
    KeysMembers(fs);
    forall i | 0 <= i < |fs| ensures IsReserved(fs[i].key) == if i < |a| then first else !first {
      if i < |a| { assert a[i] in a; } else { assert b[i - |a|] in b; }
    }
  }

  lemma SameForeign(es: seq<Entry>, fs: seq<Entry>, allowed: seq<Name>)
    requires forall k :: HasKey(es, k) <==> HasKey(fs, k)
    ensures forall r :: HasForeign(es, allowed, r) <==> HasForeign(fs, allowed, r)
    ensures HasForeignIndex(es, allowed) <==> HasForeignIndex(fs, allowed)
    ensures Mixed(es, allowed) <==> Mixed(fs, allowed)
  {
    hide IsAllowed, IsReserved, IsArrayIndex;
    ForeignCarried(es, fs, allowed);
    ForeignCarried(fs, es, allowed);
  }

  lemma ForeignCarried(es: seq<Entry>, fs: seq<Entry>, allowed: seq<Name>)
    requires forall k :: HasKey(es, k) ==> HasKey(fs, k)
    ensures forall r :: HasForeign(es, allowed, r) ==> HasForeign(fs, allowed, r)
    ensures HasForeignIndex(es, allowed) ==> HasForeignIndex(fs, allowed)
  {
    hide IsAllowed, IsReserved, IsArrayIndex;
    forall i | 0 <= i < |es| ensures exists j :: 0 <= j < |fs| && fs[j].key == es[i].key {
      assert HasKey(es, es[i].key);
      assert HasKey(fs, es[i].key);
    }
  }

  /** Unless it is mixed, an object with the same keys in another order gets the same answer. */
  lemma UnmixedKnown(es: seq<Entry>, fs: seq<Entry>, allowed: seq<Name>)
    requires (forall k :: HasKey(es, k) <==> HasKey(fs, k)) && !Mixed(es, allowed)
    ensures Known(fs, allowed) == Known(es, allowed)
  {
    hide Known, HasForeign, HasForeignIndex;
    SameForeign(es, fs, allowed);
    if HasForeignIndex(es, allowed) {
      IndexFirst(es, allowed);
      IndexFirst(fs, allowed);
    } else if HasForeign(es, allowed, true) {
      UniformKnown(es, allowed, true);
      UniformKnown(fs, allowed, true);
    } else if HasForeign(es, allowed, false) {
      UniformKnown(es, allowed, false);
      UniformKnown(fs, allowed, false);
    } else {
      NothingForeign(es, allowed);
      NothingForeign(fs, allowed);
    }
  }

  lemma PermutedKeys(es: seq<Entry>, fs: seq<Entry>)
    requires multiset(fs) == multiset(es)
    ensures forall k :: HasKey(es, k) <==> HasKey(fs, k)
  {
    PermutedMembers(fs, es);
    forall k ensures HasKey(es, k) <==> HasKey(fs, k) {
      if HasKey(es, k) { var e := es[IndexOf(es, k)]; assert e in fs; }
      if HasKey(fs, k) { var e := fs[IndexOf(fs, k)]; assert e in es; }
    }
  }

  /** The answer of a key check is the same for every order of the entries if and only if the object is not mixed. */
  lemma KeyCheckOrderExact(es: seq<Entry>, allowed: seq<Name>)
    ensures (forall fs :: multiset(fs) == multiset(es) ==> Known(fs, allowed) == Known(es, allowed)) <==> !Mixed(es, allowed)
  {
    hide Known, Mixed, Parted, Ordered;
    if Mixed(es, allowed) {
      var a, b := Parted(es, true), Parted(es, false);
      PartedPermutes(es, true);
      PartedPermutes(es, false);
      PermutedKeys(es, a);
      PermutedKeys(es, b);
      SameForeign(es, a, allowed);
      SameForeign(es, b, allowed);
      PartedOrdered(es, true);
      PartedOrdered(es, false);
      MixedKnown(a, allowed, true);
      MixedKnown(b, allowed, false);
      assert multiset(a) == multiset(es) && multiset(b) == multiset(es);
    } else {
      forall fs | multiset(fs) == multiset(es) ensures Known(fs, allowed) == Known(es, allowed) {
        PermutedKeys(es, fs);
        UnmixedKnown(es, fs, allowed);
      }
    }
  }
}
