/** Order-freeness of registry validation, and resolution of receipts to keys across rotations: shared/custody_keys.js. */
module KeyResolution {
  import opened Units
  import opened Sequences
  import opened Registry

  // ----- Success does not depend on the order of tenants, sets and signers -----

  predicate SetReordered(a: SignerSet, b: SignerSet) {
    && a.(signers := None) == b.(signers := None)
    && a.signers.Some? == b.signers.Some?
    && multiset(SignersOf(a)) == multiset(SignersOf(b))
  }

  ghost predicate SetsReordered(a: seq<SignerSet>, mid: seq<SignerSet>, b: seq<SignerSet>) {
    multiset(mid) == multiset(b) && |mid| == |a| && forall i :: 0 <= i < |a| ==> SetReordered(a[i], mid[i])
  }

  /** The same tenant with its sets, and the signers inside each set, in another order. */
  ghost predicate TenantReordered(a: Tenant, b: Tenant) {
    && a.tenantId == b.tenantId
    && a.sets.Some? == b.sets.Some?
    && exists mid :: SetsReordered(SetsOf(a), mid, SetsOf(b))
  }

  ghost predicate TenantsReordered(a: seq<Tenant>, mid: seq<Tenant>, b: seq<Tenant>) {
    multiset(mid) == multiset(b) && |mid| == |a| && forall i :: 0 <= i < |a| ==> TenantReordered(a[i], mid[i])
  }

  /** The same registry with its tenants, their sets and their signers in another order. */
  ghost predicate Reordered(a: SignerRegistry, b: SignerRegistry) {
    && a.allowReuse == b.allowReuse
    && a.tenants.Some? == b.tenants.Some?
    && (a.tenants.Some? ==> exists mid :: TenantsReordered(a.tenants.value, mid, b.tenants.value))
  }

  lemma SetOrderFree(sha: Digest, tenantId: Text, a: SignerSet, b: SignerSet)
    requires SetReordered(a, b)
    ensures SetOk(sha, a) <==> SetOk(sha, b)
    ensures multiset(IdsOfSet(a)) == multiset(IdsOfSet(b))
    ensures VersionOf(a) == VersionOf(b) && (Active(a) <==> Active(b))
    ensures multiset(SetEntries(sha, tenantId)(a)) == multiset(SetEntries(sha, tenantId)(b))
  {
    hide SignerOk, Flat, EntryOf;
    SameFields(a, b);
    PermutedMembers(SignersOf(a), SignersOf(b));
    FlatPermuted(SignersOf(a), SignersOf(b), IdOf);
    SetEntriesOrderFree(sha, tenantId, a, b);
  }

  lemma SameFields(a: SignerSet, b: SignerSet)
    requires a.(signers := None) == b.(signers := None)
    ensures a.version == b.version && a.status == b.status && a.createdAt == b.createdAt && a.quorum == b.quorum
  {
    var x, y := a.(signers := None), b.(signers := None);
    assert x.version == a.version && x.status == a.status && x.createdAt == a.createdAt && x.quorum == a.quorum;
    assert y.version == b.version && y.status == b.status && y.createdAt == b.createdAt && y.quorum == b.quorum;
  }

  lemma SetEntriesOrderFree(sha: Digest, tenantId: Text, a: SignerSet, b: SignerSet)
    requires SetReordered(a, b)
    ensures multiset(SetEntries(sha, tenantId)(a)) == multiset(SetEntries(sha, tenantId)(b))
  {
    hide Flat;
    SameFields(a, b);
    var f, g := SignerEntry(sha, tenantId, a), SignerEntry(sha, tenantId, b);
    forall x ensures f(x) == g(x) {
      assert f(x) == [EntryOf(sha, tenantId, a, x)] && g(x) == [EntryOf(sha, tenantId, b, x)];
    }
    FlatPermuted(SignersOf(a), SignersOf(b), f);
    FlatPointwise(SignersOf(b), f, SignersOf(b), g);
  }

  lemma TenantOrderFree(sha: Digest, a: Tenant, b: Tenant)
    requires TenantReordered(a, b)
    ensures TenantOk(sha, a) <==> TenantOk(sha, b)
    ensures multiset(TenantEntries(sha)(a)) == multiset(TenantEntries(sha)(b))
  {
    hide SetOk, SetReordered, IdsOfSet, SetEntries, Active, Distinct, Flat;
    var x, y := SetsOf(a), SetsOf(b);
    var mid :| SetsReordered(x, mid, y);
    forall i | 0 <= i < |x|
      ensures SetOk(sha, x[i]) <==> SetOk(sha, mid[i])
      ensures multiset(IdsOfSet(x[i])) == multiset(IdsOfSet(mid[i]))
      ensures multiset(VersionOf(x[i])) == multiset(VersionOf(mid[i]))
      ensures Active(x[i]) <==> Active(mid[i])
      ensures multiset(SetEntries(sha, a.tenantId)(x[i])) == multiset(SetEntries(sha, a.tenantId)(mid[i]))
    {
      SetOrderFree(sha, a.tenantId, x[i], mid[i]);
    }
    PermutedMembers(mid, y);
    FlatReordered(x, mid, y, IdsOfSet);
    FlatReordered(x, mid, y, VersionOf);
    FlatReordered(x, mid, y, SetEntries(sha, a.tenantId));
    CountReordered(x, mid, y);
    DistinctPermuted(Flat(x, VersionOf), Flat(y, VersionOf));
    DistinctPermuted(Flat(x, IdsOfSet), Flat(y, IdsOfSet));
    if a.sets.Some? {
      MembersReordered(x, mid, y, s => SetOk(sha, s));
    }
  }

  lemma FlatReordered<T, U>(a: seq<T>, mid: seq<T>, b: seq<T>, f: T -> seq<U>)
    requires |mid| == |a| && multiset(mid) == multiset(b)
    requires forall i :: 0 <= i < |a| ==> multiset(f(a[i])) == multiset(f(mid[i]))
    ensures multiset(Flat(a, f)) == multiset(Flat(b, f))
  {
    FlatPointwise(a, f, mid, f);
    FlatPermuted(mid, b, f);
  }

  lemma MembersReordered<T>(a: seq<T>, mid: seq<T>, b: seq<T>, p: T -> bool)
    requires |mid| == |a| && multiset(mid) == multiset(b)
    requires forall i :: 0 <= i < |a| ==> p(a[i]) == p(mid[i])
    ensures (forall x :: x in a ==> p(x)) <==> (forall x :: x in b ==> p(x))
  {
    PermutedMembers(mid, b);
    if forall x :: x in a ==> p(x) {
      forall x | x in mid ensures p(x) {
        var i :| 0 <= i < |mid| && mid[i] == x;
        assert a[i] in a;
      }
    }
    if forall x :: x in b ==> p(x) {
      forall x | x in a ensures p(x) {
        var i :| 0 <= i < |a| && a[i] == x;
        assert mid[i] in mid;
      }
    }
  }

  function Mark(s: SignerSet): seq<()> { if Active(s) then [()] else [] }

  lemma {:induction false} MarksCount(s: seq<SignerSet>)
    ensures |Flat(s, Mark)| == |Flat(s, ActiveOf)|
  {
    if s != [] { MarksCount(s[1..]); }
  }

  lemma CountReordered(a: seq<SignerSet>, mid: seq<SignerSet>, b: seq<SignerSet>)
    requires |mid| == |a| && multiset(mid) == multiset(b)
    requires forall i :: 0 <= i < |a| ==> (Active(a[i]) <==> Active(mid[i]))
    ensures |Flat(a, ActiveOf)| == |Flat(b, ActiveOf)|
  {
    hide Active;
    FlatReordered(a, mid, b, Mark);
    PermutedMembers(Flat(a, Mark), Flat(b, Mark));
    MarksCount(a);
    MarksCount(b);
  }

  lemma SeparatedPermuted(a: seq<Entry>, b: seq<Entry>, reuse: bool)
    requires multiset(a) == multiset(b)
    ensures Separated(a, reuse) <==> Separated(b, reuse)
  {
    PermutedMembers(a, b);
  }

  /** Validation succeeds on a registry exactly when it succeeds on every reordering of it, with the same entries. */
  lemma ValidationIsOrderFree(sha: Digest, a: SignerRegistry, b: SignerRegistry)
    requires Reordered(a, b)
    ensures Validate(sha, a).Good? <==> Validate(sha, b).Good?
    ensures Validate(sha, a).Good? ==> multiset(Validate(sha, a).value) == multiset(Validate(sha, b).value)
  {
    hide Validate, TenantOk, TenantReordered, TenantEntries, Separated, Flat;
    ValidateExact(sha, a);
    ValidateExact(sha, b);
    if a.tenants.Some? {
      var x, y := a.tenants.value, b.tenants.value;
      var mid :| TenantsReordered(x, mid, y);
      forall i | 0 <= i < |x|
        ensures TenantOk(sha, x[i]) <==> TenantOk(sha, mid[i])
        ensures multiset(TenantEntries(sha)(x[i])) == multiset(TenantEntries(sha)(mid[i]))
      {
        TenantOrderFree(sha, x[i], mid[i]);
      }
      MembersReordered(x, mid, y, t => TenantOk(sha, t));
      FlatReordered(x, mid, y, TenantEntries(sha));
      SeparatedPermuted(Entries(sha, x), Entries(sha, y), a.allowReuse);
    }
  }

  // ----- Where an entry comes from -----

  predicate Origin(sha: Digest, t: Tenant, s: SignerSet, x: Signer, e: Entry) {
    s in SetsOf(t) && x in SignersOf(s) && e == EntryOf(sha, t.tenantId, s, x)
  }

  lemma TenantEntryOrigin(sha: Digest, t: Tenant, e: Entry)
    ensures e in TenantEntries(sha)(t) <==> exists s, x :: Origin(sha, t, s, x, e)
  {
    hide EntryOf;
    var f := SetEntries(sha, t.tenantId);
    FlatMember(SetsOf(t), f, e);
    forall s ensures e in f(s) <==> exists x :: x in SignersOf(s) && e == EntryOf(sha, t.tenantId, s, x) {
      var g := SignerEntry(sha, t.tenantId, s);
      FlatMember(SignersOf(s), g, e);
      forall x ensures g(x) == [EntryOf(sha, t.tenantId, s, x)] {}
      if x :| x in SignersOf(s) && e == EntryOf(sha, t.tenantId, s, x) {
        var i :| 0 <= i < |SignersOf(s)| && SignersOf(s)[i] == x;
        assert e in g(SignersOf(s)[i]);
      }
    }
    if s, x :| Origin(sha, t, s, x, e) {
      var i :| 0 <= i < |SetsOf(t)| && SetsOf(t)[i] == s;
      assert e in f(SetsOf(t)[i]);
    }
    if i :| 0 <= i < |SetsOf(t)| && e in f(SetsOf(t)[i]) {
      var s := SetsOf(t)[i];
      var x :| x in SignersOf(s) && e == EntryOf(sha, t.tenantId, s, x);
      assert Origin(sha, t, s, x, e);
    }
  }

  lemma EntryOrigin(sha: Digest, tenants: seq<Tenant>, e: Entry)
    ensures e in Entries(sha, tenants) <==> exists i :: 0 <= i < |tenants| && e in TenantEntries(sha)(tenants[i])
  {
    FlatMember(tenants, TenantEntries(sha), e);
  }

  lemma EntryFields(sha: Digest, t: Tenant, e: Entry)
    requires TenantOk(sha, t) && e in TenantEntries(sha)(t)
    ensures e.tenantId == t.tenantId != [] && e.version != [] && e.signerId != [] && e.keyId != []
  {
    hide Distinct, Flat, KeyOk;
    TenantEntryOrigin(sha, t, e);
    var s, x :| Origin(sha, t, s, x, e);
  }

  // ----- Slashes -----

  /** One signer id continues another one after a slash. */
  predicate Nested(u: Text, v: Text) {
    v + [SLASH] <= u || u + [SLASH] <= v
  }

  /** Two ids joined to something with a slash give different texts, unless the ids are the same or nested. */
  lemma JoinInjective(a: Text, b: Text, c: Text, d: Text)
    requires !Nested(a, c)
    requires a + ([SLASH] + b) == c + ([SLASH] + d)
    ensures a == c && b == d
  {
    var s := a + ([SLASH] + b);
    JoinPrefix(a, b);
    JoinPrefix(c, d);
    if |a| < |c| { PrefixOfPrefix(s, |a| + 1, |c|); }
    if |c| < |a| { PrefixOfPrefix(s, |c| + 1, |a|); }
  }

  lemma JoinPrefix(a: Text, b: Text)
    ensures var s := a + ([SLASH] + b); s[..|a| + 1] == a + [SLASH] && s[..|a|] == a && s[|a| + 1..] == b
  {
  }

  lemma PrefixOfPrefix(s: Text, i: nat, j: nat)
    requires i <= j <= |s|
    ensures s[..i] <= s[..j]
  {
  }

  /** Unless their signer ids are nested, entries of a valid registry with one key hash have one tenant, signer id and key id. */
  lemma HashFixesIdentity(sha: Digest, r: SignerRegistry, a: Entry, b: Entry)
    requires Validate(sha, r).Good?
    requires a in Validate(sha, r).value && b in Validate(sha, r).value && a.publicKeyHash == b.publicKeyHash
    requires !Nested(a.signerId, b.signerId)
    ensures a.tenantId == b.tenantId && a.signerId == b.signerId && a.keyId == b.keyId
  {
    hide Validate, TenantOk, Entries, Nested;
    ValidateExact(sha, r);
    assert Owned(Validate(sha, r).value, HashOf, TenantOf) && Owned(Validate(sha, r).value, HashOf, Identity);
    assert TenantOf(a) == TenantOf(b) && Identity(a) == Identity(b);
    var n := |a.tenantId| + 1;
    var x, y := a.signerId + ([SLASH] + a.keyId), b.signerId + ([SLASH] + b.keyId);
    assert Identity(a) == (a.tenantId + [SLASH]) + x;
    assert Identity(b) == (b.tenantId + [SLASH]) + y;
    assert x == Identity(a)[n..] == Identity(b)[n..] == y;
    JoinInjective(a.signerId, a.keyId, b.signerId, b.keyId);
  }

  // ----- Resolution -----

  datatype Metadata = Metadata(algorithm: Text, signerId: Text, keyId: Text, version: Text, publicKeyHash: Text,
                               value: Option<Text>)

  datatype CustodyReceipt = CustodyReceipt(tenantId: Text, requestHash: Text, decisionHash: Text, policyHash: Text,
                                           decision: Text, reasonCode: Text, signature: Option<Metadata>)

  predicate Addressed(rc: CustodyReceipt) {
    rc.tenantId != [] && rc.signature.Some? && rc.signature.value.version != []
  }

  /** Every field the resolver asks for is there. */
  predicate Complete(rc: CustodyReceipt) {
    && Addressed(rc)
    && var m := rc.signature.value; m.signerId != [] && m.keyId != [] && m.publicKeyHash != [] && m.algorithm != []
  }

  predicate Matches(e: Entry, rc: CustodyReceipt)
    requires rc.signature.Some?
  {
    var m := rc.signature.value;
    && e.tenantId == rc.tenantId && e.version == m.version && e.signerId == m.signerId && e.keyId == m.keyId
    && e.publicKeyHash == m.publicKeyHash && e.algorithm == m.algorithm
  }

  function Matching(rc: CustodyReceipt): Entry -> seq<Entry>
    requires rc.signature.Some?
  {
    e => if Matches(e, rc) then [e] else []
  }

  predicate VersionKnown(es: seq<Entry>, rc: CustodyReceipt)
    requires rc.signature.Some?
  {
    exists e :: e in es && e.tenantId == rc.tenantId && e.version == rc.signature.value.version
  }

  function Resolve(sha: Digest, r: SignerRegistry, rc: CustodyReceipt): Verdict<Entry> {
    match Validate(sha, r)
    case Bad(error) => Bad(error)
    case Good(entries) =>
      if !Addressed(rc) then Bad(UnknownKeySetVersion)
      else if !Complete(rc) then Bad(ReceiptKeyResolutionFailed)
      else
        var found := Flat(entries, Matching(rc));
        if found == [] then if VersionKnown(entries, rc) then Bad(UnknownSigner) else Bad(UnknownKeySetVersion)
        else if |found| > 1 then Bad(ReceiptKeyResolutionFailed)
        else Good(found[0])
  }

  predicate HasMatch(sha: Digest, t: Tenant, rc: CustodyReceipt)
    requires rc.signature.Some?
  {
    exists e :: e in TenantEntries(sha)(t) && Matches(e, rc)
  }

  /** Two tenant entries that both hold a signer the receipt names. */
  predicate Ambiguous(sha: Digest, tenants: seq<Tenant>, rc: CustodyReceipt)
    requires rc.signature.Some?
  {
    exists i, j :: 0 <= i < j < |tenants| && HasMatch(sha, tenants[i], rc) && HasMatch(sha, tenants[j], rc)
  }

  function SignerIdList(e: Entry): seq<Text> { [e.signerId] }

  lemma {:induction false} TenantIds(sha: Digest, t: Tenant)
    ensures Flat(TenantEntries(sha)(t), SignerIdList) == Flat(SetsOf(t), IdsOfSet)
  {
    var sets, f := SetsOf(t), SetEntries(sha, t.tenantId);
    forall i | 0 <= i < |sets| ensures IdsOfSet(sets[i]) == Flat(f(sets[i]), SignerIdList) {
      var s := sets[i];
      var g := SignerEntry(sha, t.tenantId, s);
      forall x ensures IdOf(x) == Flat(g(x), SignerIdList) {
        assert g(x) == [EntryOf(sha, t.tenantId, s, x)];
        assert g(x)[1..] == [];
      }
      FlatOfFlat(SignersOf(s), g, SignerIdList, IdOf);
    }
    FlatOfFlat(sets, f, SignerIdList, IdsOfSet);
  }

  lemma FirstIdIsUnique(es: seq<Entry>)
    requires es != [] && Distinct(Flat(es, SignerIdList))
    ensures Distinct(Flat(es[1..], SignerIdList))
    ensures forall e :: e in es[1..] ==> e.signerId != es[0].signerId
  {
    var ids := Flat(es[1..], SignerIdList);
    assert Flat(es, SignerIdList) == [es[0].signerId] + ids;
    DistinctParts([es[0].signerId], ids);
    forall e | e in es[1..] ensures e.signerId != es[0].signerId {
      var i :| 0 <= i < |es[1..]| && es[1..][i] == e;
      assert e.signerId in SignerIdList(es[1..][i]);
      FlatMember(es[1..], SignerIdList, e.signerId);
      var k :| 0 <= k < |ids| && ids[k] == e.signerId;
      assert Flat(es, SignerIdList)[0] != Flat(es, SignerIdList)[k + 1];
    }
  }

  lemma {:induction false} DistinctIdsMatchOnce(es: seq<Entry>, rc: CustodyReceipt)
    requires rc.signature.Some?
    requires Distinct(Flat(es, SignerIdList))
    ensures |Flat(es, Matching(rc))| <= 1
    ensures Flat(es, Matching(rc)) != [] <==> exists e :: e in es && Matches(e, rc)
  {
    hide Distinct;
    if es != [] {
      FirstIdIsUnique(es);
      DistinctIdsMatchOnce(es[1..], rc);
      assert forall e :: e in es <==> e == es[0] || e in es[1..];
    }
  }

  /** A valid tenant entry holds at most one signer a receipt can name. */
  lemma TenantMatchesOnce(sha: Digest, t: Tenant, rc: CustodyReceipt)
    requires TenantOk(sha, t) && rc.signature.Some?
    ensures |Flat(TenantEntries(sha)(t), Matching(rc))| <= 1
    ensures Flat(TenantEntries(sha)(t), Matching(rc)) != [] <==> HasMatch(sha, t, rc)
  {
    hide Flat, Distinct;
    TenantIds(sha, t);
    DistinctIdsMatchOnce(TenantEntries(sha)(t), rc);
  }

  function TenantMatches(sha: Digest, rc: CustodyReceipt): Tenant -> seq<Entry>
    requires rc.signature.Some?
  {
    t => Flat(TenantEntries(sha)(t), Matching(rc))
  }

  lemma MatchCount(sha: Digest, tenants: seq<Tenant>, rc: CustodyReceipt)
    requires (forall t :: t in tenants ==> TenantOk(sha, t)) && rc.signature.Some?
    ensures var found := Flat(Entries(sha, tenants), Matching(rc));
            && (|found| > 1 <==> Ambiguous(sha, tenants, rc))
            && (found == [] <==> forall e :: e in Entries(sha, tenants) ==> !Matches(e, rc))
            && (forall e :: e in found <==> e in Entries(sha, tenants) && Matches(e, rc))
  {
    hide Flat, TenantOk, TenantEntries, Matches;
    var h := TenantMatches(sha, rc);
    forall i | 0 <= i < |tenants|
      ensures h(tenants[i]) == Flat(TenantEntries(sha)(tenants[i]), Matching(rc))
      ensures |h(tenants[i])| <= 1 && (h(tenants[i]) != [] <==> HasMatch(sha, tenants[i], rc))
    {
      TenantMatchesOnce(sha, tenants[i], rc);
    }
    FlatOfFlat(tenants, TenantEntries(sha), Matching(rc), h);
    FlatOfSingles(tenants, h);
    FoundMembers(Entries(sha, tenants), rc);
  }

  lemma {:induction false} FoundMembers(es: seq<Entry>, rc: CustodyReceipt)
    requires rc.signature.Some?
    ensures forall e :: e in Flat(es, Matching(rc)) <==> e in es && Matches(e, rc)
    ensures Flat(es, Matching(rc)) == [] <==> forall e :: e in es ==> !Matches(e, rc)
  {
    hide Matches;
    if es != [] {
      FoundMembers(es[1..], rc);
      assert forall e :: e in es <==> e == es[0] || e in es[1..];
    }
  }

  /**
   * Resolution, exactly: a complete receipt resolves to an entry if and only if that entry is in the registry and has
   * the six fields the receipt names, unless two tenant entries both hold such a signer.
   */
  lemma ResolveExact(sha: Digest, r: SignerRegistry, rc: CustodyReceipt, e: Entry)
    requires ValidRegistry(sha, r) && Complete(rc)
    ensures Resolve(sha, r, rc) == Good(e) <==>
            e in Entries(sha, r.tenants.value) && Matches(e, rc) && !Ambiguous(sha, r.tenants.value, rc)
    ensures Resolve(sha, r, rc) == Bad(ReceiptKeyResolutionFailed) <==> Ambiguous(sha, r.tenants.value, rc)
  {
    hide Validate, TenantOk, Entries, Matches, Ambiguous, Flat, Separated;
    ValidateExact(sha, r);
    MatchCount(sha, r.tenants.value, rc);
    var found := Flat(Entries(sha, r.tenants.value), Matching(rc));
    if found != [] { assert found[0] in found; }
    if |found| == 1 { OnlyElement(found, e); }
  }

  lemma OnlyElement(s: seq<Entry>, e: Entry)
    requires |s| == 1
    ensures e in s <==> e == s[0]
  {
  }

  predicate DistinctTenants(r: SignerRegistry) {
    r.tenants.Some? ==>
      forall i, j :: 0 <= i < j < |r.tenants.value| ==> r.tenants.value[i].tenantId != r.tenants.value[j].tenantId
  }

  /** When no two tenant entries share a tenant id, a complete receipt is never ambiguous. */
  lemma NeverAmbiguous(sha: Digest, r: SignerRegistry, rc: CustodyReceipt)
    requires ValidRegistry(sha, r) && DistinctTenants(r) && Complete(rc)
    ensures !Ambiguous(sha, r.tenants.value, rc)
    ensures Resolve(sha, r, rc) != Bad(ReceiptKeyResolutionFailed)
  {
    hide Validate, TenantOk, Entries, TenantEntries, Separated, Resolve;
    if Ambiguous(sha, r.tenants.value, rc) {
      AmbiguousShareTenant(sha, r, rc);
    }
    ResolveExact(sha, r, rc, Entry([], [], [], [], [], [], [], [], []));
  }

  /** Ambiguity takes two tenant entries with the tenant id of the receipt. */
  lemma AmbiguousShareTenant(sha: Digest, r: SignerRegistry, rc: CustodyReceipt)
    requires ValidRegistry(sha, r) && rc.signature.Some? && Ambiguous(sha, r.tenants.value, rc)
    ensures exists i, j :: 0 <= i < j < |r.tenants.value| &&
                           r.tenants.value[i].tenantId == r.tenants.value[j].tenantId == rc.tenantId
  {
    hide TenantOk, Entries, TenantEntries, Separated;
    var ts := r.tenants.value;
    var i, j :| 0 <= i < j < |ts| && HasMatch(sha, ts[i], rc) && HasMatch(sha, ts[j], rc);
    var a :| a in TenantEntries(sha)(ts[i]) && Matches(a, rc);
    var b :| b in TenantEntries(sha)(ts[j]) && Matches(b, rc);
    EntryFields(sha, ts[i], a);
    EntryFields(sha, ts[j], b);
  }

  // ----- The active signer, and a receipt built for it -----

  predicate ActiveEntry(e: Entry, tenantId: Text) {
    e.tenantId == tenantId && e.status == ACTIVE
  }

  function KeepActive(tenantId: Text): Entry -> seq<Entry> {
    e => if ActiveEntry(e, tenantId) then [e] else []
  }

  function ActiveSigner(sha: Digest, r: SignerRegistry, tenantId: Text): Verdict<Entry> {
    match Validate(sha, r)
    case Bad(error) => Bad(error)
    case Good(entries) =>
      var active := Flat(entries, KeepActive(tenantId));
      if |active| != 1 then Bad(NoActiveSigner) else Good(active[0])
  }

  function BuildReceipt(tenantId: Text, requestHash: Text, decisionHash: Text, policyHash: Text, decision: Text,
                        reasonCode: Text, signer: Entry): CustodyReceipt {
    CustodyReceipt(tenantId, requestHash, decisionHash, policyHash, decision, reasonCode,
                   Some(Metadata(signer.algorithm, signer.signerId, signer.keyId, signer.version, signer.publicKeyHash, None)))
  }

  /** Every valid tenant entry has an active signer. */
  lemma HasActive(sha: Digest, t: Tenant)
    requires TenantOk(sha, t)
    ensures exists e :: e in TenantEntries(sha)(t) && ActiveEntry(e, t.tenantId)
  {
    hide Distinct, SignerOk, Ascii;
    var found := Flat(t.sets.value, ActiveOf);
    assert found[0] in found;
    FlatMember(t.sets.value, ActiveOf, found[0]);
    var i :| 0 <= i < |t.sets.value| && found[0] in ActiveOf(t.sets.value[i]);
    var s := t.sets.value[i];
    assert SetOk(sha, s);
    var e := EntryOf(sha, t.tenantId, s, s.signers.value[0]);
    assert Origin(sha, t, s, s.signers.value[0], e);
    TenantEntryOrigin(sha, t, e);
    assert ActiveEntry(e, t.tenantId);
  }

  lemma {:induction false} ActiveMembers(es: seq<Entry>, tenantId: Text)
    ensures forall e :: e in Flat(es, KeepActive(tenantId)) <==> e in es && ActiveEntry(e, tenantId)
  {
    hide ActiveEntry;
    if es != [] {
      ActiveMembers(es[1..], tenantId);
      assert forall e :: e in es <==> e == es[0] || e in es[1..];
    }
  }

  function TenantActives(sha: Digest, tenantId: Text): Tenant -> seq<Entry> {
    t => Flat(TenantEntries(sha)(t), KeepActive(tenantId))
  }

  /** Asking for the active signer fails when two tenant entries share the id, since each has an active signer of its own. */
  lemma ActiveSignerHasOneTenant(sha: Digest, r: SignerRegistry, tenantId: Text)
    requires ActiveSigner(sha, r, tenantId).Good?
    ensures ValidRegistry(sha, r)
    ensures forall i, j :: 0 <= i < j < |r.tenants.value| ==>
              !(r.tenants.value[i].tenantId == r.tenants.value[j].tenantId == tenantId)
  {
    hide Validate, TenantOk, TenantEntries, Separated, Flat, ActiveEntry;
    ValidateExact(sha, r);
    var ts := r.tenants.value;
    var h := TenantActives(sha, tenantId);
    FlatOfFlat(ts, TenantEntries(sha), KeepActive(tenantId), h);
    forall i, j | 0 <= i < j < |ts| ensures !(ts[i].tenantId == ts[j].tenantId == tenantId) {
      if ts[i].tenantId == ts[j].tenantId == tenantId {
        forall k | k == i || k == j ensures h(ts[k]) != [] {
          HasActive(sha, ts[k]);
          ActiveMembers(TenantEntries(sha)(ts[k]), tenantId);
        }
        TwoPieces(ts, h, i, j);
      }
    }
  }

  lemma {:induction false} TwoPieces<T, U>(s: seq<T>, f: T -> seq<U>, i: nat, j: nat)
    requires i < j < |s| && f(s[i]) != [] && f(s[j]) != []
    ensures |Flat(s, f)| >= 2
  {
    assert s == s[..j] + s[j..] && s[..j] == s[..i] + s[i..j];
    FlatAppend(s[..j], s[j..], f);
    FlatAppend(s[..i], s[i..j], f);
    assert s[i..j][0] == s[i] && s[j..][0] == s[j];
  }

  lemma ActiveEntryFields(sha: Digest, r: SignerRegistry, tenantId: Text, e: Entry)
    requires ActiveSigner(sha, r, tenantId) == Good(e)
    ensures ValidRegistry(sha, r) && e in Entries(sha, r.tenants.value)
    ensures e.tenantId == tenantId != [] && e.version != [] && e.signerId != [] && e.keyId != []
  {
    hide Validate, TenantOk, TenantEntries, Separated, Flat, Ascii;
    ValidateExact(sha, r);
    var ts := r.tenants.value;
    ActiveMembers(Entries(sha, ts), tenantId);
    assert e in Flat(Entries(sha, ts), KeepActive(tenantId));
    EntryOrigin(sha, ts, e);
    var i :| 0 <= i < |ts| && e in TenantEntries(sha)(ts[i]);
    EntryFields(sha, ts[i], e);
  }

  /**
   * The receipt built for the active signer of a tenant resolves back to that signer, and to nothing else, exactly when
   * the signer's hash and algorithm are not empty: no assumption on tenant ids is needed.
   */
  lemma ActiveReceiptResolves(sha: Digest, r: SignerRegistry, tenantId: Text, e: Entry, requestHash: Text,
                              decisionHash: Text, policyHash: Text, decision: Text, reasonCode: Text)
    requires ActiveSigner(sha, r, tenantId) == Good(e)
    ensures Resolve(sha, r, BuildReceipt(tenantId, requestHash, decisionHash, policyHash, decision, reasonCode, e)) == Good(e)
            <==> e.publicKeyHash != [] && e.algorithm != []
  {
    hide Validate, TenantOk, TenantEntries, Separated, Ambiguous, Flat, Ascii, ActiveSigner;
    ActiveSignerHasOneTenant(sha, r, tenantId);
    ActiveEntryFields(sha, r, tenantId, e);
    ValidateExact(sha, r);
    var ts := r.tenants.value;
    var rc := BuildReceipt(tenantId, requestHash, decisionHash, policyHash, decision, reasonCode, e);
    if e.publicKeyHash != [] && e.algorithm != [] {
      ResolveExact(sha, r, rc, e);
      if Ambiguous(sha, ts, rc) {
        AmbiguousShareTenant(sha, r, rc);
      }
    }
  }

  // ----- Rotation -----

  /** Retire the active set of one tenant entry and append a new set. */
  datatype Rotation = Rotation(tenant: nat, status: Text, replacement: SignerSet)

  function Retire(s: SignerSet, retired: Text): SignerSet {
    if Active(s) then s.(status := Some(retired)) else s
  }

  function RetireAll(sets: seq<SignerSet>, retired: Text): (out: seq<SignerSet>)
    ensures |out| == |sets|
    ensures forall i :: 0 <= i < |sets| ==> out[i] == Retire(sets[i], retired)
  {
    if sets == [] then [] else [Retire(sets[0], retired)] + RetireAll(sets[1..], retired)
  }

  function RotateTenant(t: Tenant, rot: Rotation): Tenant {
    t.(sets := Some(RetireAll(SetsOf(t), rot.status) + [rot.replacement]))
  }

  function Rotate(r: SignerRegistry, rot: Rotation): SignerRegistry
    requires r.tenants.Some? && rot.tenant < |r.tenants.value|
  {
    r.(tenants := Some(r.tenants.value[rot.tenant := RotateTenant(r.tenants.value[rot.tenant], rot)]))
  }

  /** The same signer and key; only whether its set is active may differ. */
  predicate SameKey(a: Entry, b: Entry) {
    a.(status := []) == b.(status := [])
  }

  lemma RotationKeepsEntry(sha: Digest, t: Tenant, rot: Rotation, e: Entry) returns (f: Entry)
    requires e in TenantEntries(sha)(t)
    ensures f in TenantEntries(sha)(RotateTenant(t, rot)) && SameKey(e, f)
  {
    hide Ascii, TenantEntries;
    TenantEntryOrigin(sha, t, e);
    var s, x :| Origin(sha, t, s, x, e);
    var i :| 0 <= i < |SetsOf(t)| && SetsOf(t)[i] == s;
    var t' := RotateTenant(t, rot);
    var s' := Retire(s, rot.status);
    assert SetsOf(t')[i] == s';
    f := EntryOf(sha, t.tenantId, s', x);
    assert Origin(sha, t', s', x, f);
    TenantEntryOrigin(sha, t', f);
  }

  lemma SameKeyMatches(e: Entry, f: Entry, rc: CustodyReceipt)
    requires SameKey(e, f) && rc.signature.Some?
    ensures Matches(e, rc) <==> Matches(f, rc)
    ensures e.publicKey == f.publicKey && e.publicKeyHash == f.publicKeyHash
  {
    var a, b := e.(status := []), f.(status := []);
    assert a.tenantId == e.tenantId && b.tenantId == f.tenantId;
    assert a.version == e.version && b.version == f.version;
    assert a.signerId == e.signerId && b.signerId == f.signerId;
    assert a.keyId == e.keyId && b.keyId == f.keyId;
    assert a.algorithm == e.algorithm && b.algorithm == f.algorithm;
    assert a.publicKeyHash == e.publicKeyHash && b.publicKeyHash == f.publicKeyHash;
    assert a.publicKey == e.publicKey && b.publicKey == f.publicKey;
  }

  lemma RotatedStaysDistinct(r: SignerRegistry, rot: Rotation)
    requires r.tenants.Some? && rot.tenant < |r.tenants.value| && DistinctTenants(r)
    ensures DistinctTenants(Rotate(r, rot))
  {
  }

  /** A rotation that leaves the registry valid keeps every receipt that resolved before resolving to the same key. */
  lemma RotationKeepsResolution(sha: Digest, r: SignerRegistry, rot: Rotation, rc: CustodyReceipt)
    requires r.tenants.Some? && rot.tenant < |r.tenants.value|
    requires DistinctTenants(r) && ValidRegistry(sha, Rotate(r, rot))
    requires Resolve(sha, r, rc).Good?
    ensures Resolve(sha, Rotate(r, rot), rc).Good?
    ensures SameKey(Resolve(sha, r, rc).value, Resolve(sha, Rotate(r, rot), rc).value)
  {
    hide ValidRegistry, Ambiguous, TenantEntries, Entries, SameKey, Matches, RotateTenant, Flat;
    assert Complete(rc) && ValidRegistry(sha, r) by { ResolvedIsValid(sha, r, rc); }
    var e := Resolve(sha, r, rc).value;
    var r' := Rotate(r, rot);
    var ts, ts' := r.tenants.value, r'.tenants.value;
    ResolveExact(sha, r, rc, e);
    EntryOrigin(sha, ts, e);
    var i :| 0 <= i < |ts| && e in TenantEntries(sha)(ts[i]);
    var f := e;
    if i == rot.tenant {
      f := RotationKeepsEntry(sha, ts[i], rot, e);
    } else {
      assert SameKey(e, e) by { Reflexive(e); }
    }
    assert f in TenantEntries(sha)(ts'[i]);
    EntryOrigin(sha, ts', f);
    SameKeyMatches(e, f, rc);
    RotatedStaysDistinct(r, rot);
    NeverAmbiguous(sha, r', rc);
    ResolveExact(sha, r', rc, f);
  }

  lemma Reflexive(e: Entry)
    ensures SameKey(e, e)
  {
  }

  lemma ResolvedIsValid(sha: Digest, r: SignerRegistry, rc: CustodyReceipt)
    requires Resolve(sha, r, rc).Good?
    ensures ValidRegistry(sha, r) && Complete(rc)
  {
    hide Validate, ValidRegistry;
    ValidateExact(sha, r);
  }

  /** The registry after a list of rotations. */
  function After(r: SignerRegistry, rots: seq<Rotation>): SignerRegistry
    requires r.tenants.Some? && forall rot :: rot in rots ==> rot.tenant < |r.tenants.value|
    decreases |rots|
  {
    if rots == [] then r else After(Rotate(r, rots[0]), rots[1..])
  }

  /** Every rotation leaves a valid registry. */
  predicate ValidHistory(sha: Digest, r: SignerRegistry, rots: seq<Rotation>)
    requires r.tenants.Some? && forall rot :: rot in rots ==> rot.tenant < |r.tenants.value|
    decreases |rots|
  {
    rots == [] || (ValidRegistry(sha, Rotate(r, rots[0])) && ValidHistory(sha, Rotate(r, rots[0]), rots[1..]))
  }

  /** Over any number of rotations, every receipt resolves to the key it resolved to when it was issued. */
  lemma {:induction false} EarlierReceiptsResolve(sha: Digest, r: SignerRegistry, rots: seq<Rotation>, rc: CustodyReceipt)
    requires r.tenants.Some? && forall rot :: rot in rots ==> rot.tenant < |r.tenants.value|
    requires DistinctTenants(r) && ValidHistory(sha, r, rots)
    requires Resolve(sha, r, rc).Good?
    ensures Resolve(sha, After(r, rots), rc).Good?
    ensures SameKey(Resolve(sha, r, rc).value, Resolve(sha, After(r, rots), rc).value)
    decreases |rots|
  {
    hide Resolve, ValidRegistry, RotateTenant, DistinctTenants;
    if rots != [] {
      RotationKeepsResolution(sha, r, rots[0], rc);
      RotatedStaysDistinct(r, rots[0]);
      EarlierReceiptsResolve(sha, Rotate(r, rots[0]), rots[1..], rc);
    }
  }

  // ----- What the validator lets through -----

  function PlainSigner(id: Text, key: Text, hash: Text): Signer {
    Signer(id, key, false, Some(hash), [], None, None)
  }

  function OneSet(version: Text, signers: seq<Signer>): SignerSet {
    SignerSet(version, Some(ACTIVE), true, Some(signers), None)
  }

  /** A tenant with one active set, whose signers have distinct ids, is valid and lists exactly those signers. */
  lemma OneSetTenant(sha: Digest, id: Text, s: SignerSet)
    requires id != [] && SetOk(sha, s) && Active(s) && Distinct(IdsOfSet(s))
    ensures TenantOk(sha, Tenant(id, Some([s])))
    ensures TenantEntries(sha)(Tenant(id, Some([s]))) == SetEntries(sha, id)(s)
  {
    hide SetOk, SetEntries, IdsOfSet;
    FlatOne(s, VersionOf);
    FlatOne(s, IdsOfSet);
    FlatOne(s, ActiveOf);
    FlatOne(s, SetEntries(sha, id));
  }

  /**
   * Distinct tenant ids are needed: a registry that lists the same tenant twice is valid, and its receipts are ambiguous.
   */
  lemma RepeatedTenantIsAmbiguous(sha: Digest) returns (r: SignerRegistry, rc: CustodyReceipt)
    ensures ValidRegistry(sha, r) && Complete(rc)
    ensures Resolve(sha, r, rc) == Bad(ReceiptKeyResolutionFailed)
  {
    hide TenantOk, TenantEntries, Matches, Resolve, Ascii, Flat;
    var signer := PlainSigner([0x73], [0x6B], [0x68]);
    var s := OneSet([0x76], [signer]);
    var t := Tenant([0x74], Some([s]));
    var e := EntryOf(sha, [0x74], s, signer);
    FlatOne(signer, IdOf);
    FlatOne(signer, SignerEntry(sha, [0x74], s));
    OneSetTenant(sha, [0x74], s);
    FlatTwo(t, t, TenantEntries(sha));
    r := SignerRegistry(Some([t, t]), false);
    rc := BuildReceipt([0x74], [], [], [], [], [], e);
    AlgorithmNamed();
    assert Matches(e, rc) by { MatchesOwn(e); }
    assert HasMatch(sha, [t, t][0], rc) && HasMatch(sha, [t, t][1], rc);
    assert ValidRegistry(sha, r) by { assert Entries(sha, [t, t]) == [e, e]; }
    ResolveExact(sha, r, rc, e);
  }

  lemma AlgorithmNamed()
    ensures ED25519 != []
  {
    assert |ED25519| == 7;
  }

  lemma MatchesOwn(e: Entry)
    ensures Matches(e, BuildReceipt(e.tenantId, [], [], [], [], [], e))
  {
  }

  /**
   * Every nesting is let through: when u continues v after a slash, a valid registry lists one key hash for a signer u and a
   * signer v, because their key ids can make up for the difference.
   */
  lemma NestedIdsShareHash(sha: Digest, u: Text, v: Text) returns (r: SignerRegistry, a: Entry, b: Entry)
    requires v != [] && v + [SLASH] <= u
    ensures Validate(sha, r).Good? && a in Validate(sha, r).value && b in Validate(sha, r).value
    ensures a.publicKeyHash == b.publicKeyHash && a.signerId == u && b.signerId == v && a.keyId != b.keyId
  {
    hide TenantOk, TenantEntries, Validate, Ascii, Flat;
    var w := u[|v| + 1..];
    assert u == v + ([SLASH] + w);
    var x, y := PlainSigner(u, [0x6B], [0x68]), PlainSigner(v, w + [SLASH] + [0x6B], [0x68]);
    var s := OneSet([0x76], [x, y]);
    var t := Tenant([0x61], Some([s]));
    FlatTwo(x, y, IdOf);
    FlatTwo(x, y, SignerEntry(sha, [0x61], s));
    OneSetTenant(sha, [0x61], s);
    FlatOne(t, TenantEntries(sha));
    a, b := EntryOf(sha, [0x61], s, x), EntryOf(sha, [0x61], s, y);
    r := SignerRegistry(Some([t]), false);
    assert Entries(sha, [t]) == [a, b];
    SameJoint([0x61], v, w, [0x6B]);
    assert Identity(a) == Identity(b);
    ValidateExact(sha, r);
  }

  lemma SameJoint(t: Text, v: Text, w: Text, k: Text)
    ensures t + [SLASH] + (v + ([SLASH] + w)) + [SLASH] + k == t + [SLASH] + v + [SLASH] + (w + [SLASH] + k)
  {
  }

  predicate SharedIn(sha: Digest, r: SignerRegistry, a: Entry, b: Entry) {
    && Validate(sha, r).Good? && a in Validate(sha, r).value && b in Validate(sha, r).value
    && a.publicKeyHash == b.publicKeyHash
    && !(a.tenantId == b.tenantId && a.signerId == b.signerId && a.keyId == b.keyId)
  }

  /** Some valid registry lists one key hash under signer ids u and v with two different identities. */
  ghost predicate ShareHash(sha: Digest, u: Text, v: Text) {
    exists r, a, b :: SharedIn(sha, r, a, b) && a.signerId == u && b.signerId == v
  }

  /** For any two signer ids: validation lets two identities with these ids share a key hash exactly when the ids are nested. */
  lemma ShareHashExact(sha: Digest, u: Text, v: Text)
    requires u != [] && v != []
    ensures ShareHash(sha, u, v) <==> Nested(u, v)
  {
    hide Validate;
    if ShareHash(sha, u, v) {
      var r, a, b :| SharedIn(sha, r, a, b) && a.signerId == u && b.signerId == v;
      if !Nested(u, v) { HashFixesIdentity(sha, r, a, b); }
    }
    if v + [SLASH] <= u {
      var r, a, b := NestedIdsShareHash(sha, u, v);
      assert SharedIn(sha, r, a, b);
    }
    if u + [SLASH] <= v {
      var r, b, a := NestedIdsShareHash(sha, v, u);
      assert SharedIn(sha, r, a, b);
    }
  }

  /** For any key hash and algorithm, empty ones included, a valid registry has an active signer with them. */
  lemma AnyMetadataIsValid(sha: Digest, hash: Text, algorithm: Text) returns (r: SignerRegistry, tenantId: Text, e: Entry)
    ensures ValidRegistry(sha, r) && ActiveSigner(sha, r, tenantId) == Good(e)
    ensures e.publicKeyHash == hash && e.algorithm == algorithm
  {
    hide TenantOk, TenantEntries, Validate, Ascii, Flat;
    tenantId := [0x61];
    var x := PlainSigner([0x73], [0x6B], hash).(algorithm := Some(algorithm));
    var s := OneSet([0x76], [x]);
    var t := Tenant(tenantId, Some([s]));
    FlatOne(x, IdOf);
    FlatOne(x, SignerEntry(sha, tenantId, s));
    OneSetTenant(sha, tenantId, s);
    FlatOne(t, TenantEntries(sha));
    e := EntryOf(sha, tenantId, s, x);
    r := SignerRegistry(Some([t]), false);
    assert Entries(sha, [t]) == [e];
    ValidateExact(sha, r);
    FlatOne(e, KeepActive(tenantId));
  }

  /** So a valid registry can have an active signer whose own receipts do not resolve: without a hash, or without an algorithm. */
  lemma ActiveReceiptCanFail(sha: Digest, hash: Text, algorithm: Text) returns (r: SignerRegistry, tenantId: Text, e: Entry)
    requires hash == [] || algorithm == []
    ensures ValidRegistry(sha, r) && ActiveSigner(sha, r, tenantId) == Good(e)
    ensures Resolve(sha, r, BuildReceipt(tenantId, [], [], [], [], [], e)) == Bad(ReceiptKeyResolutionFailed)
  {
    hide ActiveSigner, ValidRegistry, Validate;
    r, tenantId, e := AnyMetadataIsValid(sha, hash, algorithm);
    ActiveEntryFields(sha, r, tenantId, e);
    ValidateExact(sha, r);
  }
}
