/** What the registry validator returns, said from the registry alone: every field of an entry, and which error comes first. */
module RegistryErrors {
  import opened Units
  import opened Bytes
  import opened Sequences
  import opened Registry
  import opened KeyResolution

  // ----- the fields of an entry

  /** The entry a signer of a set of a tenant becomes, field by field. */
  predicate Describes(sha: Digest, t: Tenant, s: SignerSet, x: Signer, e: Entry) {
    && e.tenantId == t.tenantId && e.signerId == x.signerId && e.keyId == x.keyId
    && e.version == s.version && e.publicKey == x.publicKey
    && (s.status.Some? ==> e.status == s.status.value)
    && (s.status.None? ==> e.status == Ascii("historical"))
    && (x.algorithm.Some? ==> e.algorithm == x.algorithm.value)
    && (x.algorithm.None? ==> e.algorithm == Ascii("ED25519"))
    && (x.createdAt.Some? ==> e.createdAt == x.createdAt.value)
    && (x.createdAt.None? && s.createdAt.Some? ==> e.createdAt == s.createdAt.value)
    && (x.createdAt.None? && s.createdAt.None? ==> e.createdAt == Ascii("deterministic-custody"))
    && (x.publicKeyHash.Some? ==> e.publicKeyHash == x.publicKeyHash.value)
    && (x.publicKeyHash.None? ==> x.publicKey != [])
    && (x.publicKey != [] ==> IsHash64(x.publicKey) && e.publicKeyHash == sha(HexBytes(x.publicKey)))
  }

  predicate Listed(r: SignerRegistry, t: Tenant, s: SignerSet, x: Signer) {
    r.tenants.Some? && t in r.tenants.value && s in SetsOf(t) && x in SignersOf(s)
  }

  lemma DescribedEntry(sha: Digest, t: Tenant, s: SignerSet, x: Signer, e: Entry)
    requires KeyOk(sha, x)
    ensures Describes(sha, t, s, x, e) <==> e == EntryOf(sha, t.tenantId, s, x)
  {
    hide Ascii, HexBytes;
    assert IsHash64([]) == false;
  }

  lemma ListedOk(sha: Digest, r: SignerRegistry, t: Tenant, s: SignerSet, x: Signer)
    requires ValidRegistry(sha, r) && Listed(r, t, s, x)
    ensures KeyOk(sha, x)
  {
    hide Separated, Entries, Distinct, Flat;
    assert TenantOk(sha, t);
    assert SetOk(sha, s);
    assert SignerOk(sha, x);
  }

  /** The entries of a validated registry are exactly the descriptions of the signers it lists. */
  lemma EntriesExact(sha: Digest, r: SignerRegistry, e: Entry)
    requires Validate(sha, r).Good?
    ensures e in Validate(sha, r).value <==> exists t, s, x :: Listed(r, t, s, x) && Describes(sha, t, s, x, e)
  {
    hide Validate, ValidRegistry, TenantEntries, Describes, EntryOf, Ascii;
    ValidateExact(sha, r);
    assert r.tenants.Some? by { HasTenants(sha, r); }
    var ts := r.tenants.value;
    EntryOrigin(sha, ts, e);
    if e in Validate(sha, r).value {
      var i :| 0 <= i < |ts| && e in TenantEntries(sha)(ts[i]);
      TenantEntryOrigin(sha, ts[i], e);
      var s, x :| Origin(sha, ts[i], s, x, e);
      assert Listed(r, ts[i], s, x);
      ListedOk(sha, r, ts[i], s, x);
      DescribedEntry(sha, ts[i], s, x, e);
    }
    if t, s, x :| Listed(r, t, s, x) && Describes(sha, t, s, x, e) {
      ListedOk(sha, r, t, s, x);
      DescribedEntry(sha, t, s, x, e);
      assert Origin(sha, t, s, x, e);
      TenantEntryOrigin(sha, t, e);
      var i :| 0 <= i < |ts| && ts[i] == t;
      assert e in TenantEntries(sha)(ts[i]);
    }
  }

  lemma HasTenants(sha: Digest, r: SignerRegistry)
    requires ValidRegistry(sha, r)
    ensures r.tenants.Some?
  {
  }

  /** A validated registry lists a public key, whatever the case of its digits, under one tenant and one identity only. */
  lemma KeyBelongsToOneTenant(sha: Digest, r: SignerRegistry, t: Tenant, s: SignerSet, x: Signer, u: Tenant, z: SignerSet, y: Signer)
    requires Validate(sha, r).Good? && Listed(r, t, s, x) && Listed(r, u, z, y)
    requires IsHash64(x.publicKey) && IsHash64(y.publicKey) && LowerHex(x.publicKey) == LowerHex(y.publicKey)
    ensures t.tenantId == u.tenantId
    ensures !Nested(x.signerId, y.signerId) ==> x.signerId == y.signerId && x.keyId == y.keyId
  {
    hide Validate, ValidRegistry, EntryOf, Ascii, HexBytes, LowerHex, Nested;
    ValidateExact(sha, r);
    ListedOk(sha, r, t, s, x);
    ListedOk(sha, r, u, z, y);
    HexBytesFold(x.publicKey);
    HexBytesFold(y.publicKey);
    var a, b := EntryOf(sha, t.tenantId, s, x), EntryOf(sha, u.tenantId, z, y);
    DescribedEntry(sha, t, s, x, a);
    DescribedEntry(sha, u, z, y, b);
    assert Describes(sha, t, s, x, a) && Describes(sha, u, z, y, b);
    EntriesExact(sha, r, a);
    EntriesExact(sha, r, b);
    HashFixesTenant(sha, r, a, b);
    if !Nested(x.signerId, y.signerId) { HashFixesIdentity(sha, r, a, b); }
  }

  lemma HashFixesTenant(sha: Digest, r: SignerRegistry, a: Entry, b: Entry)
    requires Validate(sha, r).Good?
    requires a in Validate(sha, r).value && b in Validate(sha, r).value && a.publicKeyHash == b.publicKeyHash
    ensures a.tenantId == b.tenantId
  {
    hide Validate, TenantOk, Entries;
    ValidateExact(sha, r);
    assert Owned(Validate(sha, r).value, HashOf, TenantOf);
    assert TenantOf(a) == TenantOf(b);
  }

  // ----- the first error

  datatype Check = Check(violated: bool, error: CustodyError)

  function FirstError(cs: seq<Check>): Option<CustodyError> {
    if cs == [] then None else if cs[0].violated then Some(cs[0].error) else FirstError(cs[1..])
  }

  /** What a list of checks makes of a result. */
  predicate Decides<T>(cs: seq<Check>, r: Verdict<T>) {
    match FirstError(cs)
    case None => r.Good?
    case Some(error) => r == Bad(error)
  }

  /** A signer alone: ids, private material, and the key with its hash. */
  function SignerChecks(sha: Digest, x: Signer): seq<Check> {
    var h, k := x.publicKeyHash, x.publicKey;
    [Check(x.signerId == [] || x.keyId == [], InvalidRegistry),
     Check(x.hasPrivateMaterial, InternalSigningDisabled),
     Check((h.None? || k != []) && !IsHash64(k), InvalidRegistry),
     Check(h.Some? && IsHash64(k) && h.value != sha(HexBytes(k)), ReceiptKeyResolutionFailed)]
  }

  /** An earlier entry has the key of this one but another owner. */
  predicate Conflict(es: seq<Entry>, e: Entry, key: Entry -> Text, owner: Entry -> Text) {
    exists a :: a in es && key(a) == key(e) && owner(a) != owner(e)
  }

  /** A signer against the ids of its tenant entry and all earlier entries. */
  function EntryChecks(reuse: bool, es: seq<Entry>, ids: seq<Text>, e: Entry): seq<Check> {
    [Check(e.signerId in ids, SignerCollision),
     Check(!reuse && Conflict(es, e, SignerIdOf, TenantOf), SignerCollision),
     Check(Conflict(es, e, KeyIdOf, TenantOf), KeyReuseAcrossTenants),
     Check(Conflict(es, e, HashOf, TenantOf), PublicKeyHashCollision),
     Check(Conflict(es, e, HashOf, Identity), PublicKeyHashCollision)]
  }

  function SignersChecks(sha: Digest, reuse: bool, es: seq<Entry>, ids: seq<Text>, tenantId: Text, s: SignerSet, xs: seq<Signer>)
    : seq<Check>
    decreases |xs|
  {
    if xs == [] then []
    else
      var e := EntryOf(sha, tenantId, s, xs[0]);
      SignerChecks(sha, xs[0]) + (EntryChecks(reuse, es, ids, e)
        + SignersChecks(sha, reuse, es + [e], ids + [e.signerId], tenantId, s, xs[1..]))
  }

  /** A set alone: its version, its signers, its quorum. */
  function SetChecks(versions: seq<Text>, s: SignerSet): seq<Check> {
    [Check(s.version == [] || s.version in versions, UnknownKeySetVersion),
     Check(SignersOf(s) == [], UnknownSigner),
     Check(!s.quorum && |SignersOf(s)| != 1, ReceiptKeyResolutionFailed)]
  }

  function SetsChecks(sha: Digest, reuse: bool, es: seq<Entry>, ids: seq<Text>, versions: seq<Text>, tenantId: Text,
                      sets: seq<SignerSet>): seq<Check>
    decreases |sets|
  {
    if sets == [] then []
    else
      var s := sets[0];
      SetChecks(versions, s) + (SignersChecks(sha, reuse, es, ids, tenantId, s, SignersOf(s))
        + SetsChecks(sha, reuse, es + SetEntries(sha, tenantId)(s), ids + IdsOfSet(s), versions + [s.version], tenantId, sets[1..]))
  }

  function TenantChecks(sha: Digest, reuse: bool, es: seq<Entry>, t: Tenant): seq<Check> {
    [Check(t.tenantId == [] || t.sets.None?, InvalidRegistry)]
    + (SetsChecks(sha, reuse, es, [], [], t.tenantId, SetsOf(t)) + [Check(|Flat(SetsOf(t), ActiveOf)| != 1, NoActiveSigner)])
  }

  function TenantsChecks(sha: Digest, reuse: bool, es: seq<Entry>, tenants: seq<Tenant>): seq<Check>
    decreases |tenants|
  {
    if tenants == [] then []
    else TenantChecks(sha, reuse, es, tenants[0]) + TenantsChecks(sha, reuse, es + TenantEntries(sha)(tenants[0]), tenants[1..])
  }

  /** Everything that can be wrong with a registry, in the order in which it is reported. */
  function RegistryChecks(sha: Digest, r: SignerRegistry): seq<Check> {
    match r.tenants
    case None => [Check(true, InvalidRegistry)]
    case Some(tenants) => TenantsChecks(sha, r.allowReuse, [], tenants)
  }

  lemma {:induction false} FirstErrorAppend(a: seq<Check>, b: seq<Check>)
    ensures FirstError(a + b) == if FirstError(a).Some? then FirstError(a) else FirstError(b)
  {
    if a == [] {
      assert a + b == b;
    } else {
      FirstErrorAppend(a[1..], b);
      assert (a + b)[1..] == a[1..] + b;
    }
  }

  lemma FirstOne(c: Check)
    ensures FirstError([c]) == if c.violated then Some(c.error) else None
  {
    var cs := [c];
    assert cs[1..] == [];
  }

  lemma FirstCons(c: Check, cs: seq<Check>)
    ensures FirstError([c] + cs) == if c.violated then Some(c.error) else FirstError(cs)
  {
    assert ([c] + cs)[1..] == cs;
  }

  lemma SignerDecided(sha: Digest, tenantId: Text, s: SignerSet, x: Signer)
    requires tenantId != [] && s.version != []
    ensures Decides(SignerChecks(sha, x), NormalizeSigner(sha, tenantId, s, x))
  {
    hide EntryOf, HexBytes;
    var cs := SignerChecks(sha, x);
    assert cs == [cs[0]] + ([cs[1]] + ([cs[2]] + [cs[3]]));
    FirstCons(cs[0], [cs[1]] + ([cs[2]] + [cs[3]]));
    FirstCons(cs[1], [cs[2]] + [cs[3]]);
    FirstCons(cs[2], [cs[3]]);
    FirstOne(cs[3]);
    assert IsHash64([]) == false;
  }

  lemma ClashIsConflict(m: map<Text, Text>, es: seq<Entry>, e: Entry, key: Entry -> Text, owner: Entry -> Text)
    requires Records(m, es, key, owner) && Owned(es, key, owner)
    ensures Clashes(m, key(e), owner(e)) <==> Conflict(es, e, key, owner)
  {
  }

  lemma EntryDecided(sha: Digest, reuse: bool, l: Local, es: seq<Entry>, ids: seq<Text>, versions: seq<Text>, tenantId: Text,
                     s: SignerSet, x: Signer)
    requires tenantId != [] && s.version != [] && Follows(l, es, ids, versions, reuse) && SignerOk(sha, x)
    ensures Decides(EntryChecks(reuse, es, ids, EntryOf(sha, tenantId, s, x)), CheckSigner(sha, reuse, l, tenantId, s, x))
  {
    hide SignerOk, Identity, Conflict, Clashes, Records, Owned, Distinct, EntryOf;
    var e := EntryOf(sha, tenantId, s, x);
    var cs := EntryChecks(reuse, es, ids, e);
    assert cs == [cs[0]] + ([cs[1]] + ([cs[2]] + ([cs[3]] + [cs[4]])));
    FirstCons(cs[0], [cs[1]] + ([cs[2]] + ([cs[3]] + [cs[4]])));
    FirstCons(cs[1], [cs[2]] + ([cs[3]] + [cs[4]]));
    FirstCons(cs[2], [cs[3]] + [cs[4]]);
    FirstCons(cs[3], [cs[4]]);
    FirstOne(cs[4]);
    if !reuse { ClashIsConflict(l.owners.signers, es, e, SignerIdOf, TenantOf); }
    ClashIsConflict(l.owners.keys, es, e, KeyIdOf, TenantOf);
    ClashIsConflict(l.owners.hashes, es, e, HashOf, TenantOf);
    ClashIsConflict(l.owners.identities, es, e, HashOf, Identity);
  }

  lemma {:induction false} SignersDecided(sha: Digest, reuse: bool, l: Local, es: seq<Entry>, ids: seq<Text>,
                                          versions: seq<Text>, tenantId: Text, s: SignerSet, xs: seq<Signer>)
    requires tenantId != [] && s.version != [] && Follows(l, es, ids, versions, reuse)
    ensures Decides(SignersChecks(sha, reuse, es, ids, tenantId, s, xs), CheckSigners(sha, reuse, l, tenantId, s, xs))
    decreases |xs|
  {
    hide SignerOk, Follows, SignerChecks, EntryChecks, NormalizeSigner, Flat, IdOf;
    if xs != [] {
      var e := EntryOf(sha, tenantId, s, xs[0]);
      var rest := SignersChecks(sha, reuse, es + [e], ids + [e.signerId], tenantId, s, xs[1..]);
      FirstErrorAppend(SignerChecks(sha, xs[0]), EntryChecks(reuse, es, ids, e) + rest);
      FirstErrorAppend(EntryChecks(reuse, es, ids, e), rest);
      SignerDecided(sha, tenantId, s, xs[0]);
      assert NormalizeSigner(sha, tenantId, s, xs[0]).Good? <==> SignerOk(sha, xs[0]);
      if SignerOk(sha, xs[0]) {
        EntryDecided(sha, reuse, l, es, ids, versions, tenantId, s, xs[0]);
        if CheckSigner(sha, reuse, l, tenantId, s, xs[0]).Good? {
          OneSigner(sha, reuse, l, es, ids, versions, tenantId, s, xs[0]);
          SignersDecided(sha, reuse, CheckSigner(sha, reuse, l, tenantId, s, xs[0]).value, es + [e], ids + [e.signerId],
                         versions, tenantId, s, xs[1..]);
        }
      }
    }
  }

  lemma OneSigner(sha: Digest, reuse: bool, l: Local, es: seq<Entry>, ids: seq<Text>, versions: seq<Text>, tenantId: Text,
                  s: SignerSet, x: Signer)
    requires tenantId != [] && s.version != [] && Follows(l, es, ids, versions, reuse)
    requires CheckSigner(sha, reuse, l, tenantId, s, x).Good?
    ensures var e := EntryOf(sha, tenantId, s, x);
            Follows(CheckSigner(sha, reuse, l, tenantId, s, x).value, es + [e], ids + [e.signerId], versions, reuse)
  {
    hide SignerOk, Follows, CheckSigner, EntryOf;
    SignersExact(sha, reuse, l, es, ids, versions, tenantId, s, [x]);
    var xs := [x];
    assert xs[1..] == [];
    FlatOne(x, IdOf);
    FlatOne(x, SignerEntry(sha, tenantId, s));
    OneStep(sha, reuse, l, tenantId, s, x);
    assert EntryOf(sha, tenantId, s, x).signerId == x.signerId by { EntryId(sha, tenantId, s, x); }
  }

  lemma EntryId(sha: Digest, tenantId: Text, s: SignerSet, x: Signer)
    ensures EntryOf(sha, tenantId, s, x).signerId == x.signerId
  {
  }

  lemma OneStep(sha: Digest, reuse: bool, l: Local, tenantId: Text, s: SignerSet, x: Signer)
    requires CheckSigner(sha, reuse, l, tenantId, s, x).Good?
    ensures CheckSigners(sha, reuse, l, tenantId, s, [x]) == CheckSigner(sha, reuse, l, tenantId, s, x)
  {
    hide CheckSigner;
    SignersStep(sha, reuse, l, tenantId, s, [x], 0);
    var xs := [x];
    assert xs[0..] == xs && xs[1..] == [];
  }

  lemma SetDecided(sha: Digest, reuse: bool, l: Local, es: seq<Entry>, ids: seq<Text>, versions: seq<Text>, tenantId: Text,
                   s: SignerSet)
    requires tenantId != [] && Follows(l, es, ids, versions, reuse)
    ensures Decides(SetChecks(versions, s) + SignersChecks(sha, reuse, es, ids, tenantId, s, SignersOf(s)),
                    CheckSet(sha, reuse, l, tenantId, s))
  {
    hide Separated, Tracks, CheckSigners, SignersChecks, Distinct;
    var cs, rest := SetChecks(versions, s), SignersChecks(sha, reuse, es, ids, tenantId, s, SignersOf(s));
    FirstErrorAppend(cs, rest);
    assert cs == [cs[0]] + ([cs[1]] + [cs[2]]);
    FirstCons(cs[0], [cs[1]] + [cs[2]]);
    FirstCons(cs[1], [cs[2]]);
    FirstOne(cs[2]);
    if s.version != [] && s.version !in l.versions && s.signers.Some? {
      var started := l.(versions := l.versions + {s.version}, activeSets := l.activeSets + if Active(s) then 1 else 0);
      ElementsMore(l.versions, versions, s.version);
      SignersDecided(sha, reuse, started, es, ids, versions + [s.version], tenantId, s, s.signers.value);
    }
  }

  lemma {:induction false} SetsDecided(sha: Digest, reuse: bool, l: Local, es: seq<Entry>, ids: seq<Text>,
                                       versions: seq<Text>, tenantId: Text, sets: seq<SignerSet>)
    requires tenantId != [] && Follows(l, es, ids, versions, reuse)
    ensures Decides(SetsChecks(sha, reuse, es, ids, versions, tenantId, sets), CheckSets(sha, reuse, l, tenantId, sets))
    decreases |sets|
  {
    hide Follows, SetChecks, SignersChecks, CheckSet, SetEntries, IdsOfSet;
    if sets != [] {
      var s := sets[0];
      var head, signers := SetChecks(versions, s), SignersChecks(sha, reuse, es, ids, tenantId, s, SignersOf(s));
      var rest := SetsChecks(sha, reuse, es + SetEntries(sha, tenantId)(s), ids + IdsOfSet(s), versions + [s.version], tenantId,
                             sets[1..]);
      FirstErrorAppend(head, signers + rest);
      FirstErrorAppend(signers, rest);
      FirstErrorAppend(head, signers);
      SetDecided(sha, reuse, l, es, ids, versions, tenantId, s);
      SetExact(sha, reuse, l, es, ids, versions, tenantId, s);
      var step := CheckSet(sha, reuse, l, tenantId, s);
      if step.Good? {
        SetsDecided(sha, reuse, step.value, es + SetEntries(sha, tenantId)(s), ids + IdsOfSet(s), versions + [s.version],
                    tenantId, sets[1..]);
      }
    }
  }

  lemma TenantDecided(sha: Digest, reuse: bool, o: Owners, es: seq<Entry>, t: Tenant)
    requires Tracks(o, es) && Separated(es, reuse)
    ensures Decides(TenantChecks(sha, reuse, es, t), CheckTenant(sha, reuse, o, t))
  {
    hide Separated, Tracks, CheckSets, SetsChecks, Flat, Distinct;
    var first, sets := Check(t.tenantId == [] || t.sets.None?, InvalidRegistry), SetsChecks(sha, reuse, es, [], [], t.tenantId, SetsOf(t));
    var last := Check(|Flat(SetsOf(t), ActiveOf)| != 1, NoActiveSigner);
    FirstCons(first, sets + [last]);
    FirstErrorAppend(sets, [last]);
    FirstOne(last);
    if t.tenantId != [] && t.sets.Some? {
      NothingDistinct();
      SetsDecided(sha, reuse, Local(o, {}, {}, 0), es, [], [], t.tenantId, t.sets.value);
      SetsExact(sha, reuse, Local(o, {}, {}, 0), es, [], [], t.tenantId, t.sets.value);
    }
  }

  lemma {:induction false} TenantsDecided(sha: Digest, reuse: bool, o: Owners, es: seq<Entry>, tenants: seq<Tenant>)
    requires Tracks(o, es) && Separated(es, reuse)
    ensures Decides(TenantsChecks(sha, reuse, es, tenants), CheckTenants(sha, reuse, o, tenants))
    decreases |tenants|
  {
    hide Separated, Tracks, TenantChecks, CheckTenant, TenantEntries, TenantOk;
    if tenants != [] {
      var t := tenants[0];
      var next := es + TenantEntries(sha)(t);
      FirstErrorAppend(TenantChecks(sha, reuse, es, t), TenantsChecks(sha, reuse, next, tenants[1..]));
      TenantDecided(sha, reuse, o, es, t);
      TenantExact(sha, reuse, o, es, t);
      if CheckTenant(sha, reuse, o, t).Good? {
        TenantsDecided(sha, reuse, CheckTenant(sha, reuse, o, t).value, next, tenants[1..]);
      }
    }
  }

  /** Validation gives the error of the first check that is violated, and the entries when none is. */
  lemma FirstErrorExact(sha: Digest, r: SignerRegistry)
    ensures match FirstError(RegistryChecks(sha, r))
            case None => r.tenants.Some? && Validate(sha, r) == Good(Entries(sha, r.tenants.value))
            case Some(error) => Validate(sha, r) == Bad(error)
  {
    hide CheckTenants, TenantsChecks, Separated, Tracks, ValidRegistry, Entries;
    ValidateExact(sha, r);
    match r.tenants
    case None => FirstOne(Check(true, InvalidRegistry));
    case Some(tenants) =>
      NothingOwned(r.allowReuse);
      assert Tracks(NO_OWNERS, []) by { NothingTracked(); }
      TenantsDecided(sha, r.allowReuse, NO_OWNERS, [], tenants);
  }

  lemma NothingTracked()
    ensures Tracks(NO_OWNERS, [])
  {
  }

  // ----- resolution and the active signer

  /** The receipt names the tenant, set, signer, key, key hash and algorithm of the entry. */
  predicate NamesEntry(rc: CustodyReceipt, e: Entry) {
    rc.tenantId == e.tenantId &&
    match rc.signature
    case None => false
    case Some(m) => m == Metadata(e.algorithm, e.signerId, e.keyId, e.version, e.publicKeyHash, m.value)
  }

  /** The receipt says which set of which tenant. */
  predicate NamesSet(rc: CustodyReceipt, tenantId: Text, version: Text) {
    rc.tenantId == tenantId && match rc.signature case None => false case Some(m) => m.version == version
  }

  /** What resolution in a valid registry gives, for any receipt whatever. */
  lemma ResolutionExact(sha: Digest, r: SignerRegistry, rc: CustodyReceipt)
    requires ValidRegistry(sha, r)
    ensures var es := Entries(sha, r.tenants.value);
            var result := Resolve(sha, r, rc);
            if rc.tenantId == [] || rc.signature.None? || rc.signature.value.version == [] then result == Bad(UnknownKeySetVersion)
            else if HasBlank(rc.signature.value) then result == Bad(ReceiptKeyResolutionFailed)
            else if forall e :: e in es ==> !NamesSet(rc, e.tenantId, e.version) then result == Bad(UnknownKeySetVersion)
            else if forall e :: e in es ==> !NamesEntry(rc, e) then result == Bad(UnknownSigner)
            else if exists i, j :: 0 <= i < j < |es| && NamesEntry(rc, es[i]) && NamesEntry(rc, es[j])
            then result == Bad(ReceiptKeyResolutionFailed)
            else result.Good? && result.value in es && NamesEntry(rc, result.value)
  {
    hide Validate, TenantOk, Entries, Separated, Flat, Matches, NamesEntry;
    ValidateExact(sha, r);
    BlankExact(rc);
    if Complete(rc) {
      var es := Entries(sha, r.tenants.value);
      forall e ensures Matches(e, rc) <==> NamesEntry(rc, e) { MatchesExact(e, rc); }
      MatchedMembers(es, rc);
      forall i | 0 <= i < |es| ensures |Matching(rc)(es[i])| <= 1 && (Matching(rc)(es[i]) != [] <==> Matches(es[i], rc)) {}
      FlatOfSingles(es, Matching(rc));
      forall e ensures NamesEntry(rc, e) ==> NamesSet(rc, e.tenantId, e.version) { EntryNamesSet(rc, e); }
      assert VersionKnown(es, rc) <==> exists e :: e in es && NamesSet(rc, e.tenantId, e.version);
    }
  }

  lemma EntryNamesSet(rc: CustodyReceipt, e: Entry)
    ensures NamesEntry(rc, e) ==> NamesSet(rc, e.tenantId, e.version)
  {
  }

  /** A field that the resolver asks for is missing. */
  predicate HasBlank(m: Metadata) {
    m.signerId == [] || m.keyId == [] || m.publicKeyHash == [] || m.algorithm == []
  }

  lemma BlankExact(rc: CustodyReceipt)
    ensures Complete(rc) <==> rc.tenantId != [] && rc.signature.Some? && rc.signature.value.version != [] && !HasBlank(rc.signature.value)
    ensures Addressed(rc) <==> rc.tenantId != [] && rc.signature.Some? && rc.signature.value.version != []
  {
  }

  lemma MatchesExact(e: Entry, rc: CustodyReceipt)
    requires rc.signature.Some?
    ensures Matches(e, rc) <==> NamesEntry(rc, e)
  {
  }

  lemma MatchedMembers(es: seq<Entry>, rc: CustodyReceipt)
    requires rc.signature.Some?
    ensures forall e :: e in Flat(es, Matching(rc)) <==> e in es && Matches(e, rc)
  {
    hide Flat, Matches;
    forall e ensures e in Flat(es, Matching(rc)) <==> e in es && Matches(e, rc) { FlatMember(es, Matching(rc), e); }
  }

  const ACTIVE_STATUS: Name := "active"

  predicate IsActive(e: Entry, tenantId: Text) {
    e.tenantId == tenantId && e.status == Ascii(ACTIVE_STATUS)
  }

  lemma ActiveEntryExact(e: Entry, tenantId: Text)
    ensures ActiveEntry(e, tenantId) <==> IsActive(e, tenantId)
  {
  }

  /** The active signer of a tenant is found exactly when the registry has one active entry for it. */
  lemma ActiveSignerExact(sha: Digest, r: SignerRegistry, tenantId: Text, e: Entry)
    requires ValidRegistry(sha, r)
    ensures var es := Entries(sha, r.tenants.value);
            ActiveSigner(sha, r, tenantId) == Good(e) <==>
            && e in es && IsActive(e, tenantId)
            && forall i, j :: 0 <= i < j < |es| ==> !(IsActive(es[i], tenantId) && IsActive(es[j], tenantId))
    ensures ActiveSigner(sha, r, tenantId).Bad? ==> ActiveSigner(sha, r, tenantId) == Bad(NoActiveSigner)
  {
    hide Validate, TenantOk, Entries, Separated, ActiveEntry, IsActive;
    ValidateExact(sha, r);
    var es := Entries(sha, r.tenants.value);
    forall x ensures ActiveEntry(x, tenantId) <==> IsActive(x, tenantId) { ActiveEntryExact(x, tenantId); }
    ActiveMembers(es, tenantId);
    forall i | 0 <= i < |es| ensures |KeepActive(tenantId)(es[i])| <= 1 && (KeepActive(tenantId)(es[i]) != [] <==> ActiveEntry(es[i], tenantId)) {}
    FlatOfSingles(es, KeepActive(tenantId));
    var found := Flat(es, KeepActive(tenantId));
    if |found| == 1 { OnlyElement(found, e); }
  }

  /** A receipt built for an entry names that entry and carries what it was given, each in its own field. */
  lemma BuiltReceiptNames(requestHash: Text, decisionHash: Text, policyHash: Text, decision: Text, reasonCode: Text, e: Entry)
    ensures var rc := BuildReceipt(e.tenantId, requestHash, decisionHash, policyHash, decision, reasonCode, e);
            && NamesEntry(rc, e) && NamesSet(rc, e.tenantId, e.version)
            && rc.requestHash == requestHash && rc.decisionHash == decisionHash && rc.policyHash == policyHash
            && rc.decision == decision && rc.reasonCode == reasonCode && rc.signature.value.value == None
  {
  }
}
