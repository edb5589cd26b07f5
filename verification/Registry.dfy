/** Validation of the signer registry and resolution of receipts to keys: shared/custody_keys.js. */
module Registry {
  import opened Units
  import opened Bytes
  import opened Sequences

  /** The error codes the validator and the resolvers throw (shared/custody_keys.js:6-18). */
  datatype CustodyError =
    | InvalidRegistry
    | InternalSigningDisabled
    | ReceiptKeyResolutionFailed
    | UnknownKeySetVersion
    | UnknownSigner
    | SignerCollision
    | KeyReuseAcrossTenants
    | PublicKeyHashCollision
    | NoActiveSigner

  datatype Verdict<+T> = Good(value: T) | Bad(error: CustodyError)

  // Absent strings and empty ones are the same to the code's truth tests, so a plain Text is [] when it is absent.
  // The fields read with ?? are options, because there an empty string counts as present.

  datatype Signer = Signer(signerId: Text, keyId: Text, hasPrivateMaterial: bool, publicKeyHash: Option<Text>,
                           publicKey: Text, algorithm: Option<Text>, createdAt: Option<Text>)

  datatype SignerSet = SignerSet(version: Text, status: Option<Text>, quorum: bool, signers: Option<seq<Signer>>,
                                 createdAt: Option<Text>)

  datatype Tenant = Tenant(tenantId: Text, sets: Option<seq<SignerSet>>)

  datatype SignerRegistry = SignerRegistry(tenants: Option<seq<Tenant>>, allowReuse: bool)

  /** A normalized signer. */
  datatype Entry = Entry(tenantId: Text, signerId: Text, keyId: Text, version: Text, status: Text, algorithm: Text,
                         publicKey: Text, publicKeyHash: Text, createdAt: Text)

  const HISTORICAL: Text := Ascii("historical")
  const ACTIVE: Text := Ascii("active")
  const ED25519: Text := Ascii("ED25519")
  const DETERMINISTIC: Text := Ascii("deterministic-custody")

  /** SHA-256 of bytes, as hexadecimal text: any function. */
  type Digest = seq<Byte> -> Text

  function OrElse(o: Option<Text>, fallback: Text): Text {
    match o
    case Some(t) => t
    case None => fallback
  }

  // ----- Normalizing one signer -----

  /** Whether a public key is 32 bytes of hexadecimal digits, and its hash. */
  function PublicKeyHash(sha: Digest, key: Text): (r: Verdict<Text>) {
    if IsHash64(key) then Good(sha(HexBytes(key))) else Bad(InvalidRegistry)
  }

  /** The key is usable: the hash is given, or follows from the key, and when both are given they agree. */
  predicate KeyOk(sha: Digest, signer: Signer) {
    match signer.publicKeyHash
    case None => IsHash64(signer.publicKey)
    case Some(h) => signer.publicKey == [] || (IsHash64(signer.publicKey) && h == sha(HexBytes(signer.publicKey)))
  }

  predicate SignerOk(sha: Digest, signer: Signer) {
    signer.signerId != [] && signer.keyId != [] && !signer.hasPrivateMaterial && KeyOk(sha, signer)
  }

  function EntryOf(sha: Digest, tenantId: Text, s: SignerSet, signer: Signer): Entry {
    Entry(tenantId, signer.signerId, signer.keyId, s.version, OrElse(s.status, HISTORICAL),
          OrElse(signer.algorithm, ED25519), signer.publicKey,
          match signer.publicKeyHash {
            case Some(h) => h
            case None => if IsHash64(signer.publicKey) then sha(HexBytes(signer.publicKey)) else []
          },
          match signer.createdAt {
            case Some(t) => t
            case None => OrElse(s.createdAt, DETERMINISTIC)
          })
  }

  function NormalizeSigner(sha: Digest, tenantId: Text, s: SignerSet, signer: Signer): (r: Verdict<Entry>)
    ensures tenantId != [] && s.version != [] ==> (r.Good? <==> SignerOk(sha, signer))
    ensures r.Good? ==> r.value == EntryOf(sha, tenantId, s, signer)
  {
    if tenantId == [] || signer.signerId == [] || signer.keyId == [] || s.version == [] then Bad(InvalidRegistry)
    else if signer.hasPrivateMaterial then Bad(InternalSigningDisabled)
    else
      var hash := match signer.publicKeyHash {
                    case Some(h) => Good(h)
                    case None => PublicKeyHash(sha, signer.publicKey)
                  };
      if hash.Bad? then Bad(hash.error)
      else if signer.publicKey != [] then
        var known := PublicKeyHash(sha, signer.publicKey);
        if known.Bad? then Bad(known.error)
        else if hash.value != known.value then Bad(ReceiptKeyResolutionFailed)
        else Good(EntryOf(sha, tenantId, s, signer))
      else Good(EntryOf(sha, tenantId, s, signer))
  }

  // ----- What a valid registry is -----

  /** The identity string of an entry: tenant, signer and key joined with slashes. */
  function Identity(e: Entry): Text {
    e.tenantId + [SLASH] + e.signerId + [SLASH] + e.keyId
  }

  function TenantOf(e: Entry): Text { e.tenantId }
  function SignerIdOf(e: Entry): Text { e.signerId }
  function KeyIdOf(e: Entry): Text { e.keyId }
  function HashOf(e: Entry): Text { e.publicKeyHash }

  /** Entries with the same key have the same owner. */
  predicate Owned(es: seq<Entry>, key: Entry -> Text, owner: Entry -> Text) {
    forall a, b :: a in es && b in es && key(a) == key(b) ==> owner(a) == owner(b)
  }

  /** Key ids, key hashes and, unless reuse is allowed, signer ids each belong to one tenant; a hash to one identity. */
  predicate Separated(es: seq<Entry>, reuse: bool) {
    && (reuse || Owned(es, SignerIdOf, TenantOf))
    && Owned(es, KeyIdOf, TenantOf)
    && Owned(es, HashOf, TenantOf)
    && Owned(es, HashOf, Identity)
  }

  predicate Active(s: SignerSet) {
    s.status == Some(ACTIVE)
  }

  predicate SetOk(sha: Digest, s: SignerSet) {
    && s.version != []
    && s.signers.Some? && s.signers.value != []
    && (s.quorum || |s.signers.value| == 1)
    && forall x :: x in s.signers.value ==> SignerOk(sha, x)
  }

  function SignersOf(s: SignerSet): seq<Signer> {
    if s.signers.Some? then s.signers.value else []
  }

  function SetsOf(t: Tenant): seq<SignerSet> {
    if t.sets.Some? then t.sets.value else []
  }

  function VersionOf(s: SignerSet): seq<Text> { [s.version] }
  function IdOf(x: Signer): seq<Text> { [x.signerId] }
  function IdsOfSet(s: SignerSet): seq<Text> { Flat(SignersOf(s), IdOf) }
  function ActiveOf(s: SignerSet): seq<SignerSet> { if Active(s) then [s] else [] }

  /** The conditions on one tenant entry alone. */
  predicate TenantOk(sha: Digest, t: Tenant) {
    && t.tenantId != [] && t.sets.Some?
    && (forall s :: s in t.sets.value ==> SetOk(sha, s))
    && Distinct(Flat(t.sets.value, VersionOf))
    && Distinct(Flat(t.sets.value, IdsOfSet))
    && |Flat(t.sets.value, ActiveOf)| == 1
  }

  function SignerEntry(sha: Digest, tenantId: Text, s: SignerSet): Signer -> seq<Entry> {
    signer => [EntryOf(sha, tenantId, s, signer)]
  }

  function SetEntries(sha: Digest, tenantId: Text): SignerSet -> seq<Entry> {
    s => Flat(SignersOf(s), SignerEntry(sha, tenantId, s))
  }

  function TenantEntries(sha: Digest): Tenant -> seq<Entry> {
    t => Flat(SetsOf(t), SetEntries(sha, t.tenantId))
  }

  /** The entries of a registry in the order in which it lists them. */
  function Entries(sha: Digest, tenants: seq<Tenant>): seq<Entry> {
    Flat(tenants, TenantEntries(sha))
  }

  /** The condition validation stands for. */
  predicate ValidRegistry(sha: Digest, r: SignerRegistry) {
    && r.tenants.Some?
    && (forall t :: t in r.tenants.value ==> TenantOk(sha, t))
    && Separated(Entries(sha, r.tenants.value), r.allowReuse)
  }

  // ----- The validator -----

  /** The maps that span tenants, and the entries so far. */
  datatype Owners = Owners(signers: map<Text, Text>, keys: map<Text, Text>, hashes: map<Text, Text>,
                           identities: map<Text, Text>, normalized: seq<Entry>)

  /** What is collected for one tenant entry. */
  datatype Local = Local(owners: Owners, ids: set<Text>, versions: set<Text>, activeSets: nat)

  const NO_OWNERS: Owners := Owners(map[], map[], map[], map[], [])

  predicate Clashes(m: map<Text, Text>, key: Text, owner: Text) {
    key in m && m[key] != owner
  }

  function AddEntry(o: Owners, e: Entry): Owners {
    Owners(o.signers[e.signerId := e.tenantId], o.keys[e.keyId := e.tenantId], o.hashes[e.publicKeyHash := e.tenantId],
           o.identities[e.publicKeyHash := Identity(e)], o.normalized + [e])
  }

  /** One signer: normalized, then checked against the tenant's ids and the four maps. */
  function CheckSigner(sha: Digest, reuse: bool, l: Local, tenantId: Text, s: SignerSet, signer: Signer): Verdict<Local> {
    match NormalizeSigner(sha, tenantId, s, signer)
    case Bad(error) => Bad(error)
    case Good(e) =>
      if e.signerId in l.ids then Bad(SignerCollision)
      else if Clashes(l.owners.signers, e.signerId, e.tenantId) && !reuse then Bad(SignerCollision)
      else if Clashes(l.owners.keys, e.keyId, e.tenantId) then Bad(KeyReuseAcrossTenants)
      else if Clashes(l.owners.hashes, e.publicKeyHash, e.tenantId) then Bad(PublicKeyHashCollision)
      else if Clashes(l.owners.identities, e.publicKeyHash, Identity(e)) then Bad(PublicKeyHashCollision)
      else Good(l.(owners := AddEntry(l.owners, e), ids := l.ids + {e.signerId}))
  }

  function CheckSigners(sha: Digest, reuse: bool, l: Local, tenantId: Text, s: SignerSet, signers: seq<Signer>): Verdict<Local>
    decreases |signers|
  {
    if signers == [] then Good(l)
    else
      match CheckSigner(sha, reuse, l, tenantId, s, signers[0])
      case Bad(error) => Bad(error)
      case Good(next) => CheckSigners(sha, reuse, next, tenantId, s, signers[1..])
  }

  function CheckSet(sha: Digest, reuse: bool, l: Local, tenantId: Text, s: SignerSet): Verdict<Local> {
    if s.version == [] || s.version in l.versions then Bad(UnknownKeySetVersion)
    else if s.signers.None? || s.signers.value == [] then Bad(UnknownSigner)
    else if !s.quorum && |s.signers.value| != 1 then Bad(ReceiptKeyResolutionFailed)
    else
      var started := l.(versions := l.versions + {s.version}, activeSets := l.activeSets + if Active(s) then 1 else 0);
      CheckSigners(sha, reuse, started, tenantId, s, s.signers.value)
  }

  function CheckSets(sha: Digest, reuse: bool, l: Local, tenantId: Text, sets: seq<SignerSet>): Verdict<Local>
    decreases |sets|
  {
    if sets == [] then Good(l)
    else
      match CheckSet(sha, reuse, l, tenantId, sets[0])
      case Bad(error) => Bad(error)
      case Good(next) => CheckSets(sha, reuse, next, tenantId, sets[1..])
  }

  function CheckTenant(sha: Digest, reuse: bool, o: Owners, t: Tenant): Verdict<Owners> {
    if t.tenantId == [] || t.sets.None? then Bad(InvalidRegistry)
    else
      match CheckSets(sha, reuse, Local(o, {}, {}, 0), t.tenantId, t.sets.value)
      case Bad(error) => Bad(error)
      case Good(l) => if l.activeSets != 1 then Bad(NoActiveSigner) else Good(l.owners)
  }

  function CheckTenants(sha: Digest, reuse: bool, o: Owners, tenants: seq<Tenant>): Verdict<Owners>
    decreases |tenants|
  {
    if tenants == [] then Good(o)
    else
      match CheckTenant(sha, reuse, o, tenants[0])
      case Bad(error) => Bad(error)
      case Good(next) => CheckTenants(sha, reuse, next, tenants[1..])
  }

  function Validate(sha: Digest, r: SignerRegistry): Verdict<seq<Entry>> {
    if r.tenants.None? then Bad(InvalidRegistry)
    else
      match CheckTenants(sha, r.allowReuse, NO_OWNERS, r.tenants.value)
      case Bad(error) => Bad(error)
      case Good(o) => Good(o.normalized)
  }

  lemma SignersStep(sha: Digest, reuse: bool, l: Local, tenantId: Text, s: SignerSet, signers: seq<Signer>, k: nat)
    requires k <= |signers|
    ensures CheckSigners(sha, reuse, l, tenantId, s, signers[k..]) ==
            if k == |signers| then Good(l)
            else
              match CheckSigner(sha, reuse, l, tenantId, s, signers[k])
              case Bad(error) => Bad(error)
              case Good(next) => CheckSigners(sha, reuse, next, tenantId, s, signers[k + 1..])
  {
    hide CheckSigner;
    if k < |signers| { assert signers[k..][1..] == signers[k + 1..]; }
  }

  lemma SetsStep(sha: Digest, reuse: bool, l: Local, tenantId: Text, sets: seq<SignerSet>, k: nat)
    requires k <= |sets|
    ensures CheckSets(sha, reuse, l, tenantId, sets[k..]) ==
            if k == |sets| then Good(l)
            else
              match CheckSet(sha, reuse, l, tenantId, sets[k])
              case Bad(error) => Bad(error)
              case Good(next) => CheckSets(sha, reuse, next, tenantId, sets[k + 1..])
  {
    hide CheckSet;
    if k < |sets| { assert sets[k..][1..] == sets[k + 1..]; }
  }

  lemma TenantsStep(sha: Digest, reuse: bool, o: Owners, tenants: seq<Tenant>, k: nat)
    requires k <= |tenants|
    ensures CheckTenants(sha, reuse, o, tenants[k..]) ==
            if k == |tenants| then Good(o)
            else
              match CheckTenant(sha, reuse, o, tenants[k])
              case Bad(error) => Bad(error)
              case Good(next) => CheckTenants(sha, reuse, next, tenants[k + 1..])
  {
    hide CheckTenant;
    if k < |tenants| { assert tenants[k..][1..] == tenants[k + 1..]; }
  }

  /** The innermost loop of the validator: the signers of one set, checked one after the other. */
  method ScanSigners(sha: Digest, reuse: bool, before: Local, tenantId: Text, signerSet: SignerSet, signers: seq<Signer>)
    returns (result: Verdict<Local>)
    ensures result == CheckSigners(sha, reuse, before, tenantId, signerSet, signers)
  {
    hide NormalizeSigner, Identity, CheckSigners;
    var Local(Owners(signerOwners, keyIdOwners, publicKeyHashOwners, identityByHash, normalized),
              tenantSignerIds, tenantKeySetVersions, activeSets) := before;
    var k := 0;
    while k < |signers|
      invariant 0 <= k <= |signers|
      invariant CheckSigners(sha, reuse, before, tenantId, signerSet, signers) ==
                CheckSigners(sha, reuse,
                             Local(Owners(signerOwners, keyIdOwners, publicKeyHashOwners, identityByHash, normalized),
                                   tenantSignerIds, tenantKeySetVersions, activeSets), tenantId, signerSet, signers[k..])
    {
      SignersStep(sha, reuse,
                  Local(Owners(signerOwners, keyIdOwners, publicKeyHashOwners, identityByHash, normalized),
                        tenantSignerIds, tenantKeySetVersions, activeSets), tenantId, signerSet, signers, k);
      var normal := NormalizeSigner(sha, tenantId, signerSet, signers[k]);
      if normal.Bad? { return Bad(normal.error); }
      var entry := normal.value;
      if entry.signerId in tenantSignerIds { return Bad(SignerCollision); }
      tenantSignerIds := tenantSignerIds + {entry.signerId};
      if entry.signerId in signerOwners && signerOwners[entry.signerId] != entry.tenantId && !reuse {
        return Bad(SignerCollision);
      }
      signerOwners := signerOwners[entry.signerId := entry.tenantId];
      if entry.keyId in keyIdOwners && keyIdOwners[entry.keyId] != entry.tenantId {
        return Bad(KeyReuseAcrossTenants);
      }
      keyIdOwners := keyIdOwners[entry.keyId := entry.tenantId];
      if entry.publicKeyHash in publicKeyHashOwners && publicKeyHashOwners[entry.publicKeyHash] != entry.tenantId {
        return Bad(PublicKeyHashCollision);
      }
      publicKeyHashOwners := publicKeyHashOwners[entry.publicKeyHash := entry.tenantId];
      var identity := Identity(entry);
      if entry.publicKeyHash in identityByHash && identityByHash[entry.publicKeyHash] != identity {
        return Bad(PublicKeyHashCollision);
      }
      identityByHash := identityByHash[entry.publicKeyHash := identity];
      normalized := normalized + [entry];
      k := k + 1;
    }
    result := Good(Local(Owners(signerOwners, keyIdOwners, publicKeyHashOwners, identityByHash, normalized),
                         tenantSignerIds, tenantKeySetVersions, activeSets));
    SignersStep(sha, reuse, result.value, tenantId, signerSet, signers, k);
  }

  /** The validator: one pass over tenants, sets and signers that fills four maps, two sets and a list. */
  method ValidateSignerRegistry(sha: Digest, r: SignerRegistry) returns (result: Verdict<seq<Entry>>)
    ensures result == Validate(sha, r)
    ensures result.Good? <==> ValidRegistry(sha, r)
    ensures result.Good? ==> result.value == Entries(sha, r.tenants.value)
  {
    hide ValidRegistry, Entries, CheckSigners, CheckSets, CheckTenants, Ascii;
    ValidateExact(sha, r);
    if r.tenants.None? { return Bad(InvalidRegistry); }
    var tenants := r.tenants.value;
    var owners := NO_OWNERS;
    var i := 0;
    while i < |tenants|
      invariant 0 <= i <= |tenants|
      invariant CheckTenants(sha, r.allowReuse, NO_OWNERS, tenants) ==
                CheckTenants(sha, r.allowReuse, owners, tenants[i..])
    {
      var tenant := tenants[i];
      TenantsStep(sha, r.allowReuse, owners, tenants, i);
      if tenant.tenantId == [] || tenant.sets.None? { return Bad(InvalidRegistry); }
      var sets := tenant.sets.value;
      var local := Local(owners, {}, {}, 0);
      var j := 0;
      while j < |sets|
        invariant 0 <= j <= |sets|
        invariant CheckSets(sha, r.allowReuse, Local(owners, {}, {}, 0), tenant.tenantId, sets) ==
                  CheckSets(sha, r.allowReuse, local, tenant.tenantId, sets[j..])
      {
        var signerSet := sets[j];
        SetsStep(sha, r.allowReuse, local, tenant.tenantId, sets, j);
        if signerSet.version == [] || signerSet.version in local.versions { return Bad(UnknownKeySetVersion); }
        local := local.(versions := local.versions + {signerSet.version});
        if signerSet.status == Some(ACTIVE) { local := local.(activeSets := local.activeSets + 1); }
        if signerSet.signers.None? || signerSet.signers.value == [] { return Bad(UnknownSigner); }
        if !signerSet.quorum && |signerSet.signers.value| != 1 { return Bad(ReceiptKeyResolutionFailed); }
        var scanned := ScanSigners(sha, r.allowReuse, local, tenant.tenantId, signerSet, signerSet.signers.value);
        if scanned.Bad? { return Bad(scanned.error); }
        local := scanned.value;
        j := j + 1;
      }
      SetsStep(sha, r.allowReuse, local, tenant.tenantId, sets, j);
      if local.activeSets != 1 { return Bad(NoActiveSigner); }
      owners := local.owners;
      i := i + 1;
    }
    TenantsStep(sha, r.allowReuse, owners, tenants, i);
    result := Good(owners.normalized);
  }

  // ----- The one-pass maps decide the declarative conditions -----

  /** A map from keys to owners records the entries seen: every key of an entry, and only owners of some entry. */
  predicate Records(m: map<Text, Text>, es: seq<Entry>, key: Entry -> Text, owner: Entry -> Text) {
    && (forall e :: e in es ==> key(e) in m)
    && (forall k :: k in m ==> exists e :: e in es && key(e) == k && owner(e) == m[k])
  }

  predicate Tracks(o: Owners, es: seq<Entry>) {
    && o.normalized == es
    && Records(o.signers, es, SignerIdOf, TenantOf)
    && Records(o.keys, es, KeyIdOf, TenantOf)
    && Records(o.hashes, es, HashOf, TenantOf)
    && Records(o.identities, es, HashOf, Identity)
  }

  lemma RecordsMore(m: map<Text, Text>, es: seq<Entry>, e: Entry, key: Entry -> Text, owner: Entry -> Text)
    requires Records(m, es, key, owner)
    ensures Records(m[key(e) := owner(e)], es + [e], key, owner)
    ensures Owned(es + [e], key, owner) <==> Owned(es, key, owner) && !Clashes(m, key(e), owner(e))
  {
    var m', es' := m[key(e) := owner(e)], es + [e];
    forall x ensures x in es' <==> x in es || x == e {}
    assert e in es';
    forall k | k in m' ensures exists x :: x in es' && key(x) == k && owner(x) == m'[k] {
      if k != key(e) {
        var x :| x in es && key(x) == k && owner(x) == m[k];
        assert x in es';
      }
    }
    if Clashes(m, key(e), owner(e)) {
      var x :| x in es && key(x) == key(e) && owner(x) == m[key(e)];
      assert x in es';
    }
    if Owned(es, key, owner) && !Clashes(m, key(e), owner(e)) {
      forall a, b | a in es' && b in es' && key(a) == key(b) ensures owner(a) == owner(b) {
        if key(a) == key(e) && key(e) in m {
          var x :| x in es && key(x) == key(e) && owner(x) == m[key(e)];
        }
      }
    }
  }

  lemma TracksMore(o: Owners, es: seq<Entry>, e: Entry, reuse: bool)
    requires Tracks(o, es) && Separated(es, reuse)
    ensures Tracks(AddEntry(o, e), es + [e])
    ensures Separated(es + [e], reuse) <==>
            && !(Clashes(o.signers, e.signerId, e.tenantId) && !reuse)
            && !Clashes(o.keys, e.keyId, e.tenantId)
            && !Clashes(o.hashes, e.publicKeyHash, e.tenantId)
            && !Clashes(o.identities, e.publicKeyHash, Identity(e))
  {
    hide Owned, Records, Identity, Clashes;
    RecordsMore(o.signers, es, e, SignerIdOf, TenantOf);
    RecordsMore(o.keys, es, e, KeyIdOf, TenantOf);
    RecordsMore(o.hashes, es, e, HashOf, TenantOf);
    RecordsMore(o.identities, es, e, HashOf, Identity);
  }

  lemma SeparatedParts(a: seq<Entry>, b: seq<Entry>, reuse: bool)
    requires Separated(a + b, reuse)
    ensures Separated(a, reuse)
  {
    forall e | e in a ensures e in a + b {}
  }

  ghost predicate Elements(s: set<Text>, list: seq<Text>) {
    Distinct(list) && forall x :: x in s <==> x in list
  }

  ghost predicate Follows(l: Local, es: seq<Entry>, ids: seq<Text>, versions: seq<Text>, reuse: bool) {
    Tracks(l.owners, es) && Separated(es, reuse) && Elements(l.ids, ids) && Elements(l.versions, versions)
  }

  lemma ElementsMore(s: set<Text>, list: seq<Text>, x: Text)
    requires Elements(s, list) && x !in s
    ensures Elements(s + {x}, list + [x])
  {
  }

  lemma {:induction false} SignersExact(sha: Digest, reuse: bool, l: Local, es: seq<Entry>, ids: seq<Text>, versions: seq<Text>,
                                        tenantId: Text, s: SignerSet, signers: seq<Signer>)
    requires tenantId != [] && s.version != []
    requires Follows(l, es, ids, versions, reuse)
    ensures CheckSigners(sha, reuse, l, tenantId, s, signers).Good? <==>
            && (forall x :: x in signers ==> SignerOk(sha, x))
            && Distinct(ids + Flat(signers, IdOf))
            && Separated(es + Flat(signers, SignerEntry(sha, tenantId, s)), reuse)
    ensures var r := CheckSigners(sha, reuse, l, tenantId, s, signers);
            r.Good? ==>
              && Follows(r.value, es + Flat(signers, SignerEntry(sha, tenantId, s)), ids + Flat(signers, IdOf), versions, reuse)
              && r.value.activeSets == l.activeSets
    decreases |signers|
  {
    hide SignerOk, Separated, Tracks, Identity, Clashes, Distinct;
    var entry := SignerEntry(sha, tenantId, s);
    if signers == [] {
      assert ids + Flat(signers, IdOf) == ids && es + Flat(signers, entry) == es;
    } else {
      var e := EntryOf(sha, tenantId, s, signers[0]);
      assert e.signerId == signers[0].signerId && e.tenantId == tenantId;
      assert entry(signers[0]) == [e];
      TracksMore(l.owners, es, e, reuse);
      DistinctExtended(ids, e.signerId, Flat(signers[1..], IdOf));
      Assoc(ids, [e.signerId], Flat(signers[1..], IdOf));
      Assoc(es, [e], Flat(signers[1..], entry));
      assert forall x :: x in signers <==> x == signers[0] || x in signers[1..];
      var step := CheckSigner(sha, reuse, l, tenantId, s, signers[0]);
      if step.Good? {
        ElementsMore(l.ids, ids, e.signerId);
        SignersExact(sha, reuse, step.value, es + [e], ids + [e.signerId], versions, tenantId, s, signers[1..]);
      } else if Separated((es + [e]) + Flat(signers[1..], entry), reuse) {
        SeparatedParts(es + [e], Flat(signers[1..], entry), reuse);
      }
    }
  }

  lemma SetExact(sha: Digest, reuse: bool, l: Local, es: seq<Entry>, ids: seq<Text>, versions: seq<Text>, tenantId: Text,
                 s: SignerSet)
    requires tenantId != []
    requires Follows(l, es, ids, versions, reuse)
    ensures CheckSet(sha, reuse, l, tenantId, s).Good? <==>
            && SetOk(sha, s)
            && s.version !in versions
            && Distinct(ids + IdsOfSet(s))
            && Separated(es + SetEntries(sha, tenantId)(s), reuse)
    ensures var r := CheckSet(sha, reuse, l, tenantId, s);
            r.Good? ==>
              && Follows(r.value, es + SetEntries(sha, tenantId)(s), ids + IdsOfSet(s), versions + [s.version], reuse)
              && r.value.activeSets == l.activeSets + |ActiveOf(s)|
  {
    hide SignerOk, Separated, Tracks, CheckSigners, Flat, Distinct;
    if s.version != [] && s.version !in l.versions && s.signers.Some? {
      var started := l.(versions := l.versions + {s.version}, activeSets := l.activeSets + if Active(s) then 1 else 0);
      ElementsMore(l.versions, versions, s.version);
      SignersExact(sha, reuse, started, es, ids, versions + [s.version], tenantId, s, s.signers.value);
    }
  }

  lemma {:induction false} SetsExact(sha: Digest, reuse: bool, l: Local, es: seq<Entry>, ids: seq<Text>, versions: seq<Text>,
                                     tenantId: Text, sets: seq<SignerSet>)
    requires tenantId != []
    requires Follows(l, es, ids, versions, reuse)
    ensures CheckSets(sha, reuse, l, tenantId, sets).Good? <==>
            && (forall s :: s in sets ==> SetOk(sha, s))
            && Distinct(versions + Flat(sets, VersionOf))
            && Distinct(ids + Flat(sets, IdsOfSet))
            && Separated(es + Flat(sets, SetEntries(sha, tenantId)), reuse)
    ensures var r := CheckSets(sha, reuse, l, tenantId, sets);
            r.Good? ==>
              && Tracks(r.value.owners, es + Flat(sets, SetEntries(sha, tenantId)))
              && r.value.activeSets == l.activeSets + |Flat(sets, ActiveOf)|
    decreases |sets|
  {
    hide SetOk, Separated, Tracks, CheckSet, IdsOfSet, Active, Distinct, SetEntries;
    var entries := SetEntries(sha, tenantId);
    if sets == [] {
      assert es + Flat(sets, entries) == es;
      assert versions + Flat(sets, VersionOf) == versions;
      assert ids + Flat(sets, IdsOfSet) == ids;
    } else {
      var s, rest := sets[0], sets[1..];
      SetExact(sha, reuse, l, es, ids, versions, tenantId, s);
      Assoc(es, entries(s), Flat(rest, entries));
      Assoc(ids, IdsOfSet(s), Flat(rest, IdsOfSet));
      Assoc(versions, [s.version], Flat(rest, VersionOf));
      assert VersionOf(s) == [s.version];
      DistinctExtended(versions, s.version, Flat(rest, VersionOf));
      assert forall x :: x in sets <==> x == s || x in rest;
      var step := CheckSet(sha, reuse, l, tenantId, s);
      if step.Good? {
        SetsExact(sha, reuse, step.value, es + entries(s), ids + IdsOfSet(s), versions + [s.version], tenantId, rest);
      } else {
        if Separated((es + entries(s)) + Flat(rest, entries), reuse) {
          SeparatedParts(es + entries(s), Flat(rest, entries), reuse);
        }
        if Distinct((ids + IdsOfSet(s)) + Flat(rest, IdsOfSet)) {
          DistinctParts(ids + IdsOfSet(s), Flat(rest, IdsOfSet));
        }
      }
    }
  }

  lemma TenantExact(sha: Digest, reuse: bool, o: Owners, es: seq<Entry>, t: Tenant)
    requires Tracks(o, es) && Separated(es, reuse)
    ensures CheckTenant(sha, reuse, o, t).Good? <==> TenantOk(sha, t) && Separated(es + TenantEntries(sha)(t), reuse)
    ensures var r := CheckTenant(sha, reuse, o, t); r.Good? ==> Tracks(r.value, es + TenantEntries(sha)(t))
  {
    hide Separated, Tracks, CheckSets, SetOk, Distinct, Flat;
    if t.tenantId != [] && t.sets.Some? {
      SetsExact(sha, reuse, Local(o, {}, {}, 0), es, [], [], t.tenantId, t.sets.value) by {
        assert Distinct<Text>([]) by { NothingDistinct(); }
      }
      assert [] + Flat(t.sets.value, VersionOf) == Flat(t.sets.value, VersionOf);
      assert [] + Flat(t.sets.value, IdsOfSet) == Flat(t.sets.value, IdsOfSet);
    }
  }

  lemma NothingDistinct()
    ensures Distinct<Text>([])
  {
  }

  lemma {:induction false} TenantsExact(sha: Digest, reuse: bool, o: Owners, es: seq<Entry>, tenants: seq<Tenant>)
    requires Tracks(o, es) && Separated(es, reuse)
    ensures CheckTenants(sha, reuse, o, tenants).Good? <==>
            (forall t :: t in tenants ==> TenantOk(sha, t)) && Separated(es + Entries(sha, tenants), reuse)
    ensures var r := CheckTenants(sha, reuse, o, tenants); r.Good? ==> Tracks(r.value, es + Entries(sha, tenants))
    decreases |tenants|
  {
    hide TenantOk, Separated, Tracks, CheckTenant, TenantEntries;
    var entries := TenantEntries(sha);
    if tenants == [] {
      assert es + Entries(sha, tenants) == es;
    } else {
      var t, rest := tenants[0], tenants[1..];
      TenantExact(sha, reuse, o, es, t);
      Assoc(es, entries(t), Flat(rest, entries));
      assert forall x :: x in tenants <==> x == t || x in rest;
      var step := CheckTenant(sha, reuse, o, t);
      if step.Good? {
        TenantsExact(sha, reuse, step.value, es + entries(t), rest);
      } else if Separated((es + entries(t)) + Flat(rest, entries), reuse) {
        SeparatedParts(es + entries(t), Flat(rest, entries), reuse);
      }
    }
  }

  /** Validation succeeds exactly on the valid registries, and then returns every signer's entry in order. */
  lemma ValidateExact(sha: Digest, r: SignerRegistry)
    ensures Validate(sha, r).Good? <==> ValidRegistry(sha, r)
    ensures Validate(sha, r).Good? ==> Validate(sha, r).value == Entries(sha, r.tenants.value)
  {
    hide TenantOk, CheckTenants, Entries, Separated, Owned;
    if r.tenants.Some? {
      assert Separated([], r.allowReuse) by { NothingOwned(r.allowReuse); }
      TenantsExact(sha, r.allowReuse, NO_OWNERS, [], r.tenants.value);
      assert [] + Entries(sha, r.tenants.value) == Entries(sha, r.tenants.value);
    }
  }

  lemma NothingOwned(reuse: bool)
    ensures Separated([], reuse)
  {
  }
}
