/** Which receipts ram0na/engine.ts takes as genuine, what tampering does, and which stored lines replay reports as unsigned. */
module Signatures {
  import opened Units
  import opened JsonValues
  import opened StrictParser
  import opened Canonical
  import opened Fields
  import opened Contracts
  import opened Preflight
  import opened PreflightReasons
  import opened Orbit
  import opened Stores
  import opened Pipeline
  import opened Decisions
  import opened Receipts
  import opened Replay

  // ----- genuine receipts

  /** The text both signatures of a receipt are taken of. */
  function SignedText(r: Receipt): Text {
    Canonicalize(PayloadJson(r.payload))
  }

  const RECEIPT_HMAC: Name := "HMAC-SHA256"
  const RECEIPT_ED25519: Name := "ED25519"
  const RECEIPT_KEY_PREFIX: Name := "receipt-ed25519-"

  /** The receipt carries the HMAC of its own payload under the configured key and key id. */
  predicate HmacGenuine(p: Platform, r: Receipt) {
    match p.signingKey
    case None => false
    case Some((secret, id)) => r.signature == Some(HmacSignature(Ascii(RECEIPT_HMAC), id, p.hmac(secret, SignedText(r))))
  }

  /** The receipt shows a key that the platform cannot read. */
  predicate KeyUnreadable(p: Platform, r: Receipt) {
    r.verifiable.Some? && !p.isBlank(r.verifiable.value.pem) && p.fingerprint(r.verifiable.value.pem) == None
  }

  /** The key id is the fixed prefix and the first sixteen units of the fingerprint. */
  predicate NamesKey(keyId: Text, fingerprint: Text) {
    exists n: nat :: n <= |fingerprint| && (n == 16 || n == |fingerprint| < 16) && keyId == Ascii(RECEIPT_KEY_PREFIX) + fingerprint[..n]
  }

  /** The receipt shows a readable key, names it correctly, and the signature verifies over its own payload with that key. */
  predicate PublicGenuine(p: Platform, r: Receipt) {
    match r.verifiable
    case None => false
    case Some(v) =>
      && !p.isBlank(v.pem) && p.fingerprint(v.pem) == Some(v.fingerprint)
      && v.algorithm == Ascii(RECEIPT_ED25519) && NamesKey(v.keyId, v.fingerprint)
      && p.verify(SignedText(r), v.value, v.pem)
  }

  lemma KeyIdExact(keyId: Text, fingerprint: Text)
    ensures keyId == PublicKeyId(fingerprint) <==> NamesKey(keyId, fingerprint)
  {
    if keyId == PublicKeyId(fingerprint) {
      var n := if |fingerprint| < 16 then |fingerprint| else 16;
      assert fingerprint[..|fingerprint|] == fingerprint;
      assert keyId == Ascii(RECEIPT_KEY_PREFIX) + fingerprint[..n];
    }
    if NamesKey(keyId, fingerprint) {
      assert fingerprint[..|fingerprint|] == fingerprint;
    }
  }

  /** Verification accepts a receipt exactly when one of its two signatures is genuine; it throws only over an unreadable key. */
  lemma VerifyExact(p: Platform, r: Receipt)
    ensures VerifyReceiptSignature(p, r) ==
            if HmacGenuine(p, r) then Some(true) else if KeyUnreadable(p, r) then None else Some(PublicGenuine(p, r))
  {
    hide Canonicalize, PayloadJson, Ascii, NamesKey, PublicKeyId;
    if r.verifiable.Some? {
      KeyIdExact(r.verifiable.value.keyId, r.verifiable.value.fingerprint);
    }
    assert HmacGenuine(p, r) <==> HmacMatches(p, r, SignedText(r));
  }

  const NO_HMAC_KEY: Name := "unconfigured"

  /** What signing puts on a receipt: an HMAC or a placeholder, and the platform's signature with its key. */
  lemma SignedParts(p: Platform, payload: Payload)
    requires p.Valid()
    ensures var r := SignPayload(p, payload);
            && r.payload == payload && r.verifiable.Some?
            && r.signature == Some(match p.signingKey
                 case None => HmacSignature(Ascii(RECEIPT_HMAC), Ascii(NO_HMAC_KEY), [])
                 case Some((secret, id)) => HmacSignature(Ascii(RECEIPT_HMAC), id, p.hmac(secret, SignedText(r))))
            && var v := r.verifiable.value;
               v.algorithm == Ascii(RECEIPT_ED25519) && v.pem == p.publicKeyPem && p.fingerprint(p.publicKeyPem) == Some(v.fingerprint) &&
               NamesKey(v.keyId, v.fingerprint) && v.value == p.sign(SignedText(r))
  {
    hide Canonicalize, PayloadJson, Ascii, NamesKey, PublicKeyId;
    var v := SignPayload(p, payload).verifiable.value;
    KeyIdExact(v.keyId, v.fingerprint);
  }

  // ----- tampering

  /** A receipt issued for payload `a` with payload `b` put in its place. */
  function Replaced(p: Platform, a: Payload, b: Payload): Receipt {
    SignPayload(p, a).(payload := b)
  }

  /** It verifies exactly when its payload is the one signed, or its text has the same HMAC, or the signature of another text verifies. */
  lemma ReplacedExact(p: Platform, a: Payload, b: Payload)
    requires p.Valid()
    ensures var s, t := Canonicalize(PayloadJson(a)), Canonicalize(PayloadJson(b));
            VerifyReceiptSignature(p, Replaced(p, a, b)) ==
            Some(a == b || (p.signingKey.Some? && p.hmac(p.signingKey.value.0, s) == p.hmac(p.signingKey.value.0, t)) ||
                 p.verify(t, p.sign(s), p.publicKeyPem))
  {
    hide Canonicalize, PayloadJson, Ascii, NamesKey, PublicKeyId;
    var r := Replaced(p, a, b);
    VerifyExact(p, r);
    KeyIdExact(r.verifiable.value.keyId, r.verifiable.value.fingerprint);
  }

  /** A signature verifies for the text it was made of only, and no two texts share an HMAC under the configured key. */
  ghost predicate Unforgeable(p: Platform) {
    && (forall m, n :: p.verify(m, p.sign(n), p.publicKeyPem) ==> m == n)
    && (p.signingKey.Some? ==> forall m, n :: p.hmac(p.signingKey.value.0, m) == p.hmac(p.signingKey.value.0, n) ==> m == n)
  }

  /** Tampering is caught: an issued receipt verifies with the payload it was issued for and with no other. */
  lemma TamperingIsCaught(p: Platform, a: Payload, b: Payload)
    requires p.Valid() && Unforgeable(p)
    ensures VerifyReceiptSignature(p, Replaced(p, a, b)) == Some(a == b)
  {
    hide Canonicalize, PayloadJson, VerifyReceiptSignature, SignPayload;
    ReplacedExact(p, a, b);
    SignedTextFixesPayload(a, b);
  }

  /** The public signature alone suffices, whatever stands in place of the HMAC, and on a platform with any other HMAC key. */
  lemma PublicSignatureSuffices(p: Platform, elsewhere: Platform, payload: Payload, hmac: Option<HmacSignature>)
    requires p.Valid() && elsewhere.verify == p.verify && elsewhere.fingerprint == p.fingerprint && elsewhere.isBlank == p.isBlank
    ensures VerifyReceiptSignature(elsewhere, SignPayload(p, payload).(signature := hmac)) == Some(true)
  {
    hide Canonicalize, PayloadJson, Ascii, NamesKey, PublicKeyId;
    var r := SignPayload(p, payload).(signature := hmac);
    VerifyExact(elsewhere, r);
    KeyIdExact(r.verifiable.value.keyId, r.verifiable.value.fingerprint);
  }

  /** Without its public signature an issued receipt verifies exactly where an HMAC key is configured. */
  lemma HmacAlone(p: Platform, payload: Payload)
    ensures VerifyReceiptSignature(p, SignPayload(p, payload).(verifiable := None)) == Some(p.signingKey.Some?)
  {
    hide Canonicalize, PayloadJson, Ascii;
    VerifyExact(p, SignPayload(p, payload).(verifiable := None));
  }

  // ----- replay

  /** What replay reports of a stored receipt, by its signatures, its request and its text. */
  lemma ReplayLineExact(p: Platform, r: Receipt)
    requires p.Valid()
    ensures ReplayLine(p, Some(r)) ==
            if !HmacGenuine(p, r) && KeyUnreadable(p, r) then None
            else if !HmacGenuine(p, r) && !PublicGenuine(p, r) then Some(ReceiptSignatureInvalid)
            else match RunPreflight(p, r.payload.canonicalRequest)
              case Rejected(f) => Some(f.reason)
              case Accepted(e) =>
                Some(if Canonicalize(ReceiptJson(r)) == Canonicalize(ReceiptJson(ReceiptFor(p, EMPTY, e))) then OkAllow
                     else ReplayMismatch)
  {
    hide Canonicalize, PayloadJson, HmacGenuine, PublicGenuine, KeyUnreadable, VerifyReceiptSignature, ReceiptFor, RunPreflight,
         BuildReceipt, ReceiptJson, ArmResult, RunStrictOrbit;
    VerifyExact(p, r);
    var raw := r.payload.canonicalRequest;
    if RunPreflight(p, raw).Accepted? {
      var e := RunPreflight(p, raw).envelope;
      ExecuteIssues(p, EMPTY, raw, e);
      ReceiptVerifies(p, EMPTY, e);
    } else {
      RejectedAtBoundary(p, EMPTY, raw);
    }
  }

  /** A text that preflight refuses gives its failure and leaves both stores as they are. */
  lemma RejectedAtBoundary(p: Platform, m: Memory, raw: Text)
    requires RunPreflight(p, raw).Rejected?
    ensures Execute(p, m, raw) == (AtBoundary(RunPreflight(p, raw).failure), m)
  {
    hide RunPreflight, BuildReceipt, ArmResult, RunStrictOrbit;
  }

  lemma BoundaryReason(p: Platform, raw: Text)
    requires RunPreflight(p, raw).Rejected?
    ensures RunPreflight(p, raw).failure.reason != ReceiptSignatureInvalid
  {
    hide Validate, Canonicalize, PolicyHash;
    if Parse(raw).Success? {
      hide RunPreflight;
      TypedReasonsOnly(p, raw);
    }
  }

  /** The stored lines that replay reports with an invalid signature are those where neither signature is genuine. */
  lemma SignatureInvalidExact(p: Platform, r: Receipt)
    requires p.Valid()
    ensures ReplayLine(p, Some(r)) == Some(ReceiptSignatureInvalid) <==>
            !HmacGenuine(p, r) && !KeyUnreadable(p, r) && !PublicGenuine(p, r)
  {
    hide Canonicalize, HmacGenuine, PublicGenuine, KeyUnreadable, ReplayLine, ReceiptFor, RunPreflight, ReceiptJson;
    ReplayLineExact(p, r);
    if RunPreflight(p, r.payload.canonicalRequest).Rejected? { BoundaryReason(p, r.payload.canonicalRequest); }
    assert HmacGenuine(p, r) && KeyUnreadable(p, r) ==> ReplayLine(p, Some(r)) != Some(ReceiptSignatureInvalid);
    KeyIsReadOrNot(p, r);
  }

  lemma KeyIsReadOrNot(p: Platform, r: Receipt)
    ensures !(KeyUnreadable(p, r) && PublicGenuine(p, r))
  {
  }

  /** A stored line whose payload was replaced is reported as unsigned. */
  lemma ReplacedLineIsReported(p: Platform, a: Payload, b: Payload)
    requires p.Valid() && Unforgeable(p) && a != b
    ensures ReplayLine(p, Some(Replaced(p, a, b))) == Some(ReceiptSignatureInvalid)
  {
    hide VerifyReceiptSignature, Execute, Replaced;
    TamperingIsCaught(p, a, b);
  }

  /** A comparison of two receipts reports an invalid signature when either is not genuine, and otherwise compares the texts. */
  lemma ReplayComparisonExact(p: Platform, stored: Receipt, rerun: Receipt)
    requires VerifyReceiptSignature(p, stored).Some? && VerifyReceiptSignature(p, rerun).Some?
    ensures VerifyReceiptReplay(p, stored, rerun) ==
            Some(if !(HmacGenuine(p, stored) || PublicGenuine(p, stored)) || !(HmacGenuine(p, rerun) || PublicGenuine(p, rerun))
                 then ReceiptSignatureInvalid
                 else if Equivalent(ReceiptJson(stored), ReceiptJson(rerun)) then OkAllow else ReplayMismatch)
  {
    hide HmacGenuine, PublicGenuine, KeyUnreadable, VerifyReceiptSignature, Canonicalize, ReceiptJson, Equivalent, WellFormed;
    VerifyExact(p, stored);
    VerifyExact(p, rerun);
    ReceiptWellFormed(stored);
    ReceiptWellFormed(rerun);
    CompleteInvariant(ReceiptJson(stored), ReceiptJson(rerun));
  }
}
