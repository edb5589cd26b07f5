/** The field names of requests, policies and receipts, and JSON objects built from them. */
module Fields {
  import opened Units
  import opened JsonValues
  import opened Canonical

  const EXECUTION_REQUEST: Name := "execution_request"
  const POLICY_DOCUMENT: Name := "policy_document"
  const PRICING_DATA: Name := "pricing_data"
  const REQUEST_ID: Name := "request_id"
  const SUBMITTED_REGION: Name := "submitted_region"
  const ACTOR: Name := "actor"
  const RESOURCES: Name := "resources"
  const EXECUTION: Name := "execution"
  const TOOL_CALLS: Name := "tool_calls"
  const PARAMETERS: Name := "parameters"
  const ORBIT_INTENT: Name := "orbit_intent"
  const RELEASE_REQUEST: Name := "release_request"
  const RUNTIME_OBSERVATION: Name := "runtime_observation"
  const BUDGET_TOKEN: Name := "budget_token"
  const USER_ID: Name := "user_id"
  const GPU_TYPE: Name := "gpu_type"
  const GPU_COUNT: Name := "gpu_count"
  const HOURS: Name := "hours"
  const AUTO_SCALE: Name := "auto_scale"
  const MAX_SCALE_MULTIPLIER: Name := "max_scale_multiplier"
  const RETRY_ON_FAIL: Name := "retry_on_fail"
  const MAX_RETRIES: Name := "max_retries"
  const ORBIT_VERSION: Name := "orbit_version"
  const ACTION: Name := "action"
  const BOUNDARY: Name := "boundary"
  const PAYLOAD: Name := "payload"
  const LIFECYCLE_STATE: Name := "lifecycle_state"
  const SIGNATURES: Name := "signatures"
  const ALG: Name := "alg"
  const SIG: Name := "sig"
  const EXECUTION_ID: Name := "execution_id"
  const HOLD_STATE: Name := "hold_state"
  const ALREADY_CONSUMED: Name := "already_consumed"
  const KILL_SWITCH_ACTIVE: Name := "kill_switch_active"
  const ACTUAL_GPU_COUNT: Name := "actual_gpu_count"
  const ACTUAL_HOURS: Name := "actual_hours"
  const ACTUAL_TOTAL_COST_CENTS: Name := "actual_total_cost_cents"
  const GPU_HOUR_CENTS: Name := "gpu_hour_cents"
  const SCHEMA_VERSION: Name := "schema_version"
  const POLICY_VERSION: Name := "policy_version"
  const RULES: Name := "rules"
  const TRUST: Name := "trust"
  const MAX_TOTAL_COST_CENTS: Name := "max_total_cost_cents"
  const ALLOW_AUTO_SCALE: Name := "allow_auto_scale"
  const MAX_GPU_COUNT: Name := "max_gpu_count"
  const MAX_HOURS: Name := "max_hours"
  const REQUIRE_MANUAL_APPROVAL_ABOVE_CENTS: Name := "require_manual_approval_above_cents"
  const MAX_RETRY_COUNT: Name := "max_retry_count"
  const KEY_VERSION: Name := "key_version"
  const KEY_ID: Name := "key_id"
  const PUBLIC_KEY: Name := "public_key"
  const SIGNATURE: Name := "signature"
  const TOOL: Name := "tool"
  const PRIORITY: Name := "priority"
  const REQUEST_HASH: Name := "request_hash"
  const DECISION: Name := "decision"
  const REASON_CODE: Name := "reason_code"
  const POLICY_HASH: Name := "policy_hash"
  const PROJECTED_TOTAL_COST_CENTS: Name := "projected_total_cost_cents"
  const ALLOWED_COST_CENTS: Name := "allowed_cost_cents"
  const PREVENTED_COST_CENTS: Name := "prevented_cost_cents"
  const CANONICAL_REQUEST: Name := "canonical_request"
  const DECISION_OUTPUT: Name := "decision_output"
  const PIPELINE_TRACE: Name := "pipeline_trace"
  const DECISION_HASH: Name := "decision_hash"
  const TOTAL_COST_USD: Name := "total_cost_usd"
  const ALLOWED_COST_USD: Name := "allowed_cost_usd"
  const PREVENTED_COST_USD: Name := "prevented_cost_usd"
  const KEY_SET_VERSION: Name := "key_set_version"
  const PREFLIGHT: Name := "preflight"
  const ORBIT: Name := "orbit"
  const ARM: Name := "arm"
  const RAMONA: Name := "ramona"
  const LAYER: Name := "layer"
  const VALIDATION_HASH: Name := "validation_hash"
  const RUNTIME_HASH: Name := "runtime_hash"
  const VERIFIABLE_SIGNATURE: Name := "verifiable_signature"
  const ALGORITHM: Name := "algorithm"
  const VALUE: Name := "value"
  const PUBLIC_KEY_FINGERPRINT: Name := "public_key_fingerprint"
  const PUBLIC_KEY_PEM: Name := "public_key_pem"

  /** An object with the given fields. */
  function Record(fields: seq<(Name, Json)>): (v: Json)
    ensures v.Obj?
  {
    Obj(seq(|fields|, i requires 0 <= i < |fields| => Entry(Ascii(fields[i].0), fields[i].1)))
  }

  function Word(s: Name): Json {
    Str(Ascii(s))
  }

  predicate DistinctNames(fields: seq<(Name, Json)>) {
    forall i, j :: 0 <= i < j < |fields| ==> fields[i].0 != fields[j].0
  }

  lemma RecordWellFormed(fields: seq<(Name, Json)>)
    requires DistinctNames(fields) && forall i :: 0 <= i < |fields| ==> WellFormed(fields[i].1)
    ensures WellFormed(Record(fields))
  {
    var es := Record(fields).entries;
    forall i, j | 0 <= i < j < |es| ensures es[i].key != es[j].key {
      if es[i].key == es[j].key { AsciiInjective(fields[i].0, fields[j].0); }
    }
  }

  /** Equivalent records agree, up to order, on every field. */
  lemma RecordsAgree(a: seq<(Name, Json)>, b: seq<(Name, Json)>, i: nat)
    requires Equivalent(Record(a), Record(b)) && i < |a| && i < |b| && a[i].0 == b[i].0
    ensures Equivalent(a[i].1, b[i].1)
  {
    var es, fs := Record(a).entries, Record(b).entries;
    assert es[i].key == fs[i].key;
  }

  /** The canonical text of an object depends on its keys and on the canonical texts of its values. */
  lemma ObjectPrintsByParts(es: seq<Entry>, fs: seq<Entry>)
    requires |es| == |fs|
    requires forall i :: 0 <= i < |es| ==> es[i].key == fs[i].key && Canonicalize(es[i].value) == Canonicalize(fs[i].value)
    ensures Canonicalize(Obj(es)) == Canonicalize(Obj(fs))
  {
    assert Keys(es) == Keys(fs);
    forall k ensures HasKey(es, k) <==> HasKey(fs, k) {
      if HasKey(es, k) { assert fs[IndexOf(es, k)].key == k; }
      if HasKey(fs, k) { assert es[IndexOf(fs, k)].key == k; }
    }
    PairsByParts(es, fs, Sort(Keys(es)));
  }

  lemma {:induction false} SameIndex(es: seq<Entry>, fs: seq<Entry>, k: Text)
    requires |es| == |fs| && (forall i :: 0 <= i < |es| ==> es[i].key == fs[i].key) && HasKey(es, k) && HasKey(fs, k)
    ensures IndexOf(es, k) == IndexOf(fs, k)
  {
    if es[0].key != k {
      var i :| 0 <= i < |es| && es[i].key == k;
      assert es[1..][i - 1].key == k && fs[1..][i - 1].key == k;
      SameIndex(es[1..], fs[1..], k);
    }
  }

  lemma {:induction false} PairsByParts(es: seq<Entry>, fs: seq<Entry>, ks: seq<Text>)
    requires |es| == |fs|
    requires forall i :: 0 <= i < |es| ==> es[i].key == fs[i].key && Canonicalize(es[i].value) == Canonicalize(fs[i].value)
    requires forall k :: k in ks ==> HasKey(es, k) && HasKey(fs, k)
    ensures CanonicalPairs(es, ks) == CanonicalPairs(fs, ks)
  {
    if ks != [] {
      SameIndex(es, fs, ks[0]);
      PairsByParts(es, fs, ks[1..]);
    }
  }

  lemma {:induction false} ItemsByParts(a: seq<Json>, b: seq<Json>)
    requires |a| == |b| && forall i :: 0 <= i < |a| ==> Canonicalize(a[i]) == Canonicalize(b[i])
    ensures CanonicalItems(a) == CanonicalItems(b)
  {
    if a != [] { ItemsByParts(a[1..], b[1..]); }
  }

  lemma RecordPrintsByParts(a: seq<(Name, Json)>, b: seq<(Name, Json)>)
    requires |a| == |b|
    requires forall i :: 0 <= i < |a| ==> a[i].0 == b[i].0 && Canonicalize(a[i].1) == Canonicalize(b[i].1)
    ensures Canonicalize(Record(a)) == Canonicalize(Record(b))
  {
    ObjectPrintsByParts(Record(a).entries, Record(b).entries);
  }
}
