/** Where everything stands in the JSON form of a receipt: each member is read back by its name, and there are no others. */
module ReceiptLayout {
  import opened Units
  import opened JsonValues
  import opened Fields
  import opened Contracts
  import opened Preflight
  import opened Requests

  const KEY_SET: Name := "receipt-key-set-v1"
  const RECEIPT_SCHEMA: Name := "ecs.receipt.v2"

  /** The members of a JSON object, all of them, each with its value. */
  ghost predicate Has(v: Json, members: seq<(Name, Json)>) {
    v.Obj? && |v.entries| == |members| && forall i :: 0 <= i < |members| ==> Fetch(v.entries, members[i].0) == Some(members[i].1)
  }

  const ALLOW_WORD: Name := "ALLOW"
  const REFUSE_WORD: Name := "REFUSE"

  /** Decisions are written as their names, reasons as their codes. */
  lemma Words(d: Decision, r: Reason)
    ensures DecisionText(d) == Word(if d == ALLOW then ALLOW_WORD else REFUSE_WORD) && ReasonText(r) == Word(Code(r))
  {
    hide Codes;
  }

  lemma RecordHas(fields: seq<(Name, Json)>, members: seq<(Name, Json)>)
    requires DistinctNames(fields) && |fields| == |members| && forall m :: m in members ==> m in fields
    ensures Has(Record(fields), members)
  {
    hide Fetch, Ascii;
    assert |Record(fields).entries| == |fields|;
    forall i | 0 <= i < |members| ensures Fetch(Record(fields).entries, members[i].0) == Some(members[i].1) {
      assert members[i] in members;
      var j :| 0 <= j < |fields| && fields[j] == members[i];
      FetchField(fields, j);
    }
  }

  lemma OutputRead(o: DecisionOutput)
    ensures Has(Record(OutputFields(o)),
                [(DECISION, DecisionText(o.decision)), (DECISION_HASH, Str(o.decisionHash)), (REQUEST_HASH, Str(o.requestHash)),
                 (REASON_CODE, ReasonText(o.reason)), (TOTAL_COST_USD, Str(o.totalCostUsd)), (ALLOWED_COST_USD, Str(o.allowedCostUsd)),
                 (PREVENTED_COST_USD, Str(o.preventedCostUsd)), (POLICY_VERSION, Str(o.policyVersion)), (POLICY_HASH, Str(o.policyHash)),
                 (EXECUTION_ID, Str(o.executionId)), (KEY_SET_VERSION, Word(KEY_SET))])
  {
    hide Ascii, Codes, Record, Has, DistinctNames;
    assert DistinctNames(OutputFields(o)) by { OutputReadNames(o); }
    RecordHas(OutputFields(o),
                [(DECISION, DecisionText(o.decision)), (DECISION_HASH, Str(o.decisionHash)), (REQUEST_HASH, Str(o.requestHash)),
                 (REASON_CODE, ReasonText(o.reason)), (TOTAL_COST_USD, Str(o.totalCostUsd)), (ALLOWED_COST_USD, Str(o.allowedCostUsd)),
                 (PREVENTED_COST_USD, Str(o.preventedCostUsd)), (POLICY_VERSION, Str(o.policyVersion)), (POLICY_HASH, Str(o.policyHash)),
                 (EXECUTION_ID, Str(o.executionId)), (KEY_SET_VERSION, Word(KEY_SET))]);
  }

  lemma OutputReadNames(o: DecisionOutput)
    ensures DistinctNames(OutputFields(o))
  {
    hide Ascii, Codes, Record;
  }

  lemma PreflightRead(t: PreflightTrace)
    ensures Has(Record(PreflightFields(t)),
                [(LAYER, Word(PREFLIGHT)), (REQUEST_HASH, Str(t.requestHash)), (POLICY_HASH, Str(t.policyHash)),
                 (POLICY_VERSION, Str(t.policyVersion))])
  {
    hide Ascii, Codes, Record, Has, DistinctNames;
    assert DistinctNames(PreflightFields(t)) by { PreflightReadNames(t); }
    RecordHas(PreflightFields(t),
                [(LAYER, Word(PREFLIGHT)), (REQUEST_HASH, Str(t.requestHash)), (POLICY_HASH, Str(t.policyHash)),
                 (POLICY_VERSION, Str(t.policyVersion))]);
  }

  lemma PreflightReadNames(t: PreflightTrace)
    ensures DistinctNames(PreflightFields(t))
  {
    hide Ascii, Codes, Record;
  }

  lemma OrbitRead(t: OrbitTrace)
    ensures Has(Record(OrbitFields(t)),
                [(LAYER, Word(ORBIT)), (DECISION, DecisionText(t.decision)), (REASON_CODE, ReasonText(t.reason)),
                 (VALIDATION_HASH, Str(t.validationHash))])
  {
    hide Ascii, Codes, Record, Has, DistinctNames;
    assert DistinctNames(OrbitFields(t)) by { OrbitReadNames(t); }
    RecordHas(OrbitFields(t),
                [(LAYER, Word(ORBIT)), (DECISION, DecisionText(t.decision)), (REASON_CODE, ReasonText(t.reason)),
                 (VALIDATION_HASH, Str(t.validationHash))]);
  }

  lemma OrbitReadNames(t: OrbitTrace)
    ensures DistinctNames(OrbitFields(t))
  {
    hide Ascii, Codes, Record;
  }

  lemma RamonaRead(t: RamonaTrace)
    ensures Has(Record(RamonaFields(t)),
                [(LAYER, Word(RAMONA)), (DECISION, DecisionText(t.decision)), (REASON_CODE, ReasonText(t.reason)),
                 (RUNTIME_HASH, Str(t.runtimeHash))])
  {
    hide Ascii, Codes, Record, Has, DistinctNames;
    assert DistinctNames(RamonaFields(t)) by { RamonaReadNames(t); }
    RecordHas(RamonaFields(t),
                [(LAYER, Word(RAMONA)), (DECISION, DecisionText(t.decision)), (REASON_CODE, ReasonText(t.reason)),
                 (RUNTIME_HASH, Str(t.runtimeHash))]);
  }

  lemma RamonaReadNames(t: RamonaTrace)
    ensures DistinctNames(RamonaFields(t))
  {
    hide Ascii, Codes, Record;
  }

  lemma TracesRead(p: Payload)
    ensures Has(Record(TraceFields(p)),
                [(PREFLIGHT, Record(PreflightFields(p.preflight))), (ORBIT, Record(OrbitFields(p.orbit))), (ARM, Record(ArmFields(p.arm))),
                 (RAMONA, Record(RamonaFields(p.ramona)))])
  {
    hide Ascii, Codes, Record, Has, DistinctNames;
    assert DistinctNames(TraceFields(p)) by { TracesReadNames(p); }
    RecordHas(TraceFields(p),
                [(PREFLIGHT, Record(PreflightFields(p.preflight))), (ORBIT, Record(OrbitFields(p.orbit))), (ARM, Record(ArmFields(p.arm))),
                 (RAMONA, Record(RamonaFields(p.ramona)))]);
  }

  lemma TracesReadNames(p: Payload)
    ensures DistinctNames(TraceFields(p))
  {
    hide Ascii, Codes, Record;
  }

  lemma HmacRead(h: HmacSignature)
    ensures Has(Record(HmacFields(h)),
                [(ALGORITHM, Str(h.algorithm)), (KEY_ID, Str(h.keyId)), (VALUE, Str(h.value))])
  {
    hide Ascii, Codes, Record, Has, DistinctNames;
    assert DistinctNames(HmacFields(h)) by { HmacReadNames(h); }
    RecordHas(HmacFields(h),
                [(ALGORITHM, Str(h.algorithm)), (KEY_ID, Str(h.keyId)), (VALUE, Str(h.value))]);
  }

  lemma HmacReadNames(h: HmacSignature)
    ensures DistinctNames(HmacFields(h))
  {
    hide Ascii, Codes, Record;
  }

  lemma PublicRead(s: PublicSignature)
    ensures Has(Record(PublicFields(s)),
                [(ALGORITHM, Str(s.algorithm)), (KEY_ID, Str(s.keyId)), (PUBLIC_KEY_FINGERPRINT, Str(s.fingerprint)),
                 (PUBLIC_KEY_PEM, Str(s.pem)), (VALUE, Str(s.value))])
  {
    hide Ascii, Codes, Record, Has, DistinctNames;
    assert DistinctNames(PublicFields(s)) by { PublicReadNames(s); }
    RecordHas(PublicFields(s),
                [(ALGORITHM, Str(s.algorithm)), (KEY_ID, Str(s.keyId)), (PUBLIC_KEY_FINGERPRINT, Str(s.fingerprint)),
                 (PUBLIC_KEY_PEM, Str(s.pem)), (VALUE, Str(s.value))]);
  }

  lemma PublicReadNames(s: PublicSignature)
    ensures DistinctNames(PublicFields(s))
  {
    hide Ascii, Codes, Record;
  }

  /** The budget token is there exactly when there is one. */
  lemma ArmRead(t: ArmTrace)
    ensures Has(Record(ArmFields(t)),
                [(LAYER, Word(ARM)), (DECISION, DecisionText(t.decision)), (REASON_CODE, ReasonText(t.reason)),
                 (PROJECTED_TOTAL_COST_CENTS, Num(t.projected)), (ALLOWED_COST_CENTS, Num(t.allowed)),
                 (PREVENTED_COST_CENTS, Num(t.prevented)), (EXECUTION_ID, Str(t.executionId))]
                + match t.budgetToken { case None => [] case Some(b) => [(BUDGET_TOKEN, Str(b))] })
  {
    hide Ascii, Codes, Record, Has, DistinctNames;
    ArmNames(t);
    var members := [(LAYER, Word(ARM)), (DECISION, DecisionText(t.decision)), (REASON_CODE, ReasonText(t.reason)),
                    (PROJECTED_TOTAL_COST_CENTS, Num(t.projected)), (ALLOWED_COST_CENTS, Num(t.allowed)),
                    (PREVENTED_COST_CENTS, Num(t.prevented)), (EXECUTION_ID, Str(t.executionId))];
    var token := match t.budgetToken case None => [] case Some(b) => [(BUDGET_TOKEN, Str(b))];
    var fields := ArmFields(t);
    forall m | m in members + token ensures m in fields {
      if m in members {
        assert fields[0] == (REASON_CODE, ReasonText(t.reason)) && fields[1] == (LAYER, Word(ARM));
        assert fields[2] == (DECISION, DecisionText(t.decision)) && fields[3] == (PROJECTED_TOTAL_COST_CENTS, Num(t.projected));
        assert fields[4] == (ALLOWED_COST_CENTS, Num(t.allowed)) && fields[5] == (PREVENTED_COST_CENTS, Num(t.prevented));
        assert fields[6] == (EXECUTION_ID, Str(t.executionId));
      } else {
        assert fields[7] == token[0];
      }
    }
    RecordHas(fields, members + token);
  }

  lemma ArmNames(t: ArmTrace)
    ensures DistinctNames(ArmFields(t))
  {
    hide Ascii, Codes, Record;
  }

  /** The whole receipt: the five members of its payload, and each signature where there is one. */
  lemma ReceiptRead(r: Receipt)
    ensures Has(ReceiptJson(r),
                [(SCHEMA_VERSION, Word(RECEIPT_SCHEMA)), (CANONICAL_REQUEST, Str(r.payload.canonicalRequest)),
                 (REQUEST_HASH, Str(r.payload.requestHash)), (DECISION_OUTPUT, Record(OutputFields(r.payload.output))),
                 (PIPELINE_TRACE, Record(TraceFields(r.payload)))]
                + (match r.signature { case None => [] case Some(h) => [(SIGNATURE, Record(HmacFields(h)))] })
                + (match r.verifiable { case None => [] case Some(s) => [(VERIFIABLE_SIGNATURE, Record(PublicFields(s)))] }))
  {
    hide Ascii, Record, Has, DistinctNames, OutputFields, TraceFields, HmacFields, PublicFields;
    ReceiptNames(r);
    var fields := ReceiptFields(r);
    RecordHas(fields, fields);
  }

  lemma ReceiptNames(r: Receipt)
    ensures DistinctNames(ReceiptFields(r))
  {
    hide Ascii, Record, OutputFields, TraceFields, HmacFields, PublicFields;
  }
}
