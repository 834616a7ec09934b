/** `NormalizedClaim` and the two source readers, Alpha (CSV rows) and Beta
    (a JSON list of records). An Alpha row and a Beta record are maps from
    field name to a string or null; the Beta document is a small JSON value. */
module Claims {
  import opened Optional
  import opened Text
  import opened Dates
  import opened Fields

  datatype Source = Alpha | Beta

  /** One claim in canonical form, whichever source it came from. */
  datatype NormalizedClaim = NormalizedClaim(
    claimId: Option<string>,
    patientId: Option<string>,
    procedureCode: Option<string>,
    denialReason: Option<string>,
    status: Option<Status>,
    submittedAt: Option<string>,
    source: Source)

  /** A CSV row or a JSON object: field name to text, or null. */
  type Record = map<string, Option<string>>

  /** The value a record holds under a field name; a field the record does
      not have reads as null. */
  function Field(rec: Record, key: string): Option<string>
  {
    if key in rec then rec[key] else None
  }

  /** What every reader guarantees of the claims it yields: each text field
      is stripped and free of sentinel tokens, and the date, when present, is
      canonical `YYYY-MM-DD` text. */
  predicate WellFormed(c: NormalizedClaim)
  {
    && IsNormalizedText(c.claimId)
    && IsNormalizedText(c.patientId)
    && IsNormalizedText(c.procedureCode)
    && IsNormalizedText(c.denialReason)
    && (c.submittedAt.Some? ==> IsIsoDateText(c.submittedAt.value))
  }

  /** The claim built from six raw field values by the field normalizers. */
  function NormalizeFields(
    id: Option<string>, patient: Option<string>, code: Option<string>,
    reason: Option<string>, status: Option<string>, date: Option<string>,
    source: Source): (c: NormalizedClaim)
    ensures WellFormed(c) && c.source == source
  {
    NormalizedClaim(
      NormalizeStringOrNone(id),
      NormalizeStringOrNone(patient),
      NormalizeStringOrNone(code),
      CanonicalizeDenialReason(reason),
      NormalizeStatus(status),
      ToIsoDateString(date),
      source)
  }

  /** `normalize_alpha_row`: columns `claim_id`, `patient_id`,
      `procedure_code`, `denial_reason`, `status`, `submitted_at`. */
  function NormalizeAlphaRow(row: Record): (c: NormalizedClaim)
    ensures WellFormed(c) && c.source == Alpha
  {
    NormalizeFields(
      Field(row, "claim_id"), Field(row, "patient_id"), Field(row, "procedure_code"),
      Field(row, "denial_reason"), Field(row, "status"), Field(row, "submitted_at"),
      Alpha)
  }

  /** `normalize_beta_record`: keys `id`, `member`, `code`, `error_msg`,
      `status`, `date`. */
  function NormalizeBetaRecord(rec: Record): (c: NormalizedClaim)
    ensures WellFormed(c) && c.source == Beta
  {
    NormalizeFields(
      Field(rec, "id"), Field(rec, "member"), Field(rec, "code"),
      Field(rec, "error_msg"), Field(rec, "status"), Field(rec, "date"),
      Beta)
  }

  /** Fed back the fields of a well-formed claim, the normalizers rebuild
      that claim: each raw value reaches its own field. */
  lemma NormalizeFieldsRoundTrip(c: NormalizedClaim)
    requires WellFormed(c)
    ensures NormalizeFields(c.claimId, c.patientId, c.procedureCode, c.denialReason,
                            StatusField(c.status), c.submittedAt, c.source) == c
  {
    NormalizedTextFixed(c.claimId);
    NormalizedTextFixed(c.patientId);
    NormalizedTextFixed(c.procedureCode);
    NormalizedTextFixed(c.denialReason);
    NormalizeStatusField(c.status);
    if c.submittedAt.Some? {
      ToIsoDateStringKeepsIso(c.submittedAt.value);
    }
  }

  /** The Alpha row that holds a claim's fields under their column names. */
  function AlphaRowOf(c: NormalizedClaim): (row: Record)
    ensures row.Keys == AlphaColumns
  {
    map["claim_id" := c.claimId, "patient_id" := c.patientId,
        "procedure_code" := c.procedureCode, "denial_reason" := c.denialReason,
        "status" := StatusField(c.status), "submitted_at" := c.submittedAt]
  }

  /** The Beta record that holds a claim's fields under their key names. */
  function BetaRecordOf(c: NormalizedClaim): (rec: Record)
    ensures rec.Keys == BetaKeys
  {
    map["id" := c.claimId, "member" := c.patientId,
        "code" := c.procedureCode, "error_msg" := c.denialReason,
        "status" := StatusField(c.status), "date" := c.submittedAt]
  }

  /** Every well-formed Alpha claim is the normalization of the row holding
      its fields under `claim_id`, `patient_id`, `procedure_code`,
      `denial_reason`, `status` and `submitted_at`. */
  lemma AlphaRoundTrip(c: NormalizedClaim)
    requires WellFormed(c) && c.source == Alpha
    ensures NormalizeAlphaRow(AlphaRowOf(c)) == c
  {
    var row := AlphaRowOf(c);
    assert Field(row, "claim_id") == c.claimId;
    assert Field(row, "patient_id") == c.patientId;
    assert Field(row, "procedure_code") == c.procedureCode;
    assert Field(row, "denial_reason") == c.denialReason;
    assert Field(row, "status") == StatusField(c.status);
    assert Field(row, "submitted_at") == c.submittedAt;
    NormalizeFieldsRoundTrip(c);
  }

  /** Every well-formed Beta claim is the normalization of the record holding
      its fields under `id`, `member`, `code`, `error_msg`, `status` and
      `date`. */
  lemma BetaRoundTrip(c: NormalizedClaim)
    requires WellFormed(c) && c.source == Beta
    ensures NormalizeBetaRecord(BetaRecordOf(c)) == c
  {
    var rec := BetaRecordOf(c);
    assert Field(rec, "id") == c.claimId;
    assert Field(rec, "member") == c.patientId;
    assert Field(rec, "code") == c.procedureCode;
    assert Field(rec, "error_msg") == c.denialReason;
    assert Field(rec, "status") == StatusField(c.status);
    assert Field(rec, "date") == c.submittedAt;
    NormalizeFieldsRoundTrip(c);
  }

  const AlphaColumns: set<string> :=
    {"claim_id", "patient_id", "procedure_code", "denial_reason", "status", "submitted_at"}

  const BetaKeys: set<string> :=
    {"id", "member", "code", "error_msg", "status", "date"}

  /** Columns other than the six named ones are ignored. */
  lemma AlphaIgnoresExtraColumns(r1: Record, r2: Record)
    requires forall k :: k in AlphaColumns ==> Field(r1, k) == Field(r2, k)
    ensures NormalizeAlphaRow(r1) == NormalizeAlphaRow(r2)
  {
    assert Field(r1, "claim_id") == Field(r2, "claim_id");
    assert Field(r1, "patient_id") == Field(r2, "patient_id");
    assert Field(r1, "procedure_code") == Field(r2, "procedure_code");
    assert Field(r1, "denial_reason") == Field(r2, "denial_reason");
    assert Field(r1, "status") == Field(r2, "status");
    assert Field(r1, "submitted_at") == Field(r2, "submitted_at");
  }

  /** `read_alpha_csv`: one claim per row, in row order. */
  function ReadAlphaCsv(rows: seq<Record>): (claims: seq<NormalizedClaim>)
    ensures |claims| == |rows|
    ensures forall i :: 0 <= i < |rows| ==> claims[i] == NormalizeAlphaRow(rows[i])
  {
    seq(|rows|, i requires 0 <= i < |rows| => NormalizeAlphaRow(rows[i]))
  }

  /** The Beta document, as `json.load` returns it. Object fields are kept
      as text or null, the only shapes the record normalizer reads. */
  datatype Json =
    | JNull
    | JBool(b: bool)
    | JNumber(n: int)
    | JString(s: string)
    | JArray(items: seq<Json>)
    | JObject(fields: Record)

  /** The object elements of a list, in order: the `isinstance(rec, dict)`
      filter of the Beta reader. */
  function ObjectsOf(items: seq<Json>): (objs: seq<Record>)
    ensures |objs| <= |items|
    ensures forall k :: 0 <= k < |objs| ==> JObject(objs[k]) in items
    ensures forall i :: 0 <= i < |items| && items[i].JObject? ==> items[i].fields in objs
    ensures (forall i :: 0 <= i < |items| ==> !items[i].JObject?) ==> objs == []
  {
    if items == [] then []
    else
      var rest := ObjectsOf(items[1..]);
      if items[0].JObject? then [items[0].fields] + rest else rest
  }

  /** Filtering a list extended by one element: an object is kept at the
      end, anything else is skipped. */
  lemma ObjectsOfAppend(items: seq<Json>, x: Json)
    ensures ObjectsOf(items + [x]) == ObjectsOf(items) + (if x.JObject? then [x.fields] else [])
  {
    if items != [] {
      assert (items + [x])[1..] == items[1..] + [x];
    }
  }

  /** Extending a prefix by one element extends its objects by that element
      when it is an object. */
  lemma ObjectsOfPrefix(items: seq<Json>, i: nat)
    requires i < |items|
    ensures ObjectsOf(items[..i + 1]) == ObjectsOf(items[..i]) + (if items[i].JObject? then [items[i].fields] else [])
  {
    assert items[..i + 1] == items[..i] + [items[i]];
    ObjectsOfAppend(items[..i], items[i]);
  }

  /** A list of objects only keeps every element, in order. */
  lemma {:induction false} ObjectsOfAllObjects(items: seq<Json>)
    requires forall i :: 0 <= i < |items| ==> items[i].JObject?
    ensures ObjectsOf(items) == seq(|items|, i requires 0 <= i < |items| => items[i].fields)
  {
    if items != [] {
      ObjectsOfAllObjects(items[1..]);
    }
  }

  /** The claims the Beta reader yields for a document: none unless it is a
      list, then one per object element in order. */
  function BetaClaims(doc: Json): (claims: seq<NormalizedClaim>)
    ensures !doc.JArray? ==> claims == []
    ensures doc.JArray? ==> |claims| == |ObjectsOf(doc.items)|
    ensures doc.JArray? ==>
      forall i :: 0 <= i < |claims| ==> claims[i] == NormalizeBetaRecord(ObjectsOf(doc.items)[i])
    ensures forall i :: 0 <= i < |claims| ==> claims[i].source == Beta && WellFormed(claims[i])
  {
    if doc.JArray? then
      var objs := ObjectsOf(doc.items);
      seq(|objs|, i requires 0 <= i < |objs| => NormalizeBetaRecord(objs[i]))
    else []
  }

  /** `read_beta_json`: a document that is not a list yields nothing; other
      elements than objects are skipped; each object yields one claim. */
  method ReadBetaJson(doc: Json) returns (claims: seq<NormalizedClaim>)
    ensures !doc.JArray? ==> claims == []
    ensures claims == BetaClaims(doc)
    ensures doc.JArray? ==> |claims| <= |doc.items|
    ensures forall i :: 0 <= i < |claims| ==> claims[i].source == Beta
  {
    claims := [];
    if !doc.JArray? {
      return;
    }
    var items := doc.items;
    var i := 0;
    while i < |items|
      invariant 0 <= i <= |items|
      invariant |claims| == |ObjectsOf(items[..i])|
      invariant forall j :: 0 <= j < |claims| ==> claims[j] == NormalizeBetaRecord(ObjectsOf(items[..i])[j])
    {
      ObjectsOfPrefix(items, i);
      var rec := items[i];
      if rec.JObject? {
        claims := claims + [NormalizeBetaRecord(rec.fields)];
      }
      i := i + 1;
    }
    assert items[..i] == items;
  }
}
