/** The denial-reason classifier: three fixed
    case-insensitive tables (retryable, non-retryable, ambiguous), one
    recommended action per canonical label, and a non-retryable default. */
module Classifier {
  import opened Optional
  import opened Text
  import opened Fields

  /** `(is_retryable, canonical_reason, recommended_action)`. */
  datatype Classification = Classification(retryable: bool, reason: Option<string>, action: Option<string>)

  const NoReasonAction: string := "No denial reason provided; cannot determine if retryable"

  /** Lower-cased reason -> canonical label; always retryable. */
  const RetryableTable: map<string, string> := map[
    "missing modifier" := "Missing modifier",
    "incorrect npi" := "Incorrect NPI",
    "prior auth required" := "Prior auth required"
  ]

  /** Lower-cased reason -> canonical label; never retryable. */
  const NonRetryableTable: map<string, string> := map[
    "authorization expired" := "Authorization expired",
    "incorrect provider type" := "Incorrect provider type"
  ]

  /** Lower-cased reason -> (verdict, canonical label) for the heuristic cases. */
  const AmbiguousTable: map<string, (bool, string)> := map[
    "incorrect procedure" := (false, "Incorrect procedure"),
    "form incomplete" := (true, "Form incomplete"),
    "not billable" := (false, "Not billable")
  ]

  /** Canonical label -> recommended action. */
  const RecommendedChanges: map<string, string> := map[
    "Missing modifier" := "Add the appropriate modifier based on payer rules and resubmit",
    "Incorrect NPI" := "Correct the NPI (rendering and/or billing) and resubmit",
    "Prior auth required" := "Obtain or attach proof of prior authorization and resubmit",
    "Authorization expired" := "Obtain a new authorization; resubmit only if policy allows",
    "Incorrect provider type" := "Verify provider taxonomy/role and adjust claim if applicable",
    "Incorrect procedure" := "Verify the CPT/HCPCS code; correct coding prior to any resubmission",
    "Form incomplete" := "Fill all required fields and attach missing documentation, then resubmit",
    "Not billable" := "Review payer policy; consider alternative coding or an appeal"
  ]

  /** Every reason any table recognizes, lower-cased. */
  const KnownReasons: set<string> := {
    "missing modifier", "incorrect npi", "prior auth required",
    "authorization expired", "incorrect provider type",
    "incorrect procedure", "form incomplete", "not billable"
  }

  /** The reasons the classifier calls retryable, whichever table holds them. */
  const RetryableReasons: set<string> := {
    "missing modifier", "incorrect npi", "prior auth required", "form incomplete"
  }

  /** The action reported for a reason no table knows, quoting it verbatim. */
  function UnrecognizedAction(reason: string): string
  {
    "Unrecognized denial reason '" + reason + "'; defaulting to non-retryable"
  }

  /** The entry a table holds for a key, or nothing when the key is not in
      the table. */
  function Lookup(m: map<string, string>, k: string): Option<string>
  {
    if k in m then Some(m[k]) else None
  }

  /** Each canonical label lower-cases to the table key it is stored under. */
  lemma RetryableLabelsMatchKeys()
    ensures forall k :: k in RetryableTable ==> Lower(RetryableTable[k]) == k
  {
    assert Lower("Missing modifier") == "missing modifier";
    assert Lower("Incorrect NPI") == "incorrect npi";
    assert Lower("Prior auth required") == "prior auth required";
  }

  lemma NonRetryableLabelsMatchKeys()
    ensures forall k :: k in NonRetryableTable ==> Lower(NonRetryableTable[k]) == k
  {
    assert Lower("Authorization expired") == "authorization expired";
    assert Lower("Incorrect provider type") == "incorrect provider type";
  }

  lemma AmbiguousLabelsMatchKeys()
    ensures forall k :: k in AmbiguousTable ==> Lower(AmbiguousTable[k].1) == k
  {
    assert Lower("Incorrect procedure") == "incorrect procedure";
    assert Lower("Form incomplete") == "form incomplete";
    assert Lower("Not billable") == "not billable";
  }

  /** The table lookup of `classify_denial_reason` for the lower-cased
      `key` of a present, canonicalized `reason`. */
  function ClassifyKey(key: string, reason: string): (c: Classification)
  {
    if key in RetryableTable then
      var canonical := RetryableTable[key];
      Classification(true, Some(canonical), Lookup(RecommendedChanges, canonical))
    else if key in NonRetryableTable then
      var canonical := NonRetryableTable[key];
      Classification(false, Some(canonical), Lookup(RecommendedChanges, canonical))
    else if key in AmbiguousTable then
      var (retryable, canonical) := AmbiguousTable[key];
      Classification(retryable, Some(canonical), Lookup(RecommendedChanges, canonical))
    else
      Classification(false, Some(reason), Some(UnrecognizedAction(reason)))
  }

  lemma KeyHasAction(key: string, reason: string)
    ensures ClassifyKey(key, reason).action.Some?
  {
  }

  lemma KeyRetryable(key: string, reason: string)
    ensures ClassifyKey(key, reason).retryable <==> key in RetryableReasons
  {
  }

  lemma KeyLabel(key: string, reason: string)
    requires Lower(reason) == key
    ensures ClassifyKey(key, reason).reason.Some?
    ensures Lower(ClassifyKey(key, reason).reason.value) == key
  {
    if key in RetryableTable {
      RetryableLabelsMatchKeys();
    } else if key in NonRetryableTable {
      NonRetryableLabelsMatchKeys();
    } else if key in AmbiguousTable {
      AmbiguousLabelsMatchKeys();
    }
  }

  lemma KeyKnown(key: string, reason: string)
    ensures key in KnownReasons ==>
      var c := ClassifyKey(key, reason);
      c.reason.Some? && c.reason.value in RecommendedChanges && c.action == Some(RecommendedChanges[c.reason.value])
    ensures key !in KnownReasons ==>
      ClassifyKey(key, reason) == Classification(false, Some(reason), Some(UnrecognizedAction(reason)))
  {
  }

  /** `classify_denial_reason`: total over every input. */
  function ClassifyDenialReason(raw: Option<string>): (c: Classification)
    // A missing or sentinel reason cannot be judged.
    ensures CanonicalizeDenialReason(raw).None? ==> c == Classification(false, None, Some(NoReasonAction))
    // Every verdict carries a recommended action.
    ensures c.action.Some?
    // Retryable exactly for the four retryable reasons, in any letter case.
    ensures c.retryable <==>
      CanonicalizeDenialReason(raw).Some? && Lower(CanonicalizeDenialReason(raw).value) in RetryableReasons
    // The label is the reason itself up to letter case.
    ensures CanonicalizeDenialReason(raw).Some? ==>
      c.reason.Some? && Lower(c.reason.value) == Lower(CanonicalizeDenialReason(raw).value)
    // A recognized reason gets its label's fixed action.
    ensures CanonicalizeDenialReason(raw).Some? && Lower(CanonicalizeDenialReason(raw).value) in KnownReasons ==>
      c.reason.value in RecommendedChanges && c.action == Some(RecommendedChanges[c.reason.value])
    // Anything else is non-retryable and reported with its original casing.
    ensures CanonicalizeDenialReason(raw).Some? && Lower(CanonicalizeDenialReason(raw).value) !in KnownReasons ==>
      var reason := CanonicalizeDenialReason(raw).value;
      c == Classification(false, Some(reason), Some(UnrecognizedAction(reason)))
  {
    var reason := CanonicalizeDenialReason(raw);
    if reason.None? then Classification(false, None, Some(NoReasonAction))
    else
      var key := Lower(reason.value);
      KeyHasAction(key, reason.value);
      KeyRetryable(key, reason.value);
      KeyLabel(key, reason.value);
      KeyKnown(key, reason.value);
      ClassifyKey(key, reason.value)
  }

  /** For a recognized key the result does not depend on how the reason
      was spelled. */
  lemma KeyKnownIgnoresSpelling(key: string, r1: string, r2: string)
    requires key in KnownReasons
    ensures ClassifyKey(key, r1) == ClassifyKey(key, r2)
  {
  }

  /** The lookup is case-insensitive: lower-casing the raw reason keeps the
      verdict, and for a recognized reason the whole result. */
  lemma ClassifyIgnoresCase(s: string)
    ensures ClassifyDenialReason(Some(Lower(s))).retryable == ClassifyDenialReason(Some(s)).retryable
    ensures Lower(Trim(s)) in KnownReasons ==>
      ClassifyDenialReason(Some(Lower(s))) == ClassifyDenialReason(Some(s))
  {
    var t := Trim(s);
    CanonicalizeLower(s);
    if CanonicalizeDenialReason(Some(s)).Some? {
      var key := Lower(t);
      ClassifyPresent(Some(s));
      ClassifyPresent(Some(Lower(s)));
      KeyRetryable(key, t);
      KeyRetryable(key, key);
      if key in KnownReasons {
        KeyKnownIgnoresSpelling(key, t, key);
      }
    }
  }

  /** Lower-casing the raw reason lower-cases its canonical form and nothing
      else. */
  lemma CanonicalizeLower(s: string)
    ensures CanonicalizeDenialReason(Some(Lower(s))).None? <==> CanonicalizeDenialReason(Some(s)).None?
    ensures CanonicalizeDenialReason(Some(s)).Some? ==>
      && CanonicalizeDenialReason(Some(s)).value == Trim(s)
      && CanonicalizeDenialReason(Some(Lower(s))).value == Lower(Trim(s))
      && Lower(Lower(Trim(s))) == Lower(Trim(s))
  {
    TrimLowerCommute(s);
    LowerIdempotent(Trim(s));
    CanonicalizeIsNormalize(Some(s));
    CanonicalizeIsNormalize(Some(Lower(s)));
  }

  /** A present reason is classified by looking up its lower-cased form. */
  lemma ClassifyPresent(raw: Option<string>)
    ensures CanonicalizeDenialReason(raw).Some? ==>
      var reason := CanonicalizeDenialReason(raw).value;
      ClassifyDenialReason(raw) == ClassifyKey(Lower(reason), reason)
  {
  }

  /** The lookup takes the label from the table that holds the key, and the
      verdict from the ambiguous table for its keys. */
  lemma KeyTables(key: string, reason: string)
    ensures key in RetryableTable ==> ClassifyKey(key, reason).reason == Some(RetryableTable[key])
    ensures key in NonRetryableTable ==> ClassifyKey(key, reason).reason == Some(NonRetryableTable[key])
    ensures key in AmbiguousTable ==>
      ClassifyKey(key, reason).reason == Some(AmbiguousTable[key].1)
      && ClassifyKey(key, reason).retryable == AmbiguousTable[key].0
  {
  }

  /** A recognized reason gets the label of the table that holds it. */
  lemma ClassifyUsesTables(raw: Option<string>)
    ensures CanonicalizeDenialReason(raw).Some? ==>
      var key := Lower(CanonicalizeDenialReason(raw).value);
      && (key in RetryableTable ==> ClassifyDenialReason(raw).reason == Some(RetryableTable[key]))
      && (key in NonRetryableTable ==> ClassifyDenialReason(raw).reason == Some(NonRetryableTable[key]))
      && (key in AmbiguousTable ==>
            ClassifyDenialReason(raw).reason == Some(AmbiguousTable[key].1)
            && ClassifyDenialReason(raw).retryable == AmbiguousTable[key].0)
  {
    if CanonicalizeDenialReason(raw).Some? {
      var reason := CanonicalizeDenialReason(raw).value;
      ClassifyPresent(raw);
      KeyTables(Lower(reason), reason);
    }
  }

  /** An unrecognized reason keeps its casing in the label and the message. */
  lemma WeirdReasonDefault()
    ensures ClassifyDenialReason(Some("Weird Reason")) ==
      Classification(false, Some("Weird Reason"), Some(UnrecognizedAction("Weird Reason")))
  {
    WeirdReasonIsKept();
    WeirdReasonIsUnknown();
  }

  lemma WeirdReasonIsKept()
    ensures CanonicalizeDenialReason(Some("Weird Reason")) == Some("Weird Reason")
  {
    var r := "Weird Reason";
    assert Trimmed(r);
    assert Lower(r) == "weird reason";
    CanonicalizeIsNormalize(Some(r));
  }

  lemma WeirdReasonIsUnknown()
    ensures Lower("Weird Reason") !in KnownReasons
  {
    assert Lower("Weird Reason") == "weird reason";
  }

  /** A recognized reason in any letter case gets the canonical label. */
  lemma MissingModifierRetryable()
    ensures ClassifyDenialReason(Some("Missing Modifier")) ==
      Classification(true, Some("Missing modifier"),
                     Some("Add the appropriate modifier based on payer rules and resubmit"))
  {
    var r := "Missing Modifier";
    MissingModifierIsKept();
    ClassifyPresent(Some(r));
    MissingModifierKey(r);
  }

  lemma MissingModifierKey(reason: string)
    ensures ClassifyKey("missing modifier", reason) ==
      Classification(true, Some("Missing modifier"),
                     Some("Add the appropriate modifier based on payer rules and resubmit"))
  {
  }

  lemma MissingModifierIsKept()
    ensures CanonicalizeDenialReason(Some("Missing Modifier")) == Some("Missing Modifier")
    ensures Lower("Missing Modifier") == "missing modifier"
  {
    var r := "Missing Modifier";
    assert Trimmed(r);
    assert Lower(r) == "missing modifier";
    CanonicalizeIsNormalize(Some(r));
  }
}
