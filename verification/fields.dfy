/** The scalar field normalizers: claim status,
    nullable strings, and the denial-reason canonicalizer. */
module Fields {
  import opened Optional
  import opened Text

  /** The two status values a normalized claim may carry. */
  datatype Status = Approved | Denied

  function StatusText(st: Status): string
  {
    match st
    case Approved => "approved"
    case Denied => "denied"
  }

  /** `normalize_status`: strip, lower-case, and keep only the two known
      values. */
  function NormalizeStatus(raw: Option<string>): (r: Option<Status>)
    ensures raw.None? ==> r.None?
    ensures r.Some? <==> raw.Some? && Lower(Trim(raw.value)) in {"approved", "denied"}
    ensures r.Some? ==> StatusText(r.value) == Lower(Trim(raw.value))
  {
    if raw.None? then None
    else
      var value := Lower(Trim(raw.value));
      if value == "approved" then Some(Approved)
      else if value == "denied" then Some(Denied)
      else None
  }

  /** Each status text normalizes back to its status. */
  lemma NormalizeStatusText(st: Status)
    ensures NormalizeStatus(Some(StatusText(st))) == Some(st)
  {
    var t := StatusText(st);
    assert Trimmed(t);
    assert Lower(t) == t;
  }

  /** The text a source holds for an optional status: its word, or null. */
  function StatusField(st: Option<Status>): (raw: Option<string>)
    ensures raw.None? <==> st.None?
  {
    match st
    case None => None
    case Some(v) => Some(StatusText(v))
  }

  /** Normalizing the text of a status gives back that status, or nothing
      for null. */
  lemma NormalizeStatusField(st: Option<Status>)
    ensures NormalizeStatus(StatusField(st)) == st
  {
    if st.Some? {
      NormalizeStatusText(st.value);
    }
  }

  /** Status normalization ignores letter case. */
  lemma NormalizeStatusIgnoresCase(s: string)
    ensures NormalizeStatus(Some(Lower(s))) == NormalizeStatus(Some(s))
  {
    TrimLowerCommute(s);
    LowerIdempotent(Trim(s));
    assert Lower(Trim(Lower(s))) == Lower(Trim(s));
  }

  /** Status normalization ignores surrounding whitespace. */
  lemma NormalizeStatusIgnoresSpace(s: string)
    ensures NormalizeStatus(Some(Trim(s))) == NormalizeStatus(Some(s))
  {
    TrimIdempotent(s);
    assert Lower(Trim(Trim(s))) == Lower(Trim(s));
  }

  /** The lower-cased tokens `normalize_string_or_none` treats as absent. */
  const Sentinels: set<string> := {"", "none", "null", "nan"}

  /** A value the nullable-string normalizer can produce: absent, or
      stripped, non-empty and not a sentinel token. */
  predicate IsNormalizedText(o: Option<string>)
  {
    o.None? || (Trimmed(o.value) && Lower(o.value) !in Sentinels)
  }

  /** `normalize_string_or_none`: strip; `None` for a missing value or a
      sentinel token in any letter case; otherwise the stripped text with its
      case kept. */
  function NormalizeStringOrNone(raw: Option<string>): (r: Option<string>)
    ensures r.None? <==> raw.None? || Lower(Trim(raw.value)) in Sentinels
    ensures r.Some? ==> r.value == Trim(raw.value)
    ensures IsNormalizedText(r)
  {
    if raw.None? then None
    else
      var value := Trim(raw.value);
      if Lower(value) in Sentinels then None else Some(value)
  }

  /** A normalized value is never the empty string. */
  lemma NormalizedTextNonEmpty(o: Option<string>)
    requires IsNormalizedText(o) && o.Some?
    ensures o.value != ""
  {
    assert Lower("") == "";
  }

  /** Normalizing a normalized value changes nothing. */
  lemma NormalizeStringOrNoneIdempotent(raw: Option<string>)
    ensures NormalizeStringOrNone(NormalizeStringOrNone(raw)) == NormalizeStringOrNone(raw)
  {
  }

  /** A value that is already normalized passes through both text
      normalizers unchanged. */
  lemma NormalizedTextFixed(o: Option<string>)
    requires IsNormalizedText(o)
    ensures NormalizeStringOrNone(o) == o
    ensures CanonicalizeDenialReason(o) == o
  {
  }

  /** `canonicalize_denial_reason`: the nullable-string normalizer followed by
      a second strip. */
  function CanonicalizeDenialReason(raw: Option<string>): (r: Option<string>)
    ensures IsNormalizedText(r)
  {
    var value := NormalizeStringOrNone(raw);
    if value.None? then None else Some(Trim(value.value))
  }

  /** The second strip is a no-op, so canonicalizing a denial reason is the
      same as the nullable-string normalizer: case is never altered. */
  lemma CanonicalizeIsNormalize(raw: Option<string>)
    ensures CanonicalizeDenialReason(raw) == NormalizeStringOrNone(raw)
  {
  }
}
