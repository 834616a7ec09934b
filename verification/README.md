# Denied-claim resubmission pipeline, in Dafny

This project models the core of `claim_pipeline.py`, a batch job that reads
insurance claims from two sources:

- "Alpha", a CSV file of rows;
- "Beta", a JSON list of records.

The job normalizes every claim into one canonical shape and runs it through
four eligibility gates, in order:

1. the status must be `denied`;
2. a patient id must be present;
3. the claim must be more than 7 days old on the fixed reference date
   2025-07-30;
4. the denial reason must be retryable.

It counts every claim, either as eligible or under exactly one exclusion
reason. Each eligible claim becomes a resubmission candidate that carries
the classifier's canonical reason and recommended action.

The modules follow the program's layers:

| file | module | what it models |
|---|---|---|
| `text.dfy` | `Optional`, `Text` | Python's `None`/value, `str.strip()` and `str.lower()` |
| `dates.dfy` | `Dates` | `REFERENCE_TODAY`, `to_iso_date_string` (the `fromisoformat` date form, then the `strptime("%Y-%m-%d")` fallback), `date.toordinal`, `days_between` |
| `fields.dfy` | `Fields` | `normalize_status`, `normalize_string_or_none`, `canonicalize_denial_reason` |
| `classifier.dfy` | `Classifier` | `classify_denial_reason`, with its three tables and action map |
| `claims.dfy` | `Claims` | `NormalizedClaim`, the two record normalizers, and the two readers with Beta's shape filtering |
| `eligibility.dfy` | `Metrics`, `Eligibility` | `PipelineMetrics`, `increment`, `is_eligible_for_resubmission` |
| `pipeline.dfy` | `Pipeline` | `handle_claim` and the reading loop of `process_claims` |

How the model is shaped:

- **Values, not mutation.** The metrics and the candidate list are threaded
  as values, not mutated.
- **Gate inputs computed up front.** The two derived inputs the later gates
  consult are the claim's age in days and the classifier's verdict. They
  are computed ahead of the gates as a `GateInputs` value. Both are pure
  functions of the claim, so this changes nothing.
- **The fold.** The fold over a run (`HandleAll`) takes the map from claim
  to gate inputs as a parameter. `ProcessClaims` instantiates it with the
  real one, `InputsOf`.
- **Missing files.** A source file that does not exist is `None`.
- **Beta document.** The parsed Beta document is a small JSON datatype.
- **Rows and records.** A CSV row or JSON object is a map from field name to
  text or null. A missing key reads as null, as `dict.get` does.

## Model

Two members carry no contract of their own and so have no row. The fold
over a run, `Pipeline.HandleAll` (claim_pipeline.py:271-282), is described
by the `Pipeline.HandleAll*` lemmas and by `Pipeline.Summary`. The table
lookup for one lower-cased key, `Classifier.ClassifyKey`
(claim_pipeline.py:110-122), is described by `Classifier.KeyTables`,
`Classifier.ClassifyPresent` and `Classifier.ClassifyUsesTables`.

| member | source | states |
|---|---|---|
| Text.Trim | claim_pipeline.py:53 | `strip()` leaves no leading or trailing whitespace (Python's `isspace` set), never lengthens, keeps an already-stripped string, and is empty exactly when the input is all whitespace |
| Text.TrimBounds | claim_pipeline.py:53 | `strip()` returns the slice of the input between its leading and its trailing whitespace: everything cut before or after the slice is whitespace |
| Text.TrimStart | claim_pipeline.py:53 | the leading cut is a suffix, everything removed is whitespace, and what remains does not start with whitespace |
| Text.TrimEnd | claim_pipeline.py:53 | the trailing cut is a prefix, everything removed is whitespace, and what remains does not end with whitespace |
| Text.Lower | claim_pipeline.py:54 | `lower()` keeps the length, maps each character through the ASCII case mapping, and leaves no upper-case letter |
| Text.TrimIdempotent | claim_pipeline.py:53 | stripping twice is stripping once |
| Text.LowerIdempotent | claim_pipeline.py:54 | lower-casing twice is lower-casing once |
| Text.TrimLowerCommute | claim_pipeline.py:44 | `strip().lower()` equals `lower().strip()`, so the order of the two calls in the normalizers does not matter |
| Dates.OrdinalFirstDay | claim_pipeline.py:64 | `toordinal()` numbers 0001-01-01 as day 1; with `Dates.OrdinalCountsDays` this fixes the ordinal of every date |
| Dates.OrdinalCountsDays | claim_pipeline.py:64 | consecutive calendar days have consecutive ordinals, across month and year ends and leap days |
| Dates.NextDay | claim_pipeline.py:64 | the next calendar day of a valid date is a valid date |
| Dates.FormatIso | claim_pipeline.py:30 | `date.isoformat()` is ten characters with dashes at positions 4 and 7 |
| Dates.ParseIsoFormat | claim_pipeline.py:29 | the date-only form `fromisoformat` accepts yields only real calendar dates |
| Dates.ParseStrptime | claim_pipeline.py:35 | `strptime("%Y-%m-%d")` yields only real calendar dates, from text of eight to ten characters that opens with the date's four-digit year and a dash |
| Dates.ParseFormatIso | claim_pipeline.py:29-36 | both parsers read the ISO text of any valid date back as that date |
| Dates.FormatParseIso | claim_pipeline.py:29-30 | formatting a parsed ISO date gives back the exact input text |
| Dates.StrptimeAcceptsIso | claim_pipeline.py:27-36 | on canonical ISO text the `strptime` fallback agrees with `fromisoformat` |
| Dates.ToIsoDateString | claim_pipeline.py:21-38 | a missing or blank value gives `None`; any other value gives `None` exactly when `strptime` rejects its stripped text, and otherwise the ISO text of the date `strptime` reads, since the modelled date-only `fromisoformat` accepts nothing `strptime` would reject; every result is canonical ISO date text |
| Dates.StrptimeAcceptsUnpadded | claim_pipeline.py:33-36 | the fallback reads a date whose month and day are written as single digits |
| Dates.DayTokenReadsSpelling | claim_pipeline.py:35 | `%d` reads a day written zero-padded, as one digit, or as one digit after a space, as that day |
| Dates.DayTokenSpelling | claim_pipeline.py:35 | `%d` reads nothing but those spellings of the day it returns |
| Dates.StrptimeReadsSpellings | claim_pipeline.py:33-36 | `strptime` reads four year digits, a dash, any spelling of the month (padded, or one digit), a dash and any spelling of the day as that date |
| Dates.StrptimeOnlySpellings | claim_pipeline.py:33-36 | any text `strptime` reads is exactly such a spelling of the date it returns |
| Dates.ToIsoDateStringReadsSpellings | claim_pipeline.py:21-38 | every such spelling comes back as the date's zero-padded ISO text |
| Dates.StrptimeRejectsTrailing | claim_pipeline.py:35 | the fallback rejects a valid ISO date followed by any extra character |
| Dates.ToIsoDateStringPadsUnpadded | claim_pipeline.py:21-38 | a date with single-digit month and day comes back as zero-padded ISO text |
| Dates.ToIsoDateStringKeepsIso | claim_pipeline.py:21-30 | canonical ISO date text passes through unchanged |
| Dates.DaysBetween | claim_pipeline.py:59-66 | there is a result exactly when the unstripped value is present and `strptime` parses it; the result is the ordinal of 2025-07-30 minus the parsed date's ordinal |
| Dates.DaysBetweenOfDate | claim_pipeline.py:59-66 | for a valid date's ISO text, the result is the ordinal of 2025-07-30 minus the date's ordinal |
| Dates.DaysBetweenReferenceDay | claim_pipeline.py:59-66 | the reference date itself is 0 days old |
| Dates.DaysBetweenNextDay | claim_pipeline.py:59-66 | a date one day later is one day younger |
| Dates.SevenDayBoundary | claim_pipeline.py:59-66 | 2025-07-23 is 7 days old and 2025-07-22 is 8 days old |
| Fields.NormalizeStatus | claim_pipeline.py:41-47 | the status is `approved`, `denied` or absent, and is present exactly when the stripped, lower-cased input is one of those two words |
| Fields.NormalizeStatusText | claim_pipeline.py:41-47 | each status word normalizes back to its status |
| Fields.NormalizeStatusField | claim_pipeline.py:41-47 | the text of an optional status (its word, or null) normalizes back to that status |
| Fields.NormalizedTextFixed | claim_pipeline.py:50-73 | a value already stripped and sentinel-free passes through both text normalizers unchanged |
| Fields.NormalizeStatusIgnoresCase | claim_pipeline.py:44 | status normalization ignores letter case |
| Fields.NormalizeStatusIgnoresSpace | claim_pipeline.py:44 | status normalization ignores surrounding whitespace |
| Fields.NormalizeStringOrNone | claim_pipeline.py:50-56 | absent exactly for a missing value or a sentinel (`""`, `none`, `null`, `nan` in any case); otherwise the stripped text with its case kept |
| Fields.NormalizedTextNonEmpty | claim_pipeline.py:50-56 | a normalized value is never the empty string |
| Fields.NormalizeStringOrNoneIdempotent | claim_pipeline.py:50-56 | normalizing a normalized value changes nothing |
| Fields.CanonicalizeDenialReason | claim_pipeline.py:69-73 | the result is stripped and free of sentinels |
| Fields.CanonicalizeIsNormalize | claim_pipeline.py:69-73 | canonicalizing a denial reason equals the nullable-string normalizer: the second strip is a no-op and case is never altered |
| Classifier.RetryableLabelsMatchKeys | claim_pipeline.py:82-86 | each retryable label lower-cases to its table key |
| Classifier.NonRetryableLabelsMatchKeys | claim_pipeline.py:87-90 | each non-retryable label lower-cases to its table key |
| Classifier.AmbiguousLabelsMatchKeys | claim_pipeline.py:91-97 | each ambiguous label lower-cases to its table key |
| Classifier.KeyRetryable | claim_pipeline.py:110-122 | the table lookup is retryable exactly for the four retryable keys, including `form incomplete` from the ambiguous table |
| Classifier.KeyHasAction | claim_pipeline.py:110-122 | every table lookup carries an action |
| Classifier.KeyLabel | claim_pipeline.py:110-122 | the label lower-cases to the lookup key |
| Classifier.KeyKnown | claim_pipeline.py:99-122 | a known key gets its label's fixed action; an unknown one gets the non-retryable default that quotes the reason |
| Classifier.ClassifyDenialReason | claim_pipeline.py:76-122 | missing reason: `(False, None, "No denial reason …")`; retryable exactly for the four retryable reasons in any case; the label equals the reason up to case; known reasons get their fixed action; unknown ones are non-retryable with their original casing kept |
| Classifier.KeyTables | claim_pipeline.py:110-119 | a key in a table gets that table's label, and an ambiguous key its table's verdict |
| Classifier.ClassifyPresent | claim_pipeline.py:77-110 | a present reason is classified by looking up its canonical form, lower-cased |
| Classifier.ClassifyUsesTables | claim_pipeline.py:110-119 | a reason whose lower-cased form is in a table gets that table's label, and the ambiguous table's verdict for its keys |
| Classifier.CanonicalizeLower | claim_pipeline.py:69-73 | lower-casing a raw reason lower-cases its canonical form and keeps it absent or present |
| Classifier.KeyKnownIgnoresSpelling | claim_pipeline.py:110-119 | for a known key the result does not depend on how the reason was spelled |
| Classifier.ClassifyIgnoresCase | claim_pipeline.py:110 | lower-casing the raw reason keeps the verdict, and for a known reason the whole result |
| Classifier.WeirdReasonDefault | claim_pipeline.py:121-122 | `Weird Reason` is non-retryable, keeps its casing, and is quoted in the default action |
| Classifier.MissingModifierKey | claim_pipeline.py:83-113 | the key `missing modifier` is retryable, with label `Missing modifier` and the modifier action |
| Classifier.MissingModifierRetryable | claim_pipeline.py:83-113 | `Missing Modifier` is retryable with label `Missing modifier` and the modifier action |
| Claims.NormalizeFields | claim_pipeline.py:136-157 | every normalized claim is well formed: text fields stripped and sentinel-free, date canonical |
| Claims.NormalizeAlphaRow | claim_pipeline.py:136-145 | an Alpha row gives a well-formed claim with source Alpha |
| Claims.NormalizeBetaRecord | claim_pipeline.py:148-157 | a Beta record gives a well-formed claim with source Beta |
| Claims.NormalizeFieldsRoundTrip | claim_pipeline.py:136-157 | fed a well-formed claim's own fields, the six normalizers rebuild that claim, so each raw value reaches its own field |
| Claims.AlphaRoundTrip | claim_pipeline.py:136-145 | every well-formed Alpha claim is the normalization of the row holding its fields under `claim_id`, `patient_id`, `procedure_code`, `denial_reason`, `status` and `submitted_at` |
| Claims.BetaRoundTrip | claim_pipeline.py:148-157 | every well-formed Beta claim is the normalization of the record holding its fields under `id`, `member`, `code`, `error_msg`, `status` and `date` |
| Claims.AlphaIgnoresExtraColumns | claim_pipeline.py:136-145 | columns other than the six named ones do not affect the claim |
| Claims.ReadAlphaCsv | claim_pipeline.py:160-167 | one claim per row, in row order, each the row's normalization |
| Claims.ObjectsOf | claim_pipeline.py:176-179 | the `isinstance(rec, dict)` filter keeps every object element of the list and nothing else, never more than the list holds, and nothing from a list without objects |
| Claims.ObjectsOfAppend | claim_pipeline.py:176-179 | order is kept: an object appended to the list is appended to the result, and anything else appended is skipped |
| Claims.ObjectsOfAllObjects | claim_pipeline.py:176-179 | a list made only of objects keeps every element's fields, in order |
| Claims.BetaClaims | claim_pipeline.py:170-183 | a non-list document gives no claims; a list gives one claim per object element, the i-th being the normalization of the i-th object; every claim is a well-formed Beta claim |
| Claims.ReadBetaJson | claim_pipeline.py:170-183 | the reading loop yields exactly the object elements' claims, in order; nothing for a non-list document; every claim has source Beta |
| Metrics.NewMetrics | claim_pipeline.py:186-199 | fresh metrics: both sources and all five exclusion keys present, every counter zero |
| Metrics.CountClaim | claim_pipeline.py:246-247 | one more claim processed and one more for its source; nothing else moves |
| Metrics.Increment | claim_pipeline.py:202-203 | exactly one exclusion counter rises by one, so the exclusion total rises by one |
| Eligibility.FirstFailingGateUnique | claim_pipeline.py:206-227 | a rejected claim is attributed to one gate only |
| Eligibility.EligibleOrAttributed | claim_pipeline.py:206-229 | a claim is eligible exactly when no gate is its first failing gate |
| Eligibility.Rejected | claim_pipeline.py:206-227 | a rejection at the first failing gate raises exactly that gate's counter |
| Eligibility.Accepted | claim_pipeline.py:229 | documents a definition: a claim that passes every gate is attributed to none |
| Eligibility.IsEligibleForResubmission | claim_pipeline.py:206-229 | eligible exactly when all four gates pass; exactly the first failing gate's counter rises, and an eligible claim leaves the metrics unchanged; the evaluator never moves the total, source or eligible counters; label and action are reported for eligible claims and last-gate rejections, and for no one else |
| Eligibility.NotDeniedCountedFirst | claim_pipeline.py:207-210 | a claim that is not denied counts as `status_not_denied`, whatever else is wrong with it |
| Eligibility.TooRecentGate | claim_pipeline.py:217-221 | a denied claim with a patient and an age of at most 7 days counts as `too_recent` |
| Eligibility.OldEnoughGate | claim_pipeline.py:217-229 | a denied claim with a patient, older than 7 days, is eligible exactly when its reason is retryable |
| Eligibility.SevenDayBoundaryDecides | claim_pipeline.py:217-229 | a denied claim with a patient, dated 2025-07-23, counts as too recent; dated 2025-07-22, it is eligible exactly when its reason is retryable |
| Pipeline.ZeroAccounted | claim_pipeline.py:235-236 | all-zero counters with no candidates are balanced |
| Pipeline.NewRun | claim_pipeline.py:235-236 | a run starts balanced, with zero counters and no candidates |
| Pipeline.HandleClaim | claim_pipeline.py:245-269 | one claim: the total and its source count rise by one, the first failing gate's counter rises, eligible claims are counted and append their candidate, and the exclusion total rises by one exactly for a rejected claim |
| Pipeline.HandleClaimAccounted | claim_pipeline.py:245-269 | one step keeps the balance `total == eligible + exclusions == alpha + beta` and `|candidates| == eligible` |
| Pipeline.HandleAllAccounted | claim_pipeline.py:271-282 | a whole run keeps the balance |
| Pipeline.HandleAllCounts | claim_pipeline.py:245-247 | a run counts every claim once, under its own source |
| Pipeline.HandleAllExclusions | claim_pipeline.py:249-252 | each exclusion counter rises by the number of claims whose first failing gate it is |
| Pipeline.HandleAllCandidates | claim_pipeline.py:262-269 | a run appends the accepted claims' candidates, in claim order |
| Pipeline.HandleAllAppend | claim_pipeline.py:271-282 | running over the Alpha claims then the Beta claims is running over their concatenation |
| Pipeline.EligibleCandidatesAppend | claim_pipeline.py:271-282 | the candidates of a concatenation are those of each part, in order |
| Pipeline.CandidatesFromEligibleClaims | claim_pipeline.py:262-269 | every candidate comes from an accepted claim of the run and carries its id, source, and the classifier's label and action |
| Pipeline.CountFromSingleSource | claim_pipeline.py:247 | claims of one source are all counted under it and under no other |
| Pipeline.CountFromAppend | claim_pipeline.py:247 | source counts add up over a concatenation |
| Pipeline.NeverMalformed | claim_pipeline.py:249-252 | documents a definition: no gate attributes a claim to `malformed_record`, so a run leaves that counter at zero |
| Pipeline.Summary | claim_pipeline.py:271-282 | from fresh metrics over Alpha then Beta claims: balanced, the total is the number of claims, the per-source counts are the per-source lengths, and the candidates are the accepted claims' in order |
| Pipeline.HandleEach | claim_pipeline.py:272-280 | the per-source loop equals the fold over the claims |
| Pipeline.AlphaInput | claim_pipeline.py:272-276 | a missing Alpha file gives no claims; otherwise one Alpha claim per row |
| Pipeline.BetaInput | claim_pipeline.py:278-282 | a missing Beta file gives no claims; otherwise the Beta reader's claims, all with source Beta |
| Pipeline.ProcessClaims | claim_pipeline.py:232-282 | the whole reading loop: the balance holds; the total is the number of claims read; Alpha and Beta counts are the row and object counts; each exclusion counts its first-failing claims; `malformed_record` is 0; the candidates are the eligible claims' in read order |

## Left out

- Files and formats:
  - Reading files, CSV and JSON parsing, and writing the candidates, metrics and rejection-log files are left out. A source is given as its parsed content, or `None` when the file does not exist.
  - Logging, `configure_logging`, argument parsing and `main` are left out.
  - The HTTP wrapper `api.py` is not part of this model.
- Exceptions:
  - The exception paths are not modelled: a row or record whose normalization raises, and an evaluation that raises and is counted as `malformed_record`. The modelled normalizers and evaluator are total, so `malformed_record` stays zero (`Pipeline.NeverMalformed`).
- Generators: the readers are generators that interleave with `handle_claim`. Each yields claims that do not depend on the handling, so the model reads a source whole and then folds over it.
- Dates.ToIsoDateString: does not model the rest of `datetime.fromisoformat`'s grammar. Forms with a time part, compact `YYYYMMDD` and ISO week dates are rejected, where Python would accept them and keep the date part. Non-ASCII decimal digits, which `strptime` also accepts, are not modelled either.
- Dates.ParseStrptime: models only the `%Y-%m-%d` directive set, with ASCII digits, and not a general `strptime`.
- Text.Lower: models the ASCII case mapping only. Python's `str.lower()` also maps non-ASCII letters.
- Claims.NormalizeBetaRecord: does not model `str()` coercion of non-string JSON values such as a numeric `id` or `date`. Record fields are text or null.
- Claims.ReadAlphaCsv: does not model `csv.DictReader`'s handling of short and long rows. A row is already a map from column name to text or null.
- Classifier.ClassifyDenialReason: a recognized label's action uses `dict.get`, which always finds an entry for the eight labels. The model states the found action rather than an optional lookup failure.
- The metrics' dictionary keys are the fixed source and exclusion vocabularies. `increment` on a key outside them, and a source name other than `alpha` or `beta`, cannot arise in the program and are not modelled.
- Integers are unbounded, as Python's are.
