/** `PipelineMetrics` and `increment`: one run's
    counters, threaded as a value. */
module Metrics {
  import opened Claims

  /** The fixed exclusion-reason vocabulary of `excluded_reasons_count`. */
  datatype Exclusion =
    | StatusNotDenied
    | MissingPatientId
    | TooRecent
    | NonRetryableReason
    | MalformedRecord

  datatype PipelineMetrics = PipelineMetrics(
    totalClaimsProcessed: nat,
    claimsBySource: map<Source, nat>,
    eligibleForResubmission: nat,
    excludedReasonsCount: map<Exclusion, nat>)

  /** How many claims of a source have been read; a source never counted
      reads as zero. */
  function SourceCount(m: PipelineMetrics, src: Source): nat
  {
    if src in m.claimsBySource then m.claimsBySource[src] else 0
  }

  /** How many claims an exclusion reason has turned away; a reason never
      counted reads as zero. */
  function ExcludedCount(m: PipelineMetrics, e: Exclusion): nat
  {
    if e in m.excludedReasonsCount then m.excludedReasonsCount[e] else 0
  }

  /** The total of all exclusion counters: every claim turned away, whatever
      the reason. */
  function ExcludedTotal(m: PipelineMetrics): nat
  {
    ExcludedCount(m, StatusNotDenied) + ExcludedCount(m, MissingPatientId)
    + ExcludedCount(m, TooRecent) + ExcludedCount(m, NonRetryableReason)
    + ExcludedCount(m, MalformedRecord)
  }

  /** `PipelineMetrics()`: every counter present and zero. */
  method NewMetrics() returns (m: PipelineMetrics)
    ensures m.totalClaimsProcessed == 0 && m.eligibleForResubmission == 0
    ensures m.claimsBySource.Keys == {Alpha, Beta}
    ensures m.excludedReasonsCount.Keys == {StatusNotDenied, MissingPatientId, TooRecent, NonRetryableReason, MalformedRecord}
    ensures forall src :: SourceCount(m, src) == 0
    ensures forall e :: ExcludedCount(m, e) == 0
  {
    m := PipelineMetrics(
      0,
      map[Alpha := 0, Beta := 0],
      0,
      map[StatusNotDenied := 0, MissingPatientId := 0, TooRecent := 0,
          NonRetryableReason := 0, MalformedRecord := 0]);
  }

  /** The first two lines of `handle_claim`: one more claim processed, from
      `src`; no other counter moves. */
  function CountClaim(m: PipelineMetrics, src: Source): (r: PipelineMetrics)
    ensures r.totalClaimsProcessed == m.totalClaimsProcessed + 1
    ensures SourceCount(r, src) == SourceCount(m, src) + 1
    ensures forall other :: other != src ==> SourceCount(r, other) == SourceCount(m, other)
    ensures SourceCount(r, Alpha) + SourceCount(r, Beta) == SourceCount(m, Alpha) + SourceCount(m, Beta) + 1
    ensures r.eligibleForResubmission == m.eligibleForResubmission
    ensures r.excludedReasonsCount == m.excludedReasonsCount
  {
    var r := m.(
      totalClaimsProcessed := m.totalClaimsProcessed + 1,
      claimsBySource := m.claimsBySource[src := SourceCount(m, src) + 1]);
    assert forall other :: other != src ==> SourceCount(r, other) == SourceCount(m, other);
    r
  }

  /** `increment(metrics, key)`: bumps one exclusion counter and nothing
      else, so the exclusion total grows by exactly one. */
  function Increment(m: PipelineMetrics, key: Exclusion): (r: PipelineMetrics)
    ensures ExcludedCount(r, key) == ExcludedCount(m, key) + 1
    ensures forall e :: e != key ==> ExcludedCount(r, e) == ExcludedCount(m, e)
    ensures r.totalClaimsProcessed == m.totalClaimsProcessed
    ensures r.claimsBySource == m.claimsBySource
    ensures r.eligibleForResubmission == m.eligibleForResubmission
    ensures ExcludedTotal(r) == ExcludedTotal(m) + 1
  {
    var r := m.(excludedReasonsCount := m.excludedReasonsCount[key := ExcludedCount(m, key) + 1]);
    assert forall e :: e != key ==> ExcludedCount(r, e) == ExcludedCount(m, e);
    r
  }
}

/** The four-gate eligibility evaluator `is_eligible_for_resubmission`. */
module Eligibility {
  import opened Optional
  import opened Dates
  import opened Fields
  import opened Classifier
  import opened Claims
  import opened Metrics

  /** `(eligible, canonical_reason, suggestion)`. */
  datatype Verdict = Verdict(eligible: bool, reason: Option<string>, suggestion: Option<string>)

  /** Claims no more than this many days old are too recent. */
  const RecentWindowDays: int := 7

  /** The two derived values the later gates consult: the claim's age in
      days (absent when its date is missing or does not parse) and the
      classifier's verdict on its denial reason. Both are pure functions of
      the claim, so computing them up front changes nothing. */
  datatype GateInputs = GateInputs(age: Option<int>, classification: Classification)

  /** The inputs the pipeline evaluates a claim with. */
  function InputsOf(c: NormalizedClaim): GateInputs
  {
    GateInputs(DaysBetween(c.submittedAt), ClassifyDenialReason(c.denialReason))
  }

  /** The exclusions that name a gate (all but `malformed_record`). */
  predicate IsGate(e: Exclusion)
  {
    e != MalformedRecord
  }

  /** Position of each gate in the evaluation order. */
  function GateIndex(e: Exclusion): nat
  {
    match e
    case StatusNotDenied => 0
    case MissingPatientId => 1
    case TooRecent => 2
    case NonRetryableReason => 3
    case MalformedRecord => 4
  }

  /** Whether a claim gets past the gate whose failure is counted as `e`. */
  predicate Passes(c: NormalizedClaim, g: GateInputs, e: Exclusion)
  {
    match e
    case StatusNotDenied => c.status == Some(Denied)
    case MissingPatientId => c.patientId.Some? && c.patientId.value != ""
    case TooRecent => g.age.Some? && g.age.value > RecentWindowDays
    case NonRetryableReason => g.classification.retryable
    case MalformedRecord => true
  }

  /** Eligible: every gate passes. */
  predicate PassesAll(c: NormalizedClaim, g: GateInputs)
  {
    forall e :: IsGate(e) ==> Passes(c, g, e)
  }

  /** `e` is the gate a rejected claim is attributed to: it fails there and
      passes every earlier gate. */
  predicate FirstFailingGate(c: NormalizedClaim, g: GateInputs, e: Exclusion)
  {
    && IsGate(e)
    && !Passes(c, g, e)
    && forall e' :: IsGate(e') && GateIndex(e') < GateIndex(e) ==> Passes(c, g, e')
  }

  /** A rejected claim has exactly one first failing gate. */
  lemma FirstFailingGateUnique(c: NormalizedClaim, g: GateInputs, e1: Exclusion, e2: Exclusion)
    requires FirstFailingGate(c, g, e1) && FirstFailingGate(c, g, e2)
    ensures e1 == e2
  {
  }

  /** Every claim is either eligible or has a first failing gate. */
  lemma EligibleOrAttributed(c: NormalizedClaim, g: GateInputs)
    ensures PassesAll(c, g) <==> forall e :: !FirstFailingGate(c, g, e)
  {
    if !PassesAll(c, g) {
      if !Passes(c, g, StatusNotDenied) {
        assert FirstFailingGate(c, g, StatusNotDenied);
      } else if !Passes(c, g, MissingPatientId) {
        assert FirstFailingGate(c, g, MissingPatientId);
      } else if !Passes(c, g, TooRecent) {
        assert FirstFailingGate(c, g, TooRecent);
      } else {
        assert FirstFailingGate(c, g, NonRetryableReason);
      }
    }
  }

  /** What a rejection at the first failing gate `e` does to the counters. */
  lemma Rejected(c: NormalizedClaim, g: GateInputs, m: PipelineMetrics, e: Exclusion)
    requires FirstFailingGate(c, g, e)
    ensures !PassesAll(c, g)
    ensures forall x :: ExcludedCount(Increment(m, e), x) == ExcludedCount(m, x) + (if FirstFailingGate(c, g, x) then 1 else 0)
  {
    forall e' | FirstFailingGate(c, g, e')
      ensures e' == e
    {
      FirstFailingGateUnique(c, g, e, e');
    }
  }

  /** A claim that passes every gate is attributed to none of them. This
      restates the definitions of the gates for the reader. */
  lemma Accepted(c: NormalizedClaim, g: GateInputs)
    requires forall e :: IsGate(e) ==> Passes(c, g, e)
    ensures PassesAll(c, g)
    ensures forall e :: !FirstFailingGate(c, g, e)
  {
  }

  /** `is_eligible_for_resubmission`, given the claim's age and
      classification: the four gates in order, counting a rejection under
      the first gate the claim fails and touching nothing else in the
      metrics. */
  function IsEligibleForResubmission(c: NormalizedClaim, g: GateInputs, m: PipelineMetrics): (res: (Verdict, PipelineMetrics))
    ensures res.0.eligible <==> PassesAll(c, g)
    ensures forall e :: ExcludedCount(res.1, e) == ExcludedCount(m, e) + (if FirstFailingGate(c, g, e) then 1 else 0)
    ensures ExcludedTotal(res.1) == ExcludedTotal(m) + (if res.0.eligible then 0 else 1)
    ensures res.1.totalClaimsProcessed == m.totalClaimsProcessed
    ensures res.1.claimsBySource == m.claimsBySource
    ensures res.1.eligibleForResubmission == m.eligibleForResubmission
    ensures res.0.eligible ==> res.1 == m
    // The classifier's label and action accompany an eligible claim and one
    // rejected at the last gate; the earlier gates report neither.
    ensures res.0.eligible || FirstFailingGate(c, g, NonRetryableReason) ==>
      res.0.reason == g.classification.reason && res.0.suggestion == g.classification.action
    ensures !res.0.eligible && !FirstFailingGate(c, g, NonRetryableReason) ==>
      res.0.reason.None? && res.0.suggestion.None?
  {
    if c.status != Some(Denied) then
      Rejected(c, g, m, StatusNotDenied);
      (Verdict(false, None, None), Increment(m, StatusNotDenied))
    else if c.patientId.None? || c.patientId.value == "" then
      Rejected(c, g, m, MissingPatientId);
      (Verdict(false, None, None), Increment(m, MissingPatientId))
    else if g.age.None? || g.age.value <= RecentWindowDays then
      Rejected(c, g, m, TooRecent);
      (Verdict(false, None, None), Increment(m, TooRecent))
    else
      var k := g.classification;
      if !k.retryable then
        Rejected(c, g, m, NonRetryableReason);
        (Verdict(false, k.reason, k.action), Increment(m, NonRetryableReason))
      else
        Accepted(c, g);
        (Verdict(true, k.reason, k.action), m)
  }

  /** Gate order decides attribution: a claim that is not denied is counted
      under `status_not_denied` whatever else is wrong with it. */
  lemma NotDeniedCountedFirst(c: NormalizedClaim, m: PipelineMetrics)
    requires c.status != Some(Denied)
    ensures var m' := IsEligibleForResubmission(c, InputsOf(c), m).1;
      && ExcludedCount(m', StatusNotDenied) == ExcludedCount(m, StatusNotDenied) + 1
      && ExcludedCount(m', MissingPatientId) == ExcludedCount(m, MissingPatientId)
      && ExcludedCount(m', TooRecent) == ExcludedCount(m, TooRecent)
      && ExcludedCount(m', NonRetryableReason) == ExcludedCount(m, NonRetryableReason)
  {
    assert FirstFailingGate(c, InputsOf(c), StatusNotDenied);
  }

  /** A denied claim with a patient whose age is at most the window is
      rejected as too recent. */
  lemma TooRecentGate(c: NormalizedClaim, g: GateInputs)
    requires c.status == Some(Denied) && c.patientId.Some? && c.patientId.value != ""
    requires g.age.Some? && g.age.value <= RecentWindowDays
    ensures FirstFailingGate(c, g, TooRecent)
  {
    assert Passes(c, g, StatusNotDenied) && Passes(c, g, MissingPatientId);
  }

  /** A denied claim with a patient older than the window is eligible
      exactly when its reason is retryable. */
  lemma OldEnoughGate(c: NormalizedClaim, g: GateInputs)
    requires c.status == Some(Denied) && c.patientId.Some? && c.patientId.value != ""
    requires g.age.Some? && g.age.value > RecentWindowDays
    ensures PassesAll(c, g) <==> g.classification.retryable
  {
    if g.classification.retryable {
      Accepted(c, g);
    } else {
      assert !Passes(c, g, NonRetryableReason);
    }
  }

  /** The 7-day boundary against the fixed reference date: a denied claim
      with a patient submitted on 2025-07-23 is counted as too recent; one
      submitted on 2025-07-22 is eligible exactly when its reason is
      retryable. */
  lemma SevenDayBoundaryDecides(c: NormalizedClaim)
    requires c.status == Some(Denied) && c.patientId.Some? && c.patientId.value != ""
    ensures c.submittedAt == Some("2025-07-23") ==> FirstFailingGate(c, InputsOf(c), TooRecent)
    ensures c.submittedAt == Some("2025-07-22") ==>
      (PassesAll(c, InputsOf(c)) <==> ClassifyDenialReason(c.denialReason).retryable)
  {
    SevenDayBoundary();
    if c.submittedAt == Some("2025-07-23") {
      TooRecentGate(c, InputsOf(c));
    } else if c.submittedAt == Some("2025-07-22") {
      OldEnoughGate(c, InputsOf(c));
    }
  }
}
