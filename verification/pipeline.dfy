/** The reading loop of `process_claims` and its `handle_claim` step: every
    Alpha claim, then every Beta claim, is counted and run through the
    eligibility gates; eligible claims become resubmission candidates.
    Metrics and candidates are threaded as a value. */
module Pipeline {
  import opened Optional
  import opened Claims
  import opened Metrics
  import opened Eligibility

  /** One entry of the candidates list: `claim_id`, `resubmission_reason`,
      `source_system`, `recommended_changes`. */
  datatype Candidate = Candidate(
    claimId: Option<string>,
    resubmissionReason: Option<string>,
    sourceSystem: Source,
    recommendedChanges: Option<string>)

  /** What `handle_claim` updates: the metrics and the candidates list. */
  datatype RunState = RunState(metrics: PipelineMetrics, candidates: seq<Candidate>)

  /** The bookkeeping a run keeps balanced: every processed claim is either
      eligible or counted under exactly one exclusion, every processed claim
      came from one of the two sources, and there is one candidate per
      eligible claim. */
  predicate Accounted(s: RunState)
  {
    && s.metrics.totalClaimsProcessed == s.metrics.eligibleForResubmission + ExcludedTotal(s.metrics)
    && s.metrics.totalClaimsProcessed == SourceCount(s.metrics, Alpha) + SourceCount(s.metrics, Beta)
    && |s.candidates| == s.metrics.eligibleForResubmission
  }

  /** A state with every counter at zero and no candidates is balanced. */
  lemma ZeroAccounted(s: RunState)
    requires s.metrics.totalClaimsProcessed == 0 && s.metrics.eligibleForResubmission == 0
    requires forall src :: SourceCount(s.metrics, src) == 0
    requires forall e :: ExcludedCount(s.metrics, e) == 0
    requires s.candidates == []
    ensures Accounted(s)
  {
  }

  /** Fresh metrics and no candidates. */
  method NewRun() returns (s: RunState)
    ensures Accounted(s)
    ensures s.candidates == []
    ensures s.metrics.totalClaimsProcessed == 0
    ensures forall src :: SourceCount(s.metrics, src) == 0
    ensures forall e :: ExcludedCount(s.metrics, e) == 0
  {
    var m := NewMetrics();
    s := RunState(m, []);
    ZeroAccounted(s);
  }

  /** The candidate an accepted claim contributes: its id and source, with
      the classifier's label and recommended action. */
  function CandidateOf(c: NormalizedClaim, g: GateInputs): Candidate
  {
    Candidate(c.claimId, g.classification.reason, c.source, g.classification.action)
  }

  /** `handle_claim` for a claim whose gate inputs are `g`: count the claim
      and its source, evaluate it, and on acceptance count it as eligible
      and append its candidate. */
  function HandleClaim(s: RunState, c: NormalizedClaim, g: GateInputs): (r: RunState)
    ensures r.metrics.totalClaimsProcessed == s.metrics.totalClaimsProcessed + 1
    ensures SourceCount(r.metrics, c.source) == SourceCount(s.metrics, c.source) + 1
    ensures forall src :: src != c.source ==> SourceCount(r.metrics, src) == SourceCount(s.metrics, src)
    ensures forall e ::
      ExcludedCount(r.metrics, e) == ExcludedCount(s.metrics, e) + (if FirstFailingGate(c, g, e) then 1 else 0)
    ensures r.metrics.eligibleForResubmission ==
      s.metrics.eligibleForResubmission + (if PassesAll(c, g) then 1 else 0)
    ensures r.candidates == s.candidates + (if PassesAll(c, g) then [CandidateOf(c, g)] else [])
    ensures ExcludedTotal(r.metrics) == ExcludedTotal(s.metrics) + (if PassesAll(c, g) then 0 else 1)
  {
    var m := CountClaim(s.metrics, c.source);
    assert ExcludedTotal(m) == ExcludedTotal(s.metrics);
    var (v, m') := IsEligibleForResubmission(c, g, m);
    if v.eligible then
      RunState(
        m'.(eligibleForResubmission := m'.eligibleForResubmission + 1),
        s.candidates + [Candidate(c.claimId, v.reason, c.source, v.suggestion)])
    else
      RunState(m', s.candidates)
  }

  /** One step keeps the bookkeeping balanced: the claim is counted once in
      the total and once under its source, and either as eligible with one
      new candidate or under one exclusion. */
  lemma HandleClaimAccounted(s: RunState, c: NormalizedClaim, g: GateInputs)
    requires Accounted(s)
    ensures Accounted(HandleClaim(s, c, g))
  {
    var r := HandleClaim(s, c, g);
    var other := if c.source == Alpha then Beta else Alpha;
    assert SourceCount(r.metrics, other) == SourceCount(s.metrics, other);
  }

  // The fold below is stated for any assignment `inputs` of gate inputs to
  // claims; a run of the pipeline uses `InputsOf`.

  /** `handle_claim` applied to each claim in turn. */
  function HandleAll(s: RunState, claims: seq<NormalizedClaim>, inputs: NormalizedClaim -> GateInputs): RunState
  {
    if claims == [] then s
    else
      var c := claims[|claims| - 1];
      HandleClaim(HandleAll(s, claims[..|claims| - 1], inputs), c, inputs(c))
  }

  /** The claims of a list that come from `src`. */
  function CountFrom(claims: seq<NormalizedClaim>, src: Source): nat
  {
    if claims == [] then 0
    else CountFrom(claims[..|claims| - 1], src) + (if claims[|claims| - 1].source == src then 1 else 0)
  }

  /** The claims of a list whose first failing gate is `e`. */
  function CountExcluded(claims: seq<NormalizedClaim>, inputs: NormalizedClaim -> GateInputs, e: Exclusion): nat
  {
    if claims == [] then 0
    else
      var c := claims[|claims| - 1];
      CountExcluded(claims[..|claims| - 1], inputs, e) + (if FirstFailingGate(c, inputs(c), e) then 1 else 0)
  }

  /** The candidates of the accepted claims of a list, in list order. */
  function EligibleCandidates(claims: seq<NormalizedClaim>, inputs: NormalizedClaim -> GateInputs): seq<Candidate>
  {
    if claims == [] then []
    else
      var c := claims[|claims| - 1];
      EligibleCandidates(claims[..|claims| - 1], inputs) + (if PassesAll(c, inputs(c)) then [CandidateOf(c, inputs(c))] else [])
  }

  /** A run keeps the bookkeeping balanced. */
  lemma {:induction false} HandleAllAccounted(s: RunState, claims: seq<NormalizedClaim>, inputs: NormalizedClaim -> GateInputs)
    requires Accounted(s)
    ensures Accounted(HandleAll(s, claims, inputs))
  {
    if claims != [] {
      var c := claims[|claims| - 1];
      HandleAllAccounted(s, claims[..|claims| - 1], inputs);
      HandleClaimAccounted(HandleAll(s, claims[..|claims| - 1], inputs), c, inputs(c));
    }
  }

  /** A run counts every claim once, under its own source. */
  lemma {:induction false} HandleAllCounts(s: RunState, claims: seq<NormalizedClaim>, inputs: NormalizedClaim -> GateInputs)
    ensures HandleAll(s, claims, inputs).metrics.totalClaimsProcessed == s.metrics.totalClaimsProcessed + |claims|
    ensures forall src ::
      SourceCount(HandleAll(s, claims, inputs).metrics, src) == SourceCount(s.metrics, src) + CountFrom(claims, src)
  {
    if claims != [] {
      HandleAllCounts(s, claims[..|claims| - 1], inputs);
    }
  }

  /** A run counts each rejected claim under its first failing gate. */
  lemma {:induction false} HandleAllExclusions(s: RunState, claims: seq<NormalizedClaim>, inputs: NormalizedClaim -> GateInputs)
    ensures forall e ::
      ExcludedCount(HandleAll(s, claims, inputs).metrics, e) == ExcludedCount(s.metrics, e) + CountExcluded(claims, inputs, e)
  {
    if claims != [] {
      HandleAllExclusions(s, claims[..|claims| - 1], inputs);
    }
  }

  /** A run appends the accepted claims' candidates, in order. */
  lemma {:induction false} HandleAllCandidates(s: RunState, claims: seq<NormalizedClaim>, inputs: NormalizedClaim -> GateInputs)
    ensures HandleAll(s, claims, inputs).candidates == s.candidates + EligibleCandidates(claims, inputs)
  {
    if claims != [] {
      HandleAllCandidates(s, claims[..|claims| - 1], inputs);
    }
  }

  /** Running over a concatenation is running over each part in turn. */
  lemma {:induction false} HandleAllAppend(
    s: RunState, a: seq<NormalizedClaim>, b: seq<NormalizedClaim>, inputs: NormalizedClaim -> GateInputs)
    ensures HandleAll(s, a + b, inputs) == HandleAll(HandleAll(s, a, inputs), b, inputs)
  {
    if b == [] {
      assert a + b == a;
    } else {
      assert (a + b)[..|a + b| - 1] == a + b[..|b| - 1];
      HandleAllAppend(s, a, b[..|b| - 1], inputs);
    }
  }

  /** Candidates of a concatenation: those of the first part, then those of
      the second. */
  lemma {:induction false} EligibleCandidatesAppend(
    a: seq<NormalizedClaim>, b: seq<NormalizedClaim>, inputs: NormalizedClaim -> GateInputs)
    ensures EligibleCandidates(a + b, inputs) == EligibleCandidates(a, inputs) + EligibleCandidates(b, inputs)
  {
    if b == [] {
      assert a + b == a;
    } else {
      assert (a + b)[..|a + b| - 1] == a + b[..|b| - 1];
      EligibleCandidatesAppend(a, b[..|b| - 1], inputs);
    }
  }

  /** Every candidate is built from an accepted claim of the list. */
  lemma {:induction false} CandidatesFromEligibleClaims(claims: seq<NormalizedClaim>, inputs: NormalizedClaim -> GateInputs)
    ensures forall x :: x in EligibleCandidates(claims, inputs) ==>
      exists c :: c in claims && PassesAll(c, inputs(c)) && x == CandidateOf(c, inputs(c))
  {
    if claims != [] {
      var init := claims[..|claims| - 1];
      var c := claims[|claims| - 1];
      CandidatesFromEligibleClaims(init, inputs);
      forall x | x in EligibleCandidates(claims, inputs)
        ensures exists c' :: c' in claims && PassesAll(c', inputs(c')) && x == CandidateOf(c', inputs(c'))
      {
        if x in EligibleCandidates(init, inputs) {
          var c' :| c' in init && PassesAll(c', inputs(c')) && x == CandidateOf(c', inputs(c'));
          assert c' in claims;
        } else {
          assert c in claims;
        }
      }
    }
  }

  /** A list drawn from one source counts every claim under it. */
  lemma {:induction false} CountFromSingleSource(claims: seq<NormalizedClaim>, src: Source)
    requires forall i :: 0 <= i < |claims| ==> claims[i].source == src
    ensures CountFrom(claims, src) == |claims|
    ensures forall other :: other != src ==> CountFrom(claims, other) == 0
  {
    if claims != [] {
      CountFromSingleSource(claims[..|claims| - 1], src);
    }
  }

  lemma {:induction false} CountFromAppend(a: seq<NormalizedClaim>, b: seq<NormalizedClaim>, src: Source)
    ensures CountFrom(a + b, src) == CountFrom(a, src) + CountFrom(b, src)
  {
    if b == [] {
      assert a + b == a;
    } else {
      assert (a + b)[..|a + b| - 1] == a + b[..|b| - 1];
      CountFromAppend(a, b[..|b| - 1], src);
    }
  }

  /** The evaluator never reports a malformed record: no gate is
      `MalformedRecord`, so this holds by definition and is kept for the
      reader. */
  lemma {:induction false} NeverMalformed(claims: seq<NormalizedClaim>, inputs: NormalizedClaim -> GateInputs)
    ensures CountExcluded(claims, inputs, MalformedRecord) == 0
  {
    if claims != [] {
      NeverMalformed(claims[..|claims| - 1], inputs);
    }
  }

  /** The totals of a run from fresh metrics over the Alpha claims followed
      by the Beta claims. */
  lemma Summary(s0: RunState, alpha: seq<NormalizedClaim>, beta: seq<NormalizedClaim>, inputs: NormalizedClaim -> GateInputs)
    requires Accounted(s0) && s0.candidates == [] && s0.metrics.totalClaimsProcessed == 0
    requires forall src :: SourceCount(s0.metrics, src) == 0
    requires forall e :: ExcludedCount(s0.metrics, e) == 0
    requires forall i :: 0 <= i < |alpha| ==> alpha[i].source == Alpha
    requires forall i :: 0 <= i < |beta| ==> beta[i].source == Beta
    ensures var r := HandleAll(s0, alpha + beta, inputs);
      && Accounted(r)
      && r.metrics.totalClaimsProcessed == |alpha| + |beta|
      && SourceCount(r.metrics, Alpha) == |alpha|
      && SourceCount(r.metrics, Beta) == |beta|
      && (forall e :: ExcludedCount(r.metrics, e) == CountExcluded(alpha + beta, inputs, e))
      && ExcludedCount(r.metrics, MalformedRecord) == 0
      && r.candidates == EligibleCandidates(alpha + beta, inputs)
  {
    var claims := alpha + beta;
    HandleAllAccounted(s0, claims, inputs);
    HandleAllCounts(s0, claims, inputs);
    HandleAllExclusions(s0, claims, inputs);
    HandleAllCandidates(s0, claims, inputs);
    CountFromSingleSource(alpha, Alpha);
    CountFromSingleSource(beta, Beta);
    CountFromAppend(alpha, beta, Alpha);
    CountFromAppend(alpha, beta, Beta);
    NeverMalformed(claims, inputs);
  }

  /** `handle_claim` over each claim of one source, in order. */
  method HandleEach(s: RunState, claims: seq<NormalizedClaim>, inputs: NormalizedClaim -> GateInputs) returns (r: RunState)
    ensures r == HandleAll(s, claims, inputs)
  {
    r := s;
    var i := 0;
    while i < |claims|
      invariant 0 <= i <= |claims|
      invariant r == HandleAll(s, claims[..i], inputs)
    {
      assert claims[..i + 1][..i] == claims[..i];
      r := HandleClaim(r, claims[i], inputs(claims[i]));
      i := i + 1;
    }
    assert claims[..i] == claims;
  }

  /** The Alpha claims of a run: none when the file is missing. */
  function AlphaInput(alphaRows: Option<seq<Record>>): (claims: seq<NormalizedClaim>)
    ensures |claims| == (if alphaRows.Some? then |alphaRows.value| else 0)
    ensures forall i :: 0 <= i < |claims| ==> claims[i].source == Alpha
  {
    if alphaRows.Some? then ReadAlphaCsv(alphaRows.value) else []
  }

  /** The Beta claims of a run: none when the file is missing. */
  function BetaInput(betaDoc: Option<Json>): (claims: seq<NormalizedClaim>)
    ensures |claims| == (if betaDoc.Some? then |BetaClaims(betaDoc.value)| else 0)
    ensures forall i :: 0 <= i < |claims| ==> claims[i].source == Beta
  {
    if betaDoc.Some? then BetaClaims(betaDoc.value) else []
  }

  /** The claims a run reads: the Alpha rows, then the Beta document's
      claims. */
  function SourceClaims(alphaRows: Option<seq<Record>>, betaDoc: Option<Json>): seq<NormalizedClaim>
  {
    AlphaInput(alphaRows) + BetaInput(betaDoc)
  }

  /** The reading loop of `process_claims`. A missing source file is `None`
      and contributes no claims. */
  method ProcessClaims(alphaRows: Option<seq<Record>>, betaDoc: Option<Json>)
    returns (candidates: seq<Candidate>, metrics: PipelineMetrics)
    ensures Accounted(RunState(metrics, candidates))
    ensures metrics.totalClaimsProcessed == |SourceClaims(alphaRows, betaDoc)|
    ensures SourceCount(metrics, Alpha) == (if alphaRows.Some? then |alphaRows.value| else 0)
    ensures SourceCount(metrics, Beta) == (if betaDoc.Some? then |BetaClaims(betaDoc.value)| else 0)
    ensures forall e :: ExcludedCount(metrics, e) == CountExcluded(SourceClaims(alphaRows, betaDoc), InputsOf, e)
    ensures ExcludedCount(metrics, MalformedRecord) == 0
    ensures candidates == EligibleCandidates(SourceClaims(alphaRows, betaDoc), InputsOf)
  {
    var s0 := NewRun();
    var alpha := AlphaInput(alphaRows);
    var beta := BetaInput(betaDoc);
    var s1 := HandleEach(s0, alpha, InputsOf);
    var s := HandleEach(s1, beta, InputsOf);
    HandleAllAppend(s0, alpha, beta, InputsOf);
    Summary(s0, alpha, beta, InputsOf);
    candidates := s.candidates;
    metrics := s.metrics;
  }
}
