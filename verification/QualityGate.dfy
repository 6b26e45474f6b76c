/** Paired comparison of two answer vectors, and the acceptance gate on top of it. */
module QualityGate {
  import opened Wrappers
  import opened ProgressLog
  import opened McNemar

  /** The answer vectors travel as strings of zeros and ones. */
  predicate IsBits(s: string) {
    forall i :: 0 <= i < |s| ==> s[i] == '0' || s[i] == '1'
  }

  function Answered(s: string): (bits: seq<bool>)
    ensures |bits| == |s|
  {
    seq(|s|, i requires 0 <= i < |s| => s[i] == '1')
  }

  datatype Comparison = Comparison(
    total: nat, bothCorrect: nat, baselineOnly: nat, candidateOnly: nat, bothWrong: nat, netCorrect: int, p: real)

  datatype CompareError = InvalidVectors

  predicate Comparable(baseline: string, candidate: string) {
    baseline != "" && |baseline| == |candidate| && IsBits(baseline) && IsBits(candidate)
  }

  /** The positions that both sides answered correctly. */
  function Shared(baseline: string, candidate: string): set<nat>
    requires |baseline| == |candidate|
  {
    set i: nat | i < |baseline| && baseline[i] == '1' && candidate[i] == '1'
  }

  /** The four counts partition the cases and give both totals. */
  predicate Partition(c: Comparison, baseline: string, candidate: string)
    requires |baseline| == |candidate|
  {
    && c.total == |baseline| == c.bothCorrect + c.baselineOnly + c.candidateOnly + c.bothWrong
    && c.bothCorrect == |Shared(baseline, candidate)|
    && c.bothCorrect + c.baselineOnly == Ones(Answered(baseline))
    && c.bothCorrect + c.candidateOnly == Ones(Answered(candidate))
  }

  lemma AnsweredSnoc(s: string, i: nat)
    requires i < |s|
    ensures Ones(Answered(s[..i + 1])) == Ones(Answered(s[..i])) + (if s[i] == '1' then 1 else 0)
  {
    assert Answered(s[..i + 1]) == Answered(s[..i]) + [s[i] == '1'];
  }

  lemma SharedSnoc(a: string, b: string, i: nat)
    requires i < |a| == |b|
    ensures |Shared(a[..i + 1], b[..i + 1])| == |Shared(a[..i], b[..i])| + (if a[i] == '1' && b[i] == '1' then 1 else 0)
  {
    var earlier := Shared(a[..i], b[..i]);
    assert Shared(a[..i + 1], b[..i + 1]) == earlier + (if a[i] == '1' && b[i] == '1' then {i} else {});
  }

  /** `compare_math_correctness`. */
  method CompareMathCorrectness(baseline: string, candidate: string) returns (r: Result<Comparison, CompareError>)
    ensures r.Ok? <==> Comparable(baseline, candidate)
    ensures r.Ok? ==>
              && Partition(r.value, baseline, candidate)
              && r.value.netCorrect == Ones(Answered(candidate)) - Ones(Answered(baseline))
              && r.value.p == Probability(r.value.baselineOnly, r.value.candidateOnly)
  {
    if baseline == "" || |baseline| != |candidate| || !IsBits(baseline) || !IsBits(candidate) {
      return Err(InvalidVectors);
    }
    var bothCorrect, baselineOnly, candidateOnly, bothWrong := 0, 0, 0, 0;
    for i := 0 to |baseline|
      invariant bothCorrect + baselineOnly + candidateOnly + bothWrong == i
      invariant bothCorrect == |Shared(baseline[..i], candidate[..i])|
      invariant bothCorrect + baselineOnly == Ones(Answered(baseline[..i]))
      invariant bothCorrect + candidateOnly == Ones(Answered(candidate[..i]))
    {
      AnsweredSnoc(baseline, i);
      AnsweredSnoc(candidate, i);
      SharedSnoc(baseline, candidate, i);
      if baseline[i] == candidate[i] == '1' {
        bothCorrect := bothCorrect + 1;
      } else if baseline[i] == '1' {
        baselineOnly := baselineOnly + 1;
      } else if candidate[i] == '1' {
        candidateOnly := candidateOnly + 1;
      } else {
        bothWrong := bothWrong + 1;
      }
    }
    assert baseline[..|baseline|] == baseline && candidate[..|candidate|] == candidate;
    r := Ok(Comparison(|baseline|, bothCorrect, baselineOnly, candidateOnly, bothWrong,
                       candidateOnly - baselineOnly, ExactTwoSided(baselineOnly, candidateOnly).value));
  }

  /******* The gate *******/

  const FULL_MATH_TOTAL: nat := 848
  const MAX_PPL_REGRESSION := 0.005
  const MAX_MATH_DROP := 0.01
  const ALPHA := 0.05
  const SLACK := 0.000_000_000_001

  datatype Scores = Scores(perplexity: real, mathAccuracy: real, greedyAccuracy: real)

  datatype Selection = Selection(mode: string, sourceTotal: nat, selectedTotal: nat)

  datatype Outcome = Pass | Fail | NotApplicable

  datatype GateError = ZeroPerplexity

  predicate FullMath(c: Comparison, s: Selection) {
    c.total == FULL_MATH_TOTAL && s.mode == "fixture_order_full"
    && s.sourceTotal == FULL_MATH_TOTAL && s.selectedTotal == FULL_MATH_TOTAL
  }

  /** `corrected_gate`; the division fails when the baseline perplexity is zero. */
  function CorrectedGate(baseline: Scores, candidate: Scores, c: Comparison, s: Selection): Result<Outcome, GateError> {
    if baseline.perplexity == 0.0 then Err(ZeroPerplexity)
    else
      var regression := candidate.perplexity / baseline.perplexity - 1.0;
      var drop := baseline.mathAccuracy - candidate.mathAccuracy;
      var netRegression := c.baselineOnly > c.candidateOnly;
      if !FullMath(c, s) then Ok(NotApplicable)
      else if
        && regression <= MAX_PPL_REGRESSION + SLACK
        && drop <= MAX_MATH_DROP + SLACK
        && (!netRegression || c.p > ALPHA)
        && candidate.greedyAccuracy >= baseline.greedyAccuracy
      then Ok(Pass)
      else Ok(Fail)
  }

  /** A run's accuracy is its number of correct answers over the number of cases. */
  predicate Scored(r: Scores, bits: string) {
    bits != "" && r.mathAccuracy == Ones(Answered(bits)) as real / |bits| as real && r.perplexity >= 0.0
  }

  lemma RegressionBound(base: real, now: real)
    requires base > 0.0
    ensures now / base - 1.0 <= MAX_PPL_REGRESSION + SLACK <==> now <= (1.0 + MAX_PPL_REGRESSION + SLACK) * base
  {
    var ratio := now / base;
    assert ratio * base == now;
  }

  /** All 848 questions of the fixture were asked, in its order. */
  predicate OnWholeFixture(asked: nat, s: Selection) {
    asked == 848 && s.mode == "fixture_order_full" && s.sourceTotal == 848 && s.selectedTotal == 848
  }

  /** On the scores and the comparison of two answer vectors, the gate passes exactly
      on the whole fixture, with at most 8 answers lost on balance, with a value above
      the level if any are, and with perplexity and the greedy canary in bounds. */
  lemma PassIff(baseline: Scores, candidate: Scores, before: string, after: string, c: Comparison, s: Selection)
    requires Comparable(before, after) && Partition(c, before, after)
             && c.p == Probability(c.baselineOnly, c.candidateOnly)
    requires Scored(baseline, before) && Scored(candidate, after)
    ensures var lost := Ones(Answered(before)) - Ones(Answered(after));
            CorrectedGate(baseline, candidate, c, s) == Ok(Pass) <==>
              && baseline.perplexity > 0.0 && OnWholeFixture(|before|, s)
              && lost <= 8
              && (lost > 0 ==> Probability(c.baselineOnly, c.candidateOnly) > 0.05)
              && candidate.perplexity <= 1.005_000_000_001 * baseline.perplexity
              && candidate.greedyAccuracy >= baseline.greedyAccuracy
  {
    if baseline.perplexity > 0.0 { RegressionBound(baseline.perplexity, candidate.perplexity); }
  }

  /** The gate does not apply exactly to comparisons on less than the whole fixture, and
      fails exactly on the whole fixture when one of the bounds is broken. */
  lemma FailIff(baseline: Scores, candidate: Scores, before: string, after: string, c: Comparison, s: Selection)
    requires Comparable(before, after) && Partition(c, before, after)
             && c.p == Probability(c.baselineOnly, c.candidateOnly)
    requires Scored(baseline, before) && Scored(candidate, after)
    ensures CorrectedGate(baseline, candidate, c, s).Err? <==> baseline.perplexity == 0.0
    ensures CorrectedGate(baseline, candidate, c, s) == Ok(NotApplicable) <==>
              baseline.perplexity > 0.0 && !OnWholeFixture(|before|, s)
    ensures var lost := Ones(Answered(before)) - Ones(Answered(after));
            CorrectedGate(baseline, candidate, c, s) == Ok(Fail) <==>
              && baseline.perplexity > 0.0 && OnWholeFixture(|before|, s)
              && (lost > 8
                  || (lost > 0 && Probability(c.baselineOnly, c.candidateOnly) <= 0.05)
                  || candidate.perplexity > 1.005_000_000_001 * baseline.perplexity
                  || candidate.greedyAccuracy < baseline.greedyAccuracy)
  {
    PassIff(baseline, candidate, before, after, c, s);
  }

  /** A pass in which the candidate gains no answer loses at most five. */
  lemma PassWithoutGains(baseline: Scores, candidate: Scores, c: Comparison, s: Selection)
    requires c.p == Probability(c.baselineOnly, c.candidateOnly) && c.candidateOnly == 0
    requires CorrectedGate(baseline, candidate, c, s) == Ok(Pass)
    ensures c.baselineOnly <= 5
  {
    OneSided(c.baselineOnly);
  }
}
