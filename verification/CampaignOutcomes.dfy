/** What the calls of a campaign leave behind: the dispositions of its candidates, the
    ledger, the winners and the final status. */
module CampaignOutcomes {
  import opened Wrappers
  import opened CampaignModels
  import opened CampaignEngine
  import opened CampaignLedger
  import opened CampaignRuns
  import opened CampaignProgress
  import opened CampaignPlans

  /******* One result *******/

  /** The verdict says that the candidate ends as `d`. */
  predicate Says(v: Verdict, d: Disposition) {
    if v.Direct? then v.disposition == d
    else
      && (v.outcome.Accept? <==> d.ExperimentalAccepted?)
      && (v.outcome.Reject? <==> d.Rejected?)
      && (v.outcome.NoDecision? <==> d.Inconclusive?)
  }

  /** `after` is the candidate `before` with a result. */
  predicate Reported(h: Fingerprinter, before: Candidate, after: Candidate, v: Verdict, artifacts: seq<Artifact>,
                     reasons: seq<string>) {
    && before.disposition.Running? && Says(v, after.disposition)
    && after.resultArtifacts == before.resultArtifacts + artifacts
    && after.reasons == before.reasons + (if v.Gate? then v.gateReasons else []) + reasons
    && (before.fingerprint.Some? ==> after.fingerprint == before.fingerprint)
    && (before.fingerprint.None? ==>
          after.fingerprint == Some(h(before.strategy,
                                      if before.spec.Some? then Some(before.spec.value.sha256) else None, before.id)))
    && after == before.(disposition := after.disposition, resultArtifacts := after.resultArtifacts,
                        reasons := after.reasons, fingerprint := after.fingerprint)
  }

  /** A candidate that no result was recorded for stays, or starts to run. */
  predicate Started(before: Candidate, after: Candidate) {
    after == before || (before.disposition.Planned? && after == before.(disposition := Running))
  }

  /** The ledger gets one attempt with the spec and the artifacts, none for a skipped candidate. */
  predicate Logged(before: Ledger, after: Ledger, c: Candidate, artifacts: seq<Artifact>) {
    if c.disposition.Skipped? then after == before
    else
      && |after.attempts| == |before.attempts| + 1 && before.attempts <= after.attempts
      && after.acceptedStack == before.acceptedStack
      && var a := after.attempts[|before.attempts|];
         && a.candidateId == c.id && a.strategy == c.strategy && c.fingerprint == Some(a.fingerprint)
         && SameVerdict(a.disposition, c.disposition)
         && a.evidence == (if c.spec.Some? then [c.spec.value] else []) + artifacts
  }

  lemma FinishedReported(h: Fingerprinter, c: Candidate, v: Verdict, artifacts: seq<Artifact>, reasons: seq<string>)
    requires c.disposition.Running?
    ensures Reported(h, c, Finished(h, c, v, artifacts, reasons), v, artifacts, reasons)
  {}

  lemma AfterLogged(h: Fingerprinter, l: Ledger, c: Candidate, v: Verdict, artifacts: seq<Artifact>,
                    reasons: seq<string>)
    requires c.disposition.Running? && TerminalVerdict(v)
    requires LedgerAfter(h, l, c, VerdictDisposition(v), artifacts).Ok?
    ensures Logged(l, LedgerAfter(h, l, c, VerdictDisposition(v), artifacts).value,
                   Finished(h, c, v, artifacts, reasons), artifacts)
  {}

  /** Recording a result changes the running candidate of that id as the verdict says,
      starts at most a planned one, logs the attempt and changes nothing else. */
  lemma ResultRecorded(h: Fingerprinter, r: Record, id: string, v: Verdict, artifacts: seq<Artifact>,
                       reasons: seq<string>) returns (k: nat)
    requires RecordCandidateResult(h, r, id, v, artifacts, reasons).Ok?
    ensures var next := RecordCandidateResult(h, r, id, v, artifacts, reasons).value;
            && k < |r.candidates| == |next.candidates| && r.candidates[k].id == id
            && Reported(h, r.candidates[k], next.candidates[k], v, artifacts, reasons)
            && (forall i :: 0 <= i < |r.candidates| && i != k ==> Started(r.candidates[i], next.candidates[i]))
            && Logged(r.ledger, next.ledger, next.candidates[k], artifacts)
            && next == r.(candidates := next.candidates, ledger := next.ledger, revision := r.revision + 1)
  {
    k := IndexOf(r.candidates, id);
    var done := r.candidates[k := Finished(h, r.candidates[k], v, artifacts, reasons)];
    FinishedReported(h, r.candidates[k], v, artifacts, reasons);
    AfterLogged(h, r.ledger, r.candidates[k], v, artifacts, reasons);
    ActivateShape(done, r.currentStage);
  }

  /******* Dispositions over whole runs *******/

  /** Apart from the winner flag, a candidate stays as it is, or starts to run. */
  predicate Marked(before: Candidate, after: Candidate) {
    Started(before, after.(winner := before.winner))
  }

  predicate AllMarked(cs: seq<Candidate>, ds: seq<Candidate>) {
    |cs| == |ds| && forall i :: 0 <= i < |cs| ==> Marked(cs[i], ds[i])
  }

  lemma AdvanceMarks(r: Record, input: AdvanceInput)
    requires PlanMade(r) && Advance(r, input).Ok?
    ensures AllMarked(r.candidates, Advance(r, input).value.candidates)
  {
    if r.currentStage.Run? { LeavingMarks(r, input); } else { LateMarks(r, input); }
  }

  lemma LeavingMarks(r: Record, input: AdvanceInput)
    requires r.currentStage.Run? && Advance(r, input).Ok?
    ensures AllMarked(r.candidates, Advance(r, input).value.candidates)
  {
    ActivateShape(r.candidates, StrategyUpdates(r, r.currentStage.strategy).value.stage.value);
  }

  lemma LateMarks(r: Record, input: AdvanceInput)
    requires PlanMade(r) && !r.currentStage.Run? && Advance(r, input).Ok?
    ensures AllMarked(r.candidates, Advance(r, input).value.candidates)
  {}

  /** Among the first `n` calls one tells that candidate `id` ends as `d`. */
  predicate Told(calls: seq<Call>, n: nat, id: string, d: Disposition)
    requires n <= |calls|
  {
    exists i :: 0 <= i < n && calls[i].CallRecord? && calls[i].id == id && Says(calls[i].verdict, d)
  }

  predicate NoResults(calls: seq<Call>, n: nat)
    requires n <= |calls|
  {
    forall i :: 0 <= i < n ==> calls[i].CallAdvance?
  }

  lemma EarlyCall(h: Fingerprinter, r: Record, c: Call)
    requires !PlanMade(r) && Step(h, r, c).Ok?
    ensures c.CallAdvance?
  {}

  /** Once there, the plan stays. */
  lemma PlanStays(h: Fingerprinter, r: Record, c: Call)
    requires PlanMade(r) && Step(h, r, c).Ok?
    ensures PlanMade(Step(h, r, c).value)
  {
    StepContents(h, r, c);
  }

  lemma EarlierUnplanned(h: Fingerprinter, config: Config, platform: Option<Artifact>,
                         states: seq<Record>, calls: seq<Call>, i: nat)
    requires IsRun(h, config, platform, states, calls) && i < |calls| && !PlanMade(states[i + 1])
    ensures !PlanMade(states[i]) && calls[i].CallAdvance?
  {
    assert StepAt(h, states, calls, i);
    if PlanMade(states[i]) { PlanStays(h, states[i], calls[i]); }
    EarlyCall(h, states[i], calls[i]);
  }

  lemma {:induction false} NoResultsBefore(h: Fingerprinter, config: Config, platform: Option<Artifact>,
                                           states: seq<Record>, calls: seq<Call>, n: nat)
    requires IsRun(h, config, platform, states, calls) && n < |states| && !PlanMade(states[n])
    ensures NoResults(calls, n)
  {
    if n > 0 {
      EarlierUnplanned(h, config, platform, states, calls, n - 1);
      NoResultsBefore(h, config, platform, states, calls, n - 1);
    }
  }

  lemma SaysOne(v: Verdict, d: Disposition, e: Disposition)
    requires Says(v, d) && Says(v, e)
    ensures d == e
  {}

  /** The dispositions after one call of a campaign with a plan. */
  lemma StepTold(h: Fingerprinter, r: Record, c: Call, next: Record, k: nat, d: Disposition)
    requires Inv(r) && PlanMade(r) && Step(h, r, c) == Ok(next) && k < |next.candidates| && d.Terminal()
    ensures |next.candidates| == |r.candidates| && next.candidates[k].id == r.candidates[k].id
    ensures next.candidates[k].disposition == d
       <==> r.candidates[k].disposition == d
            || (c.CallRecord? && c.id == next.candidates[k].id && Says(c.verdict, d))
  {
    match c
    case CallAdvance(input) =>
      AdvanceMarks(r, input);
      assert Marked(r.candidates[k], next.candidates[k]);
    case CallRecord(id, v, artifacts, reasons) => RecordTold(h, r, c, next, k, d);
  }

  lemma RecordTold(h: Fingerprinter, r: Record, c: Call, next: Record, k: nat, d: Disposition)
    requires UniqueIds(r.candidates) && c.CallRecord? && Step(h, r, c) == Ok(next)
    requires k < |next.candidates| && d.Terminal()
    ensures |next.candidates| == |r.candidates| && next.candidates[k].id == r.candidates[k].id
    ensures next.candidates[k].disposition == d
       <==> r.candidates[k].disposition == d || (c.id == next.candidates[k].id && Says(c.verdict, d))
  {
    var i := ResultRecorded(h, r, c.id, c.verdict, c.artifacts, c.reasons);
    if i == k && Says(c.verdict, d) { SaysOne(c.verdict, d, next.candidates[k].disposition); }
    if i != k { assert Started(r.candidates[k], next.candidates[k]); }
  }

  lemma PlanningUntold(h: Fingerprinter, r: Record, c: Call, next: Record, k: nat)
    requires Inv(r) && !PlanMade(r) && Step(h, r, c) == Ok(next) && k < |next.candidates|
    ensures !next.candidates[k].disposition.Terminal()
  {
    EarlyCall(h, r, c);
    if r.currentStage.PlanCandidates? {
      PlanRecorded(r, c.input);
      ActivateShape(c.input.candidates, next.currentStage);
      assert (r.candidates + c.input.candidates)[k].disposition.Planned?;
    }
  }

  /** The dispositions after call `i` of a run. */
  lemma RunTold(h: Fingerprinter, config: Config, platform: Option<Artifact>,
                states: seq<Record>, calls: seq<Call>, i: nat, k: nat, d: Disposition)
    requires IsRun(h, config, platform, states, calls) && i < |calls|
    requires PlanMade(states[i]) && k < |states[i + 1].candidates| && d.Terminal()
    ensures |states[i + 1].candidates| == |states[i].candidates|
    ensures states[i + 1].candidates[k].id == states[i].candidates[k].id
    ensures states[i + 1].candidates[k].disposition == d
       <==> states[i].candidates[k].disposition == d
            || (calls[i].CallRecord? && calls[i].id == states[i].candidates[k].id && Says(calls[i].verdict, d))
  {
    RunStep(h, config, platform, states, calls, i);
    StepTold(h, states[i], calls[i], states[i + 1], k, d);
  }

  /** Up to the plan nothing has been told and nothing has ended. */
  lemma RunUntold(h: Fingerprinter, config: Config, platform: Option<Artifact>,
                  states: seq<Record>, calls: seq<Call>, i: nat, k: nat)
    requires IsRun(h, config, platform, states, calls) && i < |calls|
    requires !PlanMade(states[i]) && k < |states[i + 1].candidates|
    ensures NoResults(calls, i + 1) && !states[i + 1].candidates[k].disposition.Terminal()
  {
    RunStep(h, config, platform, states, calls, i);
    EarlyCall(h, states[i], calls[i]);
    PlanningUntold(h, states[i], calls[i], states[i + 1], k);
    NoResultsBefore(h, config, platform, states, calls, i);
  }

  /** In every record of every run a candidate has ended in a disposition exactly when
      one of the calls so far told so. */
  lemma {:induction false} DispositionsTold(h: Fingerprinter, config: Config, platform: Option<Artifact>,
                                            states: seq<Record>, calls: seq<Call>, n: nat, k: nat, d: Disposition)
    requires IsRun(h, config, platform, states, calls) && n < |states| && k < |states[n].candidates| && d.Terminal()
    ensures states[n].candidates[k].disposition == d <==> Told(calls, n, states[n].candidates[k].id, d)
  {
    if n > 0 {
      if PlanMade(states[n - 1]) {
        RunTold(h, config, platform, states, calls, n - 1, k, d);
        DispositionsTold(h, config, platform, states, calls, n - 1, k, d);
      } else {
        RunUntold(h, config, platform, states, calls, n - 1, k);
      }
    }
  }

  /** A finished candidate never changes again, but for the winner flag. */
  lemma {:induction false} FinishedStays(h: Fingerprinter, config: Config, platform: Option<Artifact>,
                                         states: seq<Record>, calls: seq<Call>, i: nat, n: nat, k: nat)
    requires IsRun(h, config, platform, states, calls) && i <= n < |states|
    requires k < |states[i].candidates| && states[i].candidates[k].disposition.Terminal()
    ensures |states[n].candidates| == |states[i].candidates|
    ensures states[n].candidates[k] == states[i].candidates[k].(winner := states[n].candidates[k].winner)
    decreases n
  {
    if i < n {
      FinishedStays(h, config, platform, states, calls, i, n - 1, k);
      FinishedStep(h, config, platform, states, calls, n - 1, k);
    }
  }

  lemma FinishedStep(h: Fingerprinter, config: Config, platform: Option<Artifact>,
                     states: seq<Record>, calls: seq<Call>, i: nat, k: nat)
    requires IsRun(h, config, platform, states, calls) && i < |calls|
    requires k < |states[i].candidates| && states[i].candidates[k].disposition.Terminal()
    ensures |states[i + 1].candidates| == |states[i].candidates|
    ensures states[i + 1].candidates[k] == states[i].candidates[k].(winner := states[i + 1].candidates[k].winner)
  {
    RunStep(h, config, platform, states, calls, i);
    match calls[i]
    case CallAdvance(input) =>
      AdvanceMarks(states[i], input);
      assert Marked(states[i].candidates[k], states[i + 1].candidates[k]);
    case CallRecord(id, v, artifacts, reasons) =>
      var j := ResultRecorded(h, states[i], id, v, artifacts, reasons);
      assert j != k ==> Started(states[i].candidates[k], states[i + 1].candidates[k]);
  }
}
