/** What a plan decides: whether a campaign can block, and whether it can complete. */
module CampaignPlans {
  import opened Wrappers
  import opened CampaignModels
  import opened CampaignEngine
  import opened CampaignSerial
  import opened CampaignLedger
  import opened CampaignRuns
  import opened CampaignProgress

  /** Two candidates whose results get one fingerprint. */
  predicate SharedContent(h: Fingerprinter, cs: seq<Candidate>) {
    exists i, j :: 0 <= i < j < |cs| && FingerprintOf(h, cs[i]) == FingerprintOf(h, cs[j])
  }

  /** Records that each derive from the one before by one call. */
  predicate IsChain(h: Fingerprinter, states: seq<Record>, calls: seq<Call>) {
    && |states| == |calls| + 1
    && forall i :: 0 <= i < |calls| ==> CallValid(calls[i]) && Step(h, states[i], calls[i]) == Ok(states[i + 1])
  }

  /** Some calls lead from `a` to `b`. */
  ghost predicate LeadsTo(h: Fingerprinter, a: Record, b: Record) {
    exists states, calls :: IsChain(h, states, calls) && states[0] == a && states[|calls|] == b
  }

  ghost predicate CanBlock(h: Fingerprinter, r: Record) {
    exists b :: LeadsTo(h, r, b) && Blocked(h, b)
  }

  ghost predicate CanComplete(h: Fingerprinter, r: Record) {
    exists b :: LeadsTo(h, r, b) && b.currentStage.Complete?
  }

  predicate PlanMade(r: Record) {
    !r.currentStage.CreateCampaign? && !r.currentStage.InspectTarget?
    && !r.currentStage.CaptureSharedBaselines? && !r.currentStage.PlanCandidates?
  }

  /******* What a candidate's result is filed under never changes *******/

  predicate SameContents(h: Fingerprinter, cs: seq<Candidate>, ds: seq<Candidate>) {
    |cs| == |ds| && forall i :: 0 <= i < |cs| ==> FingerprintOf(h, cs[i]) == FingerprintOf(h, ds[i])
  }

  lemma ActivateContents(h: Fingerprinter, cs: seq<Candidate>, stage: Stage)
    ensures SameContents(h, cs, Activate(cs, stage))
  {
    ActivateShape(cs, stage);
  }

  lemma AdvanceContents(h: Fingerprinter, r: Record, input: AdvanceInput)
    requires PlanMade(r) && Advance(r, input).Ok?
    ensures PlanMade(Advance(r, input).value) && SameContents(h, r.candidates, Advance(r, input).value.candidates)
  {
    if r.currentStage.Run? {
      LeaveContents(h, r, input);
    } else {
      LateContents(h, r, input);
    }
  }

  lemma LeaveContents(h: Fingerprinter, r: Record, input: AdvanceInput)
    requires r.currentStage.Run? && Advance(r, input).Ok?
    ensures PlanMade(Advance(r, input).value) && SameContents(h, r.candidates, Advance(r, input).value.candidates)
  {
    ActivateContents(h, r.candidates, StrategyUpdates(r, r.currentStage.strategy).value.stage.value);
  }

  lemma LateContents(h: Fingerprinter, r: Record, input: AdvanceInput)
    requires PlanMade(r) && !r.currentStage.Run? && Advance(r, input).Ok?
    ensures PlanMade(Advance(r, input).value) && SameContents(h, r.candidates, Advance(r, input).value.candidates)
  {}

  lemma RecordContents(h: Fingerprinter, r: Record, id: string, v: Verdict, artifacts: seq<Artifact>,
                       reasons: seq<string>)
    requires PlanMade(r) && RecordCandidateResult(h, r, id, v, artifacts, reasons).Ok?
    ensures var next := RecordCandidateResult(h, r, id, v, artifacts, reasons).value;
            PlanMade(next) && SameContents(h, r.candidates, next.candidates)
  {
    var k := IndexOf(r.candidates, id);
    var done := r.candidates[k := Finished(h, r.candidates[k], v, artifacts, reasons)];
    assert SameContents(h, r.candidates, done);
    ActivateContents(h, done, r.currentStage);
  }

  lemma StepContents(h: Fingerprinter, r: Record, c: Call)
    requires PlanMade(r) && Step(h, r, c).Ok?
    ensures PlanMade(Step(h, r, c).value) && SameContents(h, r.candidates, Step(h, r, c).value.candidates)
  {
    match c
    case CallAdvance(input) => AdvanceContents(h, r, input);
    case CallRecord(id, v, artifacts, reasons) => RecordContents(h, r, id, v, artifacts, reasons);
  }

  lemma StepKeepsContents(h: Fingerprinter, r: Record, c: Call, next: Record)
    requires Inv(r) && PlanMade(r) && CallValid(c) && Step(h, r, c) == Ok(next)
    ensures Inv(next) && PlanMade(next) && SameContents(h, r.candidates, next.candidates)
  {
    StepInv(h, r, c);
    StepContents(h, r, c);
  }

  lemma SameTransitive(h: Fingerprinter, a: seq<Candidate>, b: seq<Candidate>, c: seq<Candidate>)
    requires SameContents(h, a, b) && SameContents(h, b, c)
    ensures SameContents(h, a, c)
  {}

  lemma {:induction false} ChainContents(h: Fingerprinter, states: seq<Record>, calls: seq<Call>, n: nat)
    requires IsChain(h, states, calls) && n < |states| && Inv(states[0]) && PlanMade(states[0])
    ensures Inv(states[n]) && PlanMade(states[n]) && SameContents(h, states[0].candidates, states[n].candidates)
  {
    if n > 0 {
      ChainContents(h, states, calls, n - 1);
      StepKeepsContents(h, states[n - 1], calls[n - 1], states[n]);
      SameTransitive(h, states[0].candidates, states[n - 1].candidates, states[n].candidates);
    }
  }

  lemma LeadsToContents(h: Fingerprinter, a: Record, b: Record)
    requires Inv(a) && PlanMade(a) && LeadsTo(h, a, b)
    ensures Inv(b) && PlanMade(b) && SameContents(h, a.candidates, b.candidates)
  {
    var states, calls :| IsChain(h, states, calls) && states[0] == a && states[|calls|] == b;
    ChainContents(h, states, calls, |calls|);
  }

  lemma SharedIff(h: Fingerprinter, cs: seq<Candidate>, ds: seq<Candidate>)
    requires SameContents(h, cs, ds)
    ensures SharedContent(h, cs) <==> SharedContent(h, ds)
  {
    if i, j :| 0 <= i < j < |cs| && FingerprintOf(h, cs[i]) == FingerprintOf(h, cs[j]) {
      assert FingerprintOf(h, ds[i]) == FingerprintOf(h, ds[j]);
    }
    if i, j :| 0 <= i < j < |ds| && FingerprintOf(h, ds[i]) == FingerprintOf(h, ds[j]) {
      assert FingerprintOf(h, cs[i]) == FingerprintOf(h, cs[j]);
    }
  }

  /******* The two ends of a campaign *******/

  lemma BlockedShares(h: Fingerprinter, r: Record)
    requires Blocked(h, r)
    ensures SharedContent(h, r.candidates)
  {
    var cs := r.candidates;
    var k :| 0 <= k < |cs| && cs[k].disposition.Running? && ContentTaken(h, cs, k);
    var j :| 0 <= j < |cs| && j != k && cs[j].fingerprint == Some(FingerprintOf(h, cs[k]));
    assert FingerprintOf(h, cs[j]) == FingerprintOf(h, cs[k]);
  }

  /** Once all candidates have finished no two share content. */
  lemma FinishedApart(h: Fingerprinter, r: Record)
    requires Inv(r) && AllTerminal(r.candidates)
    ensures !SharedContent(h, r.candidates)
  {
    var cs := r.candidates;
    forall i, j | 0 <= i < j < |cs| ensures FingerprintOf(h, cs[i]) != FingerprintOf(h, cs[j]) {
      assert cs[i].fingerprint.Some? && cs[j].fingerprint.Some? && cs[i].fingerprint != cs[j].fingerprint;
    }
  }

  lemma StayHere(h: Fingerprinter, r: Record)
    ensures LeadsTo(h, r, r)
  {
    assert IsChain(h, [r], []);
  }

  lemma ChainBefore(h: Fingerprinter, a: Record, c: Call, states: seq<Record>, calls: seq<Call>)
    requires IsChain(h, states, calls) && CallValid(c) && Step(h, a, c) == Ok(states[0])
    ensures IsChain(h, [a] + states, [c] + calls)
  {
    forall i | 0 <= i < |[c] + calls|
      ensures CallValid(([c] + calls)[i]) && Step(h, ([a] + states)[i], ([c] + calls)[i]) == Ok(([a] + states)[i + 1])
    {
      if i > 0 { assert Step(h, states[i - 1], calls[i - 1]) == Ok(states[i]); }
    }
  }

  lemma OneStepFirst(h: Fingerprinter, a: Record, c: Call, b: Record)
    requires CallValid(c) && Step(h, a, c).Ok? && LeadsTo(h, Step(h, a, c).value, b)
    ensures LeadsTo(h, a, b)
  {
    var next := Step(h, a, c).value;
    var states, calls :| IsChain(h, states, calls) && states[0] == next && states[|calls|] == b;
    ChainBefore(h, a, c, states, calls);
    assert IsChain(h, [a] + states, [c] + calls) && ([a] + states)[|[c] + calls|] == b;
  }

  /** Going on for as long as some call succeeds ends blocked or complete. */
  lemma {:induction false} GoOn(h: Fingerprinter, r: Record) returns (b: Record)
    requires Inv(r) && PlanMade(r)
    ensures LeadsTo(h, r, b) && (Blocked(h, b) || b.currentStage.Complete?)
    decreases StagesLeft(r), UnfinishedCount(r)
  {
    if Blocked(h, r) || r.currentStage.Complete? {
      StayHere(h, r);
      b := r;
    } else {
      if r.currentStage.Run? { RunStageMoves(h, r); } else { NonRunMoves(h, r); }
      var c :| CallValid(c) && Step(h, r, c).Ok?;
      StepInv(h, r, c);
      StepContents(h, r, c);
      StepDecreases(h, r, c);
      b := GoOn(h, Step(h, r, c).value);
      OneStepFirst(h, r, c, b);
    }
  }

  lemma CanBlockShares(h: Fingerprinter, r: Record)
    requires Inv(r) && PlanMade(r) && CanBlock(h, r)
    ensures SharedContent(h, r.candidates)
  {
    var b :| LeadsTo(h, r, b) && Blocked(h, b);
    EndShares(h, r, b);
  }

  lemma CanCompleteApart(h: Fingerprinter, r: Record)
    requires Inv(r) && PlanMade(r) && CanComplete(h, r)
    ensures !SharedContent(h, r.candidates)
  {
    var b :| LeadsTo(h, r, b) && b.currentStage.Complete?;
    EndShares(h, r, b);
  }

  lemma EndShares(h: Fingerprinter, r: Record, b: Record)
    requires Inv(r) && PlanMade(r) && LeadsTo(h, r, b) && (Blocked(h, b) || b.currentStage.Complete?)
    ensures Blocked(h, b) <==> SharedContent(h, r.candidates)
    ensures b.currentStage.Complete? <==> !SharedContent(h, r.candidates)
  {
    LeadsToContents(h, r, b);
    SharedIff(h, r.candidates, b.candidates);
    if Blocked(h, b) { BlockedShares(h, b); }
    if b.currentStage.Complete? { FinishedApart(h, b); }
  }

  /** From a record whose plan is made, some calls block the campaign if and only if
      two of its candidates share content, and some calls complete it if and only if
      none do. */
  lemma BlocksIffShared(h: Fingerprinter, r: Record)
    requires Inv(r) && PlanMade(r)
    ensures CanBlock(h, r) <==> SharedContent(h, r.candidates)
    ensures CanComplete(h, r) <==> !SharedContent(h, r.candidates)
  {
    var b := GoOn(h, r);
    EndShares(h, r, b);
    if CanBlock(h, r) { CanBlockShares(h, r); }
    if CanComplete(h, r) { CanCompleteApart(h, r); }
  }

  /** So a caller knows before the planning call: in every run, an accepted plan can
      block the campaign exactly when two planned candidates share content, and can
      be completed exactly when none do. */
  lemma PlanDecides(h: Fingerprinter, config: Config, platform: Option<Artifact>,
                    states: seq<Record>, calls: seq<Call>, input: AdvanceInput)
    requires IsRun(h, config, platform, states, calls) && states[|calls|].currentStage.PlanCandidates?
    requires InputValid(input) && Advance(states[|calls|], input).Ok?
    ensures var next := Advance(states[|calls|], input).value;
            && (CanBlock(h, next) <==> SharedContent(h, input.candidates))
            && (CanComplete(h, next) <==> !SharedContent(h, input.candidates))
  {
    RunInv(h, config, platform, states, calls, |calls|);
    AcceptedPlan(h, states[|calls|], input);
    BlocksIffShared(h, Advance(states[|calls|], input).value);
  }

  lemma AcceptedPlan(h: Fingerprinter, r: Record, input: AdvanceInput)
    requires Inv(r) && r.currentStage.PlanCandidates? && InputValid(input) && Advance(r, input).Ok?
    ensures var next := Advance(r, input).value;
            Inv(next) && PlanMade(next) && (SharedContent(h, next.candidates) <==> SharedContent(h, input.candidates))
  {
    var next := Advance(r, input).value;
    StepInv(h, r, CallAdvance(input));
    PlanRecorded(r, input);
    ActivateContents(h, input.candidates, next.currentStage);
    SharedIff(h, input.candidates, next.candidates);
  }

  lemma PlanRecorded(r: Record, input: AdvanceInput)
    requires r.currentStage.PlanCandidates? && r.candidates == [] && Advance(r, input).Ok?
    ensures var next := Advance(r, input).value;
            next.currentStage.Run? && next.candidates == Activate(input.candidates, next.currentStage)
  {
    assert r.candidates + input.candidates == input.candidates;
    assert StageUpdates(r, input) == PlanUpdates(r, input);
  }
}
