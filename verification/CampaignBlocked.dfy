/** Blocked campaigns exist: planning two candidates with one content is accepted. */
module CampaignBlocked {
  import opened Wrappers
  import opened CampaignModels
  import opened CampaignEngine
  import opened CampaignRuns
  import opened CampaignProgress
  import opened CampaignAdvances

  const TWO_TRIALS := Config("campaign", "task", [MixedBit], 2)

  function Named(r: Record, id: string, fingerprint: Option<string>): Candidate
    requires r.sharedBaselines != []
  {
    Candidate(id, MixedBit, [r.sharedBaselines[0].id], None, Planned, [], [], false, fingerprint)
  }

  /** A candidate without a fingerprint, and one that already carries its content. */
  function Twins(h: Fingerprinter, r: Record): seq<Candidate>
    requires r.sharedBaselines != []
  {
    [Named(r, "a", None), Named(r, "b", Some(h(MixedBit, None, "a")))]
  }

  function Started(h: Fingerprinter, r: Record): seq<Candidate>
    requires r.sharedBaselines != []
  {
    Twins(h, r)[0 := Twins(h, r)[0].(disposition := Running)]
  }

  function TwinInput(h: Fingerprinter, r: Record): AdvanceInput
    requires r.sharedBaselines != []
  {
    NO_INPUT.(evidence := [PROOF], candidates := Twins(h, r))
  }

  lemma TwinsStart(h: Fingerprinter, r: Record)
    requires r.sharedBaselines != []
    ensures Activate(Twins(h, r), Run(MixedBit)) == Started(h, r)
  {
    assert IsPlanned(Twins(h, r)[0], MixedBit);
  }

  lemma TwinsBlocked(h: Fingerprinter, r: Record, next: Record)
    requires r.sharedBaselines != [] && next.candidates == Started(h, r)
    ensures Blocked(h, next)
  {
    assert next.candidates[1].fingerprint == Some(FingerprintOf(h, next.candidates[0]));
    assert ContentTaken(h, next.candidates, 0);
  }

  lemma TwinsPlannable(h: Fingerprinter, r: Record)
    requires r.config == TWO_TRIALS && r.sharedBaselines != []
    ensures Plannable(r, Twins(h, r)) && InputValid(TwinInput(h, r))
  {
    assert IsBaseline(r.sharedBaselines, r.sharedBaselines[0].id);
  }

  /** The engine accepts the twins, and the first of them can then never report. */
  lemma TwinsPlanned(h: Fingerprinter, r: Record) returns (next: Record)
    requires r.sharedBaselines != []
    requires Inv(r) && r.status.Active? && r.currentStage.PlanCandidates? && r.config == TWO_TRIALS
    ensures InputValid(TwinInput(h, r)) && Advance(r, TwinInput(h, r)) == Ok(next)
    ensures next.status.Active? && Blocked(h, next)
  {
    TwinsPlannable(h, r);
    PlanIff(r, TwinInput(h, r));
    PlannedFrom(r, TwinInput(h, r));
    next := Advance(r, TwinInput(h, r)).value;
    TwinsStart(h, r);
    TwinsBlocked(h, r, next);
  }

  /** A record of some run of the two-candidate campaign. */
  ghost predicate Reached(h: Fingerprinter, r: Record) {
    exists states, calls :: IsRun(h, TWO_TRIALS, None, states, calls) && states[|calls|] == r
  }

  lemma ReachedInv(h: Fingerprinter, r: Record)
    requires Reached(h, r)
    ensures Inv(r) && r.config == TWO_TRIALS
  {
    var states, calls :| IsRun(h, TWO_TRIALS, None, states, calls) && states[|calls|] == r;
    RunInv(h, TWO_TRIALS, None, states, calls, |calls|);
  }

  lemma ReachNext(h: Fingerprinter, r: Record, input: AdvanceInput, next: Record)
    requires Reached(h, r) && InputValid(input) && Advance(r, input) == Ok(next)
    ensures Reached(h, next)
  {
    var states, calls :| IsRun(h, TWO_TRIALS, None, states, calls) && states[|calls|] == r;
    var call := CallAdvance(input);
    ExtendRun(h, TWO_TRIALS, None, states, calls, call, next);
    assert IsRun(h, TWO_TRIALS, None, states + [next], calls + [call]);
  }

  lemma ReachNew(h: Fingerprinter)
    ensures Reached(h, New(TWO_TRIALS, None))
  {
    assert IsRun(h, TWO_TRIALS, None, [New(TWO_TRIALS, None)], []);
  }

  lemma EarlyNext(r: Record, input: AdvanceInput)
    requires (r.currentStage.CreateCampaign? || r.currentStage.InspectTarget?) && Advance(r, input).Ok?
    ensures Advance(r, input).value.status == r.status
    ensures Advance(r, input).value.currentStage
            == if r.currentStage.CreateCampaign? then InspectTarget else CaptureSharedBaselines
  {}

  lemma CaptureNext(r: Record, input: AdvanceInput)
    requires r.currentStage.CaptureSharedBaselines? && Advance(r, input).Ok?
    ensures Advance(r, input).value.status == r.status && Advance(r, input).value.currentStage == PlanCandidates
  {}

  /** Some run reaches an active record at `stage`. */
  ghost predicate ReachedStage(h: Fingerprinter, stage: Stage) {
    exists r :: Reached(h, r) && r.status.Active? && r.currentStage == stage
  }

  /** An early stage leads to the next one. */
  lemma ReachEarly(h: Fingerprinter, stage: Stage)
    requires ReachedStage(h, stage) && (stage.CreateCampaign? || stage.InspectTarget?)
    ensures ReachedStage(h, if stage.CreateCampaign? then InspectTarget else CaptureSharedBaselines)
  {
    var r :| Reached(h, r) && r.status.Active? && r.currentStage == stage;
    ReachedInv(h, r);
    EarlyMoves(r);
    var input := NO_INPUT.(evidence := [PROOF]);
    EarlyNext(r, input);
    ReachNext(h, r, input, Advance(r, input).value);
  }

  lemma ReachPlanning(h: Fingerprinter)
    requires ReachedStage(h, CaptureSharedBaselines)
    ensures ReachedStage(h, PlanCandidates)
  {
    var r :| Reached(h, r) && r.status.Active? && r.currentStage == CaptureSharedBaselines;
    var b := Baseline("baseline", "task", PROOF);
    ReachedInv(h, r);
    CaptureMoves(r, b);
    var input := NO_INPUT.(baselines := [b]);
    CaptureNext(r, input);
    ReachNext(h, r, input, Advance(r, input).value);
  }

  /** Some run reaches an active, blocked campaign. */
  ghost predicate ReachedBlocked(h: Fingerprinter) {
    exists r :: Reached(h, r) && r.status.Active? && Blocked(h, r)
  }

  lemma ReachFromPlanning(h: Fingerprinter, r: Record)
    requires Reached(h, r) && r.status.Active? && r.currentStage == PlanCandidates
    ensures ReachedBlocked(h)
  {
    ReachedInv(h, r);
    var next := TwinsPlanned(h, r);
    ReachNext(h, r, TwinInput(h, r), next);
  }

  lemma ReachBlocked(h: Fingerprinter)
    requires ReachedStage(h, PlanCandidates)
    ensures ReachedBlocked(h)
  {
    var r :| Reached(h, r) && r.status.Active? && r.currentStage == PlanCandidates;
    ReachFromPlanning(h, r);
  }

  /** Whatever the fingerprints are, some run reaches an active, blocked campaign. */
  lemma BlockedIsReachable(h: Fingerprinter)
    ensures ReachedBlocked(h)
  {
    ReachNew(h);
    assert ReachedStage(h, CreateCampaign);
    ReachEarly(h, CreateCampaign);
    ReachEarly(h, InspectTarget);
    ReachPlanning(h);
    ReachBlocked(h);
  }
}
