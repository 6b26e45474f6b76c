/** When a campaign can move on: the exact condition under which every further call is refused. */
module CampaignProgress {
  import opened Wrappers
  import opened CampaignModels
  import opened CampaignEngine
  import opened CampaignSerial
  import opened CampaignLedger
  import opened CampaignRuns

  /** The content of the candidate at `k` is already the content of another candidate. */
  predicate ContentTaken(h: Fingerprinter, cs: seq<Candidate>, k: nat)
    requires k < |cs|
  {
    exists j :: 0 <= j < |cs| && j != k && cs[j].fingerprint == Some(FingerprintOf(h, cs[k]))
  }

  /** The running candidate can never report: its content repeats a peer's. */
  predicate Blocked(h: Fingerprinter, r: Record) {
    exists k :: 0 <= k < |r.candidates| && r.candidates[k].disposition.Running? && ContentTaken(h, r.candidates, k)
  }

  /** The updates of a result that the ledger accepts. */
  function ResultUpdates(h: Fingerprinter, r: Record, k: nat, v: Verdict, artifacts: seq<Artifact>,
                         reasons: seq<string>, l: Ledger): Updates
    requires k < |r.candidates|
  {
    var done := r.candidates[k := Finished(h, r.candidates[k], v, artifacts, reasons)];
    NO_UPDATES.(candidates := Some(Activate(done, r.currentStage)), ledger := Some(l))
  }

  lemma FreshContentAccepted(h: Fingerprinter, r: Record, k: nat, d: Disposition, artifacts: seq<Artifact>)
    requires Inv(r) && k < |r.candidates| && r.candidates[k].disposition.Running?
    requires !ContentTaken(h, r.candidates, k)
    ensures LedgerAfter(h, r.ledger, r.candidates[k], d, artifacts).Ok?
  {
    MirrorIsOneToOne(r);
    var l, fp := r.ledger, FingerprintOf(h, r.candidates[k]);
    forall i | 0 <= i < |l.attempts| ensures l.attempts[i].fingerprint != fp {
      var j :| 0 <= j < |r.candidates| && MirrorsCandidate(l.attempts[i], r.candidates[j]);
      assert j != k;
    }
  }

  lemma FinishFingerprints(cs: seq<Candidate>, k: nat, c: Candidate)
    requires k < |cs| && UniqueFingerprints(cs) && c.fingerprint.Some?
    ensures UniqueFingerprints(cs[k := c]) <==>
              !exists j :: 0 <= j < |cs| && j != k && cs[j].fingerprint == c.fingerprint
  {
    var ds := cs[k := c];
    if j :| 0 <= j < |cs| && j != k && cs[j].fingerprint == c.fingerprint {
      assert ds[j] == cs[j] && ds[k] == c;
      if j < k { assert ds[j].fingerprint == ds[k].fingerprint; }
      else { assert ds[k].fingerprint == ds[j].fingerprint; }
    }
  }

  lemma ActivateFingerprints(cs: seq<Candidate>, stage: Stage)
    ensures UniqueFingerprints(Activate(cs, stage)) <==> UniqueFingerprints(cs)
  {
    ActivateShape(cs, stage);
    var ds := Activate(cs, stage);
    assert forall i :: 0 <= i < |cs| ==> ds[i].fingerprint == cs[i].fingerprint;
  }

  /** The candidates after a result satisfy the record validator exactly when the
      finished content is new. */
  lemma ResultCandidatesValid(h: Fingerprinter, r: Record, k: nat, u: Updates, c: Candidate)
    requires CandidatesValid(r) && k < |r.candidates|
    requires c.id == r.candidates[k].id && c.strategy == r.candidates[k].strategy
    requires c.baselineIds == r.candidates[k].baselineIds
    requires c.fingerprint == Some(FingerprintOf(h, r.candidates[k]))
    requires u == NO_UPDATES.(candidates := Some(Activate(r.candidates[k := c], r.currentStage)), ledger := u.ledger)
    ensures CandidatesValid(Merge(r, u)) <==> !ContentTaken(h, r.candidates, k)
  {
    var done, next := r.candidates[k := c], Merge(r, u);
    ActivateShape(done, r.currentStage);
    ActivateFingerprints(done, r.currentStage);
    FinishFingerprints(r.candidates, k, c);
    forall i | 0 <= i < |next.candidates|
      ensures next.candidates[i].id == r.candidates[i].id
      ensures next.candidates[i].strategy == r.candidates[i].strategy
      ensures next.candidates[i].baselineIds == r.candidates[i].baselineIds
    {}
    forall i, b | 0 <= i < |next.candidates| && b in next.candidates[i].baselineIds
      ensures KnownBaseline(next, b)
    {
      assert b in r.candidates[i].baselineIds && KnownBaseline(r, b);
    }
  }

  lemma SerialRunning(r: Record)
    requires Serial(r) && r.currentStage.Run?
    requires forall i :: 0 <= i < |r.candidates| ==> r.candidates[i].strategy in r.config.strategyOrder
    ensures RunningValid(r)
  {
    var order, s := r.config.strategyOrder, r.currentStage.strategy;
    forall i | 0 <= i < |r.candidates| && r.candidates[i].disposition.Running?
      ensures r.candidates[i].strategy == s && i == FirstOpen(r.candidates, s)
    {
      assert Position(order, r.candidates[i].strategy) == Position(order, s);
      assert Open(r.candidates[i], s);
    }
  }

  lemma ResultSelectionValid(r: Record, u: Updates)
    requires SelectionValid(r) && r.selectedIds == [] && u.selectedIds.None? && u.candidates.Some?
    requires forall i :: 0 <= i < |u.candidates.value| ==> !u.candidates.value[i].winner
    ensures SelectionValid(Merge(r, u))
  {}

  /** Decisions and gate decisions are terminal, and so are four of the dispositions. */
  predicate TerminalVerdict(v: Verdict) {
    v.Direct? ==> v.disposition.Terminal()
  }

  /** In every reachable record, a terminal verdict for the running candidate is
      recorded if and only if no other candidate has the same content. */
  lemma ResultAcceptedIff(h: Fingerprinter, r: Record, k: nat, v: Verdict, artifacts: seq<Artifact>,
                          reasons: seq<string>)
    requires Inv(r) && k < |r.candidates| && r.candidates[k].disposition.Running?
    requires TerminalVerdict(v)
    ensures RecordCandidateResult(h, r, r.candidates[k].id, v, artifacts, reasons).Ok?
       <==> !ContentTaken(h, r.candidates, k)
  {
    var d := VerdictDisposition(v);
    assert r.currentStage == Run(r.candidates[k].strategy);
    assert IndexOf(r.candidates, r.candidates[k].id) == k;
    var after := LedgerAfter(h, r.ledger, r.candidates[k], d, artifacts);
    if after.Ok? {
      ResultUpdateAcceptedIff(h, r, k, v, artifacts, reasons, after.value);
    } else if !ContentTaken(h, r.candidates, k) {
      FreshContentAccepted(h, r, k, d, artifacts);
    }
  }

  lemma ResultUpdateAcceptedIff(h: Fingerprinter, r: Record, k: nat, v: Verdict, artifacts: seq<Artifact>,
                                reasons: seq<string>, after: Ledger)
    requires Inv(r) && k < |r.candidates| && r.candidates[k].disposition.Running?
    requires TerminalVerdict(v)
    ensures UpdatedRecord(r, ResultUpdates(h, r, k, v, artifacts, reasons, after)).Ok?
       <==> !ContentTaken(h, r.candidates, k)
  {
    var c := Finished(h, r.candidates[k], v, artifacts, reasons);
    var u := ResultUpdates(h, r, k, v, artifacts, reasons, after);
    ResultCandidatesValid(h, r, k, u, c);
    if !ContentTaken(h, r.candidates, k) { ResultRecordValid(h, r, k, u, c); }
  }

  lemma ResultRecordValid(h: Fingerprinter, r: Record, k: nat, u: Updates, c: Candidate)
    requires Inv(r) && k < |r.candidates| && r.candidates[k].disposition.Running?
    requires c.strategy == r.candidates[k].strategy && c.disposition.Terminal() && !c.winner
    requires u == NO_UPDATES.(candidates := Some(Activate(r.candidates[k := c], r.currentStage)), ledger := u.ledger)
    requires CandidatesValid(Merge(r, u)) && u.ledger.Some?
    ensures RecordValid(Merge(r, u)) && DumpedPartsValid(r, u)
  {
    var s := r.currentStage.strategy;
    FinishSerial(r.candidates, r.config.strategyOrder, s, k, c);
    SerialRunning(Merge(r, u));
    ActivateShape(r.candidates[k := c], r.currentStage);
    ResultSelectionValid(r, u);
  }

  /******* Every other stage can always advance *******/

  const PROOF := Artifact("evidence", "")

  lemma CaptureMoves(r: Record, b: Baseline)
    requires Inv(r) && r.status.Active? && r.currentStage.CaptureSharedBaselines?
    requires b.taskId == r.config.taskId
    ensures Advance(r, NO_INPUT.(baselines := [b])).Ok?
  {
    MirrorIsValid(r);
    assert r.sharedBaselines + [b] == [b];
  }

  /** A planned candidate that only cites a captured baseline is acceptable. */
  lemma LoneCandidateValid(r: Record)
    requires r.sharedBaselines != [] && ConfigValid(r.config)
    requires |r.candidates| == 1 && r.candidates[0].strategy == r.config.strategyOrder[0]
    requires r.candidates[0].baselineIds == [r.sharedBaselines[0].id]
    ensures CandidatesValid(r)
  {
    assert KnownBaseline(r, r.sharedBaselines[0].id);
  }

  lemma LoneSelectionValid(r: Record)
    requires r.selectedIds == [] && |r.candidates| == 1 && !r.candidates[0].winner
    ensures SelectionValid(r)
  {}

  function LoneCandidate(r: Record): Candidate
    requires r.config.strategyOrder != [] && r.sharedBaselines != []
  {
    Candidate("candidate", r.config.strategyOrder[0], [r.sharedBaselines[0].id], None, Planned, [], [], false, None)
  }

  /** The updates that planning it makes. */
  function LoneUpdates(r: Record): Updates
    requires r.config.strategyOrder != [] && r.sharedBaselines != []
  {
    var stage := Run(r.config.strategyOrder[0]);
    NO_UPDATES.(candidates := Some(Activate([LoneCandidate(r)], stage)), stage := Some(stage),
               completions := Some(r.completions + [Completion(PlanCandidates, [PROOF])]))
  }

  lemma LoneAccepted(r: Record)
    requires Inv(r) && r.status.Active? && r.currentStage.PlanCandidates?
    ensures UpdatedRecord(r, LoneUpdates(r)).Ok?
  {
    var next := Merge(r, LoneUpdates(r));
    MirrorIsValid(r);
    ActivateShape([LoneCandidate(r)], Run(r.config.strategyOrder[0]));
    LoneCandidateValid(next);
    LoneSelectionValid(next);
    assert RunningValid(next);
  }

  lemma LoneAdvance(r: Record)
    requires Serial(r) && r.status.Active? && r.currentStage.PlanCandidates?
    requires r.config.strategyOrder != [] && r.sharedBaselines != []
    ensures Advance(r, NO_INPUT.(evidence := [PROOF], candidates := [LoneCandidate(r)]))
            == UpdatedRecord(r, LoneUpdates(r))
  {
    assert r.candidates + [LoneCandidate(r)] == [LoneCandidate(r)];
  }

  lemma PlanMoves(r: Record)
    requires Inv(r) && r.status.Active? && r.currentStage.PlanCandidates?
    ensures var input := NO_INPUT.(evidence := [PROOF], candidates := [LoneCandidate(r)]);
            InputValid(input) && Advance(r, input).Ok?
  {
    LoneAccepted(r);
    LoneAdvance(r);
  }

  /** Validity of the candidate list looks only at identities, content and baselines. */
  lemma SameCandidatesValid(r: Record, next: Record)
    requires CandidatesValid(r) && next.config == r.config && next.sharedBaselines == r.sharedBaselines
    requires |next.candidates| == |r.candidates|
    requires forall i :: 0 <= i < |r.candidates| ==>
               && next.candidates[i].id == r.candidates[i].id
               && next.candidates[i].strategy == r.candidates[i].strategy
               && next.candidates[i].baselineIds == r.candidates[i].baselineIds
               && next.candidates[i].fingerprint == r.candidates[i].fingerprint
    ensures CandidatesValid(next)
  {
    assert forall b :: KnownBaseline(r, b) ==> KnownBaseline(next, b);
  }

  lemma ActivatedCandidatesValid(r: Record, u: Updates)
    requires CandidatesValid(r) && SelectionValid(r) && r.selectedIds == []
    requires u.stage.Some? && u.stage.value.Run?
    requires u == NO_UPDATES.(candidates := Some(Activate(r.candidates, u.stage.value)), stage := u.stage,
                             completions := u.completions)
    ensures CandidatesValid(Merge(r, u)) && SelectionValid(Merge(r, u))
  {
    ActivateShape(r.candidates, u.stage.value);
    SameCandidatesValid(r, Merge(r, u));
    ResultSelectionValid(r, u);
  }

  lemma ActivatedRecordValid(r: Record, u: Updates)
    requires RecordValid(r) && r.selectedIds == [] && r.currentStage.Run? && r.status.Active?
    requires u.stage.Some? && u.stage.value.Run?
    requires u == NO_UPDATES.(candidates := Some(Activate(r.candidates, u.stage.value)), stage := u.stage,
                             completions := u.completions)
    requires Serial(Merge(r, u))
    ensures RecordValid(Merge(r, u))
  {
    ActivatedCandidatesValid(r, u);
    SerialRunning(Merge(r, u));
  }

  /** What leaving a strategy writes. */
  function LeaveUpdates(r: Record, evidence: seq<Artifact>): Updates
    requires r.currentStage.Run? && StrategyUpdates(r, r.currentStage.strategy).Ok?
  {
    var input := NO_INPUT.(evidence := evidence);
    StrategyUpdates(r, r.currentStage.strategy).value.(
      completions := Some(r.completions + [Completion(r.currentStage, StageEvidence(r, input))]))
  }

  lemma LeaveValid(r: Record, evidence: seq<Artifact>)
    requires Inv(r) && r.status.Active? && r.currentStage.Run? && StrategyUpdates(r, r.currentStage.strategy).Ok?
    ensures RecordValid(Merge(r, LeaveUpdates(r, evidence)))
  {
    var s, u := r.currentStage.strategy, LeaveUpdates(r, evidence);
    StrategyAdvanceSerial(r, StrategyUpdates(r, s).value);
    assert Serial(Merge(r, u));
    if u.stage.value.Run? {
      ActivatedRecordValid(r, u);
    } else {
      FinishedRecordValid(r, u);
    }
  }

  lemma LeavePartsValid(r: Record, evidence: seq<Artifact>)
    requires Inv(r) && r.currentStage.Run? && StrategyUpdates(r, r.currentStage.strategy).Ok?
    ensures DumpedPartsValid(r, LeaveUpdates(r, evidence))
  {
    MirrorIsValid(r);
  }

  /** A strategy whose candidates have all finished can be left with any evidence. */
  lemma StrategyMoves(r: Record, evidence: seq<Artifact>)
    requires Inv(r) && r.status.Active? && r.currentStage.Run?
    requires !Unfinished(r.candidates, r.currentStage.strategy)
    requires StageEvidence(r, NO_INPUT.(evidence := evidence)) != []
    ensures Advance(r, NO_INPUT.(evidence := evidence)).Ok?
  {
    LeaveValid(r, evidence);
    LeavePartsValid(r, evidence);
  }

  lemma FinishedRecordValid(r: Record, u: Updates)
    requires Inv(r) && r.currentStage.Run? && r.status.Active?
    requires u == NO_UPDATES.(stage := Some(SelectWinners), completions := u.completions)
    requires AllTerminal(r.candidates)
    ensures RecordValid(Merge(r, u))
  {
    assert forall b :: KnownBaseline(r, b) ==> KnownBaseline(Merge(r, u), b);
  }

  /** Selecting nobody is always possible. */
  lemma WinnersMove(r: Record)
    requires Inv(r) && r.status.Active? && r.currentStage.SelectWinners?
    ensures Advance(r, NO_INPUT.(selected := Some([]))).Ok?
  {
    MirrorIsValid(r);
    var input := NO_INPUT.(selected := Some([]));
    var u := WinnerUpdates(r, input).value;
    var next := Merge(r, u.(completions := Some(r.completions + [Completion(r.currentStage, [])])));
    assert StageEvidence(r, input) == [];
    SameCandidatesValid(r, next);
  }

  lemma CombinationMoves(r: Record)
    requires Inv(r) && r.status.Active? && r.currentStage.BuildCompatibleCombination?
    ensures var input := NO_INPUT.(evidence := [PROOF], compatibility := Some(NO_WINNER_COMPATIBILITY),
                                  combination := Some(NO_WINNER_COMBINATION));
            InputValid(input) && Advance(r, input).Ok?
  {
    MirrorIsValid(r);
    var input := NO_INPUT.(evidence := [PROOF], compatibility := Some(NO_WINNER_COMPATIBILITY),
                          combination := Some(NO_WINNER_COMBINATION));
    var u := CombinationUpdates(r, input).value;
    var next := Merge(r, u.(completions := Some(r.completions + [Completion(r.currentStage, [PROOF])])));
    SameCandidatesValid(r, next);
  }

  lemma FinalMoves(r: Record)
    requires Inv(r) && r.status.Active? && r.currentStage.FinalValidation?
    ensures var input := NO_INPUT.(evidence := [PROOF], combination := Some(NO_WINNER_COMBINATION),
                                  finalStatus := Some(StatusRejected));
            InputValid(input) && Advance(r, input).Ok?
  {
    MirrorIsValid(r);
    var input := NO_INPUT.(evidence := [PROOF], combination := Some(NO_WINNER_COMBINATION),
                          finalStatus := Some(StatusRejected));
    var u := FinalUpdates(r, input).value;
    var next := Merge(r, u.(completions := Some(r.completions + [Completion(r.currentStage, [PROOF])])));
    SameCandidatesValid(r, next);
  }

  lemma EarlyMoves(r: Record)
    requires Inv(r) && r.status.Active? && (r.currentStage.CreateCampaign? || r.currentStage.InspectTarget?)
    ensures Advance(r, NO_INPUT.(evidence := [PROOF])).Ok?
  {
    MirrorIsValid(r);
  }

  /** Some call succeeds. */
  ghost predicate CanMove(h: Fingerprinter, r: Record) {
    exists c :: CallValid(c) && Step(h, r, c).Ok?
  }

  lemma AdvanceIsAMove(h: Fingerprinter, r: Record, input: AdvanceInput)
    requires InputValid(input) && Advance(r, input).Ok?
    ensures CanMove(h, r)
  {
    assert CallValid(CallAdvance(input)) && Step(h, r, CallAdvance(input)).Ok?;
  }

  lemma NonRunMoves(h: Fingerprinter, r: Record)
    requires Inv(r) && r.status.Active? && !r.currentStage.Run?
    ensures CanMove(h, r)
  {
    match r.currentStage
    case CreateCampaign =>
      EarlyMoves(r);
      AdvanceIsAMove(h, r, NO_INPUT.(evidence := [PROOF]));
    case InspectTarget =>
      EarlyMoves(r);
      AdvanceIsAMove(h, r, NO_INPUT.(evidence := [PROOF]));
    case CaptureSharedBaselines =>
      var b := Baseline("baseline", r.config.taskId, PROOF);
      CaptureMoves(r, b);
      AdvanceIsAMove(h, r, NO_INPUT.(baselines := [b]));
    case PlanCandidates =>
      PlanMoves(r);
      AdvanceIsAMove(h, r, NO_INPUT.(evidence := [PROOF], candidates := [LoneCandidate(r)]));
    case SelectWinners =>
      WinnersMove(r);
      AdvanceIsAMove(h, r, NO_INPUT.(selected := Some([])));
    case BuildCompatibleCombination =>
      CombinationMoves(r);
      AdvanceIsAMove(h, r, NO_INPUT.(evidence := [PROOF], compatibility := Some(NO_WINNER_COMPATIBILITY),
                                    combination := Some(NO_WINNER_COMBINATION)));
    case FinalValidation =>
      FinalMoves(r);
      AdvanceIsAMove(h, r, NO_INPUT.(evidence := [PROOF], combination := Some(NO_WINNER_COMBINATION),
                                    finalStatus := Some(StatusRejected)));
  }

  lemma BlockedRefuses(h: Fingerprinter, r: Record, c: Call)
    requires Inv(r) && Blocked(h, r)
    ensures Step(h, r, c).Err?
  {
    var k :| 0 <= k < |r.candidates| && r.candidates[k].disposition.Running? && ContentTaken(h, r.candidates, k);
    match c
    case CallAdvance(input) =>
      assert Unfinished(r.candidates, r.currentStage.strategy);
    case CallRecord(id, v, artifacts, reasons) =>
      if Step(h, r, c).Ok? {
        var i := IndexOf(r.candidates, id);
        assert i == k;
        ResultAcceptedIff(h, r, k, v, artifacts, reasons);
        assert false;
      }
  }

  lemma RunStageMoves(h: Fingerprinter, r: Record)
    requires Inv(r) && r.status.Active? && r.currentStage.Run? && !Blocked(h, r)
    ensures CanMove(h, r)
  {
    var k := FirstOpen(r.candidates, r.currentStage.strategy);
    if k < |r.candidates| {
      var c := CallRecord(r.candidates[k].id, Direct(Skipped), [], []);
      ResultAcceptedIff(h, r, k, Direct(Skipped), [], []);
      assert CallValid(c) && Step(h, r, c).Ok?;
    } else {
      assert StageEvidence(r, NO_INPUT.(evidence := [PROOF])) != [];
      StrategyMoves(r, [PROOF]);
      AdvanceIsAMove(h, r, NO_INPUT.(evidence := [PROOF]));
    }
  }

  /** A reachable, active campaign is stuck, whatever is tried next, if and only if
      its running candidate has the same content as another candidate. */
  lemma StuckIffContentTaken(h: Fingerprinter, config: Config, platform: Option<Artifact>,
                             states: seq<Record>, calls: seq<Call>, n: nat)
    requires IsRun(h, config, platform, states, calls) && n < |states| && states[n].status.Active?
    ensures CanMove(h, states[n]) <==> !Blocked(h, states[n])
  {
    var r := states[n];
    RunInv(h, config, platform, states, calls, n);
    if Blocked(h, r) {
      forall c ensures Step(h, r, c).Err? { BlockedRefuses(h, r, c); }
    } else if r.currentStage.Run? {
      RunStageMoves(h, r);
    } else {
      NonRunMoves(h, r);
    }
  }
}
