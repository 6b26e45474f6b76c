/** Which calls a campaign accepts, stage by stage. */
module CampaignAdvances {
  import opened Wrappers
  import opened CampaignModels
  import opened CampaignEngine
  import opened CampaignLedger
  import opened CampaignRuns
  import opened CampaignProgress
  import opened CampaignWinners

  /******* What each stage asks for *******/

  /** Baselines of the campaign's task, under different ids. */
  predicate Capturable(r: Record, bs: seq<Baseline>) {
    && bs != []
    && (forall i, j :: 0 <= i < j < |bs| ==> bs[i].id != bs[j].id)
    && (forall i :: 0 <= i < |bs| ==> bs[i].taskId == r.config.taskId)
  }

  predicate IsBaseline(bs: seq<Baseline>, id: string) {
    exists i :: 0 <= i < |bs| && bs[i].id == id
  }

  /** A candidate that may be planned: of a configured strategy, citing captured baselines. */
  predicate MayPlan(r: Record, c: Candidate) {
    && c.disposition.Planned? && !c.winner && c.strategy in r.config.strategyOrder
    && forall b :: b in c.baselineIds ==> IsBaseline(r.sharedBaselines, b)
  }

  predicate DifferentPlans(a: Candidate, b: Candidate) {
    a.id != b.id && (a.fingerprint.Some? && b.fingerprint.Some? ==> a.fingerprint.value != b.fingerprint.value)
  }

  /** Candidates that may be planned, not too many, under different ids and fingerprints. */
  predicate Plannable(r: Record, cs: seq<Candidate>) {
    && 1 <= |cs| <= r.config.maxCandidates
    && (forall i :: 0 <= i < |cs| ==> MayPlan(r, cs[i]))
    && (forall i, j :: 0 <= i < j < |cs| ==> DifferentPlans(cs[i], cs[j]))
  }

  /** All candidates of a strategy have finished. */
  predicate Finished(cs: seq<Candidate>, s: Strategy) {
    forall i :: 0 <= i < |cs| && cs[i].strategy == s ==>
                  cs[i].disposition in {ExperimentalAccepted, Rejected, Inconclusive, Skipped}
  }

  predicate LeftEvidence(cs: seq<Candidate>, s: Strategy) {
    exists i :: 0 <= i < |cs| && cs[i].strategy == s && cs[i].resultArtifacts != []
  }

  predicate Among(ids: seq<string>, all: seq<string>) {
    forall k :: 0 <= k < |ids| ==> ids[k] in all
  }

  /** A decided compatibility and a combination, of winners only; a compatible one is built.
      Without winners either may be left out. */
  predicate Combinable(r: Record, compatibility: Option<Compatibility>, combination: Option<Combination>) {
    && (r.selectedIds != [] ==> compatibility.Some? && combination.Some?)
    && (compatibility.Some? ==>
          && !compatibility.value.disposition.Pending? && Among(compatibility.value.candidateIds, r.selectedIds))
    && (combination.Some? ==>
          && Among(combination.value.candidateIds, r.selectedIds)
          && Among(combination.value.candidateIds,
                   if compatibility.Some? then compatibility.value.candidateIds else []))
    && (compatibility.Some? && compatibility.value.disposition.Compatible? ==>
          combination.Some? && combination.value.disposition.Built?)
  }

  /** The combination that the campaign ends with. */
  function LastCombination(r: Record, input: AdvanceInput): Option<Combination> {
    match input.combination
    case Some(c) => Some(c)
    case None => r.combination
  }

  /** The status says what became of the combination; an accepted one is a compatible,
      non-empty choice of the winners. */
  predicate Closable(r: Record, status: Option<Status>, combination: Option<Combination>) {
    && status.Some? && combination.Some? && r.compatibility.Some?
    && (match status.value
        case Active => false
        case StatusAccepted =>
          && combination.value.disposition.Validated? && combination.value.candidateIds != []
          && r.compatibility.value.disposition.Compatible?
        case StatusRejected => combination.value.disposition.CombinationRejected?
        case StatusInconclusive => combination.value.disposition.CombinationInconclusive?)
    && Among(combination.value.candidateIds, r.selectedIds)
    && Among(combination.value.candidateIds, r.compatibility.value.candidateIds)
  }

  /** What an advance must bring at the record's stage. */
  predicate Acceptable(r: Record, input: AdvanceInput) {
    match r.currentStage
    case CreateCampaign => true
    case InspectTarget => input.evidence != []
    case CaptureSharedBaselines => Capturable(r, input.baselines)
    case PlanCandidates => input.evidence != [] && Plannable(r, input.candidates)
    case Run(s) => Finished(r.candidates, s) && (input.evidence != [] || LeftEvidence(r.candidates, s))
    case SelectWinners => input.selected.Some? ==> Electable(r.candidates, input.selected.value)
    case BuildCompatibleCombination =>
      input.evidence != [] && Combinable(r, input.compatibility, input.combination)
    case FinalValidation =>
      input.evidence != [] && Closable(r, input.finalStatus, LastCombination(r, input))
    case Complete => false
  }

  /******* Stage by stage *******/

  /** With what a stage updates, the successor is valid exactly when its own validator says so. */
  lemma UpdatedIff(r: Record, u: Updates)
    requires Inv(r)
    ensures UpdatedRecord(r, u) == if RecordValid(Merge(r, u)) then Ok(Merge(r, u)) else Err(InvalidRecord)
  {
    MirrorIsValid(r);
  }

  /** The updates with the completion of the stage. */
  function Completing(r: Record, input: AdvanceInput, u: Updates): Updates {
    u.(completions := Some(r.completions + [Completion(r.currentStage, StageEvidence(r, input))]))
  }

  lemma AdvanceIff(r: Record, input: AdvanceInput)
    requires Inv(r) && r.status.Active?
    ensures Advance(r, input).Ok?
       <==> && (NeedsEvidence(r.currentStage) ==> StageEvidence(r, input) != [])
            && StageUpdates(r, input).Ok?
            && RecordValid(Merge(r, Completing(r, input, StageUpdates(r, input).value)))
  {
    if StageUpdates(r, input).Ok? { UpdatedIff(r, Completing(r, input, StageUpdates(r, input).value)); }
  }

  lemma EarlyIff(r: Record, input: AdvanceInput)
    requires Inv(r) && r.status.Active? && (r.currentStage.CreateCampaign? || r.currentStage.InspectTarget?)
    ensures Advance(r, input).Ok? <==> Acceptable(r, input)
  {
    AdvanceIff(r, input);
  }

  lemma CaptureIff(r: Record, input: AdvanceInput)
    requires Inv(r) && r.status.Active? && r.currentStage.CaptureSharedBaselines?
    ensures Advance(r, input).Ok? <==> Acceptable(r, input)
  {
    AdvanceIff(r, input);
    assert r.sharedBaselines + input.baselines == input.baselines;
    if input.baselines != [] {
      var next := Merge(r, Completing(r, input, StageUpdates(r, input).value));
      assert next.candidates == [] && next.sharedBaselines == input.baselines;
      assert BaselinesValid(next) <==> Capturable(r, input.baselines);
    }
  }

  /** Which candidates may be planned is what the validators of the successor say. */
  lemma CandidatesIff(r: Record, cs: seq<Candidate>, next: Record)
    requires 1 <= |cs| && forall i :: 0 <= i < |cs| ==> cs[i].disposition.Planned? && !cs[i].winner
    requires next.config == r.config && next.sharedBaselines == r.sharedBaselines && next.candidates == cs
    ensures CandidatesValid(next) <==> Plannable(r, cs)
  {
    forall b ensures KnownBaseline(next, b) <==> IsBaseline(r.sharedBaselines, b) {}
    if Plannable(r, cs) {
      forall i | 0 <= i < |cs| ensures MayPlan(r, cs[i]) {}
      forall i, j | 0 <= i < j < |cs| ensures DifferentPlans(cs[i], cs[j]) {}
    }
  }

  /** Starting the first candidate makes no difference to them. */
  lemma StartedIff(r: Record, cs: seq<Candidate>, next: Record)
    requires next.currentStage.Run? && next.candidates == Activate(cs, next.currentStage)
    ensures CandidatesValid(next) <==> CandidatesValid(next.(candidates := cs))
  {
    ActivateShape(cs, next.currentStage);
    if CandidatesValid(next) { SameCandidatesValid(next, next.(candidates := cs)); }
    if CandidatesValid(next.(candidates := cs)) { SameCandidatesValid(next.(candidates := cs), next); }
  }

  lemma OneStarted(cs: seq<Candidate>, next: Record)
    requires forall i :: 0 <= i < |cs| ==> cs[i].disposition.Planned?
    requires next.currentStage.Run? && next.candidates == Activate(cs, next.currentStage)
    ensures RunningValid(next)
  {}

  lemma NoWinners(cs: seq<Candidate>, next: Record)
    requires next.currentStage.Run? && next.candidates == Activate(cs, next.currentStage) && next.selectedIds == []
    ensures SelectionValid(next) <==> forall i :: 0 <= i < |cs| ==> !cs[i].winner
  {
    ActivateShape(cs, next.currentStage);
    forall i | 0 <= i < |cs| ensures next.candidates[i].winner == cs[i].winner {}
  }

  lemma PlannedIff(r: Record, cs: seq<Candidate>, next: Record)
    requires Inv(r) && r.status.Active? && r.currentStage.PlanCandidates?
    requires cs != [] && forall i :: 0 <= i < |cs| ==> cs[i].disposition.Planned?
    requires next.currentStage == Run(r.config.strategyOrder[0]) && next.candidates == Activate(cs, next.currentStage)
    requires next == r.(currentStage := next.currentStage, candidates := next.candidates,
                        completions := next.completions, revision := next.revision)
    ensures RecordValid(next) <==> Plannable(r, cs)
  {
    OneStarted(cs, next);
    NoWinners(cs, next);
    StartedIff(r, cs, next);
    if forall i :: 0 <= i < |cs| ==> !cs[i].winner {
      CandidatesIff(r, cs, next.(candidates := cs));
    } else {
      var i :| 0 <= i < |cs| && cs[i].winner;
      assert !MayPlan(r, cs[i]);
    }
  }

  lemma PlanIff(r: Record, input: AdvanceInput)
    requires Inv(r) && r.status.Active? && r.currentStage.PlanCandidates?
    ensures Advance(r, input).Ok? <==> Acceptable(r, input)
  {
    AdvanceIff(r, input);
    var cs := input.candidates;
    assert r.candidates + cs == cs;
    if cs != [] && forall i :: 0 <= i < |cs| ==> cs[i].disposition.Planned? {
      PlannedIff(r, cs, Merge(r, Completing(r, input, StageUpdates(r, input).value)));
    } else if cs != [] {
      var i :| 0 <= i < |cs| && !cs[i].disposition.Planned?;
      assert !MayPlan(r, cs[i]);
    }
  }

  lemma FinishedIff(cs: seq<Candidate>, s: Strategy)
    ensures Finished(cs, s) <==> !Unfinished(cs, s)
  {}

  lemma LeavingWrites(r: Record, input: AdvanceInput)
    requires Inv(r) && r.currentStage.Run? && !Unfinished(r.candidates, r.currentStage.strategy)
    ensures StrategyUpdates(r, r.currentStage.strategy).Ok?
    ensures Completing(r, input, StrategyUpdates(r, r.currentStage.strategy).value) == LeaveUpdates(r, input.evidence)
  {}

  lemma LeaveIff(r: Record, input: AdvanceInput)
    requires Inv(r) && r.status.Active? && r.currentStage.Run?
    ensures Advance(r, input).Ok? <==> Acceptable(r, input)
  {
    var s, cs := r.currentStage.strategy, r.candidates;
    FinishedIff(cs, s);
    if Finished(cs, s) {
      EvidenceLeft(cs, s);
      LeavingWrites(r, input);
      LeaveValid(r, input.evidence);
      UpdatedIff(r, LeaveUpdates(r, input.evidence));
    }
  }

  lemma {:induction false} EvidenceLeft(cs: seq<Candidate>, s: Strategy)
    requires Finished(cs, s)
    ensures StrategyEvidence(cs, s) != [] <==> LeftEvidence(cs, s)
  {
    if cs != [] {
      forall i | 0 <= i < |cs[1..]| ensures cs[1..][i] == cs[i + 1] {}
      EvidenceLeft(cs[1..], s);
      if LeftEvidence(cs[1..], s) {
        var i :| 0 <= i < |cs| - 1 && cs[1..][i].strategy == s && cs[1..][i].resultArtifacts != [];
        assert cs[i + 1] == cs[1..][i];
      }
      if i :| 0 < i < |cs| && cs[i].strategy == s && cs[i].resultArtifacts != [] { assert cs[1..][i - 1] == cs[i]; }
    }
  }

  lemma WinnersIff(r: Record, input: AdvanceInput)
    requires Inv(r) && r.status.Active? && r.currentStage.SelectWinners?
    ensures Advance(r, input).Ok? <==> Acceptable(r, input)
  {
    var ids := Selection(r, input);
    AdvanceIff(r, input);
    AdvanceIff(r, ElectionOf(ids));
    assert StageUpdates(r, input) == StageUpdates(r, ElectionOf(ids));
    if StageUpdates(r, input).Ok? {
      CompletionIgnored(r, StageUpdates(r, input).value, Completing(r, input, StageUpdates(r, input).value),
                        Completing(r, ElectionOf(ids), StageUpdates(r, input).value));
    }
    ElectsIff(r, ids);
    if input.selected.None? {
      DefaultElects(r);
      DefaultIs(r);
    }
  }

  /** The evidence of a completion does not matter to the validators. */
  lemma CompletionIgnored(r: Record, u: Updates, v: Updates, w: Updates)
    requires v == u.(completions := v.completions) && w == u.(completions := w.completions)
    ensures RecordValid(Merge(r, v)) <==> RecordValid(Merge(r, w))
  {
    var a, b := Merge(r, v), Merge(r, w);
    assert forall id :: KnownBaseline(a, id) <==> KnownBaseline(b, id);
    assert forall id :: KnownCandidate(a, id) <==> KnownCandidate(b, id);
  }

  lemma AmongIff(ids: seq<string>, all: seq<string>)
    ensures Among(ids, all) <==> forall id :: id in ids ==> id in all
  {}

  /** Of a finished campaign's candidates only the combination is still judged. */
  lemma LateIff(r: Record, next: Record)
    requires RecordValid(r) && !r.currentStage.Run? && !next.currentStage.Run?
    requires next.config == r.config && next.sharedBaselines == r.sharedBaselines && next.candidates == r.candidates
    requires next.selectedIds == r.selectedIds && (!next.status.Active? <==> next.currentStage.Complete?)
    ensures RecordValid(next) <==> CombinationStateValid(next) && AcceptedValid(next)
  {
    SameCandidatesValid(r, next);
    forall id ensures KnownCandidate(next, id) <==> KnownCandidate(r, id) {}
  }

  /** What is combined when something is left out: nothing, for want of winners. */
  lemma CombinesIff(r: Record, input: AdvanceInput)
    ensures CombinationUpdates(r, input).Ok?
       <==> && (r.selectedIds != [] ==> input.compatibility.Some? && input.combination.Some?)
            && (input.compatibility.Some? ==> !input.compatibility.value.disposition.Pending?)
            && (input.compatibility.Some? && input.compatibility.value.disposition.Compatible? ==>
                  input.combination.Some? && input.combination.value.disposition.Built?)
  {}

  lemma CombineIff(r: Record, input: AdvanceInput)
    requires Inv(r) && r.status.Active? && r.currentStage.BuildCompatibleCombination?
    ensures Advance(r, input).Ok? <==> Acceptable(r, input)
  {
    AdvanceIff(r, input);
    CombinesIff(r, input);
    if StageUpdates(r, input).Ok? {
      var next := Merge(r, Completing(r, input, StageUpdates(r, input).value));
      var c, d := next.compatibility.value, next.combination.value;
      LateIff(r, next);
      AmongIff(c.candidateIds, r.selectedIds);
      AmongIff(d.candidateIds, r.selectedIds);
      AmongIff(d.candidateIds, c.candidateIds);
      assert input.compatibility.None? ==> c.candidateIds == [];
      assert input.combination.None? ==> d.candidateIds == [];
    }
  }

  lemma ClosesIff(r: Record, input: AdvanceInput)
    requires r.combination.Some?
    ensures FinalUpdates(r, input).Ok?
       <==> input.finalStatus.Some?
            && match input.finalStatus.value
               case Active => false
               case StatusAccepted => LastCombination(r, input).value.disposition.Validated?
               case StatusRejected => LastCombination(r, input).value.disposition.CombinationRejected?
               case StatusInconclusive => LastCombination(r, input).value.disposition.CombinationInconclusive?
  {}

  /** What the validator judges of the record that closes a campaign. */
  lemma ClosedValid(r: Record, next: Record)
    requires RecordValid(r) && r.currentStage.FinalValidation? && next.currentStage.Complete? && !next.status.Active?
    requires r.compatibility.Some? && next.combination.Some?
    requires next == r.(currentStage := Complete, status := next.status, combination := next.combination,
                        completions := next.completions, revision := next.revision)
    requires next.status.StatusAccepted? ==> next.combination.value.disposition.Validated?
    ensures var c, d := r.compatibility.value, next.combination.value;
            RecordValid(next)
            <==> && Among(d.candidateIds, r.selectedIds) && Among(d.candidateIds, c.candidateIds)
                 && (next.status.StatusAccepted? ==> d.candidateIds != [] && c.disposition.Compatible?)
  {
    var c, d := r.compatibility.value, next.combination.value;
    LateIff(r, next);
    AmongIff(d.candidateIds, r.selectedIds);
    AmongIff(d.candidateIds, c.candidateIds);
    assert d.candidateIds != [] ==> d.candidateIds[0] in d.candidateIds;
  }

  lemma CloseIff(r: Record, input: AdvanceInput)
    requires Inv(r) && r.status.Active? && r.currentStage.FinalValidation? && Concluded(r)
    ensures Advance(r, input).Ok? <==> Acceptable(r, input)
  {
    AdvanceIff(r, input);
    ClosesIff(r, input);
    if StageUpdates(r, input).Ok? {
      ClosedValid(r, Merge(r, Completing(r, input, StageUpdates(r, input).value)));
    }
  }

  /** In every run an active campaign accepts an advance exactly when it brings what the
      stage asks for. */
  lemma AdvanceAcceptedIff(h: Fingerprinter, config: Config, platform: Option<Artifact>,
                           states: seq<Record>, calls: seq<Call>, n: nat, input: AdvanceInput)
    requires IsRun(h, config, platform, states, calls) && n < |states|
    ensures Advance(states[n], input).Ok? <==> states[n].status.Active? && Acceptable(states[n], input)
  {
    var r := states[n];
    RunInv(h, config, platform, states, calls, n);
    if r.status.Active? {
      match r.currentStage
      case CaptureSharedBaselines => CaptureIff(r, input);
      case PlanCandidates => PlanIff(r, input);
      case Run(_) => LeaveIff(r, input);
      case SelectWinners => WinnersIff(r, input);
      case BuildCompatibleCombination => CombineIff(r, input);
      case FinalValidation =>
        FinalStatusMeans(h, config, platform, states, calls, n);
        CloseIff(r, input);
      case Complete =>
      case _ => EarlyIff(r, input);
    }
  }

  /******* What an accepted advance makes *******/

  predicate FirstToRun(cs: seq<Candidate>, s: Strategy, i: nat) {
    && i < |cs| && cs[i].strategy == s && cs[i].disposition.Planned?
    && forall j :: 0 <= j < i ==> !(cs[j].strategy == s && cs[j].disposition.Planned?)
  }

  /** The first planned candidate of a strategy starts to run. */
  predicate Begins(before: seq<Candidate>, after: seq<Candidate>, s: Strategy) {
    && |after| == |before|
    && forall i :: 0 <= i < |before| ==>
         after[i] == if FirstToRun(before, s, i) then before[i].(disposition := Running) else before[i]
  }

  /** The strategy behind another one in the configured order. */
  predicate NextStrategy(order: seq<Strategy>, s: Strategy, t: Strategy) {
    exists p :: 0 <= p < |order| - 1 && order[p] == s && order[p + 1] == t
  }

  predicate NothingCombined(c: Compatibility, d: Combination) {
    c.disposition.Incompatible? && c.candidateIds == [] && d.disposition.CombinationRejected? && d.candidateIds == []
  }

  /** What the successor has at the stage besides its completion and revision. */
  predicate Makes(r: Record, input: AdvanceInput, next: Record) {
    var order, moved := r.config.strategyOrder,
        r.(currentStage := next.currentStage, completions := next.completions, revision := r.revision + 1);
    match r.currentStage
    case CreateCampaign => next.currentStage.InspectTarget? && next == moved
    case InspectTarget => next.currentStage.CaptureSharedBaselines? && next == moved
    case CaptureSharedBaselines =>
      next.currentStage.PlanCandidates? && next == moved.(sharedBaselines := input.baselines)
    case PlanCandidates =>
      && order != [] && next.currentStage == Run(order[0]) && Begins(input.candidates, next.candidates, order[0])
      && next == moved.(candidates := next.candidates)
    case Run(s) =>
      if next.currentStage.Run? then
        && NextStrategy(order, s, next.currentStage.strategy)
        && Begins(r.candidates, next.candidates, next.currentStage.strategy)
        && next == moved.(candidates := next.candidates)
      else next.currentStage.SelectWinners? && order != [] && order[|order| - 1] == s && next == moved
    case SelectWinners =>
      && next.currentStage.BuildCompatibleCombination? && |next.candidates| == |r.candidates|
      && (forall i :: 0 <= i < |r.candidates| ==>
            next.candidates[i] == r.candidates[i].(
              winner := if input.selected.Some? then r.candidates[i].id in input.selected.value
                        else r.candidates[i].disposition.ExperimentalAccepted?))
      && (input.selected.Some? ==> next.selectedIds == input.selected.value)
      && (forall id :: id in next.selectedIds ==> IsAccepted(r.candidates, id))
      && next.ledger.attempts == r.ledger.attempts
      && next == moved.(candidates := next.candidates, selectedIds := next.selectedIds, ledger := next.ledger)
    case BuildCompatibleCombination =>
      && next.currentStage.FinalValidation? && next.compatibility.Some? && next.combination.Some?
      && (input.compatibility.Some? ==> next.compatibility == input.compatibility)
      && (input.combination.Some? ==> next.combination == input.combination)
      && (input.compatibility.None? && input.combination.None? ==>
            r.selectedIds == [] && NothingCombined(next.compatibility.value, next.combination.value))
      && next == moved.(compatibility := next.compatibility, combination := next.combination)
    case FinalValidation =>
      && next.currentStage.Complete? && input.finalStatus == Some(next.status)
      && next == moved.(status := next.status, combination := LastCombination(r, input))
    case Complete => false
  }

  lemma BeginsIs(cs: seq<Candidate>, s: Strategy)
    requires !AnyRunning(cs)
    ensures Begins(cs, Activate(cs, Run(s)), s)
  {
    var k := FirstPlanned(cs, s);
    forall i | 0 <= i < |cs| ensures FirstToRun(cs, s, i) <==> i == k {
      if i < k { assert !IsPlanned(cs[i], s); }
      if k < i { assert IsPlanned(cs[k], s); }
    }
  }

  lemma PlannedFrom(r: Record, input: AdvanceInput)
    requires Inv(r) && r.currentStage.PlanCandidates? && Advance(r, input).Ok?
    ensures var order, next := r.config.strategyOrder, Advance(r, input).value;
            && !AnyRunning(input.candidates)
            && next.currentStage == Run(order[0]) && next.candidates == Activate(input.candidates, next.currentStage)
            && next == r.(currentStage := next.currentStage, candidates := next.candidates,
                          completions := next.completions, revision := r.revision + 1)
  {
    assert r.candidates + input.candidates == input.candidates;
    assert StageUpdates(r, input) == PlanUpdates(r, input);
  }

  lemma PlanMakes(r: Record, input: AdvanceInput)
    requires Inv(r) && r.currentStage.PlanCandidates? && Advance(r, input).Ok?
    ensures Makes(r, input, Advance(r, input).value)
  {
    PlannedFrom(r, input);
    BeginsIs(input.candidates, r.config.strategyOrder[0]);
  }

  lemma NoneRuns(r: Record)
    requires RecordValid(r) && r.currentStage.Run? && !Unfinished(r.candidates, r.currentStage.strategy)
    ensures !AnyRunning(r.candidates)
  {}

  lemma LeftFor(r: Record, input: AdvanceInput)
    requires Inv(r) && r.currentStage.Run? && Advance(r, input).Ok?
    ensures var order, s, next := r.config.strategyOrder, r.currentStage.strategy, Advance(r, input).value;
            var p := Position(order, s);
            && p < |order| && !Unfinished(r.candidates, s)
            && next == r.(currentStage := next.currentStage, candidates := next.candidates,
                          completions := next.completions, revision := r.revision + 1)
            && (if p + 1 < |order|
                then next.currentStage == Run(order[p + 1])
                     && next.candidates == Activate(r.candidates, next.currentStage)
                else next.currentStage.SelectWinners? && next.candidates == r.candidates)
  {
    assert StageUpdates(r, input) == StrategyUpdates(r, r.currentStage.strategy);
  }

  lemma LeaveMakes(r: Record, input: AdvanceInput)
    requires Inv(r) && r.currentStage.Run? && Advance(r, input).Ok?
    ensures Makes(r, input, Advance(r, input).value)
  {
    var order, s := r.config.strategyOrder, r.currentStage.strategy;
    var p := Position(order, s);
    LeftFor(r, input);
    NoneRuns(r);
    if p + 1 < |order| {
      BeginsIs(r.candidates, order[p + 1]);
      assert NextStrategy(order, s, order[p + 1]);
    }
  }

  lemma ElectedFrom(r: Record, input: AdvanceInput)
    requires r.currentStage.SelectWinners? && Advance(r, input).Ok?
    ensures var ids, next := Selection(r, input), Advance(r, input).value;
            && next.candidates == MarkWinners(r.candidates, ids) && next.selectedIds == ids
            && next.currentStage.BuildCompatibleCombination? && next.ledger.attempts == r.ledger.attempts
            && next == r.(currentStage := next.currentStage, candidates := next.candidates, selectedIds := ids,
                          ledger := next.ledger, completions := next.completions, revision := r.revision + 1)
  {}

  /** The default selection marks the accepted candidates. */
  lemma AcceptedMarked(cs: seq<Candidate>, i: nat)
    requires UniqueIds(cs) && i < |cs|
    ensures cs[i].id in AcceptedIds(cs) <==> cs[i].disposition.ExperimentalAccepted?
  {
    AcceptedIdsAre(cs, cs[i].id);
    OnlyCandidate(cs, i);
  }

  lemma ElectMakes(r: Record, input: AdvanceInput)
    requires Inv(r) && r.currentStage.SelectWinners? && Advance(r, input).Ok?
    ensures Makes(r, input, Advance(r, input).value)
  {
    var ids := Selection(r, input);
    ElectedFrom(r, input);
    forall i | 0 <= i < |r.candidates| && input.selected.None?
      ensures r.candidates[i].id in ids <==> r.candidates[i].disposition.ExperimentalAccepted?
    {
      AcceptedMarked(r.candidates, i);
    }
    forall id | id in ids ensures IsAccepted(r.candidates, id) { SelectedAccepted(r, input, id); }
  }

  lemma SelectedAccepted(r: Record, input: AdvanceInput, id: string)
    requires Inv(r) && r.currentStage.SelectWinners? && Advance(r, input).Ok? && id in Selection(r, input)
    ensures IsAccepted(r.candidates, id)
  {
    WinnersIff(r, input);
    AcceptedIdsAre(r.candidates, id);
    var k :| 0 <= k < |Selection(r, input)| && Selection(r, input)[k] == id;
  }

  lemma EarlyMakes(r: Record, input: AdvanceInput)
    requires Inv(r) && Advance(r, input).Ok?
    requires r.currentStage.CreateCampaign? || r.currentStage.InspectTarget? || r.currentStage.CaptureSharedBaselines?
    ensures Makes(r, input, Advance(r, input).value)
  {
    assert r.currentStage.CaptureSharedBaselines? ==> r.sharedBaselines + input.baselines == input.baselines;
  }

  lemma LateMakes(r: Record, input: AdvanceInput)
    requires Advance(r, input).Ok? && (r.currentStage.BuildCompatibleCombination? || r.currentStage.FinalValidation?)
    ensures Makes(r, input, Advance(r, input).value)
  {}

  /** In every run, an accepted advance makes of the record what its stage says, and
      nothing else. */
  lemma AdvanceMakes(h: Fingerprinter, config: Config, platform: Option<Artifact>,
                     states: seq<Record>, calls: seq<Call>, n: nat, input: AdvanceInput)
    requires IsRun(h, config, platform, states, calls) && n < |states| && Advance(states[n], input).Ok?
    ensures Makes(states[n], input, Advance(states[n], input).value)
  {
    var r := states[n];
    RunInv(h, config, platform, states, calls, n);
    match r.currentStage
    case PlanCandidates => PlanMakes(r, input);
    case Run(_) => LeaveMakes(r, input);
    case SelectWinners => ElectMakes(r, input);
    case BuildCompatibleCombination => LateMakes(r, input);
    case FinalValidation => LateMakes(r, input);
    case Complete =>
    case _ => EarlyMakes(r, input);
  }

  /** A verdict on a candidate is accepted exactly when that candidate runs, the verdict is
      final, and no other candidate has its fingerprint. */
  lemma ResultAcceptedExactly(h: Fingerprinter, config: Config, platform: Option<Artifact>,
                              states: seq<Record>, calls: seq<Call>, n: nat, id: string, v: Verdict,
                              artifacts: seq<Artifact>, reasons: seq<string>)
    requires IsRun(h, config, platform, states, calls) && n < |states|
    ensures RecordCandidateResult(h, states[n], id, v, artifacts, reasons).Ok?
       <==> exists k :: 0 <= k < |states[n].candidates| && states[n].candidates[k].id == id
                        && states[n].candidates[k].disposition.Running? && TerminalVerdict(v)
                        && !ContentTaken(h, states[n].candidates, k)
  {
    var r := states[n];
    RunInv(h, config, platform, states, calls, n);
    if RecordCandidateResult(h, r, id, v, artifacts, reasons).Ok? {
      var k := IndexOf(r.candidates, id);
      ResultAcceptedIff(h, r, k, v, artifacts, reasons);
    }
    if k :| 0 <= k < |r.candidates| && r.candidates[k].id == id && r.candidates[k].disposition.Running?
            && TerminalVerdict(v) && !ContentTaken(h, r.candidates, k)
    {
      ResultAcceptedIff(h, r, k, v, artifacts, reasons);
    }
  }
}
