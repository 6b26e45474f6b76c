/** Whole campaigns: what every record derived from `New` satisfies, and how long a campaign is. */
module CampaignRuns {
  import opened Wrappers
  import opened CampaignModels
  import opened CampaignEngine
  import opened CampaignSerial
  import opened CampaignLedger

  /******* Counting steps *******/

  /** The stages of a configured campaign, in the order in which they complete. */
  function StageList(order: seq<Strategy>): seq<Stage> {
    [CreateCampaign, InspectTarget, CaptureSharedBaselines, PlanCandidates]
    + Map((s: Strategy) => Run(s), order)
    + [SelectWinners, BuildCompatibleCombination, FinalValidation]
  }

  function StageIndex(order: seq<Strategy>, stage: Stage): nat {
    match stage
    case CreateCampaign => 0
    case InspectTarget => 1
    case CaptureSharedBaselines => 2
    case PlanCandidates => 3
    case Run(s) => 4 + Position(order, s)
    case SelectWinners => 4 + |order|
    case BuildCompatibleCombination => 5 + |order|
    case FinalValidation => 6 + |order|
    case Complete => 7 + |order|
  }

  function CountTerminal(cs: seq<Candidate>): (n: nat)
    ensures n <= |cs|
  {
    if cs == [] then 0
    else (if cs[0].disposition.Terminal() then 1 else 0) + CountTerminal(cs[1..])
  }

  /** The completions are the stages passed so far, and every revision is either
      a completed stage or a finished candidate. */
  predicate Counted(r: Record) {
    var order := r.config.strategyOrder;
    && Map((c: Completion) => c.stage, r.completions)
       == StageList(order)[..Min(StageIndex(order, r.currentStage), |StageList(order)|)]
    && r.revision == |r.completions| + CountTerminal(r.candidates)
  }

  lemma {:induction false} CountSame(cs: seq<Candidate>, ds: seq<Candidate>)
    requires |cs| == |ds|
    requires forall i :: 0 <= i < |cs| ==> cs[i].disposition.Terminal() == ds[i].disposition.Terminal()
    ensures CountTerminal(cs) == CountTerminal(ds)
  {
    if cs != [] { CountSame(cs[1..], ds[1..]); }
  }

  lemma {:induction false} CountNone(cs: seq<Candidate>)
    requires forall i :: 0 <= i < |cs| ==> !cs[i].disposition.Terminal()
    ensures CountTerminal(cs) == 0
  {
    if cs != [] { CountNone(cs[1..]); }
  }

  lemma {:induction false} CountAll(cs: seq<Candidate>)
    requires AllTerminal(cs)
    ensures CountTerminal(cs) == |cs|
  {
    if cs != [] { CountAll(cs[1..]); }
  }

  lemma {:induction false} CountFinish(cs: seq<Candidate>, k: nat, c: Candidate)
    requires k < |cs| && !cs[k].disposition.Terminal() && c.disposition.Terminal()
    ensures CountTerminal(cs[k := c]) == CountTerminal(cs) + 1
  {
    if k == 0 {
      assert cs[k := c][1..] == cs[1..];
    } else {
      assert cs[k := c][1..] == cs[1..][k - 1 := c];
      CountFinish(cs[1..], k - 1, c);
    }
  }

  lemma UpdatesNextStage(r: Record, input: AdvanceInput, u: Updates)
    requires ConfigValid(r.config) && Serial(r) && StageUpdates(r, input) == Ok(u)
    ensures u.stage.Some?
    ensures StageIndex(r.config.strategyOrder, u.stage.value) == StageIndex(r.config.strategyOrder, r.currentStage) + 1
  {
    var order := r.config.strategyOrder;
    if r.currentStage.PlanCandidates? {
      assert Position(order, order[0]) == 0;
    } else if r.currentStage.Run? {
      var p := Position(order, r.currentStage.strategy);
      if p + 1 < |order| { assert Position(order, order[p + 1]) == p + 1; }
    }
  }

  lemma StageListAt(order: seq<Strategy>, stage: Stage)
    requires !stage.Complete? && (stage.Run? ==> stage.strategy in order)
    ensures |StageList(order)| == 7 + |order|
    ensures StageIndex(order, stage) < |StageList(order)|
    ensures StageList(order)[StageIndex(order, stage)] == stage
  {}

  /** A successful `advance` moves to the very next configured stage. */
  lemma AdvanceNextStage(r: Record, input: AdvanceInput)
    requires ConfigValid(r.config) && Serial(r) && Advance(r, input).Ok?
    ensures var order, next := r.config.strategyOrder, Advance(r, input).value;
            && StageIndex(order, next.currentStage) == StageIndex(order, r.currentStage) + 1
            && StageIndex(order, r.currentStage) < |StageList(order)| == 7 + |order|
            && StageList(order)[StageIndex(order, r.currentStage)] == r.currentStage
            && next.completions == r.completions + [Completion(r.currentStage, StageEvidence(r, input))]
  {
    UpdatesNextStage(r, input, StageUpdates(r, input).value);
    StageListAt(r.config.strategyOrder, r.currentStage);
    assert StageUpdates(r, input).value.completions.None?;
  }

  lemma AdvanceCount(r: Record, input: AdvanceInput)
    requires Serial(r) && Advance(r, input).Ok?
    ensures CountTerminal(Advance(r, input).value.candidates) == CountTerminal(r.candidates)
  {
    var u := StageUpdates(r, input).value;
    match r.currentStage {
      case PlanCandidates => CountPlanned(r.candidates + input.candidates, u.stage.value);
      case Run(_) => CountActivate(r.candidates, u.stage.value);
      case SelectWinners => CountSame(r.candidates, MarkWinners(r.candidates, Selection(r, input)));
      case _ =>
    }
  }

  lemma CountActivate(cs: seq<Candidate>, stage: Stage)
    ensures CountTerminal(Activate(cs, stage)) == CountTerminal(cs)
  {
    ActivateShape(cs, stage);
    CountSame(cs, Activate(cs, stage));
  }

  lemma CountPlanned(planned: seq<Candidate>, stage: Stage)
    requires forall i :: 0 <= i < |planned| ==> planned[i].disposition.Planned?
    ensures CountTerminal(Activate(planned, stage)) == 0
  {
    CountActivate(planned, stage);
    CountNone(planned);
  }

  lemma RecordCount(h: Fingerprinter, r: Record, id: string, v: Verdict, artifacts: seq<Artifact>, reasons: seq<string>)
    requires RecordCandidateResult(h, r, id, v, artifacts, reasons).Ok?
    ensures var next := RecordCandidateResult(h, r, id, v, artifacts, reasons).value;
            && CountTerminal(next.candidates) == CountTerminal(r.candidates) + 1
            && |next.candidates| == |r.candidates|
            && next.completions == r.completions && next.currentStage == r.currentStage
  {
    var next := RecordCandidateResult(h, r, id, v, artifacts, reasons).value;
    var k := IndexOf(r.candidates, id);
    var c := Finished(h, r.candidates[k], v, artifacts, reasons);
    CountFinish(r.candidates, k, c);
    ActivateShape(r.candidates[k := c], r.currentStage);
    CountSame(r.candidates[k := c], next.candidates);
  }

  lemma CompletionCounted(order: seq<Strategy>, done: seq<Completion>, stage: Stage, evidence: seq<Artifact>)
    requires StageIndex(order, stage) < |StageList(order)| && StageList(order)[StageIndex(order, stage)] == stage
    requires Map((c: Completion) => c.stage, done) == StageList(order)[..StageIndex(order, stage)]
    ensures Map((c: Completion) => c.stage, done + [Completion(stage, evidence)])
         == StageList(order)[..StageIndex(order, stage) + 1]
  {
    var list, i := StageList(order), StageIndex(order, stage);
    assert Map((c: Completion) => c.stage, done + [Completion(stage, evidence)])
        == Map((c: Completion) => c.stage, done) + [stage];
    assert list[..i + 1] == list[..i] + [list[i]];
  }

  lemma AdvanceCounted(r: Record, input: AdvanceInput)
    requires ConfigValid(r.config) && Serial(r) && Counted(r) && Advance(r, input).Ok?
    ensures Counted(Advance(r, input).value)
  {
    AdvanceNextStage(r, input);
    AdvanceCount(r, input);
    CompletionCounted(r.config.strategyOrder, r.completions, r.currentStage, StageEvidence(r, input));
  }

  lemma StepCounted(h: Fingerprinter, r: Record, c: Call)
    requires ConfigValid(r.config) && Serial(r) && Counted(r) && Step(h, r, c).Ok?
    ensures Counted(Step(h, r, c).value)
  {
    match c
    case CallAdvance(input) => AdvanceCounted(r, input);
    case CallRecord(id, v, artifacts, reasons) => RecordCount(h, r, id, v, artifacts, reasons);
  }

  function StagesLeft(r: Record): int {
    |StageList(r.config.strategyOrder)| - StageIndex(r.config.strategyOrder, r.currentStage)
  }

  function UnfinishedCount(r: Record): nat {
    |r.candidates| - CountTerminal(r.candidates)
  }

  /** Every successful call decreases (stages left, unfinished candidates)
      lexicographically, and adds one to the revision. */
  lemma StepDecreases(h: Fingerprinter, r: Record, c: Call)
    requires ConfigValid(r.config) && Serial(r) && Step(h, r, c).Ok?
    ensures var next := Step(h, r, c).value;
            && next.revision == r.revision + 1
            && next.config == r.config
            && 0 <= StagesLeft(next)
            && (|| StagesLeft(next) < StagesLeft(r)
                || (StagesLeft(next) == StagesLeft(r) && UnfinishedCount(next) < UnfinishedCount(r)))
  {
    match c
    case CallAdvance(input) => AdvanceNextStage(r, input);
    case CallRecord(id, v, artifacts, reasons) => RecordCount(h, r, id, v, artifacts, reasons);
  }

  /******* Validity of the nested parts *******/

  predicate PartsValid(r: Record) {
    && (forall i :: 0 <= i < |r.candidates| ==> CandidateValid(r.candidates[i]))
    && (r.compatibility.Some? ==> CompatibilityValid(r.compatibility.value))
    && (r.combination.Some? ==> CombinationValid(r.combination.value))
  }

  lemma ActivateValid(cs: seq<Candidate>, stage: Stage)
    requires forall i :: 0 <= i < |cs| ==> CandidateValid(cs[i])
    ensures |Activate(cs, stage)| == |cs|
    ensures forall i :: 0 <= i < |cs| ==> CandidateValid(Activate(cs, stage)[i])
  {
    ActivateShape(cs, stage);
  }

  lemma UpdatesPartsValid(r: Record, input: AdvanceInput, u: Updates)
    requires PartsValid(r) && InputValid(input) && StageUpdates(r, input) == Ok(u)
    requires SelectionValid(Merge(r, u))
    ensures PartsValid(Merge(r, u))
  {
    match r.currentStage
    case PlanCandidates => ActivateValid(r.candidates + input.candidates, u.stage.value);
    case Run(_) => ActivateValid(r.candidates, u.stage.value);
    case BuildCompatibleCombination =>
    case _ =>
  }

  lemma AdvancePartsValid(r: Record, input: AdvanceInput)
    requires PartsValid(r) && InputValid(input) && Advance(r, input).Ok?
    ensures PartsValid(Advance(r, input).value)
  {
    UpdatesPartsValid(r, input, StageUpdates(r, input).value);
  }

  lemma StepPartsValid(h: Fingerprinter, r: Record, c: Call)
    requires PartsValid(r) && CallValid(c) && Step(h, r, c).Ok?
    ensures PartsValid(Step(h, r, c).value)
  {
    match c
    case CallAdvance(input) => AdvancePartsValid(r, input);
    case CallRecord(id, v, artifacts, reasons) =>
  }

  /** Baselines are captured before planning, never before their stage. */
  predicate BaselinesCaptured(r: Record) {
    if StageIndex(r.config.strategyOrder, r.currentStage) <= 2 then r.sharedBaselines == []
    else r.sharedBaselines != []
  }

  /******* The invariant of every reachable record *******/

  predicate Inv(r: Record) {
    && ConfigValid(r.config)
    && RecordValid(r)
    && PartsValid(r)
    && Serial(r)
    && Mirrored(r)
    && StackMirrored(r)
    && Counted(r)
    && BaselinesCaptured(r)
  }

  lemma NewInv(config: Config, platform: Option<Artifact>)
    requires ConfigValid(config)
    ensures Inv(New(config, platform))
  {
    NewMirrored(config, platform);
    NewCounted(config, platform);
  }

  lemma NewCounted(config: Config, platform: Option<Artifact>)
    ensures Counted(New(config, platform))
  {
    assert StageList(config.strategyOrder)[..0] == [];
  }

  lemma StepInv(h: Fingerprinter, r: Record, c: Call)
    requires Inv(r) && CallValid(c) && Step(h, r, c).Ok?
    ensures Inv(Step(h, r, c).value)
  {
    StepSerial(h, r, c);
    StepMirrored(h, r, c);
    StepStackMirrored(h, r, c);
    StepCounted(h, r, c);
    StepPartsValid(h, r, c);
    StepBaselines(h, r, c);
  }

  lemma StepBaselines(h: Fingerprinter, r: Record, c: Call)
    requires ConfigValid(r.config) && Serial(r) && BaselinesCaptured(r) && Step(h, r, c).Ok?
    ensures BaselinesCaptured(Step(h, r, c).value)
  {
    if c.CallAdvance? { AdvanceNextStage(r, c.input); }
  }

  /** A run: records starting at `New`, each derived from the one before by one call. */
  predicate IsRun(h: Fingerprinter, config: Config, platform: Option<Artifact>,
                  states: seq<Record>, calls: seq<Call>) {
    && ConfigValid(config)
    && |states| == |calls| + 1
    && states[0] == New(config, platform)
    && forall i :: 0 <= i < |calls| ==> StepAt(h, states, calls, i)
  }

  /** Call `i` derives record `i + 1` from record `i`. */
  predicate StepAt(h: Fingerprinter, states: seq<Record>, calls: seq<Call>, i: nat)
    requires i < |calls| && |states| == |calls| + 1
  {
    CallValid(calls[i]) && Step(h, states[i], calls[i]) == Ok(states[i + 1])
  }

  /** Appending one accepted call to a run. */
  lemma ExtendRun(h: Fingerprinter, config: Config, platform: Option<Artifact>,
                  states: seq<Record>, calls: seq<Call>, call: Call, next: Record)
    requires IsRun(h, config, platform, states, calls)
    requires CallValid(call) && Step(h, states[|calls|], call) == Ok(next)
    ensures IsRun(h, config, platform, states + [next], calls + [call])
    ensures (states + [next])[|calls + [call]|] == next
  {
    forall i | 0 <= i < |calls + [call]| ensures StepAt(h, states + [next], calls + [call], i) {
      if i < |calls| { assert StepAt(h, states, calls, i); }
    }
  }

  lemma StepKeeps(h: Fingerprinter, config: Config, platform: Option<Artifact>,
                  states: seq<Record>, calls: seq<Call>, n: nat)
    requires IsRun(h, config, platform, states, calls) && 0 < n < |states| && Inv(states[n - 1])
    ensures Inv(states[n]) && states[n].config == states[n - 1].config
    ensures states[n].revision == states[n - 1].revision + 1
  {
    assert StepAt(h, states, calls, n - 1);
    StepInv(h, states[n - 1], calls[n - 1]);
    StepDecreases(h, states[n - 1], calls[n - 1]);
  }

  lemma RunStart(h: Fingerprinter, config: Config, platform: Option<Artifact>, states: seq<Record>, calls: seq<Call>)
    requires IsRun(h, config, platform, states, calls)
    ensures Inv(states[0]) && states[0].config == config && states[0].revision == 0
  {
    NewInv(config, platform);
  }

  lemma {:induction false} RunInv(h: Fingerprinter, config: Config, platform: Option<Artifact>,
                                  states: seq<Record>, calls: seq<Call>, n: nat)
    requires IsRun(h, config, platform, states, calls) && n < |states|
    ensures Inv(states[n]) && states[n].config == config && states[n].revision == n
  {
    if n == 0 {
      RunStart(h, config, platform, states, calls);
    } else {
      RunInv(h, config, platform, states, calls, n - 1);
      StepKeeps(h, config, platform, states, calls, n);
    }
  }

  /** One call of a run, between two records that satisfy the invariant. */
  lemma RunStep(h: Fingerprinter, config: Config, platform: Option<Artifact>,
                states: seq<Record>, calls: seq<Call>, i: nat)
    requires IsRun(h, config, platform, states, calls) && i < |calls|
    ensures CallValid(calls[i]) && Step(h, states[i], calls[i]) == Ok(states[i + 1])
    ensures Inv(states[i]) && states[i].config == config
  {
    assert StepAt(h, states, calls, i);
    RunInv(h, config, platform, states, calls, i);
  }

  /******* Main results *******/

  /** Serial execution in every record of every run. */
  lemma RunIsSerial(h: Fingerprinter, config: Config, platform: Option<Artifact>,
                    states: seq<Record>, calls: seq<Call>, n: nat)
    requires IsRun(h, config, platform, states, calls) && n < |states|
    ensures Serial(states[n])
  {
    RunInv(h, config, platform, states, calls, n);
  }

  /** In every record of every run the ledger mirrors the candidates one to one, in
      order, its own validator would accept it, and so would `model_validate`. */
  lemma RunLedgerMirrors(h: Fingerprinter, config: Config, platform: Option<Artifact>,
                         states: seq<Record>, calls: seq<Call>, n: nat)
    requires IsRun(h, config, platform, states, calls) && n < |states|
    ensures OneToOne(states[n]) && Mirrored(states[n]) && StackMirrored(states[n])
    ensures LedgerValid(states[n].ledger) && StoredRecordValid(states[n])
  {
    RunInv(h, config, platform, states, calls, n);
    MirrorIsOneToOne(states[n]);
    MirrorIsValid(states[n]);
  }

  /** A complete campaign took exactly one revision per configured stage, per
      strategy and per candidate, and completed the stages in configured order;
      no run is longer than that. */
  lemma RunLength(h: Fingerprinter, config: Config, platform: Option<Artifact>,
                  states: seq<Record>, calls: seq<Call>)
    requires IsRun(h, config, platform, states, calls)
    ensures var last := states[|calls|];
            && (last.currentStage.Complete? ==>
                  && last.revision == 7 + |config.strategyOrder| + |last.candidates|
                  && Map((c: Completion) => c.stage, last.completions) == StageList(config.strategyOrder))
            && |calls| <= 7 + |config.strategyOrder| + config.maxCandidates
  {
    var last := states[|calls|];
    RunInv(h, config, platform, states, calls, |calls|);
    if last.currentStage.Complete? { CountAll(last.candidates); }
  }
}
