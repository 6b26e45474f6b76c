/** The control plane: one step decides at most one engine call from a record and the
    document that the caller passes. */
module CampaignControl {
  import opened Wrappers
  import opened CampaignModels
  import opened CampaignEngine
  import opened CampaignSerial
  import opened CampaignLedger
  import opened CampaignRuns
  import opened CampaignProgress
  import opened CampaignPlans

  /** Registered quality evidence, and whether it is within the policy. */
  datatype Quality = Quality(artifact: Artifact, passed: bool, reasons: seq<string>)

  /** What `_candidate_gate` reads, and the report it writes. */
  datatype GateInput = GateInput(
    outcome: DecisionOutcome, performance: Artifact, performanceReasons: seq<string>,
    quality: Option<Quality>, report: Artifact)

  datatype Document = Document(
    evidence: seq<Artifact>,
    baselines: seq<Baseline>,
    candidateId: string,
    skip: bool,
    reasons: seq<string>,
    gate: GateInput,
    selected: Option<seq<string>>,
    compatibility: Option<Compatibility>,
    combination: Option<Combination>,
    finalStatus: Option<Status>)

  /** One spec of a planning adapter: its id, the content fingerprint of the spec
      without its ids, and the artifact it is saved as. */
  datatype Arm = Arm(id: string, fingerprint: string, spec: Artifact)

  /** What the adapters plan: the mixed-bit specs, the prepared ones, the shape specs
      and the KV-cache arms; and the artifact of the whole plan. */
  datatype Specs = Specs(mixed: seq<Arm>, prepared: seq<Arm>, shape: seq<Arm>, kv: seq<Arm>, plan: Artifact)

  /** The materialized plan of a campaign. */
  datatype Plan = Plan(candidates: seq<Candidate>, artifact: Artifact)

  datatype Action = AlreadyComplete | Waiting | Calls(call: Call)

  datatype ControlError =
    | InputRequired | OtherCandidateRunning | SkipUnexplained | QualityRequired | BadReasons
    | SelectionRequired | NotEligible | TwoOfAKind
    | NoBaselines | BadPlanningInputs | PreparedRepeated | NothingPlanned | TooManyPlanned

  /** A verdict with its evidence and reasons; quality matters only after the
      performance gate accepted. */
  datatype GateVerdict = GateVerdict(disposition: Disposition, evidence: seq<Artifact>, reasons: seq<string>)

  function CandidateGate(g: GateInput): Result<GateVerdict, ControlError> {
    match g.outcome
    case Reject => Ok(GateVerdict(Rejected, [g.performance, g.report], g.performanceReasons))
    case NoDecision => Ok(GateVerdict(Inconclusive, [g.performance, g.report], g.performanceReasons))
    case Accept =>
      if g.quality.None? then Err(QualityRequired)
      else
        Ok(GateVerdict(
             if g.quality.value.passed then ExperimentalAccepted else Rejected,
             [g.performance, g.quality.value.artifact, g.report],
             g.performanceReasons + g.quality.value.reasons))
  }

  /******* Materializing the plan *******/

  /** Every configured adapter plans something: mixed-bit specs come in five or in a
      sweep that is refused when empty, shapes in four, KV-cache arms one per cache type. */
  predicate Supplied(order: seq<Strategy>, specs: Specs) {
    && (MixedBit in order ==> specs.mixed != [])
    && (ShapeKernel in order ==> specs.shape != [])
    && (KvCache in order ==> specs.kv != [])
  }

  function IdPrefix(s: Strategy): string {
    match s
    case MixedBit => "mixed-"
    case ShapeKernel => "shape-"
    case KvCache => "kv-"
  }

  /** `_save_candidate`. */
  function SavedCandidate(r: Record, s: Strategy, a: Arm): Candidate {
    Candidate(IdPrefix(s) + a.id, s, Map((b: Baseline) => b.id, r.sharedBaselines), Some(a.spec),
              Planned, [], [], false, Some(a.fingerprint))
  }

  function SavedCandidates(r: Record, s: Strategy, arms: seq<Arm>): (cs: seq<Candidate>)
    ensures |cs| == (if s in r.config.strategyOrder then |arms| else 0)
    ensures forall i :: 0 <= i < |cs| ==> cs[i] == SavedCandidate(r, s, arms[i])
  {
    if s in r.config.strategyOrder then seq(|arms|, i requires 0 <= i < |arms| => SavedCandidate(r, s, arms[i])) else []
  }

  predicate PreparedFresh(specs: Specs) {
    forall i :: 0 <= i < |specs.prepared| ==>
      forall a :: a in specs.mixed + specs.prepared[..i] ==> a.id != specs.prepared[i].id
  }

  /** `materialize_campaign_plan`; no specs are given for inputs that an adapter refuses. */
  function Materialize(r: Record, inputs: Option<Specs>): Result<Plan, ControlError> {
    if r.sharedBaselines == [] then Err(NoBaselines)
    else if inputs.None? then Err(BadPlanningInputs)
    else if MixedBit in r.config.strategyOrder && !PreparedFresh(inputs.value) then Err(PreparedRepeated)
    else
      var specs := inputs.value;
      var candidates :=
        SavedCandidates(r, MixedBit, specs.mixed + specs.prepared)
        + SavedCandidates(r, ShapeKernel, specs.shape)
        + SavedCandidates(r, KvCache, specs.kv);
      if candidates == [] then Err(NothingPlanned)
      else if |candidates| > r.config.maxCandidates then Err(TooManyPlanned)
      else Ok(Plan(candidates, specs.plan))
  }

  /******* Deciding *******/

  predicate AllExplained(reasons: seq<string>) {
    forall i :: 0 <= i < |reasons| ==> reasons[i] != ""
  }

  function RunningIndex(cs: seq<Candidate>): (k: nat)
    ensures k <= |cs|
    ensures k < |cs| ==> cs[k].disposition.Running?
    ensures forall i :: 0 <= i < k ==> !cs[i].disposition.Running?
  {
    First(cs, (c: Candidate) => c.disposition.Running?)
  }

  predicate Eligible(cs: seq<Candidate>, id: string) {
    exists i :: 0 <= i < |cs| && cs[i].id == id && cs[i].disposition.ExperimentalAccepted?
  }

  predicate AllEligible(cs: seq<Candidate>, ids: seq<string>) {
    forall k :: 0 <= k < |ids| ==> Eligible(cs, ids[k])
  }

  predicate OfStrategy(cs: seq<Candidate>, id: string, s: Strategy) {
    exists i :: 0 <= i < |cs| && cs[i].id == id && cs[i].disposition.ExperimentalAccepted? && cs[i].strategy == s
  }

  /** Two entries of the selection name candidates of one strategy. */
  predicate TwoOf(cs: seq<Candidate>, ids: seq<string>, s: Strategy) {
    exists a, b :: 0 <= a < b < |ids| && OfStrategy(cs, ids[a], s) && OfStrategy(cs, ids[b], s)
  }

  function DecideResult(r: Record, doc: Option<Document>): Result<Action, ControlError> {
    var k := RunningIndex(r.candidates);
    if k == |r.candidates| then Ok(Calls(CallAdvance(NO_INPUT)))
    else if doc.None? then Ok(Waiting)
    else
      var d, id := doc.value, r.candidates[k].id;
      if d.candidateId != id then Err(OtherCandidateRunning)
      else if d.skip then
        if d.evidence == [] || d.reasons == [] || !AllExplained(d.reasons) then Err(SkipUnexplained)
        else Ok(Calls(CallRecord(id, Direct(Skipped), d.evidence, d.reasons)))
      else
        match CandidateGate(d.gate)
        case Err(e) => Err(e)
        case Ok(g) =>
          if !AllExplained(d.reasons) then Err(BadReasons)
          else Ok(Calls(CallRecord(id, Direct(g.disposition), g.evidence, g.reasons + d.reasons)))
  }

  function DecideWinners(r: Record, doc: Option<Document>): Result<Action, ControlError> {
    var accepted := AcceptedIds(r.candidates);
    if |accepted| > 1 && doc.None? then Ok(Waiting)
    else if doc.Some? && doc.value.selected.None? then Err(SelectionRequired)
    else
      var ids := if doc.None? then accepted else doc.value.selected.value;
      if !AllEligible(r.candidates, ids) then Err(NotEligible)
      else if TwoOf(r.candidates, ids, MixedBit) || TwoOf(r.candidates, ids, KvCache) then Err(TwoOfAKind)
      else Ok(Calls(CallAdvance(NO_INPUT.(selected := Some(ids)))))
  }

  /** `run_campaign_step`, up to the call and the save it makes. */
  function Decide(r: Record, inputs: Option<Specs>, doc: Option<Document>): Result<Action, ControlError> {
    match r.currentStage
    case Complete => Ok(AlreadyComplete)
    case CreateCampaign => Ok(Calls(CallAdvance(NO_INPUT)))
    case InspectTarget =>
      if doc.None? then Ok(Waiting) else Ok(Calls(CallAdvance(NO_INPUT.(evidence := doc.value.evidence))))
    case CaptureSharedBaselines =>
      if doc.None? then Ok(Waiting) else Ok(Calls(CallAdvance(NO_INPUT.(baselines := doc.value.baselines))))
    case PlanCandidates =>
      (match Materialize(r, inputs)
       case Err(e) => Err(e)
       case Ok(plan) =>
         Ok(Calls(CallAdvance(NO_INPUT.(evidence := [plan.artifact], candidates := plan.candidates)))))
    case Run(_) => DecideResult(r, doc)
    case SelectWinners => DecideWinners(r, doc)
    case BuildCompatibleCombination =>
      if doc.None? then Err(InputRequired)
      else Ok(Calls(CallAdvance(NO_INPUT.(evidence := doc.value.evidence, compatibility := doc.value.compatibility,
                                         combination := doc.value.combination))))
    case FinalValidation =>
      if doc.None? then Err(InputRequired)
      else Ok(Calls(CallAdvance(NO_INPUT.(evidence := doc.value.evidence, combination := doc.value.combination,
                                         finalStatus := doc.value.finalStatus))))
  }

  /** What one step is given: what the adapters plan from the configuration, and the caller's document. */
  datatype Input = Input(specs: Option<Specs>, document: Option<Document>)

  /** A run in which the control plane decided every call. */
  predicate IsControlled(h: Fingerprinter, config: Config, platform: Option<Artifact>,
                         states: seq<Record>, calls: seq<Call>, inputs: seq<Input>) {
    && IsRun(h, config, platform, states, calls)
    && |inputs| == |calls|
    && forall i :: 0 <= i < |calls| ==> DecidedAt(states, calls, inputs, i)
  }

  /** The control plane decides call `i` in record `i`. */
  predicate DecidedAt(states: seq<Record>, calls: seq<Call>, inputs: seq<Input>, i: nat)
    requires i < |calls| == |inputs| && |states| == |calls| + 1
  {
    Decided(states[i], inputs[i], calls[i])
  }

  predicate Decided(r: Record, input: Input, call: Call) {
    && (input.specs.Some? ==> Supplied(r.config.strategyOrder, input.specs.value))
    && Decide(r, input.specs, input.document) == Ok(Calls(call))
  }

  /******* At most one winner of a kind *******/

  /** No two winners have strategy `s`. */
  predicate OneWinner(cs: seq<Candidate>, s: Strategy) {
    forall i, j :: 0 <= i < j < |cs| && cs[i].strategy == s && cs[j].strategy == s ==> !(cs[i].winner && cs[j].winner)
  }

  lemma EarlyStep(h: Fingerprinter, r: Record, call: Call)
    requires !r.currentStage.SelectWinners? && r.selectedIds == [] && Step(h, r, call).Ok?
    ensures Step(h, r, call).value.selectedIds == [] && SelectionValid(Step(h, r, call).value)
  {
    if call.CallAdvance? { EarlyAdvance(r, call.input); }
  }

  lemma EarlyAdvance(r: Record, input: AdvanceInput)
    requires !r.currentStage.SelectWinners? && Advance(r, input).Ok?
    ensures Advance(r, input).value.selectedIds == r.selectedIds && RecordValid(Advance(r, input).value)
  {
    assert StageUpdates(r, input).value.selectedIds.None?;
  }

  lemma LateStep(h: Fingerprinter, r: Record, call: Call)
    requires !BeforeSelection(r.currentStage) && Step(h, r, call).Ok?
    ensures Step(h, r, call).value.candidates == r.candidates
  {}

  lemma SelectionStep(r: Record, specs: Option<Specs>, doc: Option<Document>, call: Call)
    requires r.currentStage.SelectWinners? && Decide(r, specs, doc) == Ok(Calls(call))
    ensures call.CallAdvance? && call.input.selected.Some?
    ensures var ids := call.input.selected.value;
            && AllEligible(r.candidates, ids)
            && !TwoOf(r.candidates, ids, MixedBit) && !TwoOf(r.candidates, ids, KvCache)
  {
    assert Decide(r, specs, doc) == DecideWinners(r, doc);
  }

  lemma SelectionAdvance(r: Record, input: AdvanceInput)
    requires r.currentStage.SelectWinners? && input.selected.Some? && Advance(r, input).Ok?
    ensures Advance(r, input).value.candidates == MarkWinners(r.candidates, input.selected.value)
  {
    assert StageUpdates(r, input).value.candidates == Some(MarkWinners(r.candidates, input.selected.value));
  }

  lemma StepOneWinner(h: Fingerprinter, r: Record, input: Input, call: Call, s: Strategy)
    requires UniqueIds(r.candidates) && StackMirrored(r)
    requires Decided(r, input, call) && Step(h, r, call).Ok?
    requires s == MixedBit || s == KvCache
    requires OneWinner(r.candidates, s)
    ensures OneWinner(Step(h, r, call).value.candidates, s)
  {
    if r.currentStage.SelectWinners? {
      SelectionStep(r, input.specs, input.document, call);
      SelectionAdvance(r, call.input);
    } else if BeforeSelection(r.currentStage) {
      EarlyStep(h, r, call);
    } else {
      LateStep(h, r, call);
    }
  }

  lemma ControlledOneWinner(h: Fingerprinter, config: Config, platform: Option<Artifact>,
                            states: seq<Record>, calls: seq<Call>, inputs: seq<Input>, i: nat, s: Strategy)
    requires IsControlled(h, config, platform, states, calls, inputs) && i < |calls|
    requires s == MixedBit || s == KvCache
    requires OneWinner(states[i].candidates, s)
    ensures OneWinner(states[i + 1].candidates, s)
  {
    RunStep(h, config, platform, states, calls, i);
    assert DecidedAt(states, calls, inputs, i);
    StepOneWinner(h, states[i], inputs[i], calls[i], s);
  }

  /** In every record of every campaign that the control plane drives, at most one
      winner is a mixed-bit candidate and at most one a KV-cache candidate. */
  lemma {:induction false} AtMostOneOfAKind(h: Fingerprinter, config: Config, platform: Option<Artifact>,
                                            states: seq<Record>, calls: seq<Call>, inputs: seq<Input>, n: nat,
                                            s: Strategy)
    requires IsControlled(h, config, platform, states, calls, inputs) && n < |states|
    requires s == MixedBit || s == KvCache
    ensures OneWinner(states[n].candidates, s)
  {
    if n > 0 {
      AtMostOneOfAKind(h, config, platform, states, calls, inputs, n - 1, s);
      ControlledOneWinner(h, config, platform, states, calls, inputs, n - 1, s);
    }
  }

  /******* What a controlled campaign never meets *******/

  /** Finished candidates carry evidence. */
  predicate Evidenced(cs: seq<Candidate>) {
    forall i :: 0 <= i < |cs| && cs[i].disposition.Terminal() ==> cs[i].resultArtifacts != []
  }

  lemma ActivateEvidenced(cs: seq<Candidate>, stage: Stage)
    requires Evidenced(cs)
    ensures Evidenced(Activate(cs, stage))
  {}

  lemma AdvanceEvidenced(r: Record, input: AdvanceInput)
    requires Serial(r) && Evidenced(r.candidates) && Advance(r, input).Ok?
    ensures Evidenced(Advance(r, input).value.candidates)
  {
    match r.currentStage {
      case PlanCandidates => ActivateEvidenced(r.candidates + input.candidates, Advance(r, input).value.currentStage);
      case Run(_) => ActivateEvidenced(r.candidates, Advance(r, input).value.currentStage);
      case _ =>
    }
  }

  lemma RecordEvidenced(h: Fingerprinter, r: Record, id: string, v: Verdict, artifacts: seq<Artifact>,
                        reasons: seq<string>)
    requires Evidenced(r.candidates) && artifacts != [] && RecordCandidateResult(h, r, id, v, artifacts, reasons).Ok?
    ensures Evidenced(RecordCandidateResult(h, r, id, v, artifacts, reasons).value.candidates)
  {
    var k := IndexOf(r.candidates, id);
    ActivateEvidenced(r.candidates[k := Finished(h, r.candidates[k], v, artifacts, reasons)], r.currentStage);
  }

  lemma DecidedEvidence(r: Record, specs: Option<Specs>, doc: Option<Document>, call: Call)
    requires Decide(r, specs, doc) == Ok(Calls(call))
    ensures call.CallRecord? ==> call.artifacts != []
  {}

  lemma StepEvidenced(h: Fingerprinter, r: Record, input: Input, call: Call)
    requires Serial(r) && Evidenced(r.candidates) && Decided(r, input, call) && Step(h, r, call).Ok?
    ensures Evidenced(Step(h, r, call).value.candidates)
  {
    DecidedEvidence(r, input.specs, input.document, call);
    match call
    case CallAdvance(i) => AdvanceEvidenced(r, i);
    case CallRecord(id, v, artifacts, reasons) => RecordEvidenced(h, r, id, v, artifacts, reasons);
  }

  lemma {:induction false} ControlledEvidenced(h: Fingerprinter, config: Config, platform: Option<Artifact>,
                                               states: seq<Record>, calls: seq<Call>, inputs: seq<Input>, n: nat)
    requires IsControlled(h, config, platform, states, calls, inputs) && n < |states|
    ensures Evidenced(states[n].candidates)
  {
    if n > 0 {
      ControlledEvidenced(h, config, platform, states, calls, inputs, n - 1);
      KeepsEvidence(h, config, platform, states, calls, inputs, n - 1);
    }
  }

  lemma KeepsEvidence(h: Fingerprinter, config: Config, platform: Option<Artifact>,
                      states: seq<Record>, calls: seq<Call>, inputs: seq<Input>, i: nat)
    requires IsControlled(h, config, platform, states, calls, inputs) && i < |calls| && Evidenced(states[i].candidates)
    ensures Evidenced(states[i + 1].candidates)
  {
    RunStep(h, config, platform, states, calls, i);
    assert DecidedAt(states, calls, inputs, i);
    StepEvidenced(h, states[i], inputs[i], calls[i]);
  }

  predicate PlansFor(cs: seq<Candidate>, s: Strategy) {
    exists i :: 0 <= i < |cs| && cs[i].strategy == s
  }

  lemma {:induction false} EvidenceIff(cs: seq<Candidate>, s: Strategy)
    requires Evidenced(cs) && forall i :: 0 <= i < |cs| && cs[i].strategy == s ==> cs[i].disposition.Terminal()
    ensures StrategyEvidence(cs, s) != [] <==> PlansFor(cs, s)
  {
    if cs != [] {
      EvidenceIff(cs[1..], s);
      if PlansFor(cs, s) && cs[0].strategy != s {
        var i :| 0 <= i < |cs| && cs[i].strategy == s;
        assert cs[1..][i - 1] == cs[i];
      }
      if PlansFor(cs[1..], s) {
        var i :| 0 <= i < |cs| - 1 && cs[1..][i].strategy == s;
        assert cs[i + 1].strategy == s;
      }
    }
  }

  /** Every configured strategy has a candidate, and every candidate its fingerprint. */
  predicate FullyPlanned(order: seq<Strategy>, cs: seq<Candidate>) {
    && (forall s :: s in order ==> PlansFor(cs, s))
    && (forall i :: 0 <= i < |cs| ==> cs[i].fingerprint.Some?)
  }

  lemma MaterializedFully(r: Record, specs: Specs)
    requires Supplied(r.config.strategyOrder, specs) && Materialize(r, Some(specs)).Ok?
    ensures FullyPlanned(r.config.strategyOrder, Materialize(r, Some(specs)).value.candidates)
  {
    var cs := Materialize(r, Some(specs)).value.candidates;
    var mixed := SavedCandidates(r, MixedBit, specs.mixed + specs.prepared);
    var shape := SavedCandidates(r, ShapeKernel, specs.shape);
    var kv := SavedCandidates(r, KvCache, specs.kv);
    assert cs == mixed + shape + kv;
    if MixedBit in r.config.strategyOrder { assert cs[0] == mixed[0] && PlansFor(cs, MixedBit); }
    if ShapeKernel in r.config.strategyOrder { assert cs[|mixed|] == shape[0] && PlansFor(cs, ShapeKernel); }
    if KvCache in r.config.strategyOrder { assert cs[|mixed| + |shape|] == kv[0] && PlansFor(cs, KvCache); }
    forall s | s in r.config.strategyOrder ensures PlansFor(cs, s) {
      match s
      case MixedBit =>
      case ShapeKernel =>
      case KvCache =>
    }
  }

  predicate SamePlan(cs: seq<Candidate>, ds: seq<Candidate>) {
    |cs| == |ds| && forall i :: 0 <= i < |cs| ==>
                      ds[i].strategy == cs[i].strategy && (cs[i].fingerprint.Some? ==> ds[i].fingerprint.Some?)
  }

  lemma StillPlanned(order: seq<Strategy>, cs: seq<Candidate>, ds: seq<Candidate>)
    requires FullyPlanned(order, cs) && SamePlan(cs, ds)
    ensures FullyPlanned(order, ds)
  {
    forall s | s in order ensures PlansFor(ds, s) {
      assert PlansFor(cs, s);
      var i :| 0 <= i < |cs| && cs[i].strategy == s;
      assert ds[i].strategy == s;
    }
  }

  lemma ActivateSamePlan(cs: seq<Candidate>, stage: Stage)
    ensures SamePlan(cs, Activate(cs, stage))
  {
    ActivateShape(cs, stage);
  }

  lemma StepSamePlan(h: Fingerprinter, r: Record, c: Call)
    requires PlanMade(r) && Step(h, r, c).Ok?
    ensures SamePlan(r.candidates, Step(h, r, c).value.candidates)
  {
    match c
    case CallAdvance(input) =>
      var u := StageUpdates(r, input).value;
      if r.currentStage.Run? { ActivateSamePlan(r.candidates, u.stage.value); }
    case CallRecord(id, v, artifacts, reasons) =>
      var k := IndexOf(r.candidates, id);
      ActivateSamePlan(r.candidates[k := Finished(h, r.candidates[k], v, artifacts, reasons)], r.currentStage);
  }

  lemma EarlyNoPlan(h: Fingerprinter, r: Record, c: Call)
    requires Serial(r) && !PlanMade(r) && !r.currentStage.PlanCandidates? && Step(h, r, c).Ok?
    ensures !PlanMade(Step(h, r, c).value)
  {}

  lemma PlanningFully(h: Fingerprinter, r: Record, input: Input, call: Call)
    requires Serial(r) && r.currentStage.PlanCandidates? && Decided(r, input, call) && Step(h, r, call).Ok?
    ensures FullyPlanned(r.config.strategyOrder, Step(h, r, call).value.candidates)
  {
    var plan := Materialize(r, input.specs).value;
    MaterializedFully(r, input.specs.value);
    PlanRecorded(r, call.input);
    var next := Step(h, r, call).value;
    ActivateSamePlan(plan.candidates, next.currentStage);
    StillPlanned(r.config.strategyOrder, plan.candidates, next.candidates);
  }

  lemma StepFully(h: Fingerprinter, r: Record, input: Input, call: Call)
    requires Serial(r) && Decided(r, input, call) && Step(h, r, call).Ok?
    requires PlanMade(r) ==> FullyPlanned(r.config.strategyOrder, r.candidates)
    ensures PlanMade(Step(h, r, call).value) ==>
              FullyPlanned(r.config.strategyOrder, Step(h, r, call).value.candidates)
  {
    if PlanMade(r) {
      StepSamePlan(h, r, call);
      StillPlanned(r.config.strategyOrder, r.candidates, Step(h, r, call).value.candidates);
    } else if r.currentStage.PlanCandidates? {
      PlanningFully(h, r, input, call);
    } else {
      EarlyNoPlan(h, r, call);
    }
  }

  lemma KeepsPlan(h: Fingerprinter, config: Config, platform: Option<Artifact>,
                  states: seq<Record>, calls: seq<Call>, inputs: seq<Input>, i: nat)
    requires IsControlled(h, config, platform, states, calls, inputs) && i < |calls|
    requires PlanMade(states[i]) ==> FullyPlanned(config.strategyOrder, states[i].candidates)
    ensures PlanMade(states[i + 1]) ==> FullyPlanned(config.strategyOrder, states[i + 1].candidates)
  {
    RunStep(h, config, platform, states, calls, i);
    assert DecidedAt(states, calls, inputs, i);
    StepFully(h, states[i], inputs[i], calls[i]);
  }

  lemma {:induction false} ControlledFully(h: Fingerprinter, config: Config, platform: Option<Artifact>,
                                           states: seq<Record>, calls: seq<Call>, inputs: seq<Input>, n: nat)
    requires IsControlled(h, config, platform, states, calls, inputs) && n < |states|
    ensures PlanMade(states[n]) ==> FullyPlanned(config.strategyOrder, states[n].candidates)
  {
    if n > 0 {
      ControlledFully(h, config, platform, states, calls, inputs, n - 1);
      KeepsPlan(h, config, platform, states, calls, inputs, n - 1);
    }
  }

  /** Distinct fingerprints that are all there are distinct contents. */
  lemma FingerprintedApart(h: Fingerprinter, cs: seq<Candidate>)
    requires UniqueFingerprints(cs) && forall i :: 0 <= i < |cs| ==> cs[i].fingerprint.Some?
    ensures !SharedContent(h, cs)
  {
    forall i, j | 0 <= i < j < |cs| ensures FingerprintOf(h, cs[i]) != FingerprintOf(h, cs[j]) {
      assert cs[i].fingerprint != cs[j].fingerprint;
    }
  }

  /** A campaign that the control plane drives is never blocked, and from its plan on
      it can be completed: the planner fingerprints every candidate. */
  lemma ControlledNeverBlocked(h: Fingerprinter, config: Config, platform: Option<Artifact>,
                               states: seq<Record>, calls: seq<Call>, inputs: seq<Input>, n: nat)
    requires IsControlled(h, config, platform, states, calls, inputs) && n < |states|
    ensures !Blocked(h, states[n])
    ensures PlanMade(states[n]) ==> !CanBlock(h, states[n]) && CanComplete(h, states[n])
  {
    RunInv(h, config, platform, states, calls, n);
    if PlanMade(states[n]) {
      ControlledFully(h, config, platform, states, calls, inputs, n);
      FingerprintedApart(h, states[n].candidates);
      BlocksIffShared(h, states[n]);
    }
    if Blocked(h, states[n]) { BlockedShares(h, states[n]); }
  }

  /** At a strategy's stage the engine accepts whatever the control plane decides: the
      result of the running candidate, or, when none runs, leaving the strategy. */
  lemma RunDecisionAccepted(h: Fingerprinter, config: Config, platform: Option<Artifact>,
                            states: seq<Record>, calls: seq<Call>, inputs: seq<Input>, n: nat,
                            input: Input, call: Call)
    requires IsControlled(h, config, platform, states, calls, inputs) && n < |states|
    requires states[n].currentStage.Run? && Decided(states[n], input, call)
    ensures Step(h, states[n], call).Ok?
  {
    var r := states[n];
    RunInv(h, config, platform, states, calls, n);
    ControlledNeverBlocked(h, config, platform, states, calls, inputs, n);
    var k := RunningIndex(r.candidates);
    if k < |r.candidates| {
      DecidedResult(r, input, call);
      ResultAcceptedIff(h, r, k, call.verdict, call.artifacts, call.reasons);
    } else {
      ControlledEvidenced(h, config, platform, states, calls, inputs, n);
      ControlledFully(h, config, platform, states, calls, inputs, n);
      LeaveAccepted(r);
    }
  }

  lemma DecidedResult(r: Record, input: Input, call: Call)
    requires r.currentStage.Run? && RunningIndex(r.candidates) < |r.candidates| && Decided(r, input, call)
    ensures call.CallRecord? && call.id == r.candidates[RunningIndex(r.candidates)].id
    ensures TerminalVerdict(call.verdict)
  {}

  lemma LeaveAccepted(r: Record)
    requires Inv(r) && r.currentStage.Run? && RunningIndex(r.candidates) == |r.candidates|
    requires Evidenced(r.candidates) && FullyPlanned(r.config.strategyOrder, r.candidates)
    ensures Advance(r, NO_INPUT).Ok?
  {
    NoneOpen(r);
    EvidenceIff(r.candidates, r.currentStage.strategy);
    LeavesStrategyIff(r);
  }

  lemma NoneOpen(r: Record)
    requires Serial(r) && r.currentStage.Run? && RunningIndex(r.candidates) == |r.candidates|
    ensures !Unfinished(r.candidates, r.currentStage.strategy)
  {
    assert FirstOpen(r.candidates, r.currentStage.strategy) == |r.candidates|;
  }

  /** In general, when nothing runs, the engine lets a strategy be left without further
      evidence exactly when some candidate of the strategy finished with evidence. */
  lemma LeavesStrategyIff(r: Record)
    requires Inv(r) && r.currentStage.Run? && RunningIndex(r.candidates) == |r.candidates|
    ensures Advance(r, NO_INPUT).Ok? <==> StrategyEvidence(r.candidates, r.currentStage.strategy) != []
  {
    NoneOpen(r);
    EvidenceOfStage(r);
    if StrategyEvidence(r.candidates, r.currentStage.strategy) != [] {
      StrategyMoves(r, []);
    } else {
      NoEvidenceRefused(r);
    }
  }

  lemma EvidenceOfStage(r: Record)
    requires r.currentStage.Run?
    ensures NO_INPUT.(evidence := []) == NO_INPUT
    ensures StageEvidence(r, NO_INPUT) == StrategyEvidence(r.candidates, r.currentStage.strategy)
  {}

  lemma NoEvidenceRefused(r: Record)
    requires r.currentStage.Run? && StageEvidence(r, NO_INPUT) == []
    ensures Advance(r, NO_INPUT).Err?
  {}
}
