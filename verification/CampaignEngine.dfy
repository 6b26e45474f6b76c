/** The outer campaign coordinator: one call checks a record and derives its successor. */
module CampaignEngine {
  import opened Wrappers
  import opened CampaignModels
  import opened ControlPolicy

  datatype EngineError =
    | CampaignTerminal
    | EvidenceRequired
    | BaselineRequired
    | CandidateRequired
    | CandidateNotPlanned
    | StrategyNotConfigured
    | UnfinishedCandidates
    | LedgerRefused(reason: LedgerError)
    | CombinationRequired
    | CompatibilityPending
    | CombinationNotBuilt
    | FinalStatusRequired
    | CombinationMismatch
    | NotARunStage
    | DispositionNotTerminal
    | UnknownCandidate
    | WrongStrategy
    | NotRunning
    | InvalidRecord

  /** `content_fingerprint`: the hash of (strategy, spec SHA-256, candidate id). */
  type Fingerprinter = (Strategy, Option<string>, string) -> string

  function New(config: Config, platform: Option<Artifact>): Record {
    Record(config, CreateCampaign, Active, [], [], [], None, None, [], platform, Ledger([], []), 0)
  }

  /******* Activation *******/

  predicate IsPlanned(c: Candidate, s: Strategy) {
    c.strategy == s && c.disposition.Planned?
  }

  predicate AnyRunning(cs: seq<Candidate>) {
    exists i :: 0 <= i < |cs| && cs[i].disposition.Running?
  }

  function FirstPlanned(cs: seq<Candidate>, s: Strategy): (k: nat)
    ensures k <= |cs|
    ensures forall i :: 0 <= i < k ==> !IsPlanned(cs[i], s)
    ensures k < |cs| ==> IsPlanned(cs[k], s)
  {
    First(cs, c => IsPlanned(c, s))
  }

  /** Unless some candidate runs, the first planned candidate of the stage's strategy starts. */
  function Activate(cs: seq<Candidate>, stage: Stage): seq<Candidate> {
    if !stage.Run? || AnyRunning(cs) then cs
    else
      var k := FirstPlanned(cs, stage.strategy);
      if k == |cs| then cs else cs[k := cs[k].(disposition := Running)]
  }

  /** The scan of `_activate_next_candidate`. */
  method ActivateNextCandidate(cs: seq<Candidate>, stage: Stage) returns (r: seq<Candidate>)
    ensures r == Activate(cs, stage)
  {
    if !stage.Run? { return cs; }
    var running := false;
    for i := 0 to |cs|
      invariant running <==> exists j :: 0 <= j < i && cs[j].disposition.Running?
    {
      running := running || cs[i].disposition.Running?;
    }
    if running { return cs; }
    for i := 0 to |cs|
      invariant forall j :: 0 <= j < i ==> !IsPlanned(cs[j], stage.strategy)
    {
      if IsPlanned(cs[i], stage.strategy) {
        return cs[i := cs[i].(disposition := Running)];
      }
    }
    return cs;
  }

  /******* Stage order *******/

  function Position(order: seq<Strategy>, s: Strategy): (k: nat)
    ensures k <= |order|
    ensures k < |order| ==> order[k] == s
    ensures k < |order| <==> s in order
  {
    if order == [] then 0 else if order[0] == s then 0 else 1 + Position(order[1..], s)
  }

  /** The stage after the current strategy, `None` after the last one. */
  function NextStrategyStage(r: Record): Result<Option<Stage>, EngineError> {
    var order := r.config.strategyOrder;
    if !r.currentStage.Run? then
      if order == [] then Err(StrategyNotConfigured) else Ok(Some(Run(order[0])))
    else
      var k := Position(order, r.currentStage.strategy);
      if k == |order| then Err(StrategyNotConfigured)
      else if k + 1 == |order| then Ok(None)
      else Ok(Some(Run(order[k + 1])))
  }

  /******* Writing the successor record *******/

  /** The dictionary of replaced fields; `None` leaves the field as it was dumped. */
  datatype Updates = Updates(
    stage: Option<Stage>,
    status: Option<Status>,
    sharedBaselines: Option<seq<Baseline>>,
    candidates: Option<seq<Candidate>>,
    selectedIds: Option<seq<string>>,
    compatibility: Option<Compatibility>,
    combination: Option<Combination>,
    completions: Option<seq<Completion>>,
    ledger: Option<Ledger>)

  const NO_UPDATES := Updates(None, None, None, None, None, None, None, None, None)

  function Or<T>(o: Option<T>, kept: T): T {
    if o.Some? then o.value else kept
  }

  function Merge(r: Record, u: Updates): Record {
    Record(
      r.config,
      Or(u.stage, r.currentStage),
      Or(u.status, r.status),
      Or(u.sharedBaselines, r.sharedBaselines),
      Or(u.candidates, r.candidates),
      Or(u.selectedIds, r.selectedIds),
      if u.compatibility.Some? then u.compatibility else r.compatibility,
      if u.combination.Some? then u.combination else r.combination,
      Or(u.completions, r.completions),
      r.platformEvidence,
      Or(u.ledger, r.ledger),
      r.revision + 1)
  }

  /** Only dumped fields are validated again; replaced fields are instances and are not. */
  predicate DumpedPartsValid(r: Record, u: Updates) {
    && ConfigValid(r.config)
    && (u.candidates.None? ==>
          forall i :: 0 <= i < |r.candidates| ==> CandidateValid(r.candidates[i]))
    && (u.compatibility.None? && r.compatibility.Some? ==> CompatibilityValid(r.compatibility.value))
    && (u.combination.None? && r.combination.Some? ==> CombinationValid(r.combination.value))
    && (u.ledger.None? ==> LedgerValid(r.ledger))
  }

  function UpdatedRecord(r: Record, u: Updates): Result<Record, EngineError> {
    if DumpedPartsValid(r, u) && RecordValid(Merge(r, u)) then Ok(Merge(r, u)) else Err(InvalidRecord)
  }

  /******* advance *******/

  datatype AdvanceInput = AdvanceInput(
    evidence: seq<Artifact>,
    baselines: seq<Baseline>,
    candidates: seq<Candidate>,
    selected: Option<seq<string>>,
    compatibility: Option<Compatibility>,
    combination: Option<Combination>,
    finalStatus: Option<Status>)

  const NO_INPUT := AdvanceInput([], [], [], None, None, None, None)

  /** What the constructors of the passed instances have already checked. */
  predicate InputValid(input: AdvanceInput) {
    && (forall i :: 0 <= i < |input.candidates| ==> CandidateValid(input.candidates[i]))
    && (input.compatibility.Some? ==> CompatibilityValid(input.compatibility.value))
    && (input.combination.Some? ==> CombinationValid(input.combination.value))
  }

  function StrategyEvidence(cs: seq<Candidate>, s: Strategy): seq<Artifact> {
    if cs == [] then []
    else
      (if cs[0].strategy == s && cs[0].disposition.Terminal() then cs[0].resultArtifacts else [])
      + StrategyEvidence(cs[1..], s)
  }

  function StageEvidence(r: Record, input: AdvanceInput): seq<Artifact> {
    match r.currentStage
    case CaptureSharedBaselines => input.evidence + Map((b: Baseline) => b.artifact, input.baselines)
    case Run(s) => input.evidence + StrategyEvidence(r.candidates, s)
    case _ => input.evidence
  }

  predicate NeedsEvidence(stage: Stage) {
    stage.InspectTarget? || stage.PlanCandidates? || stage.Run?
    || stage.BuildCompatibleCombination? || stage.FinalValidation?
  }

  predicate Unfinished(cs: seq<Candidate>, s: Strategy) {
    exists i :: 0 <= i < |cs| && cs[i].strategy == s && !cs[i].disposition.Terminal()
  }

  function AcceptedIds(cs: seq<Candidate>): seq<string> {
    if cs == [] then []
    else (if cs[0].disposition.ExperimentalAccepted? then [cs[0].id] else []) + AcceptedIds(cs[1..])
  }

  function Selection(r: Record, input: AdvanceInput): seq<string> {
    Or(input.selected, AcceptedIds(r.candidates))
  }

  function MarkWinners(cs: seq<Candidate>, ids: seq<string>): seq<Candidate> {
    Map((c: Candidate) => c.(winner := c.id in ids), cs)
  }

  const NO_WINNER_COMPATIBILITY :=
    Compatibility(Incompatible, [], map[], ["no experimentally accepted candidate was selected"])

  const NO_WINNER_COMBINATION :=
    Combination(CombinationRejected, [], map[], ["no experimentally accepted component is available"])

  function ExpectedCombination(status: Status): CombinationDisposition {
    match status
    case StatusAccepted => Validated
    case StatusRejected => CombinationRejected
    case _ => CombinationInconclusive
  }

  /** The updates of one stage, besides its completion. */
  function StageUpdates(r: Record, input: AdvanceInput): Result<Updates, EngineError> {
    match r.currentStage
    case CreateCampaign => Ok(NO_UPDATES.(stage := Some(InspectTarget)))
    case InspectTarget => Ok(NO_UPDATES.(stage := Some(CaptureSharedBaselines)))
    case CaptureSharedBaselines =>
      var combined := r.sharedBaselines + input.baselines;
      if combined == [] then Err(BaselineRequired)
      else Ok(NO_UPDATES.(sharedBaselines := Some(combined), stage := Some(PlanCandidates)))
    case PlanCandidates => PlanUpdates(r, input)
    case Run(s) => StrategyUpdates(r, s)
    case SelectWinners => WinnerUpdates(r, input)
    case BuildCompatibleCombination => CombinationUpdates(r, input)
    case FinalValidation => FinalUpdates(r, input)
    case Complete => Err(CampaignTerminal)
  }

  function PlanUpdates(r: Record, input: AdvanceInput): Result<Updates, EngineError> {
    var planned := r.candidates + input.candidates;
    if planned == [] then Err(CandidateRequired)
    else if exists i :: 0 <= i < |planned| && !planned[i].disposition.Planned? then Err(CandidateNotPlanned)
    else
      match NextStrategyStage(r)
      case Err(e) => Err(e)
      case Ok(None) => Err(StrategyNotConfigured)
      case Ok(Some(next)) =>
        Ok(NO_UPDATES.(candidates := Some(Activate(planned, next)), stage := Some(next)))
  }

  function StrategyUpdates(r: Record, s: Strategy): Result<Updates, EngineError> {
    if Unfinished(r.candidates, s) then Err(UnfinishedCandidates)
    else
      match NextStrategyStage(r)
      case Err(e) => Err(e)
      case Ok(None) => Ok(NO_UPDATES.(stage := Some(SelectWinners)))
      case Ok(Some(next)) =>
        Ok(NO_UPDATES.(candidates := Some(Activate(r.candidates, next)), stage := Some(next)))
  }

  function WinnerUpdates(r: Record, input: AdvanceInput): Result<Updates, EngineError> {
    var selected := Selection(r, input);
    match SelectOptimizationStack(r.ledger, selected)
    case Err(e) => Err(LedgerRefused(e))
    case Ok(ledger) =>
      Ok(NO_UPDATES.(
         candidates := Some(MarkWinners(r.candidates, selected)),
         selectedIds := Some(selected),
         ledger := Some(ledger),
         stage := Some(BuildCompatibleCombination)))
  }

  function CombinationUpdates(r: Record, input: AdvanceInput): Result<Updates, EngineError> {
    var compatibility :=
      if r.selectedIds == [] && input.compatibility.None? then Some(NO_WINNER_COMPATIBILITY)
      else input.compatibility;
    var combination :=
      if r.selectedIds == [] && input.combination.None? then Some(NO_WINNER_COMBINATION)
      else input.combination;
    if compatibility.None? || combination.None? then Err(CombinationRequired)
    else if compatibility.value.disposition.Pending? then Err(CompatibilityPending)
    else if compatibility.value.disposition.Compatible? && !combination.value.disposition.Built? then
      Err(CombinationNotBuilt)
    else
      Ok(NO_UPDATES.(
         compatibility := compatibility, combination := combination, stage := Some(FinalValidation)))
  }

  function FinalUpdates(r: Record, input: AdvanceInput): Result<Updates, EngineError> {
    var combination := if input.combination.Some? then input.combination else r.combination;
    if combination.None? then Err(CombinationRequired)
    else if input.finalStatus.None? || input.finalStatus.value.Active? then Err(FinalStatusRequired)
    else if combination.value.disposition != ExpectedCombination(input.finalStatus.value) then
      Err(CombinationMismatch)
    else
      Ok(NO_UPDATES.(
         combination := combination, status := input.finalStatus, stage := Some(Complete)))
  }

  /** Complete the current stage and enter its successor. */
  function Advance(r: Record, input: AdvanceInput): Result<Record, EngineError> {
    if !r.status.Active? || r.currentStage.Complete? then Err(CampaignTerminal)
    else
      var evidence := StageEvidence(r, input);
      if NeedsEvidence(r.currentStage) && evidence == [] then Err(EvidenceRequired)
      else
        match StageUpdates(r, input)
        case Err(e) => Err(e)
        case Ok(u) =>
          UpdatedRecord(r, u.(completions := Some(r.completions + [Completion(r.currentStage, evidence)])))
  }

  /******* record_candidate_result *******/

  datatype DecisionOutcome = Accept | Reject | NoDecision

  /** The three kinds of verdict a caller may pass. */
  datatype Verdict =
    | Direct(disposition: Disposition)
    | Outcome(outcome: DecisionOutcome)
    | Gate(outcome: DecisionOutcome, gateReasons: seq<string>)

  function VerdictDisposition(v: Verdict): Disposition {
    match v
    case Direct(d) => d
    case Outcome(o) => OutcomeDisposition(o)
    case Gate(o, _) => OutcomeDisposition(o)
  }

  function OutcomeDisposition(o: DecisionOutcome): Disposition {
    match o
    case Accept => ExperimentalAccepted
    case Reject => Rejected
    case NoDecision => Inconclusive
  }

  function VerdictReasons(v: Verdict): seq<string> {
    if v.Gate? then v.gateReasons else []
  }

  function AttemptDispositionOf(d: Disposition): AttemptDisposition {
    match d
    case ExperimentalAccepted => AttemptAccepted
    case Rejected => AttemptRejected
    case _ => AttemptInconclusive
  }

  function SpecHash(c: Candidate): Option<string> {
    if c.spec.Some? then Some(c.spec.value.sha256) else None
  }

  function FingerprintOf(h: Fingerprinter, c: Candidate): string {
    if c.fingerprint.Some? then c.fingerprint.value else h(c.strategy, SpecHash(c), c.id)
  }

  function IndexOf(cs: seq<Candidate>, id: string): (k: nat)
    ensures k <= |cs|
    ensures forall i :: 0 <= i < k ==> cs[i].id != id
    ensures k < |cs| ==> cs[k].id == id
  {
    First(cs, (c: Candidate) => c.id == id)
  }

  function Finished(h: Fingerprinter, c: Candidate, v: Verdict, artifacts: seq<Artifact>,
                    reasons: seq<string>): Candidate {
    c.(disposition := VerdictDisposition(v),
       resultArtifacts := c.resultArtifacts + artifacts,
       reasons := c.reasons + VerdictReasons(v) + reasons,
       fingerprint := Some(FingerprintOf(h, c)))
  }

  function AttemptOf(h: Fingerprinter, c: Candidate, d: Disposition, artifacts: seq<Artifact>): Attempt {
    Attempt(c.id, c.strategy, FingerprintOf(h, c), AttemptDispositionOf(d),
            (if c.spec.Some? then [c.spec.value] else []) + artifacts)
  }

  function LedgerAfter(h: Fingerprinter, l: Ledger, c: Candidate, d: Disposition, artifacts: seq<Artifact>)
    : Result<Ledger, LedgerError>
  {
    if d.Skipped? then Ok(l) else RecordOptimizationAttempt(l, AttemptOf(h, c, d, artifacts))
  }

  /** Record one terminal result and start the next planned peer. */
  function RecordCandidateResult(h: Fingerprinter, r: Record, id: string, v: Verdict,
                                 artifacts: seq<Artifact>, reasons: seq<string>)
    : Result<Record, EngineError>
  {
    var d := VerdictDisposition(v);
    var k := IndexOf(r.candidates, id);
    if !r.status.Active? then Err(CampaignTerminal)
    else if !r.currentStage.Run? then Err(NotARunStage)
    else if !d.Terminal() then Err(DispositionNotTerminal)
    else if k == |r.candidates| then Err(UnknownCandidate)
    else if r.candidates[k].strategy != r.currentStage.strategy then Err(WrongStrategy)
    else if !r.candidates[k].disposition.Running? then Err(NotRunning)
    else
      match LedgerAfter(h, r.ledger, r.candidates[k], d, artifacts)
      case Err(e) => Err(LedgerRefused(e))
      case Ok(ledger) =>
        var finished := r.candidates[k := Finished(h, r.candidates[k], v, artifacts, reasons)];
        UpdatedRecord(r, NO_UPDATES.(
                         candidates := Some(Activate(finished, r.currentStage)), ledger := Some(ledger)))
  }

  /******* One engine call *******/

  datatype Call =
    | CallAdvance(input: AdvanceInput)
    | CallRecord(id: string, verdict: Verdict, artifacts: seq<Artifact>, reasons: seq<string>)

  predicate CallValid(c: Call) {
    c.CallAdvance? ==> InputValid(c.input)
  }

  function Step(h: Fingerprinter, r: Record, c: Call): Result<Record, EngineError> {
    match c
    case CallAdvance(input) => Advance(r, input)
    case CallRecord(id, v, artifacts, reasons) => RecordCandidateResult(h, r, id, v, artifacts, reasons)
  }
}
