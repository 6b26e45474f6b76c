/** Campaign records and the validators that judge one record at a time. */
module CampaignModels {
  import opened Wrappers

  datatype Strategy = MixedBit | ShapeKernel | KvCache

  /** The three RUN_* stages are one constructor: `Run(s)` is the stage that
      STRATEGY_STAGES assigns to `s`. */
  datatype Stage =
    | CreateCampaign
    | InspectTarget
    | CaptureSharedBaselines
    | PlanCandidates
    | Run(strategy: Strategy)
    | SelectWinners
    | BuildCompatibleCombination
    | FinalValidation
    | Complete

  datatype Status = Active | StatusAccepted | StatusRejected | StatusInconclusive

  datatype Disposition =
    | Planned | Running | ExperimentalAccepted | Rejected | Inconclusive | Skipped
  {
    predicate Terminal() { !Planned? && !Running? }
  }

  datatype Artifact = Artifact(path: string, sha256: string)

  datatype Baseline = Baseline(id: string, taskId: string, artifact: Artifact)

  datatype Config = Config(
    id: string, taskId: string, strategyOrder: seq<Strategy>, maxCandidates: nat)

  datatype Candidate = Candidate(
    id: string,
    strategy: Strategy,
    baselineIds: seq<string>,
    spec: Option<Artifact>,
    disposition: Disposition,
    resultArtifacts: seq<Artifact>,
    reasons: seq<string>,
    winner: bool,
    fingerprint: Option<string>)

  datatype CompatibilityDisposition = Pending | Compatible | Incompatible | CompatInconclusive

  /** A check that passed, failed, or was not decided (Python's True, False, None). */
  datatype Check = Pass | Fail | Undecided

  datatype Compatibility = Compatibility(
    disposition: CompatibilityDisposition, candidateIds: seq<string>,
    checks: map<string, Check>, reasons: seq<string>)

  datatype CombinationDisposition =
    CombinationPlanned | Built | Validated | CombinationRejected | CombinationInconclusive

  datatype Combination = Combination(
    disposition: CombinationDisposition, candidateIds: seq<string>,
    checks: map<string, Check>, reasons: seq<string>)

  datatype Completion = Completion(stage: Stage, evidence: seq<Artifact>)

  datatype AttemptDisposition = AttemptAccepted | AttemptRejected | AttemptInconclusive

  /** `strategy` stands for the action name, which is the strategy's own name. */
  datatype Attempt = Attempt(
    candidateId: string, strategy: Strategy, fingerprint: string,
    disposition: AttemptDisposition, evidence: seq<Artifact>)

  datatype StackEntry = StackEntry(
    candidateId: string, strategy: Strategy, fingerprint: string, evidence: seq<Artifact>)

  datatype Ledger = Ledger(attempts: seq<Attempt>, acceptedStack: seq<StackEntry>)

  datatype Record = Record(
    config: Config,
    currentStage: Stage,
    status: Status,
    sharedBaselines: seq<Baseline>,
    candidates: seq<Candidate>,
    selectedIds: seq<string>,
    compatibility: Option<Compatibility>,
    combination: Option<Combination>,
    completions: seq<Completion>,
    platformEvidence: Option<Artifact>,
    ledger: Ledger,
    revision: nat)

  /******* Validators of the nested records *******/

  predicate ConfigValid(c: Config) {
    c.strategyOrder != [] && Unique(c.strategyOrder) && c.maxCandidates >= 1
  }

  predicate CandidateValid(c: Candidate) {
    && c.baselineIds != [] && Unique(c.baselineIds)
    && (c.winner ==> c.disposition.ExperimentalAccepted?)
  }

  predicate CompatibilityValid(c: Compatibility) {
    && Unique(c.candidateIds)
    && (c.disposition.Compatible? ==> forall k :: k in c.checks ==> c.checks[k].Pass?)
    && (c.disposition.Incompatible? && c.checks != map[] ==>
          exists k :: k in c.checks && c.checks[k].Fail?)
  }

  predicate CombinationValid(c: Combination) {
    && Unique(c.candidateIds)
    && (c.disposition.Validated? ==> forall k :: k in c.checks ==> c.checks[k].Pass?)
  }

  predicate FingerprintAccepted(l: Ledger, fingerprint: string) {
    exists a :: a in l.attempts && a.disposition.AttemptAccepted? && a.fingerprint == fingerprint
  }

  /** The ledger's own validator.  It runs when a ledger is constructed from data,
      not when `model_copy` replaces one of its lists. */
  predicate LedgerValid(l: Ledger) {
    && (forall i, j :: 0 <= i < j < |l.attempts| ==>
          l.attempts[i].fingerprint != l.attempts[j].fingerprint)
    && (forall i, j :: 0 <= i < j < |l.acceptedStack| ==>
          l.acceptedStack[i].fingerprint != l.acceptedStack[j].fingerprint)
    && (forall i :: 0 <= i < |l.acceptedStack| ==>
          FingerprintAccepted(l, l.acceptedStack[i].fingerprint))
  }

  /******* The validator of a whole record *******/

  predicate UniqueIds(cs: seq<Candidate>) {
    forall i, j :: 0 <= i < j < |cs| ==> cs[i].id != cs[j].id
  }

  predicate UniqueFingerprints(cs: seq<Candidate>) {
    forall i, j :: 0 <= i < j < |cs| && cs[i].fingerprint.Some? && cs[j].fingerprint.Some? ==>
                     cs[i].fingerprint != cs[j].fingerprint
  }

  predicate BaselinesValid(r: Record) {
    && (forall i, j :: 0 <= i < j < |r.sharedBaselines| ==>
          r.sharedBaselines[i].id != r.sharedBaselines[j].id)
    && (forall i :: 0 <= i < |r.sharedBaselines| ==>
          r.sharedBaselines[i].taskId == r.config.taskId)
  }

  predicate KnownBaseline(r: Record, id: string) {
    exists i :: 0 <= i < |r.sharedBaselines| && r.sharedBaselines[i].id == id
  }

  predicate CandidatesValid(r: Record) {
    && UniqueIds(r.candidates)
    && |r.candidates| <= r.config.maxCandidates
    && UniqueFingerprints(r.candidates)
    && (forall i :: 0 <= i < |r.candidates| ==>
          r.candidates[i].strategy in r.config.strategyOrder)
    && (forall i, b :: 0 <= i < |r.candidates| && b in r.candidates[i].baselineIds ==>
          KnownBaseline(r, b))
  }

  predicate RunningValid(r: Record) {
    && (forall i, j :: 0 <= i < j < |r.candidates| ==>
          !(r.candidates[i].disposition.Running? && r.candidates[j].disposition.Running?))
    && (forall i :: 0 <= i < |r.candidates| && r.candidates[i].disposition.Running? ==>
          r.currentStage == Run(r.candidates[i].strategy))
  }

  predicate KnownCandidate(r: Record, id: string) {
    exists i :: 0 <= i < |r.candidates| && r.candidates[i].id == id
  }

  predicate SelectionValid(r: Record) {
    && Unique(r.selectedIds)
    && (forall k :: 0 <= k < |r.selectedIds| ==> KnownCandidate(r, r.selectedIds[k]))
    && (forall i :: 0 <= i < |r.candidates| ==>
          && r.candidates[i].winner == (r.candidates[i].id in r.selectedIds)
          && (r.candidates[i].winner ==> r.candidates[i].disposition.ExperimentalAccepted?))
  }

  predicate CombinationStateValid(r: Record) {
    && (r.compatibility.Some? ==>
          forall id :: id in r.compatibility.value.candidateIds ==> id in r.selectedIds)
    && (r.combination.Some? ==>
          && (forall id :: id in r.combination.value.candidateIds ==> id in r.selectedIds)
          && (r.compatibility.Some? ==>
                forall id :: id in r.combination.value.candidateIds ==>
                               id in r.compatibility.value.candidateIds))
  }

  predicate AcceptedValid(r: Record) {
    r.status.StatusAccepted? ==>
      && r.selectedIds != []
      && r.compatibility.Some? && r.compatibility.value.disposition.Compatible?
      && r.combination.Some? && r.combination.value.disposition.Validated?
      && r.combination.value.candidateIds != []
  }

  predicate RecordValid(r: Record) {
    && (!r.status.Active? <==> r.currentStage.Complete?)
    && BaselinesValid(r)
    && CandidatesValid(r)
    && RunningValid(r)
    && SelectionValid(r)
    && CombinationStateValid(r)
    && AcceptedValid(r)
  }

  /** Everything `model_validate` judges when a record is read back from its stored form. */
  predicate StoredRecordValid(r: Record) {
    && ConfigValid(r.config)
    && (forall i :: 0 <= i < |r.candidates| ==> CandidateValid(r.candidates[i]))
    && (r.compatibility.Some? ==> CompatibilityValid(r.compatibility.value))
    && (r.combination.Some? ==> CombinationValid(r.combination.value))
    && LedgerValid(r.ledger)
    && RecordValid(r)
  }
}
