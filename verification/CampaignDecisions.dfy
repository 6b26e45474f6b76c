/** What the control plane decides from a document, and when it decides at all. */
module CampaignDecisions {
  import opened Wrappers
  import opened CampaignModels
  import opened CampaignEngine
  import opened CampaignControl
  import opened CampaignOutcomes
  import opened CampaignWinners
  import opened CampaignGates

  /******* What a document must say *******/

  predicate NoBlanks(reasons: seq<string>) {
    forall i :: 0 <= i < |reasons| ==> reasons[i] != ""
  }

  predicate IsRunning(r: Record, k: nat) {
    k < |r.candidates| && r.candidates[k].disposition.Running?
  }

  /** A document about the running candidate: a skip needs evidence and reasons, an accepted
      performance the quality. */
  predicate Decisive(d: Document, id: string) {
    && d.candidateId == id && NoBlanks(d.reasons)
    && if d.skip then d.evidence != [] && d.reasons != []
       else d.gate.outcome.Accept? ==> d.gate.quality.Some?
  }

  predicate Names(cs: seq<Candidate>, i: nat, id: string) {
    i < |cs| && cs[i].id == id
  }

  /** Two entries of a selection name mixed-bit candidates, or two name KV-cache candidates. */
  predicate SameKindTwice(cs: seq<Candidate>, ids: seq<string>) {
    exists a, b :: 0 <= a < b < |ids| && SameKind(cs, ids[a], ids[b])
  }

  predicate SameKind(cs: seq<Candidate>, x: string, y: string) {
    exists i, j :: 0 <= i < |cs| && 0 <= j < |cs| && cs[i].id == x && cs[j].id == y
                   && cs[i].strategy == cs[j].strategy && !cs[i].strategy.ShapeKernel?
  }

  /** All are accepted candidates, at most one of them mixed-bit and one KV-cache. */
  predicate MayWin(cs: seq<Candidate>, ids: seq<string>) {
    (forall k :: 0 <= k < |ids| ==> IsAccepted(cs, ids[k])) && !SameKindTwice(cs, ids)
  }

  predicate IdsApart(arms: seq<Arm>, i: nat, j: nat)
    requires i < |arms| && j < |arms|
  {
    arms[i].id != arms[j].id
  }

  /** No prepared arm has the id of a planned or of another prepared one. */
  predicate PreparedApart(specs: Specs) {
    var arms := specs.mixed + specs.prepared;
    forall i, j :: 0 <= i < j < |arms| && j >= |specs.mixed| ==> IdsApart(arms, i, j)
  }

  function PlannedOf(order: seq<Strategy>, s: Strategy, arms: seq<Arm>): nat {
    if s in order then |arms| else 0
  }

  function PlanSize(order: seq<Strategy>, specs: Specs): nat {
    PlannedOf(order, MixedBit, specs.mixed) + PlannedOf(order, MixedBit, specs.prepared)
    + PlannedOf(order, ShapeKernel, specs.shape) + PlannedOf(order, KvCache, specs.kv)
  }

  /** What a decision needs at each stage. */
  predicate Enough(r: Record, input: Input) {
    var doc := input.document;
    match r.currentStage
    case CreateCampaign => true
    case PlanCandidates =>
      && r.sharedBaselines != [] && input.specs.Some?
      && (MixedBit in r.config.strategyOrder ==> PreparedApart(input.specs.value))
      && 1 <= PlanSize(r.config.strategyOrder, input.specs.value) <= r.config.maxCandidates
    case Run(_) =>
      forall k :: 0 <= k < |r.candidates| && IsRunning(r, k) ==>
                    doc.Some? && Decisive(doc.value, r.candidates[k].id)
    case SelectWinners =>
      if doc.None? then !SeveralAccepted(r.candidates)
      else doc.value.selected.Some? && MayWin(r.candidates, doc.value.selected.value)
    case Complete => false
    case _ => doc.Some?
  }

  /** The stages at which a missing document is waited for. */
  predicate Waits(r: Record) {
    match r.currentStage
    case InspectTarget => true
    case CaptureSharedBaselines => true
    case Run(_) => exists k :: 0 <= k < |r.candidates| && IsRunning(r, k)
    case SelectWinners => SeveralAccepted(r.candidates)
    case _ => false
  }

  ghost predicate Decides(r: Record, input: Input) {
    exists call :: Decide(r, input.specs, input.document) == Ok(Calls(call))
  }

  /******* When it decides *******/

  lemma ResultDecides(r: Record, input: Input)
    requires RunningValid(r) && r.currentStage.Run?
    ensures Decides(r, input) <==> Enough(r, input)
    ensures Decide(r, input.specs, input.document) == Ok(Waiting) <==> input.document.None? && Waits(r)
  {
    var k, decided := RunningIndex(r.candidates), Decide(r, input.specs, input.document);
    assert decided == DecideResult(r, input.document);
    assert Decides(r, input) <==> decided.Ok? && decided.value.Calls?;
    if k < |r.candidates| {
      assert IsRunning(r, k);
      forall j: nat | IsRunning(r, j) ensures j == k {}
    }
  }

  lemma KindTwice(cs: seq<Candidate>, ids: seq<string>)
    requires UniqueIds(cs) && forall k :: 0 <= k < |ids| ==> IsAccepted(cs, ids[k])
    ensures SameKindTwice(cs, ids) <==> TwoOf(cs, ids, MixedBit) || TwoOf(cs, ids, KvCache)
  {
    forall a, b | 0 <= a < |ids| && 0 <= b < |ids|
      ensures SameKind(cs, ids[a], ids[b])
         <==> || (OfStrategy(cs, ids[a], MixedBit) && OfStrategy(cs, ids[b], MixedBit))
              || (OfStrategy(cs, ids[a], KvCache) && OfStrategy(cs, ids[b], KvCache))
    {
      KindOfBoth(cs, ids[a], ids[b]);
    }
  }

  lemma KindOfBoth(cs: seq<Candidate>, x: string, y: string)
    requires UniqueIds(cs) && IsAccepted(cs, x) && IsAccepted(cs, y)
    ensures SameKind(cs, x, y) <==> || (OfStrategy(cs, x, MixedBit) && OfStrategy(cs, y, MixedBit))
                                    || (OfStrategy(cs, x, KvCache) && OfStrategy(cs, y, KvCache))
  {
    var i :| 0 <= i < |cs| && cs[i].id == x && cs[i].disposition.ExperimentalAccepted?;
    var j :| 0 <= j < |cs| && cs[j].id == y && cs[j].disposition.ExperimentalAccepted?;
    forall s ensures OfStrategy(cs, x, s) <==> cs[i].strategy == s { OnlyOne(cs, i, s); }
    forall s ensures OfStrategy(cs, y, s) <==> cs[j].strategy == s { OnlyOne(cs, j, s); }
    if cs[i].strategy == cs[j].strategy && !cs[i].strategy.ShapeKernel? { assert SameKind(cs, x, y); }
  }

  lemma OnlyOne(cs: seq<Candidate>, i: nat, s: Strategy)
    requires UniqueIds(cs) && i < |cs| && cs[i].disposition.ExperimentalAccepted?
    ensures OfStrategy(cs, cs[i].id, s) <==> cs[i].strategy == s
  {}

  /** One accepted candidate is no two of a kind. */
  lemma OneDecides(r: Record)
    requires UniqueIds(r.candidates) && !SeveralAccepted(r.candidates)
    ensures MayWin(r.candidates, AcceptedIds(r.candidates))
  {
    CountAccepted(r.candidates);
    forall k | 0 <= k < |AcceptedIds(r.candidates)| ensures IsAccepted(r.candidates, AcceptedIds(r.candidates)[k]) {
      AcceptedIdsAre(r.candidates, AcceptedIds(r.candidates)[k]);
    }
  }

  lemma EligibleIs(cs: seq<Candidate>, ids: seq<string>)
    ensures AllEligible(cs, ids) <==> forall k :: 0 <= k < |ids| ==> IsAccepted(cs, ids[k])
  {
    forall k | 0 <= k < |ids| ensures Eligible(cs, ids[k]) <==> IsAccepted(cs, ids[k]) {}
  }

  lemma MayWinIff(cs: seq<Candidate>, ids: seq<string>)
    requires UniqueIds(cs)
    ensures MayWin(cs, ids) <==> AllEligible(cs, ids) && !TwoOf(cs, ids, MixedBit) && !TwoOf(cs, ids, KvCache)
  {
    EligibleIs(cs, ids);
    if AllEligible(cs, ids) { KindTwice(cs, ids); }
  }

  lemma WinnersDecide(r: Record, input: Input)
    requires UniqueIds(r.candidates) && r.currentStage.SelectWinners?
    ensures Decides(r, input) <==> Enough(r, input)
    ensures Decide(r, input.specs, input.document) == Ok(Waiting) <==> input.document.None? && Waits(r)
  {
    var decided, cs := Decide(r, input.specs, input.document), r.candidates;
    assert decided == DecideWinners(r, input.document);
    assert Decides(r, input) <==> decided.Ok? && decided.value.Calls?;
    CountAccepted(cs);
    if input.document.None? {
      if !SeveralAccepted(cs) { OneDecides(r); }
      MayWinIff(cs, AcceptedIds(cs));
    } else if input.document.value.selected.Some? {
      MayWinIff(cs, input.document.value.selected.value);
    }
  }

  lemma PreparedIff(specs: Specs)
    ensures PreparedApart(specs) <==> PreparedFresh(specs)
  {
    var arms, n := specs.mixed + specs.prepared, |specs.mixed|;
    if PreparedApart(specs) {
      forall i, a | 0 <= i < |specs.prepared| && a in specs.mixed + specs.prepared[..i]
        ensures a.id != specs.prepared[i].id
      {
        var k :| 0 <= k < n + i && (specs.mixed + specs.prepared[..i])[k] == a;
        assert arms[k] == a && arms[n + i] == specs.prepared[i];
        assert IdsApart(arms, k, n + i);
      }
    }
    if PreparedFresh(specs) {
      forall i, j | 0 <= i < j < |arms| && j >= n ensures IdsApart(arms, i, j) {
        assert arms[j] == specs.prepared[j - n];
        assert (specs.mixed + specs.prepared[..j - n])[i] == arms[i];
        assert arms[i] in specs.mixed + specs.prepared[..j - n];
      }
    }
  }

  lemma PlanDecidesIff(r: Record, input: Input)
    requires r.currentStage.PlanCandidates?
    ensures Decides(r, input) <==> Enough(r, input)
    ensures Decide(r, input.specs, input.document) != Ok(Waiting)
  {
    var decided := Decide(r, input.specs, input.document);
    assert Decides(r, input) <==> decided.Ok? && decided.value.Calls?;
    if input.specs.Some? { PreparedIff(input.specs.value); }
  }

  /** The control plane decides exactly when it has been given enough, and waits exactly for
      the documents that it waits for; all else is refused. */
  lemma DecidesIff(r: Record, input: Input)
    requires UniqueIds(r.candidates) && RunningValid(r)
    ensures Decides(r, input) <==> Enough(r, input)
    ensures Decide(r, input.specs, input.document) == Ok(Waiting) <==> input.document.None? && Waits(r)
    ensures Decide(r, input.specs, input.document) == Ok(AlreadyComplete) <==> r.currentStage.Complete?
  {
    var decided := Decide(r, input.specs, input.document);
    assert Decides(r, input) <==> decided.Ok? && decided.value.Calls?;
    match r.currentStage
    case PlanCandidates => PlanDecidesIff(r, input);
    case Run(_) => ResultDecides(r, input);
    case SelectWinners => WinnersDecide(r, input);
    case _ =>
  }

  /******* What it decides *******/

  /** The planned candidate of an arm, which cites all captured baselines. */
  predicate FromArm(r: Record, c: Candidate, prefix: string, s: Strategy, arm: Arm) {
    && c == Candidate(prefix + arm.id, s, c.baselineIds, Some(arm.spec), Planned, [], [], false, Some(arm.fingerprint))
    && |c.baselineIds| == |r.sharedBaselines|
    && forall i :: 0 <= i < |r.sharedBaselines| ==> c.baselineIds[i] == r.sharedBaselines[i].id
  }

  predicate FromArms(r: Record, cs: seq<Candidate>, prefix: string, s: Strategy, arms: seq<Arm>) {
    if s in r.config.strategyOrder
    then |cs| == |arms| && forall i :: 0 <= i < |cs| ==> FromArm(r, cs[i], prefix, s, arms[i])
    else cs == []
  }

  /** The planned candidates: the mixed-bit ones, the prepared ones, the shapes, the KV-cache
      ones, each only if its strategy is configured. */
  ghost predicate PlanList(r: Record, specs: Specs, cs: seq<Candidate>) {
    exists mixed, shape, kv :: cs == mixed + shape + kv
      && FromArms(r, mixed, "mixed-", MixedBit, specs.mixed + specs.prepared)
      && FromArms(r, shape, "shape-", ShapeKernel, specs.shape)
      && FromArms(r, kv, "kv-", KvCache, specs.kv)
  }

  /** The result that a document makes of the running candidate. */
  predicate ResultOf(d: Document, call: Call) {
    && call.CallRecord? && call.id == d.candidateId
    && if d.skip then Says(call.verdict, Skipped) && call.artifacts == d.evidence && call.reasons == d.reasons
       else
         && (d.gate.outcome.Accept? ==>
               && d.gate.quality.Some?
               && Says(call.verdict, if d.gate.quality.value.passed then ExperimentalAccepted else Rejected)
               && call.artifacts == [d.gate.performance, d.gate.quality.value.artifact, d.gate.report]
               && call.reasons == d.gate.performanceReasons + d.gate.quality.value.reasons + d.reasons)
         && (!d.gate.outcome.Accept? ==>
               && Says(call.verdict, if d.gate.outcome.Reject? then Rejected else Inconclusive)
               && call.artifacts == [d.gate.performance, d.gate.report]
               && call.reasons == d.gate.performanceReasons + d.reasons)
  }

  /** The call passes on what the document says for the stage, and nothing else. */
  ghost predicate PassesOn(r: Record, input: Input, call: Call) {
    var doc := input.document;
    match r.currentStage
    case CreateCampaign => call == CallAdvance(AdvanceInput([], [], [], None, None, None, None))
    case InspectTarget =>
      doc.Some? && call == CallAdvance(AdvanceInput(doc.value.evidence, [], [], None, None, None, None))
    case CaptureSharedBaselines =>
      doc.Some? && call == CallAdvance(AdvanceInput([], doc.value.baselines, [], None, None, None, None))
    case PlanCandidates =>
      && input.specs.Some? && call.CallAdvance?
      && call.input == AdvanceInput([input.specs.value.plan], [], call.input.candidates, None, None, None, None)
      && PlanList(r, input.specs.value, call.input.candidates)
    case Run(_) =>
      if exists k :: 0 <= k < |r.candidates| && IsRunning(r, k) then doc.Some? && ResultOf(doc.value, call)
      else call == CallAdvance(AdvanceInput([], [], [], None, None, None, None))
    case SelectWinners =>
      && call.CallAdvance? && call.input.selected.Some?
      && call.input == AdvanceInput([], [], [], call.input.selected, None, None, None)
      && (if doc.Some? then call.input.selected == doc.value.selected
          else forall id :: id in call.input.selected.value <==> IsAccepted(r.candidates, id))
    case BuildCompatibleCombination =>
      && doc.Some?
      && call == CallAdvance(AdvanceInput(doc.value.evidence, [], [], None, doc.value.compatibility,
                                          doc.value.combination, None))
    case FinalValidation =>
      && doc.Some?
      && call == CallAdvance(AdvanceInput(doc.value.evidence, [], [], None, None, doc.value.combination,
                                          doc.value.finalStatus))
    case Complete => false
  }

  lemma SavedFromArms(r: Record, prefix: string, s: Strategy, arms: seq<Arm>)
    requires prefix == (match s case MixedBit => "mixed-" case ShapeKernel => "shape-" case KvCache => "kv-")
    ensures FromArms(r, SavedCandidates(r, s, arms), prefix, s, arms)
  {}

  lemma PlanPassedOn(r: Record, input: Input, call: Call)
    requires r.currentStage.PlanCandidates? && Decided(r, input, call)
    ensures PassesOn(r, input, call)
  {
    var specs := input.specs.value;
    SavedFromArms(r, "mixed-", MixedBit, specs.mixed + specs.prepared);
    SavedFromArms(r, "shape-", ShapeKernel, specs.shape);
    SavedFromArms(r, "kv-", KvCache, specs.kv);
    assert PlanList(r, specs, Materialize(r, input.specs).value.candidates);
  }

  lemma ResultPassedOn(r: Record, input: Input, call: Call)
    requires r.currentStage.Run? && Decided(r, input, call)
    ensures PassesOn(r, input, call)
  {
    var k := RunningIndex(r.candidates);
    if k < |r.candidates| { assert IsRunning(r, k); }
  }

  lemma WinnersPassedOn(r: Record, input: Input, call: Call)
    requires r.currentStage.SelectWinners? && Decided(r, input, call)
    ensures PassesOn(r, input, call)
  {
    forall id ensures id in AcceptedIds(r.candidates) <==> IsAccepted(r.candidates, id) {
      AcceptedIdsAre(r.candidates, id);
    }
  }

  /** Whatever the control plane decides passes on the document of the stage, the specs of
      the adapters, or the verdict that the document warrants. */
  lemma DecidedPassesOn(r: Record, input: Input, call: Call)
    requires Decided(r, input, call)
    ensures PassesOn(r, input, call)
  {
    match r.currentStage
    case PlanCandidates => PlanPassedOn(r, input, call);
    case Run(_) => ResultPassedOn(r, input, call);
    case SelectWinners => WinnersPassedOn(r, input, call);
    case _ =>
  }
}
