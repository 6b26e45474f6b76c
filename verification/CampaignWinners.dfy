/** Which candidates can win a campaign, and what its final status says. */
module CampaignWinners {
  import opened Wrappers
  import opened CampaignModels
  import opened ControlPolicy
  import opened CampaignEngine
  import opened CampaignLedger
  import opened CampaignRuns
  import opened CampaignProgress

  /******* Selecting *******/

  predicate IsAccepted(cs: seq<Candidate>, id: string) {
    exists i :: 0 <= i < |cs| && cs[i].id == id && cs[i].disposition.ExperimentalAccepted?
  }

  /** Distinct ids of candidates that were experimentally accepted. */
  predicate Electable(cs: seq<Candidate>, ids: seq<string>) {
    Unique(ids) && forall k :: 0 <= k < |ids| ==> IsAccepted(cs, ids[k])
  }

  predicate HasAcceptedAttempt(l: Ledger, id: string) {
    exists a :: a in l.attempts && AcceptedAttempt(a, id)
  }

  lemma AttemptNames(r: Record, a: Attempt, id: string)
    requires OneToOne(r) && a in r.ledger.attempts && AcceptedAttempt(a, id)
    ensures IsAccepted(r.candidates, id)
  {
    var i :| 0 <= i < |r.ledger.attempts| && r.ledger.attempts[i] == a;
    assert HasCandidate(r.ledger.attempts[i], r.candidates);
  }

  lemma CandidateTried(r: Record, id: string)
    requires OneToOne(r) && IsAccepted(r.candidates, id)
    ensures HasAcceptedAttempt(r.ledger, id)
  {
    var k :| 0 <= k < |r.candidates| && r.candidates[k].id == id && r.candidates[k].disposition.ExperimentalAccepted?;
    var i :| 0 <= i < |r.ledger.attempts| && MirrorsCandidate(r.ledger.attempts[i], r.candidates[k]);
    assert r.ledger.attempts[i] in r.ledger.attempts && AcceptedAttempt(r.ledger.attempts[i], id);
  }

  /** The accepted attempts of a ledger that mirrors its candidates are those of the
      accepted candidates. */
  lemma AcceptedAttemptIff(r: Record, id: string)
    requires OneToOne(r)
    ensures HasAcceptedAttempt(r.ledger, id) <==> IsAccepted(r.candidates, id)
  {
    if HasAcceptedAttempt(r.ledger, id) {
      var a :| a in r.ledger.attempts && AcceptedAttempt(a, id);
      AttemptNames(r, a, id);
    }
    if IsAccepted(r.candidates, id) { CandidateTried(r, id); }
  }

  lemma StackIffAccepted(r: Record, ids: seq<string>)
    requires OneToOne(r)
    ensures SelectStack(r.ledger, ids).Ok? <==> forall k :: 0 <= k < |ids| ==> IsAccepted(r.candidates, ids[k])
  {
    SelectStackMeaning(r.ledger, ids);
    forall k | 0 <= k < |ids|
      ensures HasAcceptedAttempt(r.ledger, ids[k]) <==> IsAccepted(r.candidates, ids[k])
    {
      AcceptedAttemptIff(r, ids[k]);
    }
  }

  /** What selecting `ids` makes of a record. */
  predicate Elected(r: Record, next: Record, ids: seq<string>) {
    && next.selectedIds == ids && next.currentStage.BuildCompatibleCombination?
    && |next.candidates| == |r.candidates|
    && (forall i :: 0 <= i < |r.candidates| ==>
          next.candidates[i] == r.candidates[i].(winner := next.candidates[i].winner)
          && (next.candidates[i].winner <==> r.candidates[i].id in ids))
  }

  function ElectionOf(ids: seq<string>): AdvanceInput {
    NO_INPUT.(selected := Some(ids))
  }

  function ElectionUpdates(r: Record, ids: seq<string>): Updates
    requires SelectOptimizationStack(r.ledger, ids).Ok?
  {
    NO_UPDATES.(candidates := Some(MarkWinners(r.candidates, ids)), selectedIds := Some(ids),
                ledger := Some(SelectOptimizationStack(r.ledger, ids).value),
                stage := Some(BuildCompatibleCombination),
                completions := Some(r.completions + [Completion(SelectWinners, [])]))
  }

  lemma ElectionIs(r: Record, ids: seq<string>)
    requires r.status.Active? && r.currentStage.SelectWinners?
    ensures Advance(r, ElectionOf(ids)).Ok? ==> SelectStack(r.ledger, ids).Ok?
    ensures SelectStack(r.ledger, ids).Ok? ==>
              Advance(r, ElectionOf(ids)) == UpdatedRecord(r, ElectionUpdates(r, ids))
  {}

  lemma ElectionValid(r: Record, ids: seq<string>)
    requires Inv(r) && r.currentStage.SelectWinners? && SelectStack(r.ledger, ids).Ok?
    requires Electable(r.candidates, ids)
    ensures UpdatedRecord(r, ElectionUpdates(r, ids)).Ok?
  {
    MirrorIsValid(r);
    var next := Merge(r, ElectionUpdates(r, ids));
    SameCandidatesValid(r, next);
    ElectionSelects(r, next, ids);
  }

  lemma ElectionSelects(r: Record, next: Record, ids: seq<string>)
    requires UniqueIds(r.candidates) && Electable(r.candidates, ids)
    requires next.selectedIds == ids && next.candidates == MarkWinners(r.candidates, ids)
    ensures SelectionValid(next)
  {
    forall k | 0 <= k < |ids| ensures KnownCandidate(next, next.selectedIds[k]) {
      assert IsAccepted(r.candidates, ids[k]);
      var i :| 0 <= i < |r.candidates| && r.candidates[i].id == ids[k];
      assert next.candidates[i].id == ids[k];
    }
    forall i | 0 <= i < |next.candidates|
      ensures next.candidates[i].winner == (next.candidates[i].id in next.selectedIds)
      ensures next.candidates[i].winner ==> next.candidates[i].disposition.ExperimentalAccepted?
    {
      var c := r.candidates[i];
      assert next.candidates[i] == c.(winner := c.id in ids);
      OnlyCandidate(r.candidates, i);
      if c.id in ids { var k :| 0 <= k < |ids| && ids[k] == c.id; }
    }
  }

  lemma OnlyCandidate(cs: seq<Candidate>, i: nat)
    requires UniqueIds(cs) && i < |cs|
    ensures IsAccepted(cs, cs[i].id) <==> cs[i].disposition.ExperimentalAccepted?
  {
    if j :| 0 <= j < |cs| && cs[j].id == cs[i].id && cs[j].disposition.ExperimentalAccepted? {
      assert i == j;
    }
  }

  /** In every run, at the winner stage, the engine accepts exactly the selections of
      distinct, experimentally accepted candidates, and marks just these as winners. */
  lemma ElectsAccepted(h: Fingerprinter, config: Config, platform: Option<Artifact>,
                       states: seq<Record>, calls: seq<Call>, n: nat, ids: seq<string>)
    requires IsRun(h, config, platform, states, calls) && n < |states| && states[n].currentStage.SelectWinners?
    ensures Advance(states[n], ElectionOf(ids)).Ok? <==> Electable(states[n].candidates, ids)
    ensures Advance(states[n], ElectionOf(ids)).Ok? ==>
              Elected(states[n], Advance(states[n], ElectionOf(ids)).value, ids)
  {
    RunInv(h, config, platform, states, calls, n);
    ElectsIff(states[n], ids);
  }

  lemma ElectsIff(r: Record, ids: seq<string>)
    requires Inv(r) && r.currentStage.SelectWinners?
    ensures Advance(r, ElectionOf(ids)).Ok? <==> Electable(r.candidates, ids)
    ensures Advance(r, ElectionOf(ids)).Ok? ==> Elected(r, Advance(r, ElectionOf(ids)).value, ids)
  {
    MirrorIsOneToOne(r);
    StackIffAccepted(r, ids);
    ElectionIs(r, ids);
    if Electable(r.candidates, ids) { ElectionValid(r, ids); }
  }

  /** The ids of the accepted candidates, in list order. */
  lemma {:induction false} AcceptedIdsAre(cs: seq<Candidate>, id: string)
    ensures id in AcceptedIds(cs) <==> IsAccepted(cs, id)
    ensures UniqueIds(cs) ==> Unique(AcceptedIds(cs))
  {
    if cs != [] {
      AcceptedIdsAre(cs[1..], id);
      if IsAccepted(cs[1..], id) {
        var i :| 0 <= i < |cs| - 1 && cs[1..][i].id == id && cs[1..][i].disposition.ExperimentalAccepted?;
        assert cs[i + 1] == cs[1..][i];
      }
      if i :| 0 < i < |cs| && cs[i].id == id && cs[i].disposition.ExperimentalAccepted? {
        assert cs[1..][i - 1] == cs[i];
      }
      AcceptedIdsAre(cs[1..], cs[0].id);
      assert UniqueIds(cs) ==> !IsAccepted(cs[1..], cs[0].id);
    }
  }

  /** Without a selection all accepted candidates are selected, and that never fails. */
  lemma ElectsAllByDefault(h: Fingerprinter, config: Config, platform: Option<Artifact>,
                           states: seq<Record>, calls: seq<Call>, n: nat)
    requires IsRun(h, config, platform, states, calls) && n < |states| && states[n].currentStage.SelectWinners?
    ensures Advance(states[n], NO_INPUT).Ok?
    ensures forall i :: 0 <= i < |states[n].candidates| ==>
              i < |Advance(states[n], NO_INPUT).value.candidates|
              && (Advance(states[n], NO_INPUT).value.candidates[i].winner
                  <==> states[n].candidates[i].disposition.ExperimentalAccepted?)
  {
    var r := states[n];
    RunInv(h, config, platform, states, calls, n);
    DefaultElects(r);
  }

  lemma DefaultElects(r: Record)
    requires Inv(r) && r.currentStage.SelectWinners?
    ensures Advance(r, NO_INPUT).Ok?
    ensures var next := Advance(r, NO_INPUT).value;
            |next.candidates| == |r.candidates|
            && forall i :: 0 <= i < |r.candidates| ==>
                 (next.candidates[i].winner <==> r.candidates[i].disposition.ExperimentalAccepted?)
  {
    var ids := AcceptedIds(r.candidates);
    forall id ensures id in ids <==> IsAccepted(r.candidates, id) { AcceptedIdsAre(r.candidates, id); }
    AcceptedIdsAre(r.candidates, "");
    assert forall k :: 0 <= k < |ids| ==> ids[k] in ids;
    ElectsIff(r, ids);
    DefaultIs(r);
    forall i | 0 <= i < |r.candidates|
      ensures r.candidates[i].id in ids <==> r.candidates[i].disposition.ExperimentalAccepted?
    {
      OnlyCandidate(r.candidates, i);
    }
  }

  lemma DefaultIs(r: Record)
    requires r.currentStage.SelectWinners?
    ensures Advance(r, NO_INPUT) == Advance(r, ElectionOf(AcceptedIds(r.candidates)))
  {
    var e := ElectionOf(AcceptedIds(r.candidates));
    assert WinnerUpdates(r, NO_INPUT) == WinnerUpdates(r, e);
    assert StageUpdates(r, NO_INPUT) == StageUpdates(r, e) && StageEvidence(r, NO_INPUT) == StageEvidence(r, e);
  }

  /******* Concluding *******/

  /** What the record says once winners are combined, and once the campaign is over. */
  predicate Concluded(r: Record) {
    match r.currentStage
    case FinalValidation =>
      && r.compatibility.Some? && !r.compatibility.value.disposition.Pending?
      && r.combination.Some?
      && (r.compatibility.value.disposition.Compatible? ==> r.combination.value.disposition.Built?)
    case Complete =>
      && r.compatibility.Some? && !r.compatibility.value.disposition.Pending? && r.combination.Some?
      && (r.status.StatusAccepted? <==> r.combination.value.disposition.Validated?)
      && (r.status.StatusRejected? <==> r.combination.value.disposition.CombinationRejected?)
      && (r.status.StatusInconclusive? <==> r.combination.value.disposition.CombinationInconclusive?)
      && (r.status.StatusAccepted? ==>
            && r.compatibility.value.disposition.Compatible?
            && r.combination.value.candidateIds != []
            && forall id :: id in r.combination.value.candidateIds ==>
                 exists i :: 0 <= i < |r.candidates| && r.candidates[i].id == id && r.candidates[i].winner
                             && r.candidates[i].disposition.ExperimentalAccepted?)
    case _ => true
  }

  lemma AdvanceConcludes(r: Record, input: AdvanceInput)
    requires RecordValid(r) && Concluded(r) && Advance(r, input).Ok?
    ensures Concluded(Advance(r, input).value)
  {
    var next := Advance(r, input).value;
    if r.currentStage.FinalValidation? && next.status.StatusAccepted? {
      forall id | id in next.combination.value.candidateIds
        ensures exists i :: 0 <= i < |next.candidates| && next.candidates[i].id == id && next.candidates[i].winner
                            && next.candidates[i].disposition.ExperimentalAccepted?
      {
        var k :| 0 <= k < |next.selectedIds| && next.selectedIds[k] == id;
        var i :| 0 <= i < |next.candidates| && next.candidates[i].id == next.selectedIds[k];
      }
    }
  }

  lemma RunConcludes(h: Fingerprinter, config: Config, platform: Option<Artifact>,
                     states: seq<Record>, calls: seq<Call>, i: nat)
    requires IsRun(h, config, platform, states, calls) && i < |calls| && Concluded(states[i])
    ensures Concluded(states[i + 1])
  {
    RunStep(h, config, platform, states, calls, i);
    if calls[i].CallAdvance? { AdvanceConcludes(states[i], calls[i].input); }
  }

  /** In every run a complete campaign was accepted, rejected or left open exactly as its
      final combination was; accepted only with a compatible combination of winners that
      were experimentally accepted. */
  lemma {:induction false} FinalStatusMeans(h: Fingerprinter, config: Config, platform: Option<Artifact>,
                                            states: seq<Record>, calls: seq<Call>, n: nat)
    requires IsRun(h, config, platform, states, calls) && n < |states|
    ensures Concluded(states[n])
  {
    if n > 0 {
      FinalStatusMeans(h, config, platform, states, calls, n - 1);
      RunConcludes(h, config, platform, states, calls, n - 1);
    }
  }

  /******* What a completed stage leaves *******/

  lemma {:induction false} EvidenceOf(cs: seq<Candidate>, s: Strategy, a: Artifact)
    ensures a in StrategyEvidence(cs, s)
       <==> exists i :: 0 <= i < |cs| && cs[i].strategy == s && cs[i].disposition.Terminal()
                        && a in cs[i].resultArtifacts
  {
    if cs != [] {
      EvidenceOf(cs[1..], s, a);
      if i :| 0 < i < |cs| && cs[i].strategy == s && cs[i].disposition.Terminal() && a in cs[i].resultArtifacts {
        assert cs[1..][i - 1] == cs[i];
      }
      if a in StrategyEvidence(cs[1..], s) {
        var i :| 0 <= i < |cs| - 1 && cs[1..][i].strategy == s && cs[1..][i].disposition.Terminal()
                 && a in cs[1..][i].resultArtifacts;
        assert cs[i + 1] == cs[1..][i];
      }
    }
  }

  /** An advance completes the current stage with the evidence passed and, at a strategy's
      stage, the result artifacts of its candidates, after capturing baselines with theirs. */
  lemma CompletedWith(r: Record, input: AdvanceInput, a: Artifact)
    requires Advance(r, input).Ok?
    ensures var cs := Advance(r, input).value.completions;
            && |cs| == |r.completions| + 1 && r.completions <= cs && cs[|r.completions|].stage == r.currentStage
            && (a in cs[|r.completions|].evidence <==>
                  || a in input.evidence
                  || (r.currentStage.CaptureSharedBaselines? &&
                        exists i :: 0 <= i < |input.baselines| && input.baselines[i].artifact == a)
                  || (r.currentStage.Run? &&
                        exists i :: 0 <= i < |r.candidates| && r.candidates[i].strategy == r.currentStage.strategy
                                    && r.candidates[i].disposition.Terminal() && a in r.candidates[i].resultArtifacts))
  {
    if r.currentStage.Run? { EvidenceOf(r.candidates, r.currentStage.strategy, a); }
    var artifacts := Map((b: Baseline) => b.artifact, input.baselines);
    assert a in artifacts <==> exists i :: 0 <= i < |input.baselines| && artifacts[i] == a;
  }
}
