/** What the documents passed to the control plane make of a campaign. */
module CampaignGates {
  import opened Wrappers
  import opened CampaignModels
  import opened CampaignEngine
  import opened CampaignRuns
  import opened CampaignProgress
  import opened CampaignControl
  import opened CampaignOutcomes

  /******* The document that decides a candidate *******/

  /** Performance was accepted, and quality was measured and is within the policy. */
  predicate PassedBoth(d: Document) {
    !d.skip && d.gate.outcome.Accept? && d.gate.quality.Some? && d.gate.quality.value.passed
  }

  predicate FailedOne(d: Document) {
    !d.skip && (d.gate.outcome.Reject?
                || (d.gate.outcome.Accept? && d.gate.quality.Some? && !d.gate.quality.value.passed))
  }

  /** The disposition that a document about a running candidate calls for. */
  predicate Warrants(doc: Document, d: Disposition) {
    match d
    case ExperimentalAccepted => PassedBoth(doc)
    case Rejected => FailedOne(doc)
    case Inconclusive => !doc.skip && doc.gate.outcome.NoDecision?
    case Skipped => doc.skip
    case _ => false
  }

  predicate RunningNamed(r: Record, id: string) {
    exists i :: 0 <= i < |r.candidates| && r.candidates[i].id == id && r.candidates[i].disposition.Running?
  }

  /** Among the first `n` inputs one was about candidate `id` while it ran, and called for `d`. */
  predicate Documented(states: seq<Record>, inputs: seq<Input>, n: nat, id: string, d: Disposition)
    requires n <= |inputs| < |states|
  {
    exists i :: 0 <= i < n && RunningNamed(states[i], id) && inputs[i].document.Some?
                && inputs[i].document.value.candidateId == id && Warrants(inputs[i].document.value, d)
  }

  lemma DecidedVerdict(r: Record, input: Input, call: Call, d: Disposition)
    requires Decided(r, input, call) && call.CallRecord? && d.Terminal()
    ensures input.document.Some? && input.document.value.candidateId == call.id && RunningNamed(r, call.id)
    ensures Says(call.verdict, d) <==> Warrants(input.document.value, d)
  {
    assert r.currentStage.Run?;
    assert r.candidates[RunningIndex(r.candidates)].id == call.id;
  }

  lemma DecidedRunning(r: Record, input: Input, call: Call, id: string)
    requires Decided(r, input, call) && RunningValid(r) && RunningNamed(r, id) && input.document.Some?
    ensures call.CallRecord? && call.id == input.document.value.candidateId
  {
    var i :| 0 <= i < |r.candidates| && r.candidates[i].disposition.Running?;
    assert r.currentStage.Run?;
  }

  lemma DecidedAtStep(h: Fingerprinter, config: Config, platform: Option<Artifact>,
                      states: seq<Record>, calls: seq<Call>, inputs: seq<Input>, i: nat)
    requires IsControlled(h, config, platform, states, calls, inputs) && i < |calls|
    ensures Decided(states[i], inputs[i], calls[i]) && RunningValid(states[i])
  {
    assert DecidedAt(states, calls, inputs, i);
    RunInv(h, config, platform, states, calls, i);
  }

  lemma ToldIffDocumented(h: Fingerprinter, config: Config, platform: Option<Artifact>,
                          states: seq<Record>, calls: seq<Call>, inputs: seq<Input>, n: nat, id: string, d: Disposition)
    requires IsControlled(h, config, platform, states, calls, inputs) && n < |states| && d.Terminal()
    ensures Told(calls, n, id, d) <==> Documented(states, inputs, n, id, d)
  {
    if Told(calls, n, id, d) {
      var i :| 0 <= i < n && calls[i].CallRecord? && calls[i].id == id && Says(calls[i].verdict, d);
      DecidedAtStep(h, config, platform, states, calls, inputs, i);
      DecidedVerdict(states[i], inputs[i], calls[i], d);
    }
    if Documented(states, inputs, n, id, d) {
      var i :| 0 <= i < n && RunningNamed(states[i], id) && inputs[i].document.Some?
               && inputs[i].document.value.candidateId == id && Warrants(inputs[i].document.value, d);
      DecidedAtStep(h, config, platform, states, calls, inputs, i);
      DecidedRunning(states[i], inputs[i], calls[i], id);
      DecidedVerdict(states[i], inputs[i], calls[i], d);
    }
  }

  /** In every record of every controlled run a candidate is accepted exactly when some
      document passed while it ran names it, does not skip it, has an accepted
      performance outcome and a quality result within the policy; it is rejected, left
      open or skipped exactly when such a document calls for that. */
  lemma DispositionIffDocumented(h: Fingerprinter, config: Config, platform: Option<Artifact>,
                                 states: seq<Record>, calls: seq<Call>, inputs: seq<Input>,
                                 n: nat, k: nat, d: Disposition)
    requires IsControlled(h, config, platform, states, calls, inputs)
    requires n < |states| && k < |states[n].candidates| && d.Terminal()
    ensures states[n].candidates[k].disposition == d
       <==> Documented(states, inputs, n, states[n].candidates[k].id, d)
  {
    DispositionsTold(h, config, platform, states, calls, n, k, d);
    ToldIffDocumented(h, config, platform, states, calls, inputs, n, states[n].candidates[k].id, d);
  }

  /** The evidence of a gate document is among the artifacts of its call. */
  lemma DecidedArtifacts(r: Record, input: Input, call: Call)
    requires Decided(r, input, call) && call.CallRecord? && PassedBoth(input.document.value)
    ensures var g := input.document.value.gate;
            g.performance in call.artifacts && g.quality.value.artifact in call.artifacts && g.report in call.artifacts
  {}

  /** Right after its result a candidate is finished and carries the artifacts. */
  lemma ArtifactsThere(h: Fingerprinter, r: Record, c: Call, next: Record, a: Artifact) returns (j: nat)
    requires c.CallRecord? && Step(h, r, c) == Ok(next) && a in c.artifacts
    ensures j < |next.candidates| && next.candidates[j].id == c.id && next.candidates[j].disposition.Terminal()
    ensures a in next.candidates[j].resultArtifacts
  {
    j := ResultRecorded(h, r, c.id, c.verdict, c.artifacts, c.reasons);
    ReportedTerminal(h, r, c);
  }

  lemma CallArtifacts(h: Fingerprinter, config: Config, platform: Option<Artifact>,
                      states: seq<Record>, calls: seq<Call>, i: nat, a: Artifact) returns (j: nat)
    requires IsRun(h, config, platform, states, calls) && i < |calls| && calls[i].CallRecord? && a in calls[i].artifacts
    ensures j < |states[i + 1].candidates| && states[i + 1].candidates[j].id == calls[i].id
    ensures states[i + 1].candidates[j].disposition.Terminal() && a in states[i + 1].candidates[j].resultArtifacts
  {
    RunStep(h, config, platform, states, calls, i);
    j := ArtifactsThere(h, states[i], calls[i], states[i + 1], a);
  }

  lemma ArtifactsStay(h: Fingerprinter, config: Config, platform: Option<Artifact>,
                      states: seq<Record>, calls: seq<Call>, i: nat, n: nat, k: nat, a: Artifact)
    requires IsRun(h, config, platform, states, calls) && i < n < |states| && k < |states[n].candidates|
    requires calls[i].CallRecord? && calls[i].id == states[n].candidates[k].id && a in calls[i].artifacts
    ensures a in states[n].candidates[k].resultArtifacts
  {
    var j := CallArtifacts(h, config, platform, states, calls, i, a);
    FinishedStays(h, config, platform, states, calls, i + 1, n, j);
    RunIds(h, config, platform, states, calls, n);
    SameId(states[n].candidates, j, k);
  }

  lemma RunIds(h: Fingerprinter, config: Config, platform: Option<Artifact>,
               states: seq<Record>, calls: seq<Call>, n: nat)
    requires IsRun(h, config, platform, states, calls) && n < |states|
    ensures UniqueIds(states[n].candidates)
  {
    RunInv(h, config, platform, states, calls, n);
  }

  lemma SameId(cs: seq<Candidate>, j: nat, k: nat)
    requires UniqueIds(cs) && j < |cs| && k < |cs| && cs[j].id == cs[k].id
    ensures j == k
  {}

  lemma ReportedTerminal(h: Fingerprinter, r: Record, c: Call)
    requires c.CallRecord? && Step(h, r, c).Ok?
    ensures TerminalVerdict(c.verdict)
  {}

  /** So every winner of a campaign that the control plane drives passed both gates, in one
      document, whose performance and quality evidence it carries. */
  lemma WinnersPassed(h: Fingerprinter, config: Config, platform: Option<Artifact>,
                      states: seq<Record>, calls: seq<Call>, inputs: seq<Input>, n: nat, k: nat) returns (i: nat)
    requires IsControlled(h, config, platform, states, calls, inputs)
    requires n < |states| && k < |states[n].candidates| && states[n].candidates[k].winner
    ensures i < n && inputs[i].document.Some?
    ensures var c, doc := states[n].candidates[k], inputs[i].document.value;
            && RunningNamed(states[i], c.id) && doc.candidateId == c.id && PassedBoth(doc)
            && doc.gate.performance in c.resultArtifacts && doc.gate.quality.value.artifact in c.resultArtifacts
  {
    RunInv(h, config, platform, states, calls, n);
    var id := states[n].candidates[k].id;
    DispositionIffDocumented(h, config, platform, states, calls, inputs, n, k, ExperimentalAccepted);
    i :| 0 <= i < n && RunningNamed(states[i], id) && inputs[i].document.Some?
         && inputs[i].document.value.candidateId == id && Warrants(inputs[i].document.value, ExperimentalAccepted);
    DecidedAtStep(h, config, platform, states, calls, inputs, i);
    DecidedRunning(states[i], inputs[i], calls[i], id);
    DecidedArtifacts(states[i], inputs[i], calls[i]);
    var g := inputs[i].document.value.gate;
    ArtifactsStay(h, config, platform, states, calls, i, n, k, g.performance);
    ArtifactsStay(h, config, platform, states, calls, i, n, k, g.quality.value.artifact);
  }

  /******* Several accepted candidates *******/

  /** Two different accepted candidates. */
  predicate SeveralAccepted(cs: seq<Candidate>) {
    exists i, j :: 0 <= i < j < |cs|
                   && cs[i].disposition.ExperimentalAccepted? && cs[j].disposition.ExperimentalAccepted?
  }

  lemma {:induction false} CountAccepted(cs: seq<Candidate>)
    ensures |AcceptedIds(cs)| > 1 <==> SeveralAccepted(cs)
    ensures AcceptedIds(cs) == [] <==> forall i :: 0 <= i < |cs| ==> !cs[i].disposition.ExperimentalAccepted?
  {
    if cs != [] {
      CountAccepted(cs[1..]);
      if SeveralAccepted(cs) {
        var i, j :| 0 <= i < j < |cs| && cs[i].disposition.ExperimentalAccepted?
                    && cs[j].disposition.ExperimentalAccepted?;
        assert cs[1..][j - 1] == cs[j];
        if i > 0 { assert cs[1..][i - 1] == cs[i]; }
      }
      if SeveralAccepted(cs[1..]) {
        var i, j :| 0 <= i < j < |cs| - 1 && cs[1..][i].disposition.ExperimentalAccepted?
                    && cs[1..][j].disposition.ExperimentalAccepted?;
        assert cs[i + 1] == cs[1..][i] && cs[j + 1] == cs[1..][j];
      }
      if AcceptedIds(cs[1..]) != [] {
        var i :| 0 <= i < |cs| - 1 && cs[1..][i].disposition.ExperimentalAccepted?;
        assert cs[i + 1] == cs[1..][i];
      }
    }
  }
}
