/** The attempt ledger as a mirror of the candidates: it holds one attempt per
    finished, unskipped candidate, in strategy order and then in list order. */
module CampaignLedger {
  import opened Wrappers
  import opened CampaignModels
  import opened ControlPolicy
  import opened CampaignEngine
  import opened CampaignSerial

  /** What an attempt says, apart from its evidence. */
  datatype Trial = Trial(
    candidateId: string, strategy: Strategy, fingerprint: string, disposition: AttemptDisposition)

  function View(a: Attempt): Trial {
    Trial(a.candidateId, a.strategy, a.fingerprint, a.disposition)
  }

  predicate Tried(c: Candidate) {
    c.disposition.Terminal() && !c.disposition.Skipped? && c.fingerprint.Some?
  }

  /** The disposition of an attempt says what the disposition of its candidate says. */
  predicate SameVerdict(a: AttemptDisposition, d: Disposition) {
    && (a.AttemptAccepted? <==> d.ExperimentalAccepted?)
    && (a.AttemptRejected? <==> d.Rejected?)
    && (a.AttemptInconclusive? <==> d.Inconclusive?)
  }

  function Tally(d: Disposition): AttemptDisposition {
    if d.ExperimentalAccepted? then AttemptAccepted else if d.Rejected? then AttemptRejected
    else AttemptInconclusive
  }

  function TrialOf(c: Candidate): Trial
    requires Tried(c)
  {
    Trial(c.id, c.strategy, c.fingerprint.value, Tally(c.disposition))
  }

  function Contribution(c: Candidate, s: Strategy): seq<Trial> {
    if c.strategy == s && Tried(c) then [TrialOf(c)] else []
  }

  function Trials(cs: seq<Candidate>, s: Strategy): seq<Trial> {
    if cs == [] then [] else Contribution(cs[0], s) + Trials(cs[1..], s)
  }

  function AllTrials(cs: seq<Candidate>, order: seq<Strategy>): seq<Trial> {
    if order == [] then [] else Trials(cs, order[0]) + AllTrials(cs, order[1..])
  }

  /** `attempts` are the trials of `cs`, and every finished candidate has a fingerprint. */
  predicate Mirrors(attempts: seq<Attempt>, cs: seq<Candidate>, order: seq<Strategy>) {
    && Map(View, attempts) == AllTrials(cs, order)
    && (forall i :: 0 <= i < |cs| && cs[i].disposition.Terminal() ==> cs[i].fingerprint.Some?)
  }

  predicate Mirrored(r: Record) {
    Mirrors(r.ledger.attempts, r.candidates, r.config.strategyOrder)
  }

  predicate BeforeSelection(stage: Stage) {
    !stage.BuildCompatibleCombination? && !stage.FinalValidation? && !stage.Complete?
  }

  predicate EntryFor(l: Ledger, k: nat, id: string)
    requires k < |l.acceptedStack|
  {
    exists i :: 0 <= i < |l.attempts| && l.attempts[i].candidateId == id && l.attempts[i].disposition.AttemptAccepted?
                && Stacks(l.acceptedStack[k], l.attempts[i])
  }

  /** Nothing is selected before the winner stage ends; from then on the accepted
      stack has one entry per selected id, in the same order, copied from that
      id's accepted attempt. */
  predicate StackMirrored(r: Record) {
    if BeforeSelection(r.currentStage) then r.selectedIds == [] && r.ledger.acceptedStack == []
    else
      && |r.ledger.acceptedStack| == |r.selectedIds|
      && forall k :: 0 <= k < |r.selectedIds| ==> EntryFor(r.ledger, k, r.selectedIds[k])
  }

  lemma NewMirrored(config: Config, platform: Option<Artifact>)
    ensures Mirrored(New(config, platform)) && StackMirrored(New(config, platform))
  {
    NoTrials(config.strategyOrder);
  }

  lemma {:induction false} NoTrials(order: seq<Strategy>)
    ensures AllTrials([], order) == []
  {
    if order != [] { NoTrials(order[1..]); }
  }

  /******* How the expected trials change *******/

  lemma {:induction false} SameTrials(cs: seq<Candidate>, ds: seq<Candidate>, s: Strategy)
    requires |cs| == |ds|
    requires forall i :: 0 <= i < |cs| ==> Contribution(cs[i], s) == Contribution(ds[i], s)
    ensures Trials(cs, s) == Trials(ds, s)
  {
    if cs != [] { SameTrials(cs[1..], ds[1..], s); }
  }

  lemma {:induction false} SameAllTrials(cs: seq<Candidate>, ds: seq<Candidate>, order: seq<Strategy>)
    requires |cs| == |ds|
    requires forall i, s :: 0 <= i < |cs| ==> Contribution(cs[i], s) == Contribution(ds[i], s)
    ensures AllTrials(cs, order) == AllTrials(ds, order)
  {
    if order != [] {
      SameTrials(cs, ds, order[0]);
      SameAllTrials(cs, ds, order[1..]);
    }
  }

  lemma {:induction false} SilentTrials(cs: seq<Candidate>, s: Strategy)
    requires forall i :: 0 <= i < |cs| ==> Contribution(cs[i], s) == []
    ensures Trials(cs, s) == []
  {
    if cs != [] { SilentTrials(cs[1..], s); }
  }

  /** Behind the candidate that finishes, nothing has been tried yet, so its trial
      lands at the end. */
  lemma {:induction false} TrialsAppend(cs: seq<Candidate>, k: nat, c: Candidate, s: Strategy)
    requires k < |cs|
    requires forall i :: k <= i < |cs| ==> Contribution(cs[i], s) == []
    ensures Trials(cs[k := c], s) == Trials(cs, s) + Contribution(c, s)
  {
    var ds := cs[k := c];
    if k == 0 {
      assert ds[1..] == cs[1..];
      SilentTrials(cs[1..], s);
    } else {
      assert ds[1..] == cs[1..][k - 1 := c];
      TrialsAppend(cs[1..], k - 1, c, s);
    }
  }

  lemma {:induction false} AllTrialsAppend(cs: seq<Candidate>, k: nat, c: Candidate, order: seq<Strategy>, p: nat)
    requires k < |cs| && c.strategy == cs[k].strategy
    requires Unique(order) && p < |order| && order[p] == c.strategy
    requires forall i :: k <= i < |cs| ==> Contribution(cs[i], order[p]) == []
    requires forall i, q :: 0 <= i < |cs| && p < q < |order| ==> Contribution(cs[i], order[q]) == []
    ensures AllTrials(cs[k := c], order) == AllTrials(cs, order) + Contribution(c, c.strategy)
    decreases p
  {
    if p == 0 {
      FirstTrialsAppend(cs, k, c, order);
    } else {
      SameTrials(cs, cs[k := c], order[0]);
      AllTrialsAppend(cs, k, c, order[1..], p - 1);
    }
  }

  lemma FirstTrialsAppend(cs: seq<Candidate>, k: nat, c: Candidate, order: seq<Strategy>)
    requires k < |cs| && c.strategy == cs[k].strategy
    requires Unique(order) && order != [] && order[0] == c.strategy
    requires forall i :: k <= i < |cs| ==> Contribution(cs[i], order[0]) == []
    requires forall i, q :: 0 <= i < |cs| && 0 < q < |order| ==> Contribution(cs[i], order[q]) == []
    ensures AllTrials(cs[k := c], order) == AllTrials(cs, order) + Contribution(c, c.strategy)
  {
    TrialsAppend(cs, k, c, order[0]);
    LaterSilent(cs, order[1..]);
    LaterSilent(cs[k := c], order[1..]);
    assert Trials(cs, order[0]) + Contribution(c, c.strategy) + []
           == Trials(cs, order[0]) + [] + Contribution(c, c.strategy);
  }

  lemma {:induction false} LaterSilent(cs: seq<Candidate>, order: seq<Strategy>)
    requires forall i, q :: 0 <= i < |cs| && 0 <= q < |order| ==> Contribution(cs[i], order[q]) == []
    ensures AllTrials(cs, order) == []
  {
    if order != [] {
      SilentTrials(cs, order[0]);
      LaterSilent(cs, order[1..]);
    }
  }

  /** Activation only turns a planned candidate into a running one. */
  lemma ActivateShape(cs: seq<Candidate>, stage: Stage)
    ensures |Activate(cs, stage)| == |cs|
    ensures forall i :: 0 <= i < |cs| ==>
              || Activate(cs, stage)[i] == cs[i]
              || (cs[i].disposition.Planned? && Activate(cs, stage)[i] == cs[i].(disposition := Running))
  {}

  /******* One engine call keeps the mirror *******/

  lemma AdvanceMirrored(r: Record, input: AdvanceInput)
    requires Serial(r) && Mirrored(r) && Advance(r, input).Ok?
    ensures Mirrored(Advance(r, input).value)
  {
    var u, order := StageUpdates(r, input).value, r.config.strategyOrder;
    AdvanceKeepsAttempts(r, input);
    match r.currentStage {
      case PlanCandidates => PlanMirrors(r.ledger.attempts, r.candidates + input.candidates, order, u.stage.value);
      case Run(_) => ActivateMirrors(r.ledger.attempts, r.candidates, order, u.stage.value);
      case SelectWinners => MarkMirrors(r.ledger.attempts, r.candidates, order, Selection(r, input));
      case _ =>
    }
  }

  lemma AdvanceKeepsAttempts(r: Record, input: AdvanceInput)
    requires Advance(r, input).Ok?
    ensures Advance(r, input).value.config == r.config
    ensures Advance(r, input).value.ledger.attempts == r.ledger.attempts
  {}

  lemma ActivateMirrors(attempts: seq<Attempt>, cs: seq<Candidate>, order: seq<Strategy>, stage: Stage)
    requires Mirrors(attempts, cs, order)
    ensures Mirrors(attempts, Activate(cs, stage), order)
  {
    ActivateShape(cs, stage);
    SameAllTrials(cs, Activate(cs, stage), order);
  }

  lemma PlanMirrors(attempts: seq<Attempt>, planned: seq<Candidate>, order: seq<Strategy>, stage: Stage)
    requires Mirrors(attempts, [], order)
    requires forall i :: 0 <= i < |planned| ==> planned[i].disposition.Planned?
    ensures Mirrors(attempts, Activate(planned, stage), order)
  {
    ActivateShape(planned, stage);
    LaterSilent(Activate(planned, stage), order);
    NoTrials(order);
  }

  lemma MarkMirrors(attempts: seq<Attempt>, cs: seq<Candidate>, order: seq<Strategy>, ids: seq<string>)
    requires Mirrors(attempts, cs, order)
    ensures Mirrors(attempts, MarkWinners(cs, ids), order)
  {
    SameAllTrials(cs, MarkWinners(cs, ids), order);
  }

  lemma FinishMirrored(cs: seq<Candidate>, order: seq<Strategy>, k: nat, c: Candidate)
    requires Unique(order) && k < |cs| && cs[k].strategy == c.strategy && c.strategy in order
    requires cs[k].disposition.Running?
    requires OthersAt(cs, order, Position(order, c.strategy)) && OneAtATime(cs, c.strategy)
    ensures AllTrials(Activate(cs[k := c], Run(c.strategy)), order)
         == AllTrials(cs, order) + Contribution(c, c.strategy)
  {
    var s := c.strategy;
    var p := Position(order, s);
    forall i, q | 0 <= i < |cs| && p < q < |order| ensures Contribution(cs[i], order[q]) == [] {
      if cs[i].strategy == order[q] { assert Position(order, cs[i].strategy) == q; }
    }
    AllTrialsAppend(cs, k, c, order, p);
    var ds := cs[k := c];
    ActivateShape(ds, Run(s));
    SameAllTrials(ds, Activate(ds, Run(s)), order);
  }

  lemma RecordMirrored(h: Fingerprinter, r: Record, id: string, v: Verdict, artifacts: seq<Artifact>,
                       reasons: seq<string>)
    requires ConfigValid(r.config) && Serial(r) && Mirrored(r)
    requires RecordCandidateResult(h, r, id, v, artifacts, reasons).Ok?
    ensures Mirrored(RecordCandidateResult(h, r, id, v, artifacts, reasons).value)
  {
    var k := IndexOf(r.candidates, id);
    var c := Finished(h, r.candidates[k], v, artifacts, reasons);
    FinishMirrors(r.ledger.attempts, r.candidates, r.config.strategyOrder, k, c,
                  AttemptOf(h, r.candidates[k], c.disposition, artifacts));
  }

  /** A result adds one attempt, none when the candidate was skipped. */
  lemma FinishMirrors(attempts: seq<Attempt>, cs: seq<Candidate>, order: seq<Strategy>, k: nat, c: Candidate,
                      a: Attempt)
    requires Mirrors(attempts, cs, order)
    requires Unique(order) && k < |cs| && cs[k].strategy == c.strategy && c.strategy in order
    requires cs[k].disposition.Running? && c.fingerprint.Some? && c.disposition.Terminal()
    requires OthersAt(cs, order, Position(order, c.strategy)) && OneAtATime(cs, c.strategy)
    requires !c.disposition.Skipped? ==> View(a) == TrialOf(c)
    ensures Mirrors(if c.disposition.Skipped? then attempts else attempts + [a],
                    Activate(cs[k := c], Run(c.strategy)), order)
  {
    FinishMirrored(cs, order, k, c);
    ActivateShape(cs[k := c], Run(c.strategy));
    assert Map(View, attempts + [a]) == Map(View, attempts) + [View(a)];
  }

  lemma StepMirrored(h: Fingerprinter, r: Record, c: Call)
    requires ConfigValid(r.config) && Serial(r) && Mirrored(r)
    requires Step(h, r, c).Ok?
    ensures Mirrored(Step(h, r, c).value)
  {
    match c
    case CallAdvance(input) => AdvanceMirrored(r, input);
    case CallRecord(id, v, artifacts, reasons) => RecordMirrored(h, r, id, v, artifacts, reasons);
  }

  lemma StepStackMirrored(h: Fingerprinter, r: Record, c: Call)
    requires StackMirrored(r)
    requires Step(h, r, c).Ok?
    ensures StackMirrored(Step(h, r, c).value)
  {
    if c.CallAdvance? && r.currentStage.SelectWinners? {
      var selected := Selection(r, c.input);
      var next := Step(h, r, c).value;
      SelectStackMeaning(r.ledger, selected);
      forall k | 0 <= k < |selected| ensures EntryFor(next.ledger, k, selected[k]) {
        var i := AcceptedIndex(r.ledger, selected[k]);
        assert next.ledger.attempts[i] == r.ledger.attempts[i];
      }
    }
  }

  /******* What the mirror means *******/

  predicate MirrorsCandidate(a: Attempt, c: Candidate) {
    && Tried(c) && a.candidateId == c.id && a.strategy == c.strategy
    && c.fingerprint == Some(a.fingerprint) && SameVerdict(a.disposition, c.disposition)
  }

  lemma {:induction false} TrialsMembers(cs: seq<Candidate>, s: Strategy, t: Trial)
    ensures t in Trials(cs, s) <==>
              exists k :: 0 <= k < |cs| && cs[k].strategy == s && Tried(cs[k]) && TrialOf(cs[k]) == t
  {
    if cs != [] {
      TrialsMembers(cs[1..], s, t);
      if t in Trials(cs[1..], s) {
        var k :| 0 <= k < |cs[1..]| && cs[1..][k].strategy == s && Tried(cs[1..][k]) && TrialOf(cs[1..][k]) == t;
        assert cs[k + 1] == cs[1..][k];
      }
      if k :| 0 < k < |cs| && cs[k].strategy == s && Tried(cs[k]) && TrialOf(cs[k]) == t {
        assert cs[1..][k - 1] == cs[k];
      }
    }
  }

  lemma {:induction false} AllTrialsMembers(cs: seq<Candidate>, order: seq<Strategy>, t: Trial)
    ensures t in AllTrials(cs, order) <==>
              exists k :: 0 <= k < |cs| && cs[k].strategy in order && Tried(cs[k]) && TrialOf(cs[k]) == t
  {
    if order != [] {
      TrialsMembers(cs, order[0], t);
      AllTrialsMembers(cs, order[1..], t);
      assert order == [order[0]] + order[1..];
    }
  }

  lemma {:induction false} TrialsUnique(cs: seq<Candidate>, s: Strategy)
    requires UniqueIds(cs)
    ensures forall i, j :: 0 <= i < j < |Trials(cs, s)| ==>
                             Trials(cs, s)[i].candidateId != Trials(cs, s)[j].candidateId
  {
    if cs != [] {
      TrialsUnique(cs[1..], s);
      forall t | t in Trials(cs[1..], s) ensures t.candidateId != cs[0].id {
        TrialsMembers(cs[1..], s, t);
      }
    }
  }

  lemma {:induction false} AllTrialsUnique(cs: seq<Candidate>, order: seq<Strategy>)
    requires UniqueIds(cs) && Unique(order)
    ensures forall i, j :: 0 <= i < j < |AllTrials(cs, order)| ==>
                             AllTrials(cs, order)[i].candidateId != AllTrials(cs, order)[j].candidateId
  {
    if order != [] {
      var first, rest := Trials(cs, order[0]), AllTrials(cs, order[1..]);
      TrialsUnique(cs, order[0]);
      AllTrialsUnique(cs, order[1..]);
      forall t, u | t in first && u in rest ensures t.candidateId != u.candidateId {
        TrialsMembers(cs, order[0], t);
        AllTrialsMembers(cs, order[1..], u);
      }
      assert forall i :: 0 <= i < |first| ==> first[i] in first;
      assert forall i :: 0 <= i < |rest| ==> rest[i] in rest;
    }
  }

  /** Attempts and tried candidates correspond one to one: every attempt mirrors a
      candidate, every tried candidate has an attempt, and no candidate has two. */
  predicate Corresponds(attempts: seq<Attempt>, cs: seq<Candidate>) {
    && (forall i :: 0 <= i < |attempts| ==> HasCandidate(attempts[i], cs))
    && (forall k :: 0 <= k < |cs| && cs[k].disposition.Terminal() && !cs[k].disposition.Skipped? ==>
          exists i :: 0 <= i < |attempts| && MirrorsCandidate(attempts[i], cs[k]))
    && (forall i, j :: 0 <= i < j < |attempts| ==> attempts[i].candidateId != attempts[j].candidateId)
  }

  predicate HasCandidate(a: Attempt, cs: seq<Candidate>) {
    exists k :: 0 <= k < |cs| && MirrorsCandidate(a, cs[k])
  }

  predicate OneToOne(r: Record) {
    Corresponds(r.ledger.attempts, r.candidates)
  }

  lemma MirrorIsOneToOne(r: Record)
    requires ConfigValid(r.config) && CandidatesValid(r) && Mirrored(r)
    ensures OneToOne(r)
  {
    assert forall i :: 0 <= i < |r.candidates| ==> r.candidates[i].strategy in r.config.strategyOrder;
    MirrorsCorrespond(r.ledger.attempts, r.candidates, r.config.strategyOrder);
  }

  lemma MirrorsCorrespond(attempts: seq<Attempt>, cs: seq<Candidate>, order: seq<Strategy>)
    requires Mirrors(attempts, cs, order) && UniqueIds(cs) && Unique(order)
    requires forall i :: 0 <= i < |cs| ==> cs[i].strategy in order
    ensures Corresponds(attempts, cs)
  {
    var views := Map(View, attempts);
    forall i | 0 <= i < |attempts| ensures HasCandidate(attempts[i], cs) {
      assert views[i] in views;
      AllTrialsMembers(cs, order, views[i]);
      var k :| 0 <= k < |cs| && cs[k].strategy in order && Tried(cs[k]) && TrialOf(cs[k]) == views[i];
      assert MirrorsCandidate(attempts[i], cs[k]);
    }
    forall k | 0 <= k < |cs| && cs[k].disposition.Terminal() && !cs[k].disposition.Skipped?
      ensures exists i :: 0 <= i < |attempts| && MirrorsCandidate(attempts[i], cs[k])
    {
      assert Tried(cs[k]);
      AllTrialsMembers(cs, order, TrialOf(cs[k]));
      var i :| 0 <= i < |views| && views[i] == TrialOf(cs[k]);
      assert MirrorsCandidate(attempts[i], cs[k]);
    }
    AllTrialsUnique(cs, order);
    forall i, j | 0 <= i < j < |attempts| ensures attempts[i].candidateId != attempts[j].candidateId {
      assert views[i].candidateId != views[j].candidateId;
    }
  }

  lemma StackValid(l: Ledger, ids: seq<string>)
    requires forall i, j :: 0 <= i < j < |l.attempts| ==> l.attempts[i].fingerprint != l.attempts[j].fingerprint
    requires Unique(ids) && |l.acceptedStack| == |ids|
    requires forall k :: 0 <= k < |ids| ==> EntryFor(l, k, ids[k])
    ensures LedgerValid(l)
  {
    forall k, m | 0 <= k < m < |ids|
      ensures l.acceptedStack[k].fingerprint != l.acceptedStack[m].fingerprint
    {
      assert EntryFor(l, k, ids[k]) && EntryFor(l, m, ids[m]);
      var i :| 0 <= i < |l.attempts| && AcceptedAttempt(l.attempts[i], ids[k])
          && l.acceptedStack[k] == EntryOf(l.attempts[i]);
      var j :| 0 <= j < |l.attempts| && AcceptedAttempt(l.attempts[j], ids[m])
          && l.acceptedStack[m] == EntryOf(l.attempts[j]);
      assert i != j;
    }
    forall k | 0 <= k < |ids| ensures FingerprintAccepted(l, l.acceptedStack[k].fingerprint) {
      assert EntryFor(l, k, ids[k]);
      var i :| 0 <= i < |l.attempts| && AcceptedAttempt(l.attempts[i], ids[k])
          && l.acceptedStack[k] == EntryOf(l.attempts[i]);
      assert l.attempts[i] in l.attempts;
    }
  }

  /** The ledger validator, which `model_copy` skips, would accept every ledger of
      a record that mirrors its candidates. */
  lemma MirrorIsValid(r: Record)
    requires ConfigValid(r.config) && CandidatesValid(r) && SelectionValid(r)
    requires Mirrored(r) && StackMirrored(r)
    ensures LedgerValid(r.ledger)
  {
    MirrorIsOneToOne(r);
    StackValid(r.ledger, r.selectedIds);
  }
}
