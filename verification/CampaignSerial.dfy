/** Serial execution: which candidates may be planned, running or finished at each stage. */
module CampaignSerial {
  import opened Wrappers
  import opened CampaignModels
  import opened CampaignEngine

  predicate Open(c: Candidate, s: Strategy) {
    c.strategy == s && !c.disposition.Terminal()
  }

  /** The first candidate of `s` that has not finished, or the length. */
  function FirstOpen(cs: seq<Candidate>, s: Strategy): (k: nat)
    ensures k <= |cs|
    ensures forall i :: 0 <= i < k ==> !Open(cs[i], s)
    ensures k < |cs| ==> Open(cs[k], s)
  {
    First(cs, c => Open(c, s))
  }

  /** In list order, the candidates of `s` are a finished prefix, then one that
      runs, then planned ones; none runs only when all have finished. */
  predicate OneAtATime(cs: seq<Candidate>, s: Strategy) {
    var k := FirstOpen(cs, s);
    && (k < |cs| ==> cs[k].disposition.Running?)
    && (forall i :: k < i < |cs| && cs[i].strategy == s ==> cs[i].disposition.Planned?)
  }

  /** At strategy position `p`: earlier strategies are finished, later ones only planned. */
  predicate OthersAt(cs: seq<Candidate>, order: seq<Strategy>, p: int) {
    && (forall i :: 0 <= i < |cs| && Position(order, cs[i].strategy) < p ==> cs[i].disposition.Terminal())
    && (forall i :: 0 <= i < |cs| && Position(order, cs[i].strategy) > p ==> cs[i].disposition.Planned?)
  }

  predicate AllTerminal(cs: seq<Candidate>) {
    forall i :: 0 <= i < |cs| ==> cs[i].disposition.Terminal()
  }

  predicate Serial(r: Record) {
    var order := r.config.strategyOrder;
    match r.currentStage
    case Run(s) => s in order && OthersAt(r.candidates, order, Position(order, s)) && OneAtATime(r.candidates, s)
    case SelectWinners => AllTerminal(r.candidates)
    case BuildCompatibleCombination => AllTerminal(r.candidates)
    case FinalValidation => AllTerminal(r.candidates)
    case Complete => AllTerminal(r.candidates)
    case _ => r.candidates == []
  }

  lemma NewSerial(config: Config, platform: Option<Artifact>)
    ensures Serial(New(config, platform))
  {}

  /** Starting the first planned candidate of `s` restores the one-at-a-time shape,
      provided nothing of `s` behind it has started. */
  lemma ActivateSerial(cs: seq<Candidate>, s: Strategy)
    requires !AnyRunning(cs)
    requires forall i :: FirstPlanned(cs, s) < i < |cs| && cs[i].strategy == s ==> cs[i].disposition.Planned?
    ensures OneAtATime(Activate(cs, Run(s)), s)
    ensures |Activate(cs, Run(s))| == |cs|
    ensures forall i :: 0 <= i < |cs| && cs[i].strategy != s ==> Activate(cs, Run(s))[i] == cs[i]
  {
    var k := FirstPlanned(cs, s);
    var next := Activate(cs, Run(s));
    forall i | 0 <= i < k ensures !Open(next[i], s) {
      assert next[i] == cs[i] && !IsPlanned(cs[i], s) && !cs[i].disposition.Running?;
    }
    if k < |cs| {
      assert FirstOpen(next, s) == k by { assert Open(next[k], s); }
    }
  }

  /** Entering strategy position `p` from the position before it. */
  lemma EnterStrategy(cs: seq<Candidate>, order: seq<Strategy>, p: nat)
    requires Unique(order) && p < |order|
    requires forall i :: 0 <= i < |cs| && Position(order, cs[i].strategy) < p ==> cs[i].disposition.Terminal()
    requires forall i :: 0 <= i < |cs| && Position(order, cs[i].strategy) >= p ==> cs[i].disposition.Planned?
    ensures Position(order, order[p]) == p
    ensures OthersAt(Activate(cs, Run(order[p])), order, p)
    ensures OneAtATime(Activate(cs, Run(order[p])), order[p])
  {
    assert Position(order, order[p]) == p;
    assert !AnyRunning(cs);
    ActivateSerial(cs, order[p]);
  }

  /** Completing a strategy keeps the schedule serial. */
  lemma StrategyAdvanceSerial(r: Record, u: Updates)
    requires ConfigValid(r.config) && CandidatesValid(r) && r.currentStage.Run? && Serial(r)
    requires StrategyUpdates(r, r.currentStage.strategy) == Ok(u)
    ensures Serial(Merge(r, u))
  {
    var order, s := r.config.strategyOrder, r.currentStage.strategy;
    var p := Position(order, s);
    var cs := r.candidates;
    forall i | 0 <= i < |cs| && Position(order, cs[i].strategy) <= p
      ensures cs[i].disposition.Terminal()
    {
      if Position(order, cs[i].strategy) == p { assert cs[i].strategy == s; }
    }
    if p + 1 < |order| {
      EnterStrategy(cs, order, p + 1);
    }
  }

  lemma PlanAdvanceSerial(r: Record, input: AdvanceInput, u: Updates)
    requires ConfigValid(r.config) && r.currentStage.PlanCandidates? && Serial(r)
    requires PlanUpdates(r, input) == Ok(u)
    ensures Serial(Merge(r, u))
  {
    EnterStrategy(r.candidates + input.candidates, r.config.strategyOrder, 0);
  }

  lemma AdvanceSerial(r: Record, input: AdvanceInput)
    requires ConfigValid(r.config) && CandidatesValid(r) && Serial(r)
    requires Advance(r, input).Ok?
    ensures Serial(Advance(r, input).value)
  {
    var u := StageUpdates(r, input).value;
    match r.currentStage
    case PlanCandidates => PlanAdvanceSerial(r, input, u);
    case Run(_) => StrategyAdvanceSerial(r, u);
    case _ =>
  }

  lemma FinishOthers(cs: seq<Candidate>, order: seq<Strategy>, s: Strategy, k: nat, c: Candidate)
    requires s in order && k < |cs| && cs[k].strategy == s && c.strategy == s
    requires OthersAt(cs, order, Position(order, s))
    ensures OthersAt(Activate(cs[k := c], Run(s)), order, Position(order, s))
  {
    OthersAlike(cs, cs[k := c], order, s);
    OthersAlike(cs[k := c], Activate(cs[k := c], Run(s)), order, s);
  }

  /** Changing only candidates of `s` leaves the others where they were. */
  lemma OthersAlike(cs: seq<Candidate>, ds: seq<Candidate>, order: seq<Strategy>, s: Strategy)
    requires |ds| == |cs| && OthersAt(cs, order, Position(order, s))
    requires forall i :: 0 <= i < |cs| ==> ds[i].strategy == cs[i].strategy && (cs[i].strategy != s ==> ds[i] == cs[i])
    ensures OthersAt(ds, order, Position(order, s))
  {}

  lemma FinishSerial(cs: seq<Candidate>, order: seq<Strategy>, s: Strategy, k: nat, c: Candidate)
    requires s in order && k < |cs| && cs[k].strategy == s && cs[k].disposition.Running?
    requires OthersAt(cs, order, Position(order, s)) && OneAtATime(cs, s)
    requires c.strategy == s && c.disposition.Terminal()
    ensures OthersAt(Activate(cs[k := c], Run(s)), order, Position(order, s))
    ensures OneAtATime(Activate(cs[k := c], Run(s)), s)
  {
    FinishOthers(cs, order, s, k, c);
    ActivateSerial(cs[k := c], s);
  }

  lemma RecordSerial(h: Fingerprinter, r: Record, id: string, v: Verdict, artifacts: seq<Artifact>,
                     reasons: seq<string>)
    requires CandidatesValid(r) && Serial(r)
    requires RecordCandidateResult(h, r, id, v, artifacts, reasons).Ok?
    ensures Serial(RecordCandidateResult(h, r, id, v, artifacts, reasons).value)
  {
    var s, k := r.currentStage.strategy, IndexOf(r.candidates, id);
    FinishSerial(r.candidates, r.config.strategyOrder, s, k,
                 Finished(h, r.candidates[k], v, artifacts, reasons));
  }

  /** One engine call keeps the schedule serial. */
  lemma StepSerial(h: Fingerprinter, r: Record, c: Call)
    requires ConfigValid(r.config) && CandidatesValid(r) && Serial(r)
    requires Step(h, r, c).Ok?
    ensures Serial(Step(h, r, c).value)
  {
    match c
    case CallAdvance(input) => AdvanceSerial(r, input);
    case CallRecord(id, v, artifacts, reasons) => RecordSerial(h, r, id, v, artifacts, reasons);
  }
}
