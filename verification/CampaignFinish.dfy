/** Every campaign that the control plane drives can be driven to its end. */
module CampaignFinish {
  import opened Wrappers
  import opened CampaignModels
  import opened CampaignEngine
  import opened CampaignRuns
  import opened CampaignProgress
  import opened CampaignPlans
  import opened CampaignControl

  /** Skipping what runs, selecting nobody and rejecting the result. */
  function GivingUp(r: Record): Input {
    var k := RunningIndex(r.candidates);
    var id := if k < |r.candidates| then r.candidates[k].id else "";
    var gate := GateInput(NoDecision, PROOF, [], None, PROOF);
    Input(None, Some(Document([PROOF], [], id, true, ["skipped"], gate, Some([]), Some(NO_WINNER_COMPATIBILITY),
                              Some(NO_WINNER_COMBINATION), Some(StatusRejected))))
  }

  /** With that the control plane decides a call at every stage after the planning. */
  function NextCall(r: Record): (call: Call)
    requires PlanMade(r) && !r.currentStage.Complete?
    ensures Decided(r, GivingUp(r), call)
  {
    Decide(r, None, GivingUp(r).document).value.call
  }

  lemma LateCallAccepted(h: Fingerprinter, r: Record)
    requires Inv(r) && PlanMade(r) && !r.currentStage.Run? && !r.currentStage.Complete?
    ensures CallValid(NextCall(r)) && Step(h, r, NextCall(r)).Ok?
  {
    match r.currentStage
    case SelectWinners => WinnersMove(r);
    case BuildCompatibleCombination => CombinationMoves(r);
    case FinalValidation => FinalMoves(r);
  }

  lemma NextCallAccepted(h: Fingerprinter, config: Config, platform: Option<Artifact>,
                         states: seq<Record>, calls: seq<Call>, inputs: seq<Input>)
    requires IsControlled(h, config, platform, states, calls, inputs)
    requires PlanMade(states[|calls|]) && !states[|calls|].currentStage.Complete?
    ensures CallValid(NextCall(states[|calls|])) && Step(h, states[|calls|], NextCall(states[|calls|])).Ok?
  {
    var r := states[|calls|];
    RunInv(h, config, platform, states, calls, |calls|);
    if r.currentStage.Run? {
      RunDecisionAccepted(h, config, platform, states, calls, inputs, |calls|, GivingUp(r), NextCall(r));
    } else {
      LateCallAccepted(h, r);
    }
  }

  lemma ExtendControlled(h: Fingerprinter, config: Config, platform: Option<Artifact>,
                         states: seq<Record>, calls: seq<Call>, inputs: seq<Input>, call: Call, input: Input)
    requires IsControlled(h, config, platform, states, calls, inputs)
    requires Decided(states[|calls|], input, call) && CallValid(call) && Step(h, states[|calls|], call).Ok?
    ensures IsControlled(h, config, platform, states + [Step(h, states[|calls|], call).value],
                         calls + [call], inputs + [input])
  {
    var next := Step(h, states[|calls|], call).value;
    ExtendRun(h, config, platform, states, calls, call, next);
    forall i | 0 <= i < |calls + [call]|
      ensures DecidedAt(states + [next], calls + [call], inputs + [input], i)
    {
      if i < |calls| { assert DecidedAt(states, calls, inputs, i); }
    }
  }

  /** One more call, which brings the end nearer. */
  lemma GoOnce(h: Fingerprinter, config: Config, platform: Option<Artifact>,
               states: seq<Record>, calls: seq<Call>, inputs: seq<Input>)
    returns (next: Record, call: Call, input: Input)
    requires IsControlled(h, config, platform, states, calls, inputs)
    requires PlanMade(states[|calls|]) && !states[|calls|].currentStage.Complete?
    ensures IsControlled(h, config, platform, states + [next], calls + [call], inputs + [input]) && PlanMade(next)
    ensures var r := states[|calls|];
            StagesLeft(next) < StagesLeft(r)
            || (StagesLeft(next) == StagesLeft(r) && UnfinishedCount(next) < UnfinishedCount(r))
  {
    var r := states[|calls|];
    call, input := NextCall(r), GivingUp(r);
    NextCallAccepted(h, config, platform, states, calls, inputs);
    next := Step(h, r, call).value;
    RunInv(h, config, platform, states, calls, |calls|);
    StepDecreases(h, r, call);
    StepContents(h, r, call);
    ExtendControlled(h, config, platform, states, calls, inputs, call, input);
  }

  /** From the plan on, every controlled run extends to one that is complete. */
  lemma {:induction false} Finish(h: Fingerprinter, config: Config, platform: Option<Artifact>,
                                  states: seq<Record>, calls: seq<Call>, inputs: seq<Input>)
    returns (allStates: seq<Record>, allCalls: seq<Call>, allInputs: seq<Input>)
    requires IsControlled(h, config, platform, states, calls, inputs) && PlanMade(states[|calls|])
    ensures IsControlled(h, config, platform, allStates, allCalls, allInputs)
    ensures states <= allStates && calls <= allCalls && inputs <= allInputs
    ensures allStates[|allCalls|].currentStage.Complete?
    decreases StagesLeft(states[|calls|]), UnfinishedCount(states[|calls|])
  {
    if states[|calls|].currentStage.Complete? {
      return states, calls, inputs;
    }
    var next, call, input := GoOnce(h, config, platform, states, calls, inputs);
    allStates, allCalls, allInputs :=
      Finish(h, config, platform, states + [next], calls + [call], inputs + [input]);
  }

  lemma ControlledPrefix(h: Fingerprinter, config: Config, platform: Option<Artifact>,
                         states: seq<Record>, calls: seq<Call>, inputs: seq<Input>, n: nat)
    requires IsControlled(h, config, platform, states, calls, inputs) && n < |states|
    ensures IsControlled(h, config, platform, states[..n + 1], calls[..n], inputs[..n])
  {
    var firstStates, firstCalls, firstInputs := states[..n + 1], calls[..n], inputs[..n];
    forall i | 0 <= i < n ensures StepAt(h, firstStates, firstCalls, i) {
      assert StepAt(h, states, calls, i);
    }
    forall i | 0 <= i < n ensures DecidedAt(firstStates, firstCalls, firstInputs, i) {
      assert DecidedAt(states, calls, inputs, i);
    }
  }

  /** So from every record with a plan, the control plane itself can still decide the
      calls that complete the campaign. */
  lemma ControlledCompletes(h: Fingerprinter, config: Config, platform: Option<Artifact>,
                            states: seq<Record>, calls: seq<Call>, inputs: seq<Input>, n: nat)
    returns (allStates: seq<Record>, allCalls: seq<Call>, allInputs: seq<Input>)
    requires IsControlled(h, config, platform, states, calls, inputs) && n < |states| && PlanMade(states[n])
    ensures IsControlled(h, config, platform, allStates, allCalls, allInputs)
    ensures states[..n + 1] <= allStates && calls[..n] <= allCalls && inputs[..n] <= allInputs
    ensures allStates[|allCalls|].currentStage.Complete?
  {
    ControlledPrefix(h, config, platform, states, calls, inputs, n);
    allStates, allCalls, allInputs := Finish(h, config, platform, states[..n + 1], calls[..n], inputs[..n]);
  }
}
