/** The checkpointed evaluation of a suite: requests fly in parallel, answers are
    collected in any order, the process may die between any two steps and be started
    again. */
module MixedEval {
  import opened Wrappers
  import opened MixedSelection

  datatype Reply = Reply(prediction: string, correct: bool)

  datatype Answer = Answer(id: Id, source: Source, reply: Reply)

  type Answers = map<Id, Answer>

  /** A suite, and what the server replies to each of its cases. */
  datatype Env = Env(suite: seq<Case>, evaluate: Case -> Reply)

  function AnswerTo(env: Env, c: Case): Answer {
    Answer(c.id, c.source, env.evaluate(c))
  }

  /** Evaluating the cases one after the other. */
  function Sequential(env: Env): (as_: seq<Answer>)
    ensures |as_| == |env.suite|
    ensures forall i :: 0 <= i < |env.suite| ==> as_[i] == AnswerTo(env, env.suite[i])
  {
    seq(|env.suite|, i requires 0 <= i < |env.suite| => AnswerTo(env, env.suite[i]))
  }

  datatype Process =
    | Stopped
    | Running(results: Answers, waiting: set<nat>, flying: set<nat>, unsaved: bool)

  /** What survives a crash is the checkpoint and the output. */
  datatype State = State(checkpoint: Answers, process: Process, output: Option<seq<Answer>>)

  datatype Event = Start | Request(i: nat) | Collect(i: nat) | Save | Crash | Finish

  /** The cases that a started process still has to evaluate. */
  function Pending(env: Env, done: Answers): set<nat> {
    set i: nat | i < |env.suite| && env.suite[i].id !in done
  }

  predicate AllThere(env: Env, results: Answers) {
    forall i :: 0 <= i < |env.suite| ==> env.suite[i].id in results
  }

  function InOrder(env: Env, results: Answers): (as_: seq<Answer>)
    requires AllThere(env, results)
    ensures |as_| == |env.suite|
    ensures forall i :: 0 <= i < |env.suite| ==> as_[i] == results[env.suite[i].id]
  {
    seq(|env.suite|, i requires 0 <= i < |env.suite| => results[env.suite[i].id])
  }

  const INITIAL: State := State(map[], Stopped, None)

  ghost predicate Step(env: Env, s: State, e: Event, s': State) {
    match e
    case Start =>
      // A process refuses to start once the output exists.
      && s.process.Stopped? && s.output.None?
      && s' == s.(process := Running(s.checkpoint, Pending(env, s.checkpoint), {}, false))
    case Request(i) =>
      && s.process.Running? && i in s.process.waiting
      && s' == s.(process := s.process.(waiting := s.process.waiting - {i}, flying := s.process.flying + {i}))
    case Collect(i) =>
      && s.process.Running? && !s.process.unsaved && i in s.process.flying && i < |env.suite|
      && var a := AnswerTo(env, env.suite[i]);
         s' == s.(process := s.process.(results := s.process.results[a.id := a],
                                        flying := s.process.flying - {i}, unsaved := true))
    case Save =>
      && s.process.Running? && s.process.unsaved
      && s' == s.(checkpoint := s.process.results, process := s.process.(unsaved := false))
    case Crash =>
      s' == s.(process := Stopped)
    case Finish =>
      && s.process.Running? && !s.process.unsaved && s.process.waiting == {} && s.process.flying == {}
      && AllThere(env, s.process.results)
      && s' == s.(process := Stopped, output := Some(InOrder(env, s.process.results)))
  }

  ghost predicate IsRun(env: Env, states: seq<State>, events: seq<Event>) {
    && |states| == |events| + 1 && states[0] == INITIAL
    && forall k :: 0 <= k < |events| ==> Step(env, states[k], events[k], states[k + 1])
  }

  /******* What every step keeps *******/

  /** Every answer is the answer to a case with its id. */
  ghost predicate Honest(env: Env, results: Answers) {
    forall id :: id in results ==> exists i :: IsAnswer(env, i, id, results[id])
  }

  /** `a` is the answer to case `i`, whose id is `id`. */
  predicate IsAnswer(env: Env, i: int, id: Id, a: Answer) {
    0 <= i < |env.suite| && env.suite[i].id == id && a == AnswerTo(env, env.suite[i])
  }

  /** The answers come from an honest dictionary, so equal ids have equal answers. */
  ghost predicate FromOne(env: Env, output: seq<Answer>) {
    exists results :: Honest(env, results) && AllThere(env, results) && output == InOrder(env, results)
  }

  /** Every id of `a` is one of `b`. */
  ghost predicate Within(a: Answers, b: Answers) {
    forall id :: id in a ==> id in b
  }

  /** Every case has an answer, waits, or flies, and none does two of the latter. */
  ghost predicate Covered(env: Env, results: Answers, waiting: set<nat>, flying: set<nat>) {
    && (forall i :: 0 <= i < |env.suite| ==> env.suite[i].id in results || i in waiting || i in flying)
    && (forall i :: i in waiting ==> i !in flying && i < |env.suite|)
    && (forall i :: i in flying ==> i < |env.suite|)
  }

  ghost predicate Inv(env: Env, s: State) {
    && Honest(env, s.checkpoint)
    && (s.process.Running? ==>
          && Honest(env, s.process.results) && Within(s.checkpoint, s.process.results)
          && Covered(env, s.process.results, s.process.waiting, s.process.flying))
    && (s.output.Some? ==> FromOne(env, s.output.value))
  }

  lemma HonestOne(env: Env, results: Answers, i: nat)
    requires Honest(env, results) && i < |env.suite|
    ensures Honest(env, results[env.suite[i].id := AnswerTo(env, env.suite[i])])
  {
    assert IsAnswer(env, i, env.suite[i].id, AnswerTo(env, env.suite[i]));
  }

  lemma StepInv(env: Env, s: State, e: Event, s': State)
    requires Inv(env, s) && Step(env, s, e, s')
    ensures Inv(env, s')
  {
    match e
    case Start =>
    case Request(i) =>
    case Collect(i) =>
      var c, p := env.suite[i], s.process;
      HonestOne(env, p.results, i);
    case Save =>
    case Crash =>
    case Finish =>
      var results := s.process.results;
      assert Honest(env, results) && AllThere(env, results) && s'.output.value == InOrder(env, results);
  }

  lemma {:induction false} RunInv(env: Env, states: seq<State>, events: seq<Event>, k: nat)
    requires IsRun(env, states, events) && k < |states|
    ensures Inv(env, states[k])
  {
    if k > 0 {
      RunInv(env, states, events, k - 1);
      StepInv(env, states[k - 1], events[k - 1], states[k]);
    }
  }

  /** A process that has nothing left to do has an answer for every case. */
  lemma NothingMissing(env: Env, s: State)
    requires Inv(env, s) && s.process.Running? && s.process.waiting == {} && s.process.flying == {}
    ensures AllThere(env, s.process.results)
  {}

  /******* The output *******/

  /** Cases that share an id have the same answer. */
  ghost predicate Coherent(env: Env) {
    forall i, j :: 0 <= i < j < |env.suite| && env.suite[i].id == env.suite[j].id ==>
      AnswerTo(env, env.suite[i]) == AnswerTo(env, env.suite[j])
  }

  lemma SequentialIfCoherent(env: Env, results: Answers)
    requires Honest(env, results) && AllThere(env, results) && Coherent(env)
    ensures InOrder(env, results) == Sequential(env)
  {
    forall k | 0 <= k < |env.suite| ensures results[env.suite[k].id] == AnswerTo(env, env.suite[k]) {
      var i :| IsAnswer(env, i, env.suite[k].id, results[env.suite[k].id]);
    }
  }

  lemma FromOneIff(env: Env, output: seq<Answer>)
    requires FromOne(env, output)
    ensures output == Sequential(env) <==> Coherent(env)
  {
    var results :| Honest(env, results) && AllThere(env, results) && output == InOrder(env, results);
    if Coherent(env) { SequentialIfCoherent(env, results); }
  }

  /** Whenever a run has an output, after any completion order and any number of crashes
      and resumes, it is the sequential evaluation if and only if no two cases that
      share an id have different answers. */
  lemma OutputIsSequentialIff(env: Env, states: seq<State>, events: seq<Event>, k: nat)
    requires IsRun(env, states, events) && k < |states| && states[k].output.Some?
    ensures states[k].output.value == Sequential(env) <==> Coherent(env)
  {
    RunInv(env, states, events, k);
    FromOneIff(env, states[k].output.value);
  }

  predicate UniqueIds(suite: seq<Case>) {
    forall i, j :: 0 <= i < j < |suite| ==> suite[i].id != suite[j].id
  }

  /** When ids are unique within each source, as in every selected suite, answers agree
      exactly when ids are unique in the whole suite: an answer names its source. */
  lemma CoherentIffUnique(env: Env)
    requires DistinctWithinSources(env.suite)
    ensures Coherent(env) <==> UniqueIds(env.suite)
  {
    forall i, j | 0 <= i < j < |env.suite| && env.suite[i].source != env.suite[j].source
      ensures AnswerTo(env, env.suite[i]) != AnswerTo(env, env.suite[j]) {}
  }

  /******* A loaded suite *******/

  /** No two sources share an id among their top cases. */
  ghost predicate TopIdsApart(files: map<Source, File>, digest: Digest)
    requires Complete(files)
  {
    forall c, d :: Top(files, digest, c) && Top(files, digest, d) && c.source != d.source ==> c.id != d.id
  }

  lemma UniqueIffTopApart(files: map<Source, File>, digest: Digest, suite: seq<Case>)
    requires Complete(files) && IsSuite(files, digest, suite)
    ensures UniqueIds(suite) <==> TopIdsApart(files, digest)
  {
    if UniqueIds(suite) {
      forall c, d | Top(files, digest, c) && Top(files, digest, d) && c.source != d.source ensures c.id != d.id {
        assert c in suite && d in suite;
        var i, j :| 0 <= i < |suite| && 0 <= j < |suite| && suite[i] == c && suite[j] == d;
      }
    } else {
      var i, j :| 0 <= i < j < |suite| && suite[i].id == suite[j].id;
      assert suite[i] in suite && suite[j] in suite;
    }
  }

  /** Whatever the digests: once the suite of complete files has been evaluated, in any
      order of completion and over any crashes and resumes, the output is the sequential
      evaluation of the top cases in rank order if and only if no id is among the top
      cases of two sources. */
  lemma LoadedOutputIff(files: map<Source, File>, digest: Digest, env: Env,
                        states: seq<State>, events: seq<Event>, k: nat)
    requires Complete(files) && IsSuite(files, digest, env.suite)
    requires IsRun(env, states, events) && k < |states| && states[k].output.Some?
    ensures states[k].output.value == Sequential(env) <==> TopIdsApart(files, digest)
  {
    OutputIsSequentialIff(env, states, events, k);
    CoherentIffUnique(env);
    UniqueIffTopApart(files, digest, env.suite);
  }

  function SourceId(s: Source): string {
    match s
    case MmluPro => "mmlu_pro"
    case ArcChallenge => "arc_challenge"
    case Hellaswag => "hellaswag"
    case Winogrande => "winogrande"
  }

  /** The evaluation library writes the source's id and a colon in front of the identity
      that a row has in its dataset. */
  predicate Prefixed(c: Case) {
    SourceId(c.source) + ":" <= c.id
  }

  /** Selections from files of that library have unique ids, and one answer for each. */
  lemma LibraryIdsUnique(env: Env)
    requires DistinctWithinSources(env.suite)
    requires forall i :: 0 <= i < |env.suite| ==> Prefixed(env.suite[i])
    ensures UniqueIds(env.suite) && Coherent(env)
  {
    forall i, j | 0 <= i < j < |env.suite| ensures env.suite[i].id != env.suite[j].id {
      var a, b := env.suite[i], env.suite[j];
      if a.source != b.source {
        assert a.id[0] == SourceId(a.source)[0] && b.id[0] == SourceId(b.source)[0];
      }
    }
    CoherentIffUnique(env);
  }

  /******* Requests *******/

  /** The requests still to come are for cases without an answer. */
  ghost predicate Unanswered(env: Env, results: Answers, todo: set<nat>) {
    forall i :: i in todo ==> i < |env.suite| && env.suite[i].id !in results
  }

  ghost predicate Fresh(env: Env, s: State) {
    s.process.Running? ==> Unanswered(env, s.process.results, s.process.waiting + s.process.flying)
  }

  lemma StepFresh(env: Env, s: State, e: Event, s': State)
    requires UniqueIds(env.suite) && Inv(env, s) && Fresh(env, s) && Step(env, s, e, s')
    ensures Fresh(env, s')
  {
    if e.Collect? {
      var p := s.process;
      assert p.waiting + (p.flying - {e.i}) == p.waiting + p.flying - {e.i};
    }
    if e.Request? {
      assert s'.process.waiting + s'.process.flying == s.process.waiting + s.process.flying;
    }
  }

  lemma {:induction false} RunFresh(env: Env, states: seq<State>, events: seq<Event>, k: nat)
    requires UniqueIds(env.suite) && IsRun(env, states, events) && k < |states|
    ensures Fresh(env, states[k])
  {
    if k > 0 {
      RunFresh(env, states, events, k - 1);
      RunInv(env, states, events, k - 1);
      StepFresh(env, states[k - 1], events[k - 1], states[k]);
    }
  }

  /** No case that is already in the persisted checkpoint is requested. */
  lemma NoRepeatedRequest(env: Env, states: seq<State>, events: seq<Event>, k: nat)
    requires UniqueIds(env.suite) && IsRun(env, states, events) && k < |events| && events[k].Request?
    ensures events[k].i < |env.suite| && env.suite[events[k].i].id !in states[k].checkpoint
  {
    RunFresh(env, states, events, k);
    assert Step(env, states[k], events[k], states[k + 1]);
    RunInv(env, states, events, k);
    assert events[k].i in states[k].process.waiting + states[k].process.flying;
  }

  /** Every request of a run is for a case that the checkpoint does not hold. */
  ghost predicate RequestsFresh(env: Env, states: seq<State>, events: seq<Event>)
    requires |states| == |events| + 1
  {
    forall k :: 0 <= k < |events| && events[k].Request? ==>
      events[k].i < |env.suite| && env.suite[events[k].i].id !in states[k].checkpoint
  }

  /** Two cases with one id: the second is requested after the first was saved. */
  lemma RepeatedRequest(env: Env, i: nat, j: nat) returns (states: seq<State>, events: seq<Event>)
    requires i < j < |env.suite| && env.suite[i].id == env.suite[j].id
    ensures IsRun(env, states, events) && !RequestsFresh(env, states, events)
  {
    var a, todo := AnswerTo(env, env.suite[i]), Pending(env, map[]);
    assert i in todo && j in todo - {i};
    var saved: Answers := map[][a.id := a];
    states := [
      INITIAL,
      State(map[], Running(map[], todo, {}, false), None),
      State(map[], Running(map[], todo - {i}, {} + {i}, false), None),
      State(map[], Running(saved, todo - {i}, {} + {i} - {i}, true), None),
      State(saved, Running(saved, todo - {i}, {} + {i} - {i}, false), None),
      State(saved, Running(saved, todo - {i} - {j}, {} + {i} - {i} + {j}, false), None)];
    events := [Start, Request(i), Collect(i), Save, Request(j)];
    assert events[4] == Request(j) && env.suite[j].id in states[4].checkpoint;
  }

  /** So requests are never repeated, in any run, exactly for suites with unique ids. */
  lemma NoRepeatedRequestIff(env: Env)
    ensures (forall states, events | IsRun(env, states, events) :: RequestsFresh(env, states, events))
            <==> UniqueIds(env.suite)
  {
    if UniqueIds(env.suite) {
      forall states: seq<State>, events: seq<Event> | IsRun(env, states, events)
        ensures RequestsFresh(env, states, events)
      {
        forall k | 0 <= k < |events| && events[k].Request?
          ensures events[k].i < |env.suite| && env.suite[events[k].i].id !in states[k].checkpoint
        {
          NoRepeatedRequest(env, states, events, k);
        }
      }
    } else {
      var i, j :| 0 <= i < j < |env.suite| && env.suite[i].id == env.suite[j].id;
      var states, events := RepeatedRequest(env, i, j);
    }
  }

  /** So a suite from the library's files is evaluated as if sequentially in every run, and
      no run requests a case that it has saved. */
  lemma LibrarySuite(files: map<Source, File>, digest: Digest, env: Env, states: seq<State>, events: seq<Event>)
    requires Complete(files) && forall s: Source, c :: c in files[s].cases ==> Prefixed(c)
    requires IsSuite(files, digest, env.suite) && IsRun(env, states, events)
    ensures RequestsFresh(env, states, events)
    ensures forall k :: 0 <= k < |states| && states[k].output.Some? ==> states[k].output.value == Sequential(env)
  {
    forall i | 0 <= i < |env.suite| ensures Prefixed(env.suite[i]) {
      assert env.suite[i] in env.suite && Top(files, digest, env.suite[i]);
    }
    LibraryIdsUnique(env);
    NoRepeatedRequestIff(env);
    forall k | 0 <= k < |states| && states[k].output.Some? ensures states[k].output.value == Sequential(env) {
      OutputIsSequentialIff(env, states, events, k);
    }
  }

  /** The checkpoint only grows. */
  lemma {:induction false} CheckpointGrows(env: Env, states: seq<State>, events: seq<Event>, j: nat, k: nat)
    requires IsRun(env, states, events) && j <= k < |states|
    ensures Within(states[j].checkpoint, states[k].checkpoint)
    decreases k
  {
    if j < k {
      CheckpointGrows(env, states, events, j, k - 1);
      RunInv(env, states, events, k - 1);
      assert Step(env, states[k - 1], events[k - 1], states[k]);
    }
  }

  /******* One process, as a loop *******/

  /** Evaluating what is pending in some order of completion; the checkpoint is written
      after every answer. */
  method EvaluatePending(env: Env, saved: Answers, order: seq<nat>) returns (ordered: seq<Answer>, checkpoint: Answers)
    requires Honest(env, saved)
    requires Unique(order) && forall i :: i in order <==> i in Pending(env, saved)
    ensures AllThere(env, checkpoint) && ordered == InOrder(env, checkpoint)
    ensures ordered == Sequential(env) <==> Coherent(env)
  {
    var results := saved;
    checkpoint := saved;
    for k := 0 to |order|
      invariant Honest(env, results) && checkpoint == results && Within(saved, results)
      invariant forall l :: 0 <= l < k ==> order[l] < |env.suite| && env.suite[order[l]].id in results
    {
      assert order[k] in order;
      var i := order[k];
      HonestOne(env, results, i);
      var result := AnswerTo(env, env.suite[i]);
      results := results[result.id := result];
      checkpoint := results;
    }
    forall i | 0 <= i < |env.suite| ensures env.suite[i].id in results {
      if env.suite[i].id !in saved { assert i in Pending(env, saved); }
    }
    ordered := InOrder(env, results);
    assert FromOne(env, ordered);
    FromOneIff(env, ordered);
  }
}
