/** When a preparation fails: alone, and after another one has published. */
module PublicationRefusals {
  import opened Wrappers
  import opened Publication
  import opened PublicationRuns
  import opened PublicationProgress

  /******* Alone *******/

  /** What a job needs to find: an adopting one three accepted artifacts without a manifest,
      a creating one none of the files. */
  predicate Ready(e: Env, fs: FileSystem, job: Job) {
    if job.adopt then Adoptable(e, fs) else Empty(e, fs)
  }

  predicate StalePartial(e: Env, fs: FileSystem, lo: nat) {
    Exists(e, fs, ManifestPartial) || exists i: Artifact :: lo <= i && Exists(e, fs, Partial(i))
  }

  predicate Unusable(e: Env, fs: FileSystem, lo: nat) {
    Exists(e, fs, ManifestPartial) || exists i: Artifact :: lo <= i && !Usable(e, fs, Final(i), i)
  }

  /** The process meets an obstacle ahead. */
  predicate Doomed(e: Env, fs: FileSystem, job: Job, pc: Pc) {
    match pc
    case Probe(seen) =>
      && |seen| < 4 && !Exists(e, fs, ManifestFinal) && !Ready(e, fs, job)
      && forall i :: 0 <= i < |seen| ==> (seen[i] <==> Exists(e, fs, OUTPUTS[i]))
    case AdoptWait => job.adopt && Unusable(e, fs, 0)
    case AdoptLocked => job.adopt && Unusable(e, fs, 0)
    case AdoptHash(records) => |records| <= 3 && Unusable(e, fs, |records|)
    case CreateWait => StalePartial(e, fs, 0)
    case CreateCheck(i) => i <= 4 && StalePartial(e, fs, 0)
    case CreateStale(i) => i <= 3 && StalePartial(e, fs, i)
    case CreateRun(i, started) => i <= 3 && (started ==> i < 3) && Exists(e, fs, ManifestPartial)
    case CreateHash(records) => |records| <= 3 && Exists(e, fs, ManifestPartial)
    case Stage(m) => Exists(e, fs, ManifestPartial)
    case Failed => true
    case _ => false
  }

  /** The next step fails, or leaves it doomed and nearer to the obstacle. */
  predicate Sinks(e: Env, fs: FileSystem, job: Job, pid: nat, pc: Pc, x: Data) {
    var (fs', pc') := Move1(e, fs, job, pid, pc, x);
    pc'.Failed? || (Doomed(e, fs', job, pc') && StepsLeft(job, pc') < StepsLeft(job, pc))
  }

  lemma NotReady(e: Env, fs: FileSystem, job: Job)
    requires !Exists(e, fs, ManifestFinal) && !Ready(e, fs, job)
    ensures if job.adopt then Unusable(e, fs, 0)
            else StalePartial(e, fs, 0) || exists i: Artifact :: Exists(e, fs, Final(i))
  {}

  lemma LastProbe(e: Env, fs: FileSystem, job: Job, seen: seq<bool>)
    requires |seen| == 4 && !Exists(e, fs, ManifestFinal) && !Ready(e, fs, job)
    requires forall i :: 0 <= i < 4 ==> (seen[i] <==> Exists(e, fs, OUTPUTS[i]))
    ensures var pc := Decide(job, seen); pc.Failed? || (Doomed(e, fs, job, pc) && (pc.AdoptWait? || pc.CreateWait?))
  {
    assert OUTPUTS[3] == ManifestFinal && forall i: nat :: i < 3 ==> OUTPUTS[i] == Final(i);
    NotReady(e, fs, job);
  }

  lemma ProbeSinks(e: Env, fs: FileSystem, job: Job, pid: nat, pc: Pc, x: Data)
    requires Doomed(e, fs, job, pc) && pc.Probe?
    ensures Sinks(e, fs, job, pid, pc, x)
  {
    var seen := pc.seen + [Exists(e, fs, OUTPUTS[|pc.seen|])];
    if |seen| == 4 { LastProbe(e, fs, job, seen); }
  }

  lemma StepSinks(e: Env, fs: FileSystem, job: Job, pid: nat, pc: Pc, x: Data)
    requires Doomed(e, fs, job, pc) && !pc.Failed?
    ensures Sinks(e, fs, job, pid, pc, x)
  {
    if pc.Probe? { ProbeSinks(e, fs, job, pid, pc, x); }
  }

  /** It writes partial artifacts only. */
  lemma StepPlacesNone(e: Env, fs: FileSystem, job: Job, pid: nat, pc: Pc, x: Data)
    requires Injective(e) && Doomed(e, fs, job, pc) && !Exists(e, fs, ManifestFinal)
    ensures !Exists(e, Move1(e, fs, job, pid, pc, x).0, ManifestFinal)
  {}

  lemma {:induction false} AloneDoomed(e: Env, fs: FileSystem, job: Job, events: seq<Event>)
    returns (now: FileSystem, pc: Pc)
    requires Injective(e) && Doomed(e, fs, job, Probe([])) && Acts(e, events)
    ensures Execute(e, fs, [Spawn(job)] + events) == Alone(now, job, pc) && Doomed(e, now, job, pc)
    ensures !Exists(e, now, ManifestFinal) && (pc.Failed? || StepsLeft(job, pc) + |events| <= StepsLeft(job, Probe([])))
  {
    var all := [Spawn(job)] + events;
    if events == [] {
      assert all[..|all| - 1] == [] && all[|all| - 1] == Spawn(job);
      now, pc := fs, Probe([]);
    } else {
      var before, last := events[..|events| - 1], events[|events| - 1];
      assert all[..|all| - 1] == [Spawn(job)] + before && all[|all| - 1] == last;
      now, pc := AloneDoomed(e, fs, job, before);
      AloneNext(e, now, job, pc, last);
      StepPlacesNone(e, now, job, 1, pc, last.data);
      if !pc.Failed? { StepSinks(e, now, job, 1, pc, last.data); }
      var moved := Move1(e, now, job, 1, pc, last.data);
      now, pc := moved.0, moved.1;
    }
  }

  lemma AloneFails(e: Env, fs: FileSystem, job: Job, events: seq<Event>)
    requires Injective(e) && Acts(e, events) && !Exists(e, fs, ManifestFinal) && |events| >= 36
    requires !Ready(e, fs, job)
    ensures var s := Execute(e, fs, [Spawn(job)] + events);
            s.procs.Keys == {1} && s.procs[1].pc == Failed && !Exists(e, s.fs, ManifestFinal)
  {
    var now, pc := AloneDoomed(e, fs, job, events);
  }

  /** Where no manifest is in place, a process alone whose commands write what is accepted
      has published after 36 steps exactly when it found what its job needs; otherwise it
      has failed and there is still no manifest. */
  lemma AlonePublishesIff(e: Env, fs: FileSystem, job: Job, events: seq<Event>)
    requires Injective(e) && Acts(e, events) && !Exists(e, fs, ManifestFinal) && |events| >= 36
    ensures var s := Execute(e, fs, [Spawn(job)] + events);
            && s.procs.Keys == {1} && (s.procs[1].pc.Done? <==> Ready(e, fs, job))
            && (!Ready(e, fs, job) ==> s.procs[1].pc == Failed && !Exists(e, s.fs, ManifestFinal))
  {
    if Ready(e, fs, job) { AlonePublishes(e, fs, job, events); } else { AloneFails(e, fs, job, events); }
  }

  /******* After a publication *******/

  /** The process has not begun to make anything, and holds the lock at most to look. */
  predicate Barred(pc: Pc) {
    match pc
    case AdoptWait => true
    case AdoptLocked => true
    case CreateWait => true
    case CreateCheck(i) => i == 0
    case Failed => true
    case _ => false
  }

  /** Once a manifest is in place no process is making one: those inside the critical section
      are about to look. */
  lemma NobodyMakes(e: Env, fs: FileSystem, events: seq<Event>, pid: nat)
    requires Injective(e) && Safe(e, fs) && pid in Execute(e, fs, events).procs
    requires var s := Execute(e, fs, events); Exists(e, s.fs, ManifestFinal) && Critical(s.procs[pid].pc)
    ensures Barred(Execute(e, fs, events).procs[pid].pc)
  {
    var s := Execute(e, fs, events);
    AlwaysSafe(e, fs, events);
    assert s.lock == Some(pid) && HolderKnows(e, s.fs, pid, s.procs[pid].pc);
    assert OUTPUTS[3] == ManifestFinal && OUTPUTS[0] == Final(0);
  }

  lemma BarredStep(e: Env, s: State, ev: Event, pid: nat)
    requires Published(e, s.fs) && pid in s.procs && pid < s.next && Barred(s.procs[pid].pc)
    ensures Next(e, s, ev).next > pid
    ensures pid in Next(e, s, ev).procs ==> Barred(Next(e, s, ev).procs[pid].pc)
  {
    assert OUTPUTS[0] == Final(0);
  }

  /** A process that waits for the lock to create or to adopt, when a manifest is in place,
      never succeeds. */
  lemma {:induction false} WaitersFail(e: Env, fs: FileSystem, events: seq<Event>, n: nat, pid: nat)
    requires Injective(e) && Safe(e, fs) && n <= |events|
    requires var s := Execute(e, fs, events[..n]);
             Exists(e, s.fs, ManifestFinal) && pid in s.procs && Barred(s.procs[pid].pc)
    ensures Execute(e, fs, events).next > pid
    ensures pid in Execute(e, fs, events).procs ==> Barred(Execute(e, fs, events).procs[pid].pc)
    decreases |events|
  {
    AlwaysSafe(e, fs, events[..n]);
    if n == |events| {
      assert events[..n] == events;
    } else {
      var before := events[..|events| - 1];
      assert before[..n] == events[..n];
      WaitersFail(e, fs, before, n, pid);
      PublishedForever(e, fs, before, n);
      if pid in Execute(e, fs, before).procs { BarredStep(e, Execute(e, fs, before), events[|events| - 1], pid); }
    }
  }
}
