/** What holds over whole executions of the publication protocol. */
module PublicationRuns {
  import opened Wrappers
  import opened Publication

  lemma ActInv(e: Env, s: State, pid: nat, x: Data)
    requires Injective(e) && Inv(e, s) && pid in s.procs
    ensures Inv(e, ActState(e, s, pid, x))
  {
    var p := s.procs[pid];
    if !(Waiting(p.pc) && s.lock.Some?) {
      if Critical(p.pc) {
        HolderStep(e, s.fs, p.job, pid, p.pc, x);
      } else {
        EnterKnowsNothing(e, s.fs, p.job, pid, p.pc, x);
      }
    }
  }

  lemma NextInv(e: Env, s: State, ev: Event)
    requires Injective(e) && Inv(e, s)
    ensures Inv(e, Next(e, s, ev))
  {
    match ev
    case Act(pid, x) => if pid in s.procs { ActInv(e, s, pid, x); }
    case _ =>
  }

  /** In every interleaving, and whoever dies when, a manifest at its final path is
      complete: its artifacts are in place, match the recorded sizes and hashes, and
      for a created manifest come from the attempt that wrote it. */
  lemma {:induction false} AlwaysSafe(e: Env, fs: FileSystem, events: seq<Event>)
    requires Injective(e) && Safe(e, fs)
    ensures Inv(e, Execute(e, fs, events)) && Safe(e, Execute(e, fs, events).fs)
  {
    if events != [] {
      AlwaysSafe(e, fs, events[..|events| - 1]);
      NextInv(e, Execute(e, fs, events[..|events| - 1]), events[|events| - 1]);
    }
  }

  /******* Publication is final *******/

  /** Once a manifest exists, the lock holder is still checking and writes nothing. */
  lemma PublishedFreezes(e: Env, s: State, ev: Event)
    requires Inv(e, s) && Exists(e, s.fs, ManifestFinal)
    ensures Next(e, s, ev).fs == s.fs
  {
    if ev.Act? && ev.pid in s.procs {
      var p := s.procs[ev.pid];
      if Critical(p.pc) {
        assert s.lock == Some(ev.pid) && HolderKnows(e, s.fs, ev.pid, p.pc);
        assert OUTPUTS[3] == ManifestFinal;
      }
    }
  }

  /** No later event of any process changes any file. */
  lemma {:induction false} PublishedForever(e: Env, fs: FileSystem, events: seq<Event>, n: nat)
    requires Injective(e) && Safe(e, fs) && n <= |events|
    requires Exists(e, Execute(e, fs, events[..n]).fs, ManifestFinal)
    ensures Execute(e, fs, events).fs == Execute(e, fs, events[..n]).fs
    decreases |events|
  {
    if n == |events| {
      assert events[..n] == events;
    } else {
      var before := events[..|events| - 1];
      assert before[..n] == events[..n];
      PublishedForever(e, fs, before, n);
      AlwaysSafe(e, fs, before);
      PublishedFreezes(e, Execute(e, fs, before), events[|events| - 1]);
    }
  }

  /******* What success and reuse mean *******/

  predicate IsManifest(e: Env, fs: FileSystem, m: Manifest) {
    Exists(e, fs, ManifestFinal) && fs[e.loc(ManifestFinal)].data == Document(m)
  }

  /** A process that has read or written the manifest names the one in place. */
  predicate Names(e: Env, fs: FileSystem, pc: Pc) {
    match pc
    case Reuse(m, _) => IsManifest(e, fs, m)
    case Done(m) => IsManifest(e, fs, m)
    case _ => true
  }

  predicate Honest(e: Env, s: State) {
    forall pid :: pid in s.procs ==> Names(e, s.fs, s.procs[pid].pc)
  }

  lemma MoveNames(e: Env, fs: FileSystem, job: Job, pid: nat, pc: Pc, x: Data)
    requires Names(e, fs, pc) && (pc.Commit? ==> StagedBy(e, fs, pc.manifest, pid))
    ensures var (fs', pc') := Move1(e, fs, job, pid, pc, x); Names(e, fs', pc')
  {}

  lemma NextHonest(e: Env, s: State, ev: Event)
    requires Inv(e, s) && Honest(e, s)
    ensures Honest(e, Next(e, s, ev))
  {
    if Exists(e, s.fs, ManifestFinal) { PublishedFreezes(e, s, ev); }
    if ev.Act? && ev.pid in s.procs {
      var p := s.procs[ev.pid];
      if p.pc.Commit? { assert s.lock == Some(ev.pid) && HolderKnows(e, s.fs, ev.pid, p.pc); }
      MoveNames(e, s.fs, p.job, ev.pid, p.pc, ev.data);
    }
  }

  lemma {:induction false} ExecuteHonest(e: Env, fs: FileSystem, events: seq<Event>)
    requires Injective(e) && Safe(e, fs)
    ensures Honest(e, Execute(e, fs, events))
  {
    if events != [] {
      var before := events[..|events| - 1];
      ExecuteHonest(e, fs, before);
      AlwaysSafe(e, fs, before);
      NextHonest(e, Execute(e, fs, before), events[|events| - 1]);
    }
  }

  /** A process that reports success, whether it created, adopted or reused, reports
      the manifest that is in place, and its three artifacts verify. */
  lemma SuccessIsPublished(e: Env, fs: FileSystem, events: seq<Event>, pid: nat)
    requires Injective(e) && Safe(e, fs)
    requires pid in Execute(e, fs, events).procs && Execute(e, fs, events).procs[pid].pc.Done?
    ensures var s := Execute(e, fs, events);
            IsManifest(e, s.fs, s.procs[pid].pc.manifest) && Published(e, s.fs)
  {
    ExecuteHonest(e, fs, events);
    AlwaysSafe(e, fs, events);
  }

  /** How far a process that only ever finds everything in place has come. */
  predicate OnReusePath(pc: Pc, m: Manifest) {
    match pc
    case Probe(seen) => |seen| < 4 && forall i :: 0 <= i < |seen| ==> seen[i]
    case ReuseLoad => true
    case Reuse(m', i) => m' == m && i <= 3
    case Done(m') => m' == m
    case _ => false
  }

  /** Process `pid` has died, or is on its way to returning `m`. */
  predicate Late(s: State, pid: nat, job: Job, m: Manifest) {
    pid < s.next && (pid in s.procs ==> s.procs[pid].job == job && OnReusePath(s.procs[pid].pc, m))
  }

  lemma LateStep(e: Env, s: State, ev: Event, pid: nat, job: Job, m: Manifest)
    requires Published(e, s.fs) && IsManifest(e, s.fs, m) && m.coordinates == job.coordinates
    requires Late(s, pid, job, m)
    ensures Late(Next(e, s, ev), pid, job, m)
  {}

  /** A process with the same coordinates that starts after publication never fails:
      it is on its way to returning that manifest, or has died. */
  lemma {:induction false} LateProcessReuses(e: Env, fs: FileSystem, events: seq<Event>, n: nat, m: Manifest)
    requires Injective(e) && Safe(e, fs) && n < |events|
    requires IsManifest(e, Execute(e, fs, events[..n]).fs, m)
    requires events[n].Spawn? && events[n].job.coordinates == m.coordinates
    ensures Late(Execute(e, fs, events), Execute(e, fs, events[..n]).next, events[n].job, m)
    decreases |events|
  {
    var before := events[..|events| - 1];
    var s, ev := Execute(e, fs, before), events[|events| - 1];
    AlwaysSafe(e, fs, before);
    if n + 1 == |events| {
      assert before == events[..n];
    } else {
      assert before[..n] == events[..n];
      LateProcessReuses(e, fs, before, n, m);
      PublishedForever(e, fs, before, n);
      LateStep(e, s, ev, Execute(e, fs, events[..n]).next, events[n].job, m);
    }
  }
}
