/** Which files a preparation touches, and what it makes of a manifest that it finds. */
module PublicationFiles {
  import opened Publication
  import opened PublicationRuns
  import opened PublicationProgress

  /******* Nobody's files but one's own *******/

  /** Files that were not written by `pid` are still there, unchanged. */
  predicate OthersKept(fs: FileSystem, fs': FileSystem, pid: nat) {
    forall l :: l in fs && fs[l].writer != pid ==> l in fs' && fs'[l] == fs[l]
  }

  predicate Free(e: Env, fs: FileSystem, lo: nat) {
    forall i: nat :: lo <= i < 3 ==> !Exists(e, fs, Partial(i))
  }

  predicate Own(e: Env, fs: FileSystem, p: Path, pid: nat) {
    Exists(e, fs, p) && fs[e.loc(p)].writer == pid
  }

  /** The places where the lock holder is going to write are free or hold its own files;
      quantization starts from an accepted importance matrix. */
  predicate HolderOwns(e: Env, fs: FileSystem, pid: nat, pc: Pc) {
    match pc
    case CreateStale(i) => forall j: nat :: j < i && j < 3 ==> !Exists(e, fs, Partial(j))
    case CreateRun(i, started) =>
      && (if started then i < 3 ==> Own(e, fs, Partial(i), pid) && Free(e, fs, i + 1) else Free(e, fs, i))
      && (i >= 1 ==> Usable(e, fs, Partial(0), 0))
    case Write(_) => Own(e, fs, ManifestPartial, pid)
    case Rename(_, i, clear) => clear && i < 3 ==> !Exists(e, fs, Final(i))
    case _ => true
  }

  /** One step of the lock holder touches no other file and keeps it so. */
  predicate Careful(e: Env, fs: FileSystem, job: Job, pid: nat, pc: Pc, x: Data) {
    var (fs', pc') := Move1(e, fs, job, pid, pc, x);
    OthersKept(fs, fs', pid) && (Critical(pc') ==> HolderOwns(e, fs', pid, pc'))
  }

  lemma RunCareful(e: Env, fs: FileSystem, job: Job, pid: nat, pc: Pc, x: Data)
    requires Injective(e) && pc.CreateRun? && HolderOwns(e, fs, pid, pc)
    ensures Careful(e, fs, job, pid, pc, x)
  {}

  lemma StageCareful(e: Env, fs: FileSystem, job: Job, pid: nat, pc: Pc, x: Data)
    requires (pc.Stage? || pc.Write?) && HolderOwns(e, fs, pid, pc)
    ensures Careful(e, fs, job, pid, pc, x)
  {}

  lemma RenameCareful(e: Env, fs: FileSystem, job: Job, pid: nat, pc: Pc, x: Data)
    requires Injective(e) && (pc.Rename? || pc.Commit?) && HolderKnows(e, fs, pid, pc) && HolderOwns(e, fs, pid, pc)
    ensures Careful(e, fs, job, pid, pc, x)
  {
    if pc.Rename? && pc.done < 3 { assert Kept(e, fs, pid, Partial(pc.done), pc.done, pc.manifest.records[pc.done]); }
  }

  /** Looking and hashing writes nothing. */
  lemma LookCareful(e: Env, fs: FileSystem, job: Job, pid: nat, pc: Pc, x: Data)
    requires pc.AdoptLocked? || pc.AdoptHash? || pc.CreateCheck? || pc.CreateStale? || pc.CreateHash?
    requires HolderOwns(e, fs, pid, pc)
    ensures Careful(e, fs, job, pid, pc, x)
  {}

  lemma HolderCareful(e: Env, fs: FileSystem, job: Job, pid: nat, pc: Pc, x: Data)
    requires Injective(e) && Critical(pc) && HolderKnows(e, fs, pid, pc) && HolderOwns(e, fs, pid, pc)
    ensures Careful(e, fs, job, pid, pc, x)
  {
    match pc
    case CreateRun(_, _) => RunCareful(e, fs, job, pid, pc, x);
    case Stage(_) => StageCareful(e, fs, job, pid, pc, x);
    case Write(_) => StageCareful(e, fs, job, pid, pc, x);
    case Rename(_, _, _) => RenameCareful(e, fs, job, pid, pc, x);
    case Commit(_) => RenameCareful(e, fs, job, pid, pc, x);
    case _ => LookCareful(e, fs, job, pid, pc, x);
  }

  predicate LockOwns(e: Env, s: State) {
    s.lock.Some? && s.lock.value in s.procs ==> HolderOwns(e, s.fs, s.lock.value, s.procs[s.lock.value].pc)
  }

  /** Outside the critical section nothing is written. */
  lemma IdleCareful(e: Env, fs: FileSystem, job: Job, pid: nat, pc: Pc, x: Data)
    requires !Critical(pc)
    ensures Move1(e, fs, job, pid, pc, x).0 == fs && Careful(e, fs, job, pid, pc, x)
  {}

  lemma ActCareful(e: Env, s: State, pid: nat, x: Data)
    requires Injective(e) && Inv(e, s) && LockOwns(e, s) && pid in s.procs
    ensures LockOwns(e, ActState(e, s, pid, x)) && OthersKept(s.fs, ActState(e, s, pid, x).fs, pid)
  {
    var p := s.procs[pid];
    if Critical(p.pc) {
      HolderCareful(e, s.fs, p.job, pid, p.pc, x);
    } else {
      IdleCareful(e, s.fs, p.job, pid, p.pc, x);
    }
  }

  lemma {:induction false} RunsCareful(e: Env, fs: FileSystem, events: seq<Event>)
    requires Injective(e) && Safe(e, fs)
    ensures LockOwns(e, Execute(e, fs, events))
  {
    if events != [] {
      var s, ev := Execute(e, fs, events[..|events| - 1]), events[|events| - 1];
      RunsCareful(e, fs, events[..|events| - 1]);
      AlwaysSafe(e, fs, events[..|events| - 1]);
      if ev.Act? && ev.pid in s.procs { ActCareful(e, s, ev.pid, ev.data); }
    }
  }

  /** In every reachable state, the step of a process neither changes nor removes a file
      that another process, or nobody, wrote; other events touch no file at all. */
  lemma StepKeepsOthers(e: Env, fs: FileSystem, events: seq<Event>, ev: Event)
    requires Injective(e) && Safe(e, fs)
    ensures var s := Execute(e, fs, events);
            if ev.Act? then OthersKept(s.fs, Next(e, s, ev).fs, ev.pid) else Next(e, s, ev).fs == s.fs
  {
    RunsCareful(e, fs, events);
    AlwaysSafe(e, fs, events);
    var s := Execute(e, fs, events);
    if ev.Act? && ev.pid in s.procs { ActCareful(e, s, ev.pid, ev.data); }
  }

  /** So a file that was there before all processes stays as it is. */
  lemma {:induction false} PriorFilesStay(e: Env, fs: FileSystem, events: seq<Event>, l: string)
    requires Injective(e) && Safe(e, fs) && l in fs && fs[l].writer == 0
    ensures l in Execute(e, fs, events).fs && Execute(e, fs, events).fs[l] == fs[l]
    ensures 0 !in Execute(e, fs, events).procs && Execute(e, fs, events).next > 0
  {
    if events != [] {
      var before, ev := events[..|events| - 1], events[|events| - 1];
      PriorFilesStay(e, fs, before, l);
      StepKeepsOthers(e, fs, before, ev);
      assert Execute(e, fs, events) == Next(e, Execute(e, fs, before), ev);
    }
  }

  /** Quantization never starts from an importance matrix that is not accepted. */
  lemma QuantizesAccepted(e: Env, fs: FileSystem, events: seq<Event>, pid: nat)
    requires Injective(e) && Safe(e, fs) && pid in Execute(e, fs, events).procs
    requires var pc := Execute(e, fs, events).procs[pid].pc; pc.CreateRun? && pc.done >= 1
    ensures Usable(e, Execute(e, fs, events).fs, Partial(0), 0)
  {
    RunsCareful(e, fs, events);
    AlwaysSafe(e, fs, events);
  }

  /******* A manifest that is found *******/

  predicate AllFinals(e: Env, fs: FileSystem) {
    forall i: nat :: i < 3 ==> Exists(e, fs, Final(i))
  }

  /** The first `n` artifacts are as the manifest says. */
  predicate Checked(e: Env, fs: FileSystem, m: Manifest, n: nat) {
    forall i: nat :: i < n && i < 3 ==> i < |m.records| && Matches(e, fs, Final(i), i, m.records[i])
  }

  /** What is in place is a whole manifest with the job's coordinates, and its three
      artifacts are there, accepted, with the recorded sizes and hashes. */
  predicate Reusable(e: Env, fs: FileSystem, job: Job, m: Manifest) {
    && AllFinals(e, fs) && IsManifest(e, fs, m) && m.coordinates == job.coordinates && Checked(e, fs, m, 3)
  }

  ghost predicate CanReuse(e: Env, fs: FileSystem, job: Job) {
    exists m :: Reusable(e, fs, job, m)
  }

  /** How far a process that found a manifest has come in checking it. */
  ghost predicate Checking(e: Env, fs: FileSystem, job: Job, pc: Pc) {
    match pc
    case Probe(seen) => |seen| < 4 && forall i :: 0 <= i < |seen| ==> (seen[i] <==> Exists(e, fs, OUTPUTS[i]))
    case ReuseLoad => AllFinals(e, fs)
    case Reuse(m, i) =>
      i <= 3 && AllFinals(e, fs) && IsManifest(e, fs, m) && m.coordinates == job.coordinates && Checked(e, fs, m, i)
    case Done(m) => Reusable(e, fs, job, m)
    case Failed => !CanReuse(e, fs, job)
    case _ => false
  }

  lemma OneManifest(e: Env, fs: FileSystem, job: Job, m: Manifest)
    requires IsManifest(e, fs, m)
    ensures CanReuse(e, fs, job) <==> Reusable(e, fs, job, m)
  {}

  lemma ProbeChecks(e: Env, fs: FileSystem, job: Job, pid: nat, pc: Pc, x: Data)
    requires Exists(e, fs, ManifestFinal) && Checking(e, fs, job, pc) && pc.Probe?
    ensures Checking(e, fs, job, Move1(e, fs, job, pid, pc, x).1)
  {
    assert OUTPUTS[3] == ManifestFinal && forall i: nat :: i < 3 ==> OUTPUTS[i] == Final(i);
  }

  lemma MoveChecks(e: Env, fs: FileSystem, job: Job, pid: nat, pc: Pc, x: Data)
    requires Exists(e, fs, ManifestFinal) && Checking(e, fs, job, pc)
    ensures var (fs', pc') := Move1(e, fs, job, pid, pc, x);
            fs' == fs && Checking(e, fs, job, pc') && !Critical(pc') && ReuseLeft(pc') <= Rest(ReuseLeft(pc), 1)
  {
    match pc
    case Probe(_) => ProbeChecks(e, fs, job, pid, pc, x);
    case Reuse(m, i) => OneManifest(e, fs, job, m);
    case _ =>
  }

  ghost predicate AllChecking(e: Env, fs: FileSystem, s: State) {
    && s.fs == fs
    && (forall pid :: pid in s.procs ==> pid < s.next && Checking(e, fs, s.procs[pid].job, s.procs[pid].pc))
  }

  lemma NextChecks(e: Env, fs: FileSystem, s: State, ev: Event)
    requires Exists(e, fs, ManifestFinal) && AllChecking(e, fs, s)
    ensures AllChecking(e, fs, Next(e, s, ev))
  {
    if ev.Act? && ev.pid in s.procs {
      var p := s.procs[ev.pid];
      MoveChecks(e, fs, p.job, ev.pid, p.pc, ev.data);
    }
  }

  /** Where there is a manifest, whole or torn, no process ever changes a file. */
  lemma {:induction false} FoundIsKept(e: Env, fs: FileSystem, events: seq<Event>)
    requires Exists(e, fs, ManifestFinal)
    ensures AllChecking(e, fs, Execute(e, fs, events))
  {
    if events != [] {
      FoundIsKept(e, fs, events[..|events| - 1]);
      NextChecks(e, fs, Execute(e, fs, events[..|events| - 1]), events[|events| - 1]);
    }
  }

  lemma CheckCounted(e: Env, fs: FileSystem, s: State, ev: Event, pid: nat)
    requires Exists(e, fs, ManifestFinal) && AllChecking(e, fs, s)
    requires pid < s.next && pid in Next(e, s, ev).procs
    ensures pid in s.procs && Next(e, s, ev).procs[pid].job == s.procs[pid].job
    ensures ReuseLeft(Next(e, s, ev).procs[pid].pc)
            <= Rest(ReuseLeft(s.procs[pid].pc), if ev.Act? && ev.pid == pid then 1 else 0)
  {
    if ev.Act? && ev.pid in s.procs {
      var p := s.procs[ev.pid];
      MoveChecks(e, fs, p.job, ev.pid, p.pc, ev.data);
    }
  }

  lemma {:induction false} FoundCounted(e: Env, fs: FileSystem, events: seq<Event>, n: nat)
    requires Exists(e, fs, ManifestFinal) && n < |events| && events[n].Spawn?
    ensures var pid, now := Execute(e, fs, events[..n]).next, Execute(e, fs, events);
            && pid < now.next
            && (pid in now.procs ==>
                  && now.procs[pid].job == events[n].job
                  && ReuseLeft(now.procs[pid].pc) <= Rest(9, OwnSteps(events[n + 1..], pid)))
    decreases |events|
  {
    var pid, before := Execute(e, fs, events[..n]).next, events[..|events| - 1];
    var s, ev := Execute(e, fs, before), events[|events| - 1];
    if n + 1 == |events| {
      assert before == events[..n] && events[n + 1..] == [];
    } else {
      assert before[..n] == events[..n];
      FoundCounted(e, fs, before, n);
      if pid in Execute(e, fs, events).procs {
        var since := events[n + 1..];
        assert since[..|since| - 1] == before[n + 1..] && since[|since| - 1] == ev;
        FoundIsKept(e, fs, before);
        CheckCounted(e, fs, s, ev, pid);
      }
    }
  }

  /** In a directory that has a manifest, in whatever state it and the artifacts are, a
      process that has taken nine steps of its own has returned the manifest if it is
      whole, has the job's coordinates and describes the three artifacts, and otherwise
      has failed. */
  lemma FoundDecides(e: Env, fs: FileSystem, events: seq<Event>, n: nat)
    requires Exists(e, fs, ManifestFinal) && n < |events| && events[n].Spawn?
    requires OwnSteps(events[n + 1..], Execute(e, fs, events[..n]).next) >= 9
    ensures var pid, now := Execute(e, fs, events[..n]).next, Execute(e, fs, events);
            && now.fs == fs
            && (pid in now.procs ==>
                  if CanReuse(e, fs, events[n].job)
                  then now.procs[pid].pc.Done? && Reusable(e, fs, events[n].job, now.procs[pid].pc.manifest)
                  else now.procs[pid].pc == Failed)
  {
    FoundIsKept(e, fs, events);
    FoundCounted(e, fs, events, n);
  }
}
