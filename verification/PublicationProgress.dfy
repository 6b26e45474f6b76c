/** What a publication publishes, for whom, and that it comes to its end. */
module PublicationProgress {
  import opened Wrappers
  import opened Publication
  import opened PublicationRuns

  /******* Whose manifest it is *******/

  /** A manifest made by a process has its job's coordinates and says how the job made it. */
  predicate MadeBy(job: Job, m: Manifest) {
    m.coordinates == job.coordinates && (m.mode.Created? <==> !job.adopt)
  }

  /** Processes adopt or create as their job says, and only handle manifests of their job. */
  predicate Belongs(job: Job, pc: Pc) {
    match pc
    case AdoptWait | AdoptLocked | AdoptHash(_) => job.adopt
    case CreateWait | CreateCheck(_) | CreateStale(_) | CreateRun(_, _) | CreateHash(_) => !job.adopt
    case Stage(m) => MadeBy(job, m)
    case Write(m) => MadeBy(job, m)
    case Rename(m, _, _) => MadeBy(job, m)
    case Commit(m) => MadeBy(job, m)
    case Reuse(m, _) => m.coordinates == job.coordinates
    case Done(m) => m.coordinates == job.coordinates
    case _ => true
  }

  predicate AllBelong(s: State) {
    forall pid :: pid in s.procs ==> Belongs(s.procs[pid].job, s.procs[pid].pc)
  }

  lemma MoveBelongs(e: Env, fs: FileSystem, job: Job, pid: nat, pc: Pc, x: Data)
    requires Belongs(job, pc)
    ensures Belongs(job, Move1(e, fs, job, pid, pc, x).1)
  {}

  lemma NextBelongs(e: Env, s: State, ev: Event)
    requires AllBelong(s)
    ensures AllBelong(Next(e, s, ev))
  {
    if ev.Act? && ev.pid in s.procs {
      var p := s.procs[ev.pid];
      MoveBelongs(e, s.fs, p.job, ev.pid, p.pc, ev.data);
    }
  }

  /** In every reachable state a manifest that a process stages, writes, renames to or
      commits has its own job's coordinates and mode, and one that it returns has its
      own job's coordinates. */
  lemma {:induction false} ManifestsBelong(e: Env, fs: FileSystem, events: seq<Event>)
    ensures AllBelong(Execute(e, fs, events))
  {
    if events != [] {
      ManifestsBelong(e, fs, events[..|events| - 1]);
      NextBelongs(e, Execute(e, fs, events[..|events| - 1]), events[|events| - 1]);
    }
  }

  lemma DoneFrom(e: Env, s: State, ev: Event, pid: nat)
    requires pid in Next(e, s, ev).procs && Next(e, s, ev).procs[pid].pc.Done?
    ensures pid in s.procs && s.procs[pid].job == Next(e, s, ev).procs[pid].job
    ensures var pc, m := s.procs[pid].pc, Next(e, s, ev).procs[pid].pc.manifest;
            pc == Done(m) || pc == Commit(m) || (pc.Reuse? && pc.manifest == m && pc.checked >= 3)
  {}

  /** A process that returned a manifest either had checked all artifacts of the one in
      place, or committed one that it had made, in its job's mode. */
  lemma {:induction false} HowItSucceeded(e: Env, fs: FileSystem, events: seq<Event>, pid: nat) returns (n: nat)
    requires pid in Execute(e, fs, events).procs && Execute(e, fs, events).procs[pid].pc.Done?
    ensures 0 < n < |events| && pid in Execute(e, fs, events[..n]).procs
    ensures var p, m := Execute(e, fs, events[..n]).procs[pid], Execute(e, fs, events).procs[pid].pc.manifest;
            && p.job == Execute(e, fs, events).procs[pid].job
            && ((p.pc.Reuse? && p.pc.manifest == m && p.pc.checked >= 3) || (p.pc == Commit(m) && MadeBy(p.job, m)))
  {
    var before := events[..|events| - 1];
    DoneFrom(e, Execute(e, fs, before), events[|events| - 1], pid);
    ManifestsBelong(e, fs, before);
    if Execute(e, fs, before).procs[pid].pc.Done? {
      n := HowItSucceeded(e, fs, before, pid);
      assert before[..n] == events[..n];
    } else {
      n := |before|;
    }
  }

  /******* Steps to the end *******/

  /** The number of steps that a process which meets no obstacle still takes. */
  function StepsLeft(job: Job, pc: Pc): nat {
    match pc
    case Probe(seen) => (if job.adopt then 9 else 31) + Rest(4, |seen|)
    case AdoptWait => 9
    case AdoptLocked => 8
    case AdoptHash(records) => 4 + Rest(3, |records|)
    case CreateWait => 31
    case CreateCheck(i) => 26 + Rest(4, i)
    case CreateStale(i) => 22 + Rest(3, i)
    case CreateRun(i, started) => if started then 14 + 2 * Rest(3, i) else 15 + 2 * Rest(3, i)
    case CreateHash(records) => 11 + Rest(3, |records|)
    case Stage(m) => if m.mode.Created? then 10 else 3
    case Write(m) => if m.mode.Created? then 9 else 2
    case Rename(_, i, clear) => if clear then 1 + 2 * Rest(3, i) else 2 + 2 * Rest(3, i)
    case Commit(_) => 1
    case _ => 0
  }

  function Rest(n: nat, i: nat): nat {
    if i <= n then n - i else 0
  }

  /** What a command writes is accepted as any artifact. */
  predicate Accepted(e: Env, x: Data) {
    forall i: nat :: i < 3 ==> e.accepts(i, x)
  }

  predicate NoFinals(e: Env, fs: FileSystem, lo: nat) {
    && !Exists(e, fs, ManifestFinal)
    && forall i: nat :: lo <= i < 3 ==> !Exists(e, fs, Final(i))
  }

  predicate NoPartials(e: Env, fs: FileSystem, lo: nat) {
    && !Exists(e, fs, ManifestPartial)
    && forall i: nat :: lo <= i < 3 ==> !Exists(e, fs, Partial(i))
  }

  predicate PartialsUsable(e: Env, fs: FileSystem, lo: nat, hi: nat) {
    forall i: nat :: lo <= i < hi && i < 3 ==> Usable(e, fs, Partial(i), i)
  }

  /** Three accepted artifacts without a manifest, whole or partial. */
  predicate Adoptable(e: Env, fs: FileSystem) {
    && !Exists(e, fs, ManifestFinal) && !Exists(e, fs, ManifestPartial)
    && forall i: nat :: i < 3 ==> Usable(e, fs, Final(i), i)
  }

  /** None of the files of a preparation is there. */
  predicate Empty(e: Env, fs: FileSystem) {
    NoFinals(e, fs, 0) && NoPartials(e, fs, 0)
  }

  /** The process meets no obstacle ahead. */
  predicate OnTheWay(e: Env, fs: FileSystem, job: Job, pc: Pc) {
    match pc
    case Probe(seen) =>
      |seen| < 4
      && (forall i :: 0 <= i < |seen| ==> (seen[i] <==> job.adopt && i < 3))
      && if job.adopt then Adoptable(e, fs) else Empty(e, fs)
    case AdoptWait => job.adopt && Adoptable(e, fs)
    case AdoptLocked => job.adopt && Adoptable(e, fs)
    case AdoptHash(records) => |records| <= 3 && Adoptable(e, fs)
    case CreateWait => Empty(e, fs)
    case CreateCheck(i) => i <= 4 && Empty(e, fs)
    case CreateStale(i) => i <= 3 && Empty(e, fs)
    case CreateRun(i, started) =>
      i <= 3 && (started ==> i < 3) && NoFinals(e, fs, 0) && !Exists(e, fs, ManifestPartial)
      && PartialsUsable(e, fs, 0, i)
    case CreateHash(records) =>
      |records| <= 3 && NoFinals(e, fs, 0) && !Exists(e, fs, ManifestPartial) && PartialsUsable(e, fs, 0, 3)
    case Stage(m) =>
      !Exists(e, fs, ManifestPartial)
      && (m.mode.Created? ==> NoFinals(e, fs, 0) && PartialsUsable(e, fs, 0, 3))
    case Write(m) => m.mode.Created? ==> NoFinals(e, fs, 0) && PartialsUsable(e, fs, 0, 3)
    case Rename(m, i, clear) =>
      i <= 3 && (clear ==> i < 3) && Exists(e, fs, ManifestPartial) && NoFinals(e, fs, i)
      && PartialsUsable(e, fs, i, 3)
    case Commit(_) => Exists(e, fs, ManifestPartial)
    case Done(_) => true
    case _ => false
  }

  /** The next step leaves it on the way, one step nearer. */
  predicate Nearer(e: Env, fs: FileSystem, job: Job, pid: nat, pc: Pc, x: Data) {
    var (fs', pc') := Move1(e, fs, job, pid, pc, x);
    OnTheWay(e, fs', job, pc') && StepsLeft(job, pc') + 1 == StepsLeft(job, pc)
  }

  lemma ProbeNearer(e: Env, fs: FileSystem, job: Job, pid: nat, pc: Pc, x: Data)
    requires OnTheWay(e, fs, job, pc) && pc.Probe?
    ensures Nearer(e, fs, job, pid, pc, x)
  {
    assert OUTPUTS[|pc.seen|] == if |pc.seen| < 3 then Final(|pc.seen|) else ManifestFinal;
  }

  lemma AdoptNearer(e: Env, fs: FileSystem, job: Job, pid: nat, pc: Pc, x: Data)
    requires OnTheWay(e, fs, job, pc) && (pc.AdoptWait? || pc.AdoptLocked? || pc.AdoptHash?)
    ensures Nearer(e, fs, job, pid, pc, x)
  {}

  lemma CheckNearer(e: Env, fs: FileSystem, job: Job, pid: nat, pc: Pc, x: Data)
    requires OnTheWay(e, fs, job, pc) && (pc.CreateWait? || pc.CreateCheck? || pc.CreateStale?)
    ensures Nearer(e, fs, job, pid, pc, x)
  {
    if pc.CreateCheck? && pc.checked < 4 {
      assert OUTPUTS[pc.checked] == if pc.checked < 3 then Final(pc.checked) else ManifestFinal;
    }
  }

  /** Only the file at `p` may differ. */
  ghost predicate OnlyAt(e: Env, fs: FileSystem, fs': FileSystem, p: Path) {
    forall q :: q != p ==>
      (Exists(e, fs', q) <==> Exists(e, fs, q)) && (Exists(e, fs, q) ==> fs'[e.loc(q)] == fs[e.loc(q)])
  }

  lemma PutOnlyAt(e: Env, fs: FileSystem, p: Path, f: File)
    requires Injective(e)
    ensures OnlyAt(e, fs, Put(e, fs, p, f), p) && Exists(e, Put(e, fs, p, f), p) && Put(e, fs, p, f)[e.loc(p)] == f
  {}

  lemma UsableStill(e: Env, fs: FileSystem, fs': FileSystem, p: Path, lo: nat, hi: nat)
    requires OnlyAt(e, fs, fs', p) && PartialsUsable(e, fs, lo, hi)
    requires forall i: nat :: lo <= i < hi && i < 3 ==> p != Partial(i)
    ensures PartialsUsable(e, fs', lo, hi)
  {}

  lemma NoFinalsStill(e: Env, fs: FileSystem, fs': FileSystem, p: Path, lo: nat)
    requires OnlyAt(e, fs, fs', p) && NoFinals(e, fs, lo) && (p.Partial? || p.ManifestPartial?)
    ensures NoFinals(e, fs', lo)
  {}

  lemma RunFiles(e: Env, fs: FileSystem, i: Artifact, f: File)
    requires Injective(e) && NoFinals(e, fs, 0) && !Exists(e, fs, ManifestPartial) && PartialsUsable(e, fs, 0, i)
    ensures var fs' := Put(e, fs, Partial(i), f);
            && NoFinals(e, fs', 0) && !Exists(e, fs', ManifestPartial) && PartialsUsable(e, fs', 0, i)
            && (e.accepts(i, f.data) ==> PartialsUsable(e, fs', 0, i + 1))
  {
    var fs' := Put(e, fs, Partial(i), f);
    PutOnlyAt(e, fs, Partial(i), f);
    UsableStill(e, fs, fs', Partial(i), 0, i);
    NoFinalsStill(e, fs, fs', Partial(i), 0);
  }

  lemma RunNearer(e: Env, fs: FileSystem, job: Job, pid: nat, pc: Pc, x: Data)
    requires Injective(e) && Accepted(e, x) && OnTheWay(e, fs, job, pc) && pc.CreateRun?
    ensures Nearer(e, fs, job, pid, pc, x)
  {
    if pc.done < 3 {
      if pc.started { RunFiles(e, fs, pc.done, File(x, pid)); } else { RunFiles(e, fs, pc.done, File(Torn, pid)); }
    }
  }

  lemma HashNearer(e: Env, fs: FileSystem, job: Job, pid: nat, pc: Pc, x: Data)
    requires OnTheWay(e, fs, job, pc) && pc.CreateHash?
    ensures Nearer(e, fs, job, pid, pc, x)
  {}

  lemma StageNearer(e: Env, fs: FileSystem, job: Job, pid: nat, pc: Pc, x: Data)
    requires Injective(e) && OnTheWay(e, fs, job, pc) && (pc.Stage? || pc.Write?)
    ensures Nearer(e, fs, job, pid, pc, x)
  {
    var f := File(if pc.Stage? then Torn else Document(pc.manifest), pid);
    var fs' := Put(e, fs, ManifestPartial, f);
    PutOnlyAt(e, fs, ManifestPartial, f);
    if pc.manifest.mode.Created? {
      UsableStill(e, fs, fs', ManifestPartial, 0, 3);
      NoFinalsStill(e, fs, fs', ManifestPartial, 0);
    }
  }

  lemma MovedFiles(e: Env, fs: FileSystem, i: Artifact)
    requires Injective(e) && Exists(e, fs, ManifestPartial) && NoFinals(e, fs, i) && PartialsUsable(e, fs, i, 3)
    ensures var fs' := Move(e, fs, Partial(i), Final(i));
            Exists(e, fs', ManifestPartial) && NoFinals(e, fs', i + 1) && PartialsUsable(e, fs', i + 1, 3)
  {
    var fs' := Move(e, fs, Partial(i), Final(i));
    forall q | q != Partial(i) && q != Final(i)
      ensures (Exists(e, fs', q) <==> Exists(e, fs, q)) && (Exists(e, fs, q) ==> fs'[e.loc(q)] == fs[e.loc(q)]) {}
  }

  lemma RenameNearer(e: Env, fs: FileSystem, job: Job, pid: nat, pc: Pc, x: Data)
    requires Injective(e) && OnTheWay(e, fs, job, pc) && pc.Rename?
    ensures Nearer(e, fs, job, pid, pc, x)
  {
    if pc.done < 3 && pc.clear { MovedFiles(e, fs, pc.done); }
  }

  lemma StepNearer(e: Env, fs: FileSystem, job: Job, pid: nat, pc: Pc, x: Data)
    requires Injective(e) && Accepted(e, x) && OnTheWay(e, fs, job, pc) && !pc.Done?
    ensures Nearer(e, fs, job, pid, pc, x)
  {
    match pc
    case Probe(_) => ProbeNearer(e, fs, job, pid, pc, x);
    case AdoptWait | AdoptLocked | AdoptHash(_) => AdoptNearer(e, fs, job, pid, pc, x);
    case CreateWait | CreateCheck(_) | CreateStale(_) => CheckNearer(e, fs, job, pid, pc, x);
    case CreateRun(_, _) => RunNearer(e, fs, job, pid, pc, x);
    case CreateHash(_) => HashNearer(e, fs, job, pid, pc, x);
    case Stage(_) => StageNearer(e, fs, job, pid, pc, x);
    case Write(_) => StageNearer(e, fs, job, pid, pc, x);
    case Rename(_, _, _) => RenameNearer(e, fs, job, pid, pc, x);
    case Commit(_) =>
  }

  /******* A process alone *******/

  /** The state in which process 1 runs alone at `pc`. */
  function Alone(fs: FileSystem, job: Job, pc: Pc): State {
    State(fs, if Critical(pc) then Some(1) else None, map[1 := Process(job, pc)], 2)
  }

  /** Only process 1 acts, and its commands write what is accepted. */
  predicate Acts(e: Env, events: seq<Event>) {
    forall i :: 0 <= i < |events| ==> events[i].Act? && events[i].pid == 1 && Accepted(e, events[i].data)
  }

  lemma AloneNext(e: Env, fs: FileSystem, job: Job, pc: Pc, ev: Event)
    requires ev.Act? && ev.pid == 1
    ensures var (fs', pc') := Move1(e, fs, job, 1, pc, ev.data); Next(e, Alone(fs, job, pc), ev) == Alone(fs', job, pc')
  {}

  lemma {:induction false} AloneOnTheWay(e: Env, fs: FileSystem, job: Job, events: seq<Event>)
    returns (now: FileSystem, pc: Pc)
    requires Injective(e) && OnTheWay(e, fs, job, Probe([])) && Acts(e, events)
    ensures Execute(e, fs, [Spawn(job)] + events) == Alone(now, job, pc) && OnTheWay(e, now, job, pc)
    ensures pc.Done? || StepsLeft(job, pc) + |events| == StepsLeft(job, Probe([]))
  {
    var all := [Spawn(job)] + events;
    if events == [] {
      assert all[..|all| - 1] == [] && all[|all| - 1] == Spawn(job);
      now, pc := fs, Probe([]);
    } else {
      var before, last := events[..|events| - 1], events[|events| - 1];
      assert all[..|all| - 1] == [Spawn(job)] + before && all[|all| - 1] == last;
      now, pc := AloneOnTheWay(e, fs, job, before);
      AloneNext(e, now, job, pc, last);
      if !pc.Done? { StepNearer(e, now, job, 1, pc, last.data); }
      var moved := Move1(e, now, job, 1, pc, last.data);
      now, pc := moved.0, moved.1;
    }
  }

  /** A process alone that finds nothing in its way publishes: a creating one from a
      directory without any of its files, in 35 steps, an adopting one from three
      accepted artifacts without a manifest, in 13.  The manifest is its job's. */
  lemma AlonePublishes(e: Env, fs: FileSystem, job: Job, events: seq<Event>)
    requires Injective(e) && Acts(e, events)
    requires if job.adopt then Adoptable(e, fs) else Empty(e, fs)
    requires |events| >= if job.adopt then 13 else 35
    ensures var s := Execute(e, fs, [Spawn(job)] + events);
            && s.procs.Keys == {1} && s.procs[1].job == job && s.procs[1].pc.Done?
            && MadeBy(job, s.procs[1].pc.manifest)
            && IsManifest(e, s.fs, s.procs[1].pc.manifest) && Published(e, s.fs)
  {
    var all := [Spawn(job)] + events;
    var now, pc := AloneOnTheWay(e, fs, job, events);
    SuccessIsPublished(e, fs, all, 1);
    AloneCommits(e, fs, job, events);
  }

  lemma AloneCommits(e: Env, fs: FileSystem, job: Job, events: seq<Event>)
    requires Injective(e) && OnTheWay(e, fs, job, Probe([])) && Acts(e, events)
    requires 1 in Execute(e, fs, [Spawn(job)] + events).procs && Execute(e, fs, [Spawn(job)] + events).procs[1].pc.Done?
    ensures MadeBy(job, Execute(e, fs, [Spawn(job)] + events).procs[1].pc.manifest)
  {
    var all := [Spawn(job)] + events;
    var n := HowItSucceeded(e, fs, all, 1);
    assert all[..n] == [Spawn(job)] + events[..n - 1];
    var before, pc := AloneOnTheWay(e, fs, job, events[..n - 1]);
    var now, last := AloneOnTheWay(e, fs, job, events);
  }

  /******* Starting again *******/

  /** The steps that a process on the reuse path still takes. */
  function ReuseLeft(pc: Pc): nat {
    match pc
    case Probe(seen) => 5 + Rest(4, |seen|)
    case ReuseLoad => 5
    case Reuse(_, i) => 1 + Rest(3, i)
    case _ => 0
  }

  /** How often process `pid` acts. */
  function OwnSteps(events: seq<Event>, pid: nat): nat {
    if events == [] then 0
    else
      var last := events[|events| - 1];
      OwnSteps(events[..|events| - 1], pid) + (if last.Act? && last.pid == pid then 1 else 0)
  }

  lemma ReuseStep(e: Env, s: State, ev: Event, pid: nat, job: Job, m: Manifest)
    requires Published(e, s.fs) && IsManifest(e, s.fs, m) && m.coordinates == job.coordinates
    requires Late(s, pid, job, m) && pid in Next(e, s, ev).procs
    ensures pid in s.procs
    ensures ReuseLeft(Next(e, s, ev).procs[pid].pc)
            == Rest(ReuseLeft(s.procs[pid].pc), if ev.Act? && ev.pid == pid then 1 else 0)
  {
    assert OUTPUTS[3] == ManifestFinal && forall i: nat :: i < 3 ==> OUTPUTS[i] == Final(i);
  }

  lemma {:induction false} ReuseCounted(e: Env, fs: FileSystem, events: seq<Event>, n: nat, m: Manifest)
    requires Injective(e) && Safe(e, fs) && n < |events|
    requires IsManifest(e, Execute(e, fs, events[..n]).fs, m)
    requires events[n].Spawn? && events[n].job.coordinates == m.coordinates
    ensures var pid, now := Execute(e, fs, events[..n]).next, Execute(e, fs, events);
            pid in now.procs ==> ReuseLeft(now.procs[pid].pc) == Rest(9, OwnSteps(events[n + 1..], pid))
    decreases |events|
  {
    var pid, before := Execute(e, fs, events[..n]).next, events[..|events| - 1];
    var s, ev := Execute(e, fs, before), events[|events| - 1];
    if n + 1 == |events| {
      assert before == events[..n] && events[n + 1..] == [];
    } else if pid in Execute(e, fs, events).procs {
      assert before[..n] == events[..n];
      var since := events[n + 1..];
      assert since[..|since| - 1] == before[n + 1..] && since[|since| - 1] == ev;
      LateProcessReuses(e, fs, before, n, m);
      PublishedForever(e, fs, before, n);
      AlwaysSafe(e, fs, before);
      ReuseStep(e, s, ev, pid, events[n].job, m);
      ReuseCounted(e, fs, before, n, m);
    }
  }

  /** Once a process has returned a manifest, a further process with the same coordinates
      is, whatever others do, on its way to returning that manifest or has died, and
      after nine steps of its own it has returned it. */
  lemma AgainReuses(e: Env, fs: FileSystem, events: seq<Event>, n: nat, pid: nat)
    requires Injective(e) && Safe(e, fs) && n < |events| && events[n].Spawn?
    requires pid in Execute(e, fs, events[..n]).procs && Execute(e, fs, events[..n]).procs[pid].pc.Done?
    requires events[n].job.coordinates == Execute(e, fs, events[..n]).procs[pid].job.coordinates
    ensures var first, now := Execute(e, fs, events[..n]), Execute(e, fs, events);
            var m, again := first.procs[pid].pc.manifest, first.next;
            && Late(now, again, events[n].job, m)
            && (again in now.procs && OwnSteps(events[n + 1..], again) >= 9 ==> now.procs[again].pc == Done(m))
  {
    var m := Execute(e, fs, events[..n]).procs[pid].pc.manifest;
    ManifestsBelong(e, fs, events[..n]);
    assert Belongs(Execute(e, fs, events[..n]).procs[pid].job, Done(m));
    SuccessIsPublished(e, fs, events[..n], pid);
    LateProcessReuses(e, fs, events, n, m);
    ReuseCounted(e, fs, events, n, m);
  }
}
