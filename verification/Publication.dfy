/** Publication of three model artifacts and the manifest that binds them, by any
    number of processes that may die between any two steps. */
module Publication {
  import opened Wrappers

  /** The importance matrix, Q5_K_M and Q4_K_M, in the order in which they are made. */
  type Artifact = i: nat | i < 3

  datatype Path =
    | Final(artifact: Artifact)
    | Partial(artifact: Artifact)
    | ManifestFinal
    | ManifestPartial

  datatype Mode = Created | AdoptExisting

  /** Size and SHA-256 of a file. */
  datatype Description = Description(size: nat, sha256: string)

  /** The preparation coordinates a manifest must match to be reused. */
  datatype Manifest = Manifest(mode: Mode, coordinates: string, records: seq<Description>)

  /** `Torn` is what an interrupted write leaves behind. */
  datatype Data = Torn | Model(content: int) | Document(manifest: Manifest)

  /** A file, and the process that wrote it; 0 stands for whoever came before. */
  datatype File = File(data: Data, writer: nat)

  type FileSystem = map<string, File>

  /** Where files live, how they hash, and which data each artifact kind accepts. */
  datatype Env = Env(loc: Path -> string, describe: Data -> Description, accepts: (nat, Data) -> bool)

  datatype Job = Job(adopt: bool, coordinates: string)

  /** The program counter of `prepare_mixed_bit_models`. */
  datatype Pc =
    | Probe(seen: seq<bool>)                            // existence of the artifacts, then of the manifest
    | ReuseLoad
    | Reuse(manifest: Manifest, checked: nat)
    | AdoptWait
    | AdoptLocked
    | AdoptHash(records: seq<Description>)
    | CreateWait
    | CreateCheck(checked: nat)                         // under the lock: no output may exist
    | CreateStale(checked: nat)                         // nor any partial artifact
    | CreateRun(done: nat, started: bool)               // the three commands
    | CreateHash(records: seq<Description>)
    | Stage(manifest: Manifest)                         // no partial manifest may exist
    | Write(manifest: Manifest)                         // the partial manifest is open
    | Rename(manifest: Manifest, done: nat, clear: bool)
    | Commit(manifest: Manifest)
    | Done(manifest: Manifest)
    | Failed

  datatype Process = Process(job: Job, pc: Pc)

  datatype State = State(fs: FileSystem, lock: Option<nat>, procs: map<nat, Process>, next: nat)

  /** `data` is what a command writes; other steps ignore it. */
  datatype Event = Spawn(job: Job) | Act(pid: nat, data: Data) | Die(pid: nat)

  const OUTPUTS: seq<Path> := [Final(0), Final(1), Final(2), ManifestFinal]

  /** The pc holds the exclusive lock. */
  predicate Critical(pc: Pc) {
    || pc.AdoptLocked? || pc.AdoptHash? || pc.CreateCheck? || pc.CreateStale? || pc.CreateRun?
    || pc.CreateHash? || pc.Stage? || pc.Write? || pc.Rename? || pc.Commit?
  }

  predicate Exists(e: Env, fs: FileSystem, p: Path) {
    e.loc(p) in fs
  }

  function Put(e: Env, fs: FileSystem, p: Path, f: File): FileSystem {
    fs[e.loc(p) := f]
  }

  /** `os.replace`: the target is replaced in one step. */
  function Move(e: Env, fs: FileSystem, p: Path, q: Path): FileSystem
    requires Exists(e, fs, p)
  {
    (fs - {e.loc(p)})[e.loc(q) := fs[e.loc(p)]]
  }

  /** After the probes: reuse, adopt, create, or refuse. */
  function Decide(job: Job, seen: seq<bool>): Pc
    requires |seen| == 4
  {
    var all := seen[0] && seen[1] && seen[2];
    var any := seen[0] || seen[1] || seen[2];
    if seen[3] then (if all then ReuseLoad else Failed)
    else if any && !all then Failed
    else if all then (if job.adopt then AdoptWait else Failed)
    else if job.adopt then Failed
    else CreateWait
  }

  predicate Usable(e: Env, fs: FileSystem, p: Path, i: nat) {
    Exists(e, fs, p) && e.accepts(i, fs[e.loc(p)].data)
  }

  predicate Matches(e: Env, fs: FileSystem, p: Path, i: nat, d: Description) {
    Usable(e, fs, p, i) && e.describe(fs[e.loc(p)].data) == d
  }

  /** One step of one process: the new files and the new pc. */
  function Move1(e: Env, fs: FileSystem, job: Job, pid: nat, pc: Pc, x: Data): (FileSystem, Pc) {
    match pc
    case Probe(seen) =>
      if |seen| > 3 then (fs, Failed)
      else
        var seen' := seen + [Exists(e, fs, OUTPUTS[|seen|])];
        (fs, if |seen'| == 4 then Decide(job, seen') else Probe(seen'))
    case ReuseLoad =>
      if Exists(e, fs, ManifestFinal) && fs[e.loc(ManifestFinal)].data.Document?
         && fs[e.loc(ManifestFinal)].data.manifest.coordinates == job.coordinates
      then (fs, Reuse(fs[e.loc(ManifestFinal)].data.manifest, 0))
      else (fs, Failed)
    case Reuse(m, i) =>
      if i >= 3 then (fs, Done(m))
      else if i < |m.records| && Matches(e, fs, Final(i), i, m.records[i]) then (fs, Reuse(m, i + 1))
      else (fs, Failed)
    case AdoptWait => (fs, AdoptLocked)
    case AdoptLocked => (fs, if Exists(e, fs, ManifestFinal) then Failed else AdoptHash([]))
    case AdoptHash(records) =>
      if |records| >= 3 then (fs, Stage(Manifest(AdoptExisting, job.coordinates, records)))
      else if Usable(e, fs, Final(|records|), |records|) then
        (fs, AdoptHash(records + [e.describe(fs[e.loc(Final(|records|))].data)]))
      else (fs, Failed)
    case CreateWait => (fs, CreateCheck(0))
    case CreateCheck(i) =>
      if i >= 4 then (fs, CreateStale(0))
      else (fs, if Exists(e, fs, OUTPUTS[i]) then Failed else CreateCheck(i + 1))
    case CreateStale(i) =>
      if i >= 3 then (fs, CreateRun(0, false))
      else (fs, if Exists(e, fs, Partial(i)) then Failed else CreateStale(i + 1))
    case CreateRun(i, started) =>
      if i >= 3 then (fs, CreateHash([]))
      else if !started then (Put(e, fs, Partial(i), File(Torn, pid)), CreateRun(i, true))
      else (Put(e, fs, Partial(i), File(x, pid)),
            if i == 0 && !e.accepts(0, x) then Failed else CreateRun(i + 1, false))
    case CreateHash(records) =>
      if |records| >= 3 then (fs, Stage(Manifest(Created, job.coordinates, records)))
      else if Usable(e, fs, Partial(|records|), |records|) then
        (fs, CreateHash(records + [e.describe(fs[e.loc(Partial(|records|))].data)]))
      else (fs, Failed)
    case Stage(m) =>
      if Exists(e, fs, ManifestPartial) then (fs, Failed)
      else (Put(e, fs, ManifestPartial, File(Torn, pid)), Write(m))
    case Write(m) =>
      (Put(e, fs, ManifestPartial, File(Document(m), pid)),
       if m.mode.Created? then Rename(m, 0, false) else Commit(m))
    case Rename(m, i, clear) =>
      if i >= 3 then (fs, Commit(m))
      else if !clear then (fs, if Exists(e, fs, Final(i)) then Failed else Rename(m, i, true))
      else if Exists(e, fs, Partial(i)) then (Move(e, fs, Partial(i), Final(i)), Rename(m, i + 1, false))
      else (fs, Failed)
    case Commit(m) =>
      if Exists(e, fs, ManifestPartial) then (Move(e, fs, ManifestPartial, ManifestFinal), Done(m))
      else (fs, Failed)
    case Done(_) => (fs, pc)
    case Failed => (fs, pc)
  }

  predicate Waiting(pc: Pc) {
    pc.AdoptWait? || pc.CreateWait?
  }

  function Release(lock: Option<nat>, pid: nat): Option<nat> {
    if lock == Some(pid) then None else lock
  }

  function ActState(e: Env, s: State, pid: nat, x: Data): State
    requires pid in s.procs
  {
    var p := s.procs[pid];
    if Waiting(p.pc) && s.lock.Some? then s
    else
      var (fs, pc) := Move1(e, s.fs, p.job, pid, p.pc, x);
      State(fs,
            if Critical(pc) then Some(pid) else Release(s.lock, pid),
            s.procs[pid := Process(p.job, pc)],
            s.next)
  }

  function Next(e: Env, s: State, ev: Event): State {
    match ev
    case Spawn(job) => State(s.fs, s.lock, s.procs[s.next := Process(job, Probe([]))], s.next + 1)
    case Act(pid, x) => if pid in s.procs then ActState(e, s, pid, x) else s
    case Die(pid) => State(s.fs, Release(s.lock, pid), s.procs - {pid}, s.next)
  }

  function Start(fs: FileSystem): State {
    State(fs, None, map[], 1)
  }

  function Execute(e: Env, fs: FileSystem, events: seq<Event>): State {
    if events == [] then Start(fs)
    else Next(e, Execute(e, fs, events[..|events| - 1]), events[|events| - 1])
  }

  /******* What is to be shown *******/

  ghost predicate Injective(e: Env) {
    forall p, q :: e.loc(p) == e.loc(q) ==> p == q
  }

  predicate FinalsMatch(e: Env, fs: FileSystem, m: Manifest, n: nat) {
    && |m.records| == 3
    && forall i :: 0 <= i < n && i < 3 ==> Matches(e, fs, Final(i), i, m.records[i])
  }

  predicate FinalsWrittenBy(e: Env, fs: FileSystem, pid: nat, n: nat) {
    forall i :: 0 <= i < n && i < 3 ==> Exists(e, fs, Final(i)) && fs[e.loc(Final(i))].writer == pid
  }

  /** The manifest at its final path is whole, its three artifacts are in place with
      the recorded sizes and hashes, and a created one binds files of one attempt. */
  predicate Published(e: Env, fs: FileSystem) {
    && Exists(e, fs, ManifestFinal)
    && fs[e.loc(ManifestFinal)].data.Document?
    && FinalsMatch(e, fs, fs[e.loc(ManifestFinal)].data.manifest, 3)
    && (fs[e.loc(ManifestFinal)].data.manifest.mode.Created? ==>
          FinalsWrittenBy(e, fs, fs[e.loc(ManifestFinal)].writer, 3))
  }

  predicate Safe(e: Env, fs: FileSystem) {
    Exists(e, fs, ManifestFinal) ==> Published(e, fs)
  }

  /******* The inductive invariant *******/

  predicate NoOutputs(e: Env, fs: FileSystem, n: nat) {
    forall i :: 0 <= i < n && i < 4 ==> !Exists(e, fs, OUTPUTS[i])
  }

  predicate PartialsBy(e: Env, fs: FileSystem, pid: nat, lo: nat, hi: nat) {
    forall i :: lo <= i < hi && i < 3 ==> Exists(e, fs, Partial(i)) && fs[e.loc(Partial(i))].writer == pid
  }

  predicate PartialsMatch(e: Env, fs: FileSystem, records: seq<Description>, lo: nat) {
    forall i :: lo <= i < |records| && i < 3 ==> Matches(e, fs, Partial(i), i, records[i])
  }

  predicate StagedBy(e: Env, fs: FileSystem, m: Manifest, pid: nat) {
    Exists(e, fs, ManifestPartial) && fs[e.loc(ManifestPartial)] == File(Document(m), pid)
  }

  predicate Unpublished(e: Env, fs: FileSystem) {
    !Exists(e, fs, ManifestFinal)
  }

  /** The files a manifest describes, before any artifact is renamed. */
  predicate Described(e: Env, fs: FileSystem, m: Manifest, pid: nat) {
    && |m.records| == 3 && Unpublished(e, fs)
    && (if m.mode.Created? then
          NoOutputs(e, fs, 4) && PartialsBy(e, fs, pid, 0, 3) && PartialsMatch(e, fs, m.records, 0)
        else FinalsMatch(e, fs, m, 3))
  }

  /** A matching file of this process, at a path the move leaves alone. */
  predicate Kept(e: Env, fs: FileSystem, pid: nat, p: Path, i: nat, d: Description) {
    Matches(e, fs, p, i, d) && fs[e.loc(p)].writer == pid
  }

  /** The first `i` artifacts are in place, the others still partial, all by this process. */
  predicate Boundary(e: Env, fs: FileSystem, m: Manifest, i: nat, pid: nat) {
    && |m.records| == 3
    && (forall j :: 0 <= j < i && j < 3 ==> Kept(e, fs, pid, Final(j), j, m.records[j]))
    && (forall j :: i <= j < 3 ==> Kept(e, fs, pid, Partial(j), j, m.records[j]))
  }

  /** What the lock holder knows about the files. */
  predicate HolderKnows(e: Env, fs: FileSystem, pid: nat, pc: Pc) {
    match pc
    case AdoptHash(records) =>
      && Unpublished(e, fs) && |records| <= 3
      && forall i :: 0 <= i < |records| ==> Matches(e, fs, Final(i), i, records[i])
    case CreateCheck(i) => NoOutputs(e, fs, i)
    case CreateStale(_) => NoOutputs(e, fs, 4)
    case CreateRun(i, _) => NoOutputs(e, fs, 4) && PartialsBy(e, fs, pid, 0, i)
    case CreateHash(records) =>
      NoOutputs(e, fs, 4) && PartialsBy(e, fs, pid, 0, 3) && |records| <= 3 && PartialsMatch(e, fs, records, 0)
    case Stage(m) => Described(e, fs, m, pid)
    case Write(m) => Described(e, fs, m, pid)
    case Rename(m, i, _) =>
      && m.mode.Created? && Unpublished(e, fs) && StagedBy(e, fs, m, pid)
      && i <= 3 && Boundary(e, fs, m, i, pid)
    case Commit(m) =>
      && Unpublished(e, fs) && StagedBy(e, fs, m, pid) && FinalsMatch(e, fs, m, 3)
      && (m.mode.Created? ==> FinalsWrittenBy(e, fs, pid, 3))
    case _ => true
  }

  predicate LockExact(s: State) {
    forall pid :: pid in s.procs ==> (s.lock == Some(pid) <==> Critical(s.procs[pid].pc))
  }

  predicate Inv(e: Env, s: State) {
    && Safe(e, s.fs)
    && (s.lock.Some? ==> s.lock.value in s.procs)
    && LockExact(s)
    && (forall pid :: pid in s.procs ==> pid < s.next)
    && (s.lock.Some? && s.lock.value in s.procs ==> HolderKnows(e, s.fs, s.lock.value, s.procs[s.lock.value].pc))
  }

  /** The step's outcome is safe and re-establishes what the holder knows. */
  predicate GoodStep(e: Env, fs: FileSystem, job: Job, pid: nat, pc: Pc, x: Data) {
    var (fs', pc') := Move1(e, fs, job, pid, pc, x);
    Safe(e, fs') && (Critical(pc') ==> HolderKnows(e, fs', pid, pc'))
  }

  lemma AdoptStep(e: Env, fs: FileSystem, job: Job, pid: nat, pc: Pc, x: Data)
    requires Safe(e, fs) && (pc.AdoptLocked? || pc.AdoptHash?) && HolderKnows(e, fs, pid, pc)
    ensures GoodStep(e, fs, job, pid, pc, x)
  {}

  lemma CheckStep(e: Env, fs: FileSystem, job: Job, pid: nat, pc: Pc, x: Data)
    requires Safe(e, fs) && (pc.CreateCheck? || pc.CreateStale?) && HolderKnows(e, fs, pid, pc)
    ensures GoodStep(e, fs, job, pid, pc, x)
  {}

  lemma RunStep(e: Env, fs: FileSystem, job: Job, pid: nat, pc: Pc, x: Data)
    requires Injective(e) && pc.CreateRun? && HolderKnows(e, fs, pid, pc)
    ensures GoodStep(e, fs, job, pid, pc, x)
  {
    assert OUTPUTS[3] == ManifestFinal;
  }

  lemma HashStep(e: Env, fs: FileSystem, job: Job, pid: nat, pc: Pc, x: Data)
    requires Safe(e, fs) && pc.CreateHash? && HolderKnows(e, fs, pid, pc)
    ensures GoodStep(e, fs, job, pid, pc, x)
  {
    assert OUTPUTS[3] == ManifestFinal;
  }

  /** Writing the partial manifest touches nothing a description talks about. */
  lemma StagePreserves(e: Env, fs: FileSystem, m: Manifest, pid: nat, f: File)
    requires Injective(e) && Described(e, fs, m, pid)
    ensures Described(e, Put(e, fs, ManifestPartial, f), m, pid)
    ensures Safe(e, Put(e, fs, ManifestPartial, f))
  {
    var fs' := Put(e, fs, ManifestPartial, f);
    assert forall p :: p != ManifestPartial ==>
        (e.loc(p) in fs' <==> e.loc(p) in fs) && (e.loc(p) in fs ==> fs'[e.loc(p)] == fs[e.loc(p)]);
  }

  /** With the staged manifest written, renaming or committing can begin. */
  lemma WriteStep(e: Env, fs: FileSystem, m: Manifest, pid: nat)
    requires Injective(e) && Described(e, fs, m, pid)
    ensures var fs' := Put(e, fs, ManifestPartial, File(Document(m), pid));
            && Safe(e, fs') && Unpublished(e, fs') && StagedBy(e, fs', m, pid)
            && (if m.mode.Created? then Boundary(e, fs', m, 0, pid) else FinalsMatch(e, fs', m, 3))
  {
    StagePreserves(e, fs, m, pid, File(Document(m), pid));
  }

  lemma StageStep(e: Env, fs: FileSystem, job: Job, pid: nat, pc: Pc, x: Data)
    requires Injective(e) && Safe(e, fs) && (pc.Stage? || pc.Write?) && HolderKnows(e, fs, pid, pc)
    ensures GoodStep(e, fs, job, pid, pc, x)
  {
    match pc
    case Stage(m) => StagePreserves(e, fs, m, pid, File(Torn, pid));
    case Write(m) => WriteStep(e, fs, m, pid);
  }

  lemma KeptByMove(e: Env, fs: FileSystem, from: Path, to: Path, pid: nat, p: Path, i: nat, d: Description)
    requires Injective(e) && Exists(e, fs, from) && p != from && p != to && Kept(e, fs, pid, p, i, d)
    ensures Kept(e, Move(e, fs, from, to), pid, p, i, d)
  {}

  lemma KeptArrives(e: Env, fs: FileSystem, from: Path, to: Path, pid: nat, i: nat, d: Description)
    requires Kept(e, fs, pid, from, i, d)
    ensures Kept(e, Move(e, fs, from, to), pid, to, i, d)
  {}

  lemma BoundaryMoves(e: Env, fs: FileSystem, m: Manifest, i: nat, pid: nat)
    requires Injective(e) && i < 3 && Boundary(e, fs, m, i, pid)
    ensures Exists(e, fs, Partial(i))
    ensures Boundary(e, Move(e, fs, Partial(i), Final(i)), m, i + 1, pid)
  {
    assert Kept(e, fs, pid, Partial(i), i, m.records[i]);
    var fs' := Move(e, fs, Partial(i), Final(i));
    forall j | 0 <= j < i + 1 ensures Kept(e, fs', pid, Final(j), j, m.records[j]) {
      if j < i { KeptByMove(e, fs, Partial(i), Final(i), pid, Final(j), j, m.records[j]); }
      else { KeptArrives(e, fs, Partial(i), Final(i), pid, i, m.records[i]); }
    }
    forall j | i < j < 3 ensures Kept(e, fs', pid, Partial(j), j, m.records[j]) {
      KeptByMove(e, fs, Partial(i), Final(i), pid, Partial(j), j, m.records[j]);
    }
  }

  lemma RenameFiles(e: Env, fs: FileSystem, m: Manifest, i: nat, pid: nat)
    requires Injective(e) && i < 3 && HolderKnows(e, fs, pid, Rename(m, i, true))
    ensures Exists(e, fs, Partial(i))
    ensures HolderKnows(e, Move(e, fs, Partial(i), Final(i)), pid, Rename(m, i + 1, false))
  {
    BoundaryMoves(e, fs, m, i, pid);
  }

  lemma RenameStep(e: Env, fs: FileSystem, job: Job, pid: nat, pc: Pc, x: Data)
    requires Injective(e) && Safe(e, fs) && pc.Rename? && HolderKnows(e, fs, pid, pc)
    ensures GoodStep(e, fs, job, pid, pc, x)
  {
    if pc.done < 3 && pc.clear { RenameFiles(e, fs, pc.manifest, pc.done, pid); }
  }

  /** Renaming the staged manifest publishes it. */
  lemma CommitPublishes(e: Env, fs: FileSystem, pid: nat, m: Manifest)
    requires Injective(e) && StagedBy(e, fs, m, pid) && FinalsMatch(e, fs, m, 3)
    requires m.mode.Created? ==> FinalsWrittenBy(e, fs, pid, 3)
    ensures Published(e, Move(e, fs, ManifestPartial, ManifestFinal))
  {
    var fs' := Move(e, fs, ManifestPartial, ManifestFinal);
    forall i: nat | i < 3 && Exists(e, fs, Final(i))
      ensures Exists(e, fs', Final(i)) && fs'[e.loc(Final(i))] == fs[e.loc(Final(i))]
    {
      assert Final(i) != ManifestPartial && Final(i) != ManifestFinal;
    }
  }

  lemma CommitStep(e: Env, fs: FileSystem, job: Job, pid: nat, pc: Pc, x: Data)
    requires Injective(e) && pc.Commit? && HolderKnows(e, fs, pid, pc)
    ensures GoodStep(e, fs, job, pid, pc, x)
  {
    CommitPublishes(e, fs, pid, pc.manifest);
  }

  /** One step of the lock holder keeps the published files safe, and re-establishes
      what it knows for its next step. */
  lemma HolderStep(e: Env, fs: FileSystem, job: Job, pid: nat, pc: Pc, x: Data)
    requires Injective(e) && Safe(e, fs) && Critical(pc) && HolderKnows(e, fs, pid, pc)
    ensures GoodStep(e, fs, job, pid, pc, x)
  {
    match pc
    case AdoptLocked => AdoptStep(e, fs, job, pid, pc, x);
    case AdoptHash(_) => AdoptStep(e, fs, job, pid, pc, x);
    case CreateCheck(_) => CheckStep(e, fs, job, pid, pc, x);
    case CreateStale(_) => CheckStep(e, fs, job, pid, pc, x);
    case CreateRun(_, _) => RunStep(e, fs, job, pid, pc, x);
    case CreateHash(_) => HashStep(e, fs, job, pid, pc, x);
    case Rename(_, _, _) => RenameStep(e, fs, job, pid, pc, x);
    case Commit(_) => CommitStep(e, fs, job, pid, pc, x);
    case _ => StageStep(e, fs, job, pid, pc, x);
  }

  /** Only a waiting process enters the critical section, and it starts from scratch. */
  lemma EnterKnowsNothing(e: Env, fs: FileSystem, job: Job, pid: nat, pc: Pc, x: Data)
    requires !Critical(pc)
    ensures var pc' := Move1(e, fs, job, pid, pc, x).1;
            Critical(pc') ==> Waiting(pc) && HolderKnows(e, fs, pid, pc')
  {}
}
