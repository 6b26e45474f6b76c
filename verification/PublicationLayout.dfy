/** The paths of one preparation, and exactly when the protocol's eight files are eight. */
module PublicationLayout {
  import opened Wrappers
  import opened Publication
  import opened PublicationRuns

  datatype Layout = Layout(imatrix: string, q5: string, q4: string, manifest: string)

  function ArtifactPath(l: Layout, i: Artifact): string {
    if i == 0 then l.imatrix else if i == 1 then l.q5 else l.q4
  }

  const PARTIAL_SUFFIX := ".partial"

  function PathOf(l: Layout, p: Path): string {
    match p
    case Final(i) => ArtifactPath(l, i)
    case Partial(i) => ArtifactPath(l, i) + PARTIAL_SUFFIX
    case ManifestFinal => l.manifest
    case ManifestPartial => l.manifest + PARTIAL_SUFFIX
  }

  /** `path.suffix.lower() == ".gguf"`; a name that starts with its only point has no suffix. */
  predicate GgufSuffix(path: string) {
    |path| > 5 && path[|path| - 6] != '/' && path[|path| - 5] == '.' && path[|path| - 4] in "gG"
    && path[|path| - 3] in "gG" && path[|path| - 2] in "uU" && path[|path| - 1] in "fF"
  }

  function LowerChar(c: char): char {
    if 'A' <= c <= 'Z' then c + 'a' - 'A' else c
  }

  function Lower(s: string): string {
    if s == "" then "" else [LowerChar(s[0])] + Lower(s[1..])
  }

  /** The suffix is judged by its letters, in either case, behind a name. */
  lemma SuffixIff(path: string)
    ensures GgufSuffix(path)
       <==> |path| > 5 && path[|path| - 6] != '/' && Lower(path[|path| - 5..]) == ".gguf"
  {
    if |path| > 5 {
      var s := path[|path| - 5..];
      assert Lower(s) == [LowerChar(s[0]), LowerChar(s[1]), LowerChar(s[2]), LowerChar(s[3]), LowerChar(s[4])] by {
        LowerStep(s); LowerStep(s[1..]); LowerStep(s[2..]); LowerStep(s[3..]); LowerStep(s[4..]);
      }
    }
  }

  lemma LowerStep(s: string)
    requires s != ""
    ensures Lower(s) == [LowerChar(s[0])] + Lower(s[1..])
  {}

  /** The checks made before anything is read: four distinct outputs, GGUF suffixes. */
  predicate AcceptedLayout(l: Layout) {
    && Unique([l.imatrix, l.q5, l.q4, l.manifest])
    && GgufSuffix(l.imatrix) && GgufSuffix(l.q5) && GgufSuffix(l.q4)
  }

  /** The manifest path is not the partial path of an artifact.  The checks omit this. */
  predicate ManifestApart(l: Layout) {
    forall i: Artifact :: l.manifest != ArtifactPath(l, i) + ".partial"
  }

  lemma SuffixInjective(a: string, b: string)
    requires a + PARTIAL_SUFFIX == b + PARTIAL_SUFFIX
    ensures a == b
  {
    assert |a| == |b|;
    forall i | 0 <= i < |a| ensures a[i] == b[i] {
      assert (a + PARTIAL_SUFFIX)[i] == (b + PARTIAL_SUFFIX)[i];
    }
  }

  lemma ArtifactsDistinct(l: Layout, i: Artifact, j: Artifact)
    requires AcceptedLayout(l) && ArtifactPath(l, i) == ArtifactPath(l, j)
    ensures i == j
  {
    var all := [l.imatrix, l.q5, l.q4, l.manifest];
    assert all[i] == ArtifactPath(l, i) && all[j] == ArtifactPath(l, j);
  }

  lemma PathsDistinct(l: Layout, p: Path, q: Path)
    requires AcceptedLayout(l) && ManifestApart(l) && PathOf(l, p) == PathOf(l, q)
    ensures p == q
  {
    var all := [l.imatrix, l.q5, l.q4, l.manifest];
    assert all[3] == l.manifest && forall i: Artifact :: all[i] == ArtifactPath(l, i);
    match (p, q)
    case (Final(i), Final(j)) => ArtifactsDistinct(l, i, j);
    case (Final(i), Partial(j)) =>
    case (Partial(i), Final(j)) =>
    case (Final(i), ManifestPartial) =>
    case (ManifestPartial, Final(j)) =>
    case (Partial(i), Partial(j)) =>
      SuffixInjective(ArtifactPath(l, i), ArtifactPath(l, j));
      ArtifactsDistinct(l, i, j);
    case (Partial(i), ManifestPartial) => SuffixInjective(ArtifactPath(l, i), l.manifest);
    case (ManifestPartial, Partial(j)) => SuffixInjective(l.manifest, ArtifactPath(l, j));
    case _ =>
  }

  /******* The run that goes wrong when the manifest is an artifact's partial *******/

  function EnvOf(l: Layout, describe: Data -> Description, accepts: (nat, Data) -> bool): Env {
    Env(p => PathOf(l, p), describe, accepts)
  }

  /** One creating process alone, `k` steps after its start on an empty file system. */
  function SoloPc(k: nat): Pc {
    if k < 4 then Probe(seq(k, _ => false))
    else if k == 4 then CreateWait
    else if k < 10 then CreateCheck(k - 5)
    else if k < 14 then CreateStale(k - 10)
    else CreateRun((k - 14) / 2, (k - 14) % 2 == 1)
  }

  function SoloFiles(e: Env, k: nat, x: Data): FileSystem
    requires k <= 19
  {
    if k < 15 then map[]
    else Put(e, SoloFiles(e, k - 1, x), Partial((k - 15) / 2), File(if k % 2 == 1 then Torn else x, 1))
  }

  const SOLO_JOB := Job(false, "")

  function SoloEvents(k: nat, x: Data): seq<Event> {
    if k == 0 then [Spawn(SOLO_JOB)] else SoloEvents(k - 1, x) + [Act(1, x)]
  }

  lemma SoloStep(e: Env, k: nat, x: Data)
    requires k < 19 && e.accepts(0, x)
    ensures Move1(e, SoloFiles(e, k, x), SOLO_JOB, 1, SoloPc(k), x) == (SoloFiles(e, k + 1, x), SoloPc(k + 1))
  {
    if k < 4 {
      var seen := seq(k, _ => false);
      assert seen + [false] == seq(k + 1, _ => false);
      assert Move1(e, map[], SOLO_JOB, 1, Probe(seen), x)
          == (map[], if k == 3 then Decide(SOLO_JOB, seen + [false]) else Probe(seen + [false]));
    } else if k < 14 {
      assert SoloFiles(e, k, x) == map[];
    } else {
      assert (k + 1 - 15) / 2 == (k - 14) / 2;
    }
  }

  /** A process that is alone acts as its program counter says. */
  lemma SoloAct(e: Env, s: State, pc: Pc, fs: FileSystem, pc': Pc, x: Data)
    requires s.procs == map[1 := Process(SOLO_JOB, pc)] && s.lock == (if Critical(pc) then Some(1) else None)
    requires Move1(e, s.fs, SOLO_JOB, 1, pc, x) == (fs, pc')
    ensures ActState(e, s, 1, x)
         == State(fs, if Critical(pc') then Some(1) else None, map[1 := Process(SOLO_JOB, pc')], s.next)
  {}

  lemma {:induction false} SoloRun(e: Env, k: nat, x: Data)
    requires k <= 19 && e.accepts(0, x)
    ensures var s := Execute(e, map[], SoloEvents(k, x));
            && s.fs == SoloFiles(e, k, x)
            && s.procs == map[1 := Process(SOLO_JOB, SoloPc(k))]
            && s.lock == (if Critical(SoloPc(k)) then Some(1) else None)
  {
    var events := SoloEvents(k, x);
    if k == 0 {
      assert events[..0] == [];
      assert Execute(e, map[], events) == Next(e, Start(map[]), Spawn(SOLO_JOB));
      assert seq(0, _ => false) == [];
    } else {
      assert events[..|events| - 1] == SoloEvents(k - 1, x);
      SoloRun(e, k - 1, x);
      var s := Execute(e, map[], SoloEvents(k - 1, x));
      SoloStep(e, k - 1, x);
      SoloAct(e, s, SoloPc(k - 1), SoloFiles(e, k, x), SoloPc(k), x);
      assert Execute(e, map[], events) == ActState(e, s, 1, x);
    }
  }

  lemma SoloTorn(e: Env, k: nat, i: Artifact, x: Data)
    requires k == 15 + 2 * i
    ensures SoloFiles(e, k, x) == Put(e, SoloFiles(e, k - 1, x), Partial(i), File(Torn, 1))
  {
    assert (k - 15) / 2 == i && k % 2 == 1;
  }

  /** When the manifest path is the partial path of artifact `i`, starting that
      artifact's command alone already leaves a torn file at the manifest path. */
  lemma OverlapIsUnsafe(e: Env, k: nat, i: Artifact, x: Data)
    requires k == 15 + 2 * i
    requires e.loc(ManifestFinal) == e.loc(Partial(i)) && e.accepts(0, x)
    ensures !Safe(e, Execute(e, map[], SoloEvents(k, x)).fs)
  {
    SoloRun(e, k, x);
    SoloTorn(e, k, i, x);
  }

  /** For layouts that pass the checks, the protocol is safe in every execution
      exactly when the manifest path is not an artifact's partial path. */
  lemma SafeIffManifestApart(l: Layout, describe: Data -> Description, accepts: (nat, Data) -> bool, x: Data)
    requires AcceptedLayout(l) && accepts(0, x)
    ensures (forall events :: Safe(EnvOf(l, describe, accepts), Execute(EnvOf(l, describe, accepts), map[], events).fs))
       <==> ManifestApart(l)
  {
    var e := EnvOf(l, describe, accepts);
    if ManifestApart(l) {
      forall p, q | e.loc(p) == e.loc(q) ensures p == q {
        PathsDistinct(l, p, q);
      }
      forall events ensures Safe(e, Execute(e, map[], events).fs) {
        AlwaysSafe(e, map[], events);
      }
    } else {
      var i: Artifact :| l.manifest == ArtifactPath(l, i) + ".partial";
      OverlapIsUnsafe(e, 15 + 2 * i, i, x);
    }
  }
}
