/** Experiment bundles: a view of one experiment that can be rebuilt from its sources. */
module Bundle {
  import opened Wrappers
  import opened Ranking

  /** The code points of a task-relative path. */
  type Path = seq<nat>

  datatype Role =
    | Spec | Change | Build | Benchmark | Quality | Profile | Baseline | Decision | Environment | Log
    | AttemptFile | SummaryFile | OtherFile

  datatype Kind = Runner | E2eRerun | ExtendedPair | QualityRun | ProfileRun

  datatype Ref = Ref(path: Path, sha256: string, size: nat, createdAt: nat)

  datatype Entry = Entry(artifact: Ref, role: Role, attempt: Option<string>, current: bool)

  datatype Attempt = Attempt(kind: Kind, id: string, status: string, selected: bool, evidence: seq<Ref>)

  datatype Index = Index(attempts: seq<Attempt>, selected: map<Kind, string>)

  datatype Summary = Summary(count: nat, digest: string, selected: map<Kind, string>, description: string,
    updatedAt: nat)

  datatype Manifest = Manifest(digest: string, summary: Ref, attempts: Ref, artifacts: seq<Entry>, publishedAt: nat)

  /** The canonical JSON of each document stands for the document itself. */
  datatype Content = Raw(bytes: string) | IndexDoc(index: Index) | SummaryDoc(summary: Summary)
    | ManifestDoc(manifest: Manifest)

  datatype Stored = Stored(ref: Ref, content: Content)

  /** The registered files of a task. */
  type Files = map<Path, Stored>

  /******* What a refresh reads besides the files *******/

  /** One attempt as its directory or state file shows it, with the id that it records
      for itself, if any. */
  datatype Trial = Trial(id: string, status: string, terminal: bool, directory: Path, recorded: Option<string>)

  /** One attempt of the profile state, whose id may be missing or empty. */
  datatype ProfileTrial = ProfileTrial(id: Option<string>, status: string, evidence: Option<Path>)

  datatype Choice = Choice(path: Path, isBaseline: bool, isProfileState: bool)

  datatype Env = Env(
    index: Path, summary: Path, manifest: Path, provenance: Path,
    owned: Path -> bool,
    roleOf: Path -> Role,
    coordinateOf: Path -> Option<(Kind, string)>,
    isRunnerResult: Path -> bool,
    runnerEvidence: Path -> bool,
    runner: Trial,
    reruns: seq<Trial>, pairs: seq<Trial>, qualities: seq<Trial>,
    profiles: seq<ProfileTrial>,
    choices: seq<Choice>,
    hash: Content -> string,
    size: Content -> nat,
    digest: seq<Entry> -> string,
    describe: Files -> Option<string>)

  /** The three files that a refresh writes are different files, and none of them is the
      provenance of the model. */
  predicate Distinct(env: Env) {
    && env.index != env.summary && env.index != env.manifest && env.summary != env.manifest
    && !Derived(env, env.provenance)
  }

  predicate Derived(env: Env, p: Path) {
    p == env.index || p == env.summary || p == env.manifest
  }

  predicate Verified(env: Env, files: Files, ref: Ref) {
    && ref.path in files
    && env.hash(files[ref.path].content) == ref.sha256 && env.size(files[ref.path].content) == ref.size
  }

  /******* Source entries *******/

  function AttemptId(env: Env, p: Path): Option<string> {
    match env.coordinateOf(p)
    case None => None
    case Some(c) => Some(c.1)
  }

  type Entries = map<Path, Entry>

  /** The registered files of the experiment, without the derived ones. */
  function OwnedEntries(env: Env, files: Files): Entries {
    map p | p in files && env.owned(p) && !Derived(env, p)
      :: Entry(files[p].ref, env.roleOf(p), AttemptId(env, p), true)
  }

  function ChoiceRole(env: Env, c: Choice): Role {
    if c.isBaseline then Baseline else if c.isProfileState then Profile else env.roleOf(c.path)
  }

  function ChoiceEntry(env: Env, files: Files, c: Choice): Entry
    requires c.path in files
  {
    Entry(files[c.path].ref, ChoiceRole(env, c), AttemptId(env, c.path), true)
  }

  datatype BundleError = NotRegistered | Corrupt | QualityMisnamed | Undescribed

  /** The selected evidence, which must be registered; later entries replace earlier ones. */
  function AddChoices(env: Env, files: Files, choices: seq<Choice>, entries: Entries): (r: Result<Entries, BundleError>)
    ensures r.Err? ==> r.error.NotRegistered?
  {
    if choices == [] then Ok(entries)
    else
      var c := choices[0];
      if c.path !in files then Err(NotRegistered)
      else AddChoices(env, files, choices[1..], entries[c.path := ChoiceEntry(env, files, c)])
  }

  /** The position of the last element that satisfies `p`, or the length. */
  function Last<T>(xs: seq<T>, p: T -> bool): (k: nat)
    ensures k <= |xs|
    ensures k < |xs| ==> p(xs[k])
    ensures k < |xs| ==> forall j :: k < j < |xs| ==> !p(xs[j])
    ensures k == |xs| ==> forall j :: 0 <= j < |xs| ==> !p(xs[j])
  {
    if xs == [] then 0
    else if p(xs[|xs| - 1]) then |xs| - 1
    else
      var k := Last(xs[..|xs| - 1], p);
      if k == |xs| - 1 then |xs| else k
  }

  predicate Succeeded(t: ProfileTrial) {
    t.status == "succeeded"
  }

  /** `str.removesuffix(".json")`. */
  function WithoutSuffix(s: string): string {
    if |s| >= 5 && s[|s| - 5..] == ".json" then s[..|s| - 5] else s
  }

  /** The id of a profile attempt on its entry: `str(id or "") or None`. */
  function EntryId(t: ProfileTrial): Option<string> {
    if t.id == Some("") then None else t.id
  }

  /** The id by which entries are flagged at first: `str(id)`. */
  function FlagId(t: ProfileTrial): string {
    if t.id.None? then "None" else t.id.value
  }

  /** The id in the index: `str(id or "unknown").removesuffix(".json")`. */
  function IndexId(t: ProfileTrial): string {
    WithoutSuffix(if EntryId(t).None? then "unknown" else t.id.value)
  }

  function SelectedProfile(env: Env): Option<string> {
    var k := Last(env.profiles, Succeeded);
    if k == |env.profiles| then None else Some(FlagId(env.profiles[k]))
  }

  function ProfileEntry(env: Env, files: Files, t: ProfileTrial): Entry
    requires t.evidence.Some? && t.evidence.value in files
  {
    Entry(files[t.evidence.value].ref, Profile, EntryId(t), Some(FlagId(t)) == SelectedProfile(env))
  }

  function AddProfiles(env: Env, files: Files, trials: seq<ProfileTrial>, entries: Entries): Entries {
    if trials == [] then entries
    else
      var t := trials[0];
      AddProfiles(env, files, trials[1..],
                  if t.evidence.Some? && t.evidence.value in files
                  then entries[t.evidence.value := ProfileEntry(env, files, t)] else entries)
  }

  predicate AllVerified(env: Env, files: Files, entries: Entries) {
    forall p :: p in entries ==> Verified(env, files, entries[p].artifact)
  }

  /** `_source_entries`, by path. */
  function SourceEntries(env: Env, files: Files): (r: Result<Entries, BundleError>)
    ensures r.Err? ==> r.error.NotRegistered? || r.error.Corrupt?
  {
    match AddChoices(env, files, env.choices, OwnedEntries(env, files))
    case Err(e) => Err(e)
    case Ok(chosen) =>
      var entries := AddProfiles(env, files, env.profiles, chosen);
      if AllVerified(env, files, entries) then Ok(entries) else Err(Corrupt)
  }

  predicate PathBefore(a: Path, b: Path) {
    LexBefore(a, b)
  }

  /** The paths in ascending order. */
  ghost function SortedPaths(ps: set<Path>): (xs: seq<Path>)
    ensures Unique(xs) && Ascending(xs, PathBefore) && forall p :: p in xs <==> p in ps
  {
    var listed := Listing(ps);
    PathsOrdered(ps);
    SortedIsAscending(listed, PathBefore);
    var xs := Sorted(listed, PathBefore);
    assert forall p :: p in xs <==> p in Elements(xs);
    xs
  }

  lemma PathsOrdered(ps: set<Path>)
    ensures Orders(PathBefore, ps)
  {
    forall a | a in ps ensures !PathBefore(a, a) { LexIrreflexive(a); }
    forall a, b, c | a in ps && b in ps && c in ps && PathBefore(a, b) && PathBefore(b, c) ensures PathBefore(a, c) {
      LexTransitive(a, b, c);
    }
    forall a, b | a in ps && b in ps && a != b ensures PathBefore(a, b) || PathBefore(b, a) { LexTotal(a, b); }
  }

  ghost function InOrder(entries: Entries): (es: seq<Entry>)
    ensures |es| == |SortedPaths(entries.Keys)|
    ensures forall i :: 0 <= i < |es| ==> es[i] == entries[SortedPaths(entries.Keys)[i]]
  {
    var ps := SortedPaths(entries.Keys);
    seq(|ps|, i requires 0 <= i < |ps| => entries[ps[i]])
  }

  /******* The attempt index *******/

  predicate Terminal(t: Trial) {
    t.terminal
  }

  /** `directory` itself, or a file below it. */
  predicate Under(directory: Path, p: Path) {
    p == directory || directory + ['/' as int] <= p
  }

  /** Quality attempts own the files of their coordinate, the others their directory. */
  predicate OwnedBy(env: Env, p: Path, kind: Kind, t: Trial) {
    if kind == QualityRun then env.coordinateOf(p) == Some((kind, t.id)) else Under(t.directory, p)
  }

  function EvidenceFor(env: Env, entries: seq<Entry>, kind: Kind, t: Trial): seq<Ref> {
    if entries == [] then []
    else (if OwnedBy(env, entries[0].artifact.path, kind, t) then [entries[0].artifact] else [])
         + EvidenceFor(env, entries[1..], kind, t)
  }

  function ProfileEvidence(entries: seq<Entry>, id: string): seq<Ref> {
    if entries == [] then []
    else (if entries[0].role == Profile && entries[0].attempt == Some(id) then [entries[0].artifact] else [])
         + ProfileEvidence(entries[1..], id)
  }

  function RunnerEvidence(env: Env, entries: seq<Entry>): seq<Ref> {
    if entries == [] then []
    else (if env.runnerEvidence(entries[0].artifact.path) then [entries[0].artifact] else [])
         + RunnerEvidence(env, entries[1..])
  }

  /** The attempts of one kind; the last terminal one is selected. */
  function Group(env: Env, entries: seq<Entry>, kind: Kind, trials: seq<Trial>): (as_: seq<Attempt>)
    ensures |as_| == |trials|
  {
    seq(|trials|, i requires 0 <= i < |trials| =>
      Attempt(kind, trials[i].id, trials[i].status, i == Last(trials, Terminal),
              EvidenceFor(env, entries, kind, trials[i])))
  }

  function ProfileGroup(env: Env, entries: seq<Entry>): (as_: seq<Attempt>)
    ensures |as_| == |env.profiles|
  {
    seq(|env.profiles|, i requires 0 <= i < |env.profiles| =>
      Attempt(ProfileRun, IndexId(env.profiles[i]), env.profiles[i].status, i == Last(env.profiles, Succeeded),
              ProfileEvidence(entries, IndexId(env.profiles[i]))))
  }

  function RunnerGroup(env: Env, entries: seq<Entry>): seq<Attempt> {
    if exists i :: 0 <= i < |entries| && env.isRunnerResult(entries[i].artifact.path)
    then [Attempt(Runner, "initial", env.runner.status, env.runner.terminal, RunnerEvidence(env, entries))]
    else []
  }

  function OtherAttempts(env: Env, entries: seq<Entry>): seq<Attempt> {
    RunnerGroup(env, entries) + Group(env, entries, E2eRerun, env.reruns) + Group(env, entries, ExtendedPair, env.pairs)
    + Group(env, entries, QualityRun, env.qualities)
  }

  function AllAttempts(env: Env, entries: seq<Entry>): seq<Attempt> {
    OtherAttempts(env, entries) + ProfileGroup(env, entries)
  }

  /** The dictionary that the loops fill: the id of each kind's selected attempt. */
  function Selected(attempts: seq<Attempt>): map<Kind, string> {
    if attempts == [] then map[]
    else
      var last := attempts[|attempts| - 1];
      var earlier := Selected(attempts[..|attempts| - 1]);
      if last.selected then earlier[last.kind := last.id] else earlier
  }

  /** Every quality attempt that records an id has that of its file. */
  predicate QualitiesNamed(env: Env) {
    forall i :: 0 <= i < |env.qualities| ==> Named(env.qualities[i])
  }

  predicate Named(t: Trial) {
    t.id == WithoutSuffix(if t.recorded.None? || t.recorded.value == "" then t.id else t.recorded.value)
  }

  predicate EndsInJson(s: string) {
    |s| >= 5 && s[|s| - 5..] == ".json"
  }

  predicate Missing(id: Option<string>) {
    id.None? || id.value == ""
  }

  /** `id` is the text without `.json` at its end. */
  predicate Trimmed(text: string, id: string) {
    if EndsInJson(text) then text == id + ".json" else text == id
  }

  /** The id that a quality attempt records, or without one that of its file, is that of
      its file once trimmed. */
  predicate RecordsFileId(t: Trial) {
    Trimmed(if Missing(t.recorded) then t.id else t.recorded.value, t.id)
  }

  lemma TrimmedIs(text: string, id: string)
    ensures WithoutSuffix(text) == id <==> Trimmed(text, id)
  {
    if EndsInJson(text) {
      assert text == text[..|text| - 5] + ".json";
      if text == id + ".json" { assert text[..|text| - 5] == id; }
    }
  }

  /** Which quality attempts are named as their files. */
  lemma QualitiesNamedIff(env: Env)
    ensures QualitiesNamed(env) <==> forall i :: 0 <= i < |env.qualities| ==> RecordsFileId(env.qualities[i])
  {
    forall i | 0 <= i < |env.qualities| ensures Named(env.qualities[i]) <==> RecordsFileId(env.qualities[i]) {
      var t := env.qualities[i];
      TrimmedIs(if Missing(t.recorded) then t.id else t.recorded.value, t.id);
    }
  }

  function AttemptIndex(env: Env, entries: seq<Entry>): Index {
    Index(AllAttempts(env, entries), Selected(AllAttempts(env, entries)))
  }

  /******* Which entries are current *******/

  function EntryCoordinate(env: Env, e: Entry): Option<(Kind, string)> {
    if e.attempt.None? then None
    else if env.coordinateOf(e.artifact.path).Some? then env.coordinateOf(e.artifact.path)
    else if e.role == Profile then Some((ProfileRun, e.attempt.value))
    else None
  }

  predicate IsSelected(selected: map<Kind, string>, c: Option<(Kind, string)>) {
    c.Some? && c.value.0 in selected && selected[c.value.0] == c.value.1
  }

  predicate BoundByPath(r: Role) {
    r == Baseline || r == Benchmark || r == Decision
  }

  predicate Chosen(env: Env, p: Path) {
    exists i :: 0 <= i < |env.choices| && env.choices[i].path == p
  }

  function CurrentFlag(env: Env, selected: map<Kind, string>, e: Entry): bool {
    if BoundByPath(e.role) then Chosen(env, e.artifact.path)
    else if e.attempt.Some? then IsSelected(selected, EntryCoordinate(env, e))
    else e.current
  }

  function WithFlag(env: Env, selected: map<Kind, string>, e: Entry): Entry {
    e.(current := CurrentFlag(env, selected, e))
  }

  /** `_apply_current_attempt_selection`. */
  method ApplySelection(env: Env, selected: map<Kind, string>, entries: seq<Entry>) returns (result: seq<Entry>)
    ensures result == Applied(env, selected, entries)
  {
    result := [];
    for i := 0 to |entries|
      invariant result == Applied(env, selected, entries)[..i]
    {
      var e := entries[i];
      var current := e.current;
      if e.attempt.Some? {
        var coordinate := env.coordinateOf(e.artifact.path);
        if coordinate.None? && e.role == Profile { coordinate := Some((ProfileRun, e.attempt.value)); }
        current := IsSelected(selected, coordinate);
      }
      if BoundByPath(e.role) {
        current := exists k :: 0 <= k < |env.choices| && env.choices[k].path == e.artifact.path;
      }
      result := result + [e.(current := current)];
    }
  }

  function Applied(env: Env, selected: map<Kind, string>, entries: seq<Entry>): (es: seq<Entry>)
    ensures |es| == |entries|
    ensures forall i :: 0 <= i < |es| ==> es[i] == WithFlag(env, selected, entries[i])
  {
    seq(|entries|, i requires 0 <= i < |entries| => WithFlag(env, selected, entries[i]))
  }

  /******* Attempts: at most one of a kind *******/

  predicate OneSelected(attempts: seq<Attempt>) {
    forall i, j :: 0 <= i < j < |attempts| && attempts[i].selected && attempts[j].selected ==>
      attempts[i].kind != attempts[j].kind
  }

  /** No attempt of `a` has the kind of one of `b`. */
  predicate Apart(a: seq<Attempt>, b: seq<Attempt>) {
    forall i, j :: 0 <= i < |a| && 0 <= j < |b| ==> a[i].kind != b[j].kind
  }

  lemma OneSelectedConcat(a: seq<Attempt>, b: seq<Attempt>)
    requires OneSelected(a) && OneSelected(b) && Apart(a, b)
    ensures OneSelected(a + b)
  {}

  /** At most one attempt of every kind is selected. */
  lemma AtMostOneSelected(env: Env, entries: seq<Entry>)
    ensures OneSelected(AllAttempts(env, entries))
  {
    var r, e := RunnerGroup(env, entries), Group(env, entries, E2eRerun, env.reruns);
    var p := Group(env, entries, ExtendedPair, env.pairs);
    var q, f := Group(env, entries, QualityRun, env.qualities), ProfileGroup(env, entries);
    OneSelectedConcat(r, e);
    OneSelectedConcat(r + e, p);
    OneSelectedConcat(r + e + p, q);
    OneSelectedConcat(r + e + p + q, f);
  }

  /** The index names exactly the selected attempts. */
  lemma {:induction false} SelectedNames(attempts: seq<Attempt>, k: Kind, id: string)
    requires OneSelected(attempts)
    ensures (k in Selected(attempts) && Selected(attempts)[k] == id)
       <==> exists i :: 0 <= i < |attempts| && attempts[i].selected && attempts[i].kind == k && attempts[i].id == id
  {
    if attempts != [] {
      var front, last := attempts[..|attempts| - 1], attempts[|attempts| - 1];
      SelectedNames(front, k, id);
      assert attempts == front + [last];
      if last.selected && last.kind == k {
        forall i | 0 <= i < |front| && front[i].selected ensures front[i].kind != k {
          assert attempts[i].kind != attempts[|front|].kind;
        }
      }
      if i :| 0 <= i < |front| && front[i].selected && front[i].kind == k && front[i].id == id {
        assert attempts[i] == front[i];
      }
    }
  }

  /** The attempts of a kind other than the runner's and the profile's. */
  function TrialsOf(env: Env, kind: Kind): seq<Trial> {
    match kind
    case E2eRerun => env.reruns
    case ExtendedPair => env.pairs
    case QualityRun => env.qualities
    case _ => []
  }

  /** The last attempt that has finished. */
  predicate LastFinished(trials: seq<Trial>, i: nat) {
    i < |trials| && trials[i].terminal && forall j :: i < j < |trials| ==> !trials[j].terminal
  }

  lemma GroupSelects(env: Env, entries: seq<Entry>, kind: Kind, trials: seq<Trial>, i: nat)
    requires i < |trials|
    ensures var a := Group(env, entries, kind, trials)[i];
            a.kind == kind && a.id == trials[i].id && (a.selected <==> LastFinished(trials, i))
  {}

  /** The index names an attempt of kind `k` exactly when the one group of that kind selects it. */
  lemma SelectedInPart(front: seq<Attempt>, group: seq<Attempt>, back: seq<Attempt>, k: Kind, id: string)
    requires OneSelected(front + group + back)
    requires forall i :: 0 <= i < |front| ==> front[i].kind != k
    requires forall i :: 0 <= i < |back| ==> back[i].kind != k
    requires forall i :: 0 <= i < |group| ==> group[i].kind == k
    ensures var all := front + group + back;
            (k in Selected(all) && Selected(all)[k] == id)
            <==> exists j :: 0 <= j < |group| && group[j].selected && group[j].id == id
  {
    var all := front + group + back;
    SelectedNames(all, k, id);
    if j :| 0 <= j < |group| && group[j].selected && group[j].id == id {
      assert all[|front| + j] == group[j];
    }
    if i :| 0 <= i < |all| && all[i].selected && all[i].kind == k && all[i].id == id {
      assert group[i - |front|] == all[i];
    }
  }

  /** The attempts before those of a kind, and after them. */
  function Around(env: Env, entries: seq<Entry>, kind: Kind): (seq<Attempt>, seq<Attempt>) {
    var r, e := RunnerGroup(env, entries), Group(env, entries, E2eRerun, env.reruns);
    var p, q := Group(env, entries, ExtendedPair, env.pairs), Group(env, entries, QualityRun, env.qualities);
    var f := ProfileGroup(env, entries);
    if kind == E2eRerun then (r, p + (q + f))
    else if kind == ExtendedPair then (r + e, q + f)
    else (r + e + p, f)
  }

  lemma AroundKind(env: Env, entries: seq<Entry>, kind: Kind)
    requires kind == E2eRerun || kind == ExtendedPair || kind == QualityRun
    ensures var (front, back) := Around(env, entries, kind);
            && AllAttempts(env, entries) == front + Group(env, entries, kind, TrialsOf(env, kind)) + back
            && (forall i :: 0 <= i < |front| ==> front[i].kind != kind)
            && (forall i :: 0 <= i < |back| ==> back[i].kind != kind)
  {
    var r, e := RunnerGroup(env, entries), Group(env, entries, E2eRerun, env.reruns);
    var p, q := Group(env, entries, ExtendedPair, env.pairs), Group(env, entries, QualityRun, env.qualities);
    var f := ProfileGroup(env, entries);
    assert r + e + p + q + f == r + e + (p + (q + f));
    assert r + e + p + q + f == (r + e) + p + (q + f);
  }

  /** For reruns, extended pairs and quality runs, the index selects the last attempt that
      has finished, and none if none has. */
  lemma SelectedIsLast(env: Env, entries: seq<Entry>, kind: Kind, id: string)
    requires kind == E2eRerun || kind == ExtendedPair || kind == QualityRun
    ensures var selected, trials := AttemptIndex(env, entries).selected, TrialsOf(env, kind);
            (kind in selected && selected[kind] == id)
            <==> exists i: nat :: LastFinished(trials, i) && trials[i].id == id
  {
    var (front, back) := Around(env, entries, kind);
    var trials := TrialsOf(env, kind);
    var group := Group(env, entries, kind, trials);
    AtMostOneSelected(env, entries);
    AroundKind(env, entries, kind);
    SelectedInPart(front, group, back, kind, id);
    forall i: nat | i < |trials|
      ensures group[i].id == trials[i].id && (group[i].selected <==> LastFinished(trials, i))
    {
      GroupSelects(env, entries, kind, trials, i);
    }
  }

  /** An attempt's file that is not bound by the selected evidence is current exactly
      when its attempt is selected. */
  lemma CurrentIffSelected(env: Env, entries: seq<Entry>, i: nat, k: Kind, id: string)
    requires i < |entries| && EntryCoordinate(env, entries[i]) == Some((k, id)) && !BoundByPath(entries[i].role)
    ensures var attempts := AllAttempts(env, entries);
            Applied(env, AttemptIndex(env, entries).selected, entries)[i].current
            <==> exists j :: 0 <= j < |attempts|
                             && attempts[j].selected && attempts[j].kind == k && attempts[j].id == id
  {
    AtMostOneSelected(env, entries);
    SelectedNames(AllAttempts(env, entries), k, id);
  }

  /******* Which profile evidence is current *******/

  /** The flag that the evidence of `t` ends with, when attempt `s` is selected and the
      path names no attempt of another kind. */
  predicate ProfileFlag(s: ProfileTrial, t: ProfileTrial) {
    if EntryId(t).Some? then IndexId(s) == EntryId(t).value else FlagId(t) == FlagId(s)
  }

  /** The index names the profile attempt that is selected, and no other. */
  lemma SelectedProfileNamed(env: Env, entries: seq<Entry>, id: string)
    ensures var selected, k := AttemptIndex(env, entries).selected, Last(env.profiles, Succeeded);
            (ProfileRun in selected && selected[ProfileRun] == id)
            <==> k < |env.profiles| && IndexId(env.profiles[k]) == id
  {
    var rest, group, k := OtherAttempts(env, entries), ProfileGroup(env, entries), Last(env.profiles, Succeeded);
    AtMostOneSelected(env, entries);
    assert rest + group == rest + group + [];
    SelectedInPart(rest, group, [], ProfileRun, id);
    if k < |env.profiles| { assert group[k].selected && group[k].id == IndexId(env.profiles[k]); }
  }

  /** Selection leaves the evidence of a profile attempt current exactly by this flag. */
  lemma ProfileEvidenceFlag(env: Env, files: Files, entries: seq<Entry>, i: nat, t: ProfileTrial)
    requires t.evidence.Some? && t.evidence.value in files && files[t.evidence.value].ref.path == t.evidence.value
    requires i < |entries| && entries[i] == ProfileEntry(env, files, t) && env.coordinateOf(t.evidence.value).None?
    ensures var k := Last(env.profiles, Succeeded);
            Applied(env, AttemptIndex(env, entries).selected, entries)[i].current
            <==> k < |env.profiles| && ProfileFlag(env.profiles[k], t)
  {
    if EntryId(t).Some? { SelectedProfileNamed(env, entries, EntryId(t).value); }
  }

  /** An id that the three forms leave alone and that no missing id imitates. */
  predicate PlainId(id: Option<string>) {
    id.Some? && id.value != "" && id.value != "None" && !EndsInJson(id.value)
  }

  /** When `s` is selected, exactly the evidence of attempts with its id is current, for
      whatever other attempts, if and only if its id is plain. */
  lemma ProfileFlagIff(s: ProfileTrial)
    ensures (forall t: ProfileTrial :: ProfileFlag(s, t) <==> t.id == s.id) <==> PlainId(s.id)
  {
    if !PlainId(s.id) {
      var t := ProfileTrial(
        if EntryId(s).None? then Some("unknown") else if s.id.value == "None" then None else s.id, "", None);
      assert WithoutSuffix("unknown") == "unknown";
      assert ProfileFlag(s, t) <==> t.id != s.id;
    }
  }
}
