/** What the documents of a bundle say: the attempts that the index lists, the role of every
    source, which sources are current, and the dates. */
module BundleIndex {
  import opened Wrappers
  import opened Bundle
  import opened BundleRefresh

  /******* The attempts *******/

  /** `p` is the directory, or lies in it. */
  predicate InDirectory(directory: Path, p: Path) {
    || p == directory
    || (|p| > |directory| && p[..|directory|] == directory && p[|directory|] == '/' as int)
  }

  /** A source belongs to an attempt of the given kind. */
  predicate Belongs(env: Env, kind: Kind, t: Trial, e: Entry) {
    if kind.QualityRun? then
      env.coordinateOf(e.artifact.path).Some? && env.coordinateOf(e.artifact.path).value == (QualityRun, t.id)
    else
      InDirectory(t.directory, e.artifact.path)
  }

  /** The files of the entries that satisfy `p`, in order. */
  function FilesOf(entries: seq<Entry>, p: Entry -> bool): seq<Ref> {
    if entries == [] then []
    else (if p(entries[0]) then [entries[0].artifact] else []) + FilesOf(entries[1..], p)
  }

  /** What an attempt says about the trial at a position: the last one that has finished
      is selected. */
  predicate Describes(env: Env, entries: seq<Entry>, a: Attempt, kind: Kind, trials: seq<Trial>, i: nat) {
    && i < |trials| && a.kind == kind && a.id == trials[i].id && a.status == trials[i].status
    && (a.selected <==> LastFinished(trials, i))
    && a.evidence == FilesOf(entries, (e: Entry) => Belongs(env, kind, trials[i], e))
  }

  predicate LastSucceeded(trials: seq<ProfileTrial>, i: nat) {
    i < |trials| && trials[i].status == "succeeded" && forall j :: i < j < |trials| ==> trials[j].status != "succeeded"
  }

  /** What an attempt says about the profile trial at a position. */
  predicate DescribesProfile(env: Env, entries: seq<Entry>, a: Attempt, i: nat) {
    && i < |env.profiles| && a.kind.ProfileRun? && a.status == env.profiles[i].status
    && var id := env.profiles[i].id;
       && Trimmed(if Missing(id) then "unknown" else id.value, a.id)
       && (a.selected <==> LastSucceeded(env.profiles, i))
       && a.evidence == FilesOf(entries, (e: Entry) => e.role.Profile? && e.attempt == Some(a.id))
  }

  predicate DescribesRunner(env: Env, entries: seq<Entry>, a: Attempt) {
    && a.kind.Runner? && a.id == "initial" && a.status == env.runner.status && a.selected == env.runner.terminal
    && a.evidence == FilesOf(entries, (e: Entry) => env.runnerEvidence(e.artifact.path))
  }

  lemma OwnsFile(env: Env, kind: Kind, t: Trial, e: Entry)
    ensures OwnedBy(env, e.artifact.path, kind, t) <==> Belongs(env, kind, t, e)
  {
    var p, n := e.artifact.path, |t.directory|;
    if |p| > n { assert p[..n + 1] == p[..n] + [p[n]]; }
  }

  lemma {:induction false} TrialFiles(env: Env, entries: seq<Entry>, kind: Kind, t: Trial)
    ensures EvidenceFor(env, entries, kind, t) == FilesOf(entries, (e: Entry) => Belongs(env, kind, t, e))
  {
    if entries != [] {
      OwnsFile(env, kind, t, entries[0]);
      TrialFiles(env, entries[1..], kind, t);
    }
  }

  lemma {:induction false} ProfileFiles(entries: seq<Entry>, id: string)
    ensures ProfileEvidence(entries, id) == FilesOf(entries, (e: Entry) => e.role.Profile? && e.attempt == Some(id))
  {
    if entries != [] { ProfileFiles(entries[1..], id); }
  }

  lemma {:induction false} RunnerFiles(env: Env, entries: seq<Entry>)
    ensures RunnerEvidence(env, entries) == FilesOf(entries, (e: Entry) => env.runnerEvidence(e.artifact.path))
  {
    if entries != [] { RunnerFiles(env, entries[1..]); }
  }

  ghost predicate GroupDescribes(env: Env, entries: seq<Entry>, group: seq<Attempt>, kind: Kind, trials: seq<Trial>) {
    |group| == |trials| && forall i :: 0 <= i < |group| ==> Describes(env, entries, group[i], kind, trials, i)
  }

  lemma GroupSays(env: Env, entries: seq<Entry>, kind: Kind, trials: seq<Trial>)
    ensures GroupDescribes(env, entries, Group(env, entries, kind, trials), kind, trials)
  {
    var group := Group(env, entries, kind, trials);
    forall i | 0 <= i < |group| ensures Describes(env, entries, group[i], kind, trials, i) {
      TrialFiles(env, entries, kind, trials[i]);
      GroupSelects(env, entries, kind, trials, i);
    }
  }

  ghost predicate ProfilesDescribed(env: Env, entries: seq<Entry>, group: seq<Attempt>) {
    |group| == |env.profiles| && forall i :: 0 <= i < |group| ==> DescribesProfile(env, entries, group[i], i)
  }

  lemma ProfilesSay(env: Env, entries: seq<Entry>)
    ensures ProfilesDescribed(env, entries, ProfileGroup(env, entries))
  {
    var group := ProfileGroup(env, entries);
    forall i | 0 <= i < |group| ensures DescribesProfile(env, entries, group[i], i) {
      ProfileFiles(entries, group[i].id);
      TrimmedIs(if Missing(env.profiles[i].id) then "unknown" else env.profiles[i].id.value, group[i].id);
    }
  }

  predicate HasRunnerResult(env: Env, entries: seq<Entry>) {
    exists e :: e in entries && env.isRunnerResult(e.artifact.path)
  }

  /** The index lists the runner's attempt when there is a result of it, then one attempt for
      every rerun, extended pair, quality run and profile, each with its trial's id and
      status and with the files of the sources that belong to it. */
  lemma IndexLists(env: Env, entries: seq<Entry>) returns (runner: seq<Attempt>, reruns: seq<Attempt>,
                                                           pairs: seq<Attempt>, qualities: seq<Attempt>,
                                                           profiles: seq<Attempt>)
    ensures AttemptIndex(env, entries).attempts == runner + reruns + pairs + qualities + profiles
    ensures |runner| == if HasRunnerResult(env, entries) then 1 else 0
    ensures forall i :: 0 <= i < |runner| ==> DescribesRunner(env, entries, runner[i])
    ensures GroupDescribes(env, entries, reruns, E2eRerun, env.reruns)
    ensures GroupDescribes(env, entries, pairs, ExtendedPair, env.pairs)
    ensures GroupDescribes(env, entries, qualities, QualityRun, env.qualities)
    ensures ProfilesDescribed(env, entries, profiles)
  {
    runner := RunnerGroup(env, entries);
    reruns := Group(env, entries, E2eRerun, env.reruns);
    pairs := Group(env, entries, ExtendedPair, env.pairs);
    qualities := Group(env, entries, QualityRun, env.qualities);
    profiles := ProfileGroup(env, entries);
    RunnerFiles(env, entries);
    GroupSays(env, entries, E2eRerun, env.reruns);
    GroupSays(env, entries, ExtendedPair, env.pairs);
    GroupSays(env, entries, QualityRun, env.qualities);
    ProfilesSay(env, entries);
    if e :| e in entries && env.isRunnerResult(e.artifact.path) {
      var i :| 0 <= i < |entries| && entries[i] == e;
    }
  }

  /******* The sources *******/

  /** The id as text. */
  function Shown(id: Option<string>): string {
    match id
    case None => "None"
    case Some(text) => text
  }

  /** The entry of a profile's evidence. */
  predicate FromProfile(env: Env, files: Files, e: Entry, t: ProfileTrial) {
    && e.role.Profile? && e.attempt == (if Missing(t.id) then None else t.id)
    && (e.current <==> exists k :: 0 <= k < |env.profiles|
                                   && LastSucceeded(env.profiles, k) && Shown(env.profiles[k].id) == Shown(t.id))
  }

  /** The id in the coordinate of the path, and the given role. */
  predicate FromPath(env: Env, e: Entry, role: Role) {
    && e.role == role && e.current
    && match env.coordinateOf(e.artifact.path)
       case None => e.attempt.None?
       case Some(coordinate) => e.attempt == Some(coordinate.1)
  }

  predicate FromChoice(env: Env, e: Entry, c: Choice) {
    if c.isBaseline then FromPath(env, e, Baseline)
    else if c.isProfileState then FromPath(env, e, Profile)
    else FromPath(env, e, env.roleOf(e.artifact.path))
  }

  predicate LastEvidence(trials: seq<ProfileTrial>, p: Path, i: nat) {
    i < |trials| && trials[i].evidence == Some(p) && forall j :: i < j < |trials| ==> trials[j].evidence != Some(p)
  }

  predicate LastChoice(choices: seq<Choice>, p: Path, i: nat) {
    i < |choices| && choices[i].path == p && forall j :: i < j < |choices| ==> choices[j].path != p
  }

  lemma ProfileEntrySays(env: Env, files: Files, t: ProfileTrial)
    requires t.evidence.Some? && t.evidence.value in files
    ensures FromProfile(env, files, ProfileEntry(env, files, t), t)
  {
    var k := Last(env.profiles, Succeeded);
    if k < |env.profiles| { assert LastSucceeded(env.profiles, k); }
    if j: nat :| LastSucceeded(env.profiles, j) { assert Succeeded(env.profiles[j]) && j == k; }
  }

  function WithEvidence(env: Env, files: Files, t: ProfileTrial, entries: Entries): Entries {
    if t.evidence.Some? && t.evidence.value in files
    then entries[t.evidence.value := ProfileEntry(env, files, t)] else entries
  }

  lemma {:induction false} NoEvidence(env: Env, files: Files, trials: seq<ProfileTrial>, entries: Entries, p: Path)
    requires p in entries && forall i :: 0 <= i < |trials| ==> trials[i].evidence != Some(p)
    ensures p in AddProfiles(env, files, trials, entries) && AddProfiles(env, files, trials, entries)[p] == entries[p]
  {
    if trials != [] { NoEvidence(env, files, trials[1..], WithEvidence(env, files, trials[0], entries), p); }
  }

  lemma {:induction false} EvidenceWins(env: Env, files: Files, trials: seq<ProfileTrial>, entries: Entries, p: Path,
                                        i: nat)
    requires p in files && LastEvidence(trials, p, i)
    ensures p in AddProfiles(env, files, trials, entries)
            && AddProfiles(env, files, trials, entries)[p] == ProfileEntry(env, files, trials[i])
  {
    var next := WithEvidence(env, files, trials[0], entries);
    if i == 0 { NoEvidence(env, files, trials[1..], next, p); }
    else { EvidenceWins(env, files, trials[1..], next, p, i - 1); }
  }

  lemma {:induction false} NoChoice(env: Env, files: Files, choices: seq<Choice>, entries: Entries, p: Path)
    requires AddChoices(env, files, choices, entries).Ok?
    requires p in entries && forall i :: 0 <= i < |choices| ==> choices[i].path != p
    ensures var r := AddChoices(env, files, choices, entries).value; p in r && r[p] == entries[p]
  {
    if choices != [] {
      NoChoice(env, files, choices[1..], entries[choices[0].path := ChoiceEntry(env, files, choices[0])], p);
    }
  }

  lemma {:induction false} ChoiceWins(env: Env, files: Files, choices: seq<Choice>, entries: Entries, p: Path, i: nat)
    requires AddChoices(env, files, choices, entries).Ok? && LastChoice(choices, p, i)
    ensures p in files && p in AddChoices(env, files, choices, entries).value
    ensures AddChoices(env, files, choices, entries).value[p] == ChoiceEntry(env, files, choices[i])
  {
    var next := entries[choices[0].path := ChoiceEntry(env, files, choices[0])];
    if i == 0 { NoChoice(env, files, choices[1..], next, p); }
    else { ChoiceWins(env, files, choices[1..], next, p, i - 1); }
  }

  /** A source shows the registered file.  Its role and attempt are those of the last profile
      trial with this evidence; without one, those of the last choice of the path; without
      one, those of the path. */
  lemma SourceSays(env: Env, files: Files, p: Path)
    requires WellKeyed(files) && SourceEntries(env, files).Ok? && p in SourceEntries(env, files).value
    ensures p in files && SourceEntries(env, files).value[p].artifact == files[p].ref
    ensures var e := SourceEntries(env, files).value[p];
            && (forall i: nat :: LastEvidence(env.profiles, p, i) ==> FromProfile(env, files, e, env.profiles[i]))
            && (!IsEvidence(env, p) ==>
                  && (forall i: nat :: LastChoice(env.choices, p, i) ==> FromChoice(env, e, env.choices[i]))
                  && (!Chosen(env, p) ==> FromPath(env, e, env.roleOf(p))))
  {
    SourcesAre(env, files, p);
    SourcesFaithful(env, files);
    forall i: nat | LastEvidence(env.profiles, p, i)
      ensures FromProfile(env, files, SourceEntries(env, files).value[p], env.profiles[i])
    {
      EvidenceWins(env, files, env.profiles, AddChoices(env, files, env.choices, OwnedEntries(env, files)).value, p, i);
      ProfileEntrySays(env, files, env.profiles[i]);
    }
    if !IsEvidence(env, p) { ChoiceSays(env, files, p); }
  }

  lemma ChoiceSays(env: Env, files: Files, p: Path)
    requires WellKeyed(files) && SourceEntries(env, files).Ok? && IsSourcePath(env, files, p) && !IsEvidence(env, p)
    ensures p in SourceEntries(env, files).value
    ensures var e := SourceEntries(env, files).value[p];
            && (forall i: nat :: LastChoice(env.choices, p, i) ==> FromChoice(env, e, env.choices[i]))
            && (!Chosen(env, p) ==> FromPath(env, e, env.roleOf(p)))
  {
    var owned := OwnedEntries(env, files);
    var chosen := AddChoices(env, files, env.choices, owned).value;
    SourcesAre(env, files, p);
    ChoicesPaths(env, files, env.choices, owned, p);
    NoEvidence(env, files, env.profiles, chosen, p);
    forall i: nat | LastChoice(env.choices, p, i) ensures FromChoice(env, chosen[p], env.choices[i]) {
      ChoiceWins(env, files, env.choices, owned, p, i);
    }
    if !Chosen(env, p) { NoChoice(env, files, env.choices, owned, p); }
  }

  /******* Which sources are current *******/

  /** The index selects an attempt of this kind and id. */
  predicate Picked(attempts: seq<Attempt>, kind: Kind, id: string) {
    exists j :: 0 <= j < |attempts| && attempts[j].selected && attempts[j].kind == kind && attempts[j].id == id
  }

  predicate IsChosen(choices: seq<Choice>, p: Path) {
    exists k :: 0 <= k < |choices| && choices[k].path == p
  }

  /** Baselines, benchmarks and decisions are current when their path is selected; other
      sources of attempts when the attempt that the path names is, or for profile evidence
      whose path names none, the profile attempt; all others stay as they are. */
  predicate Due(env: Env, attempts: seq<Attempt>, e: Entry) {
    if e.role.Baseline? || e.role.Benchmark? || e.role.Decision? then IsChosen(env.choices, e.artifact.path)
    else if e.attempt.None? then e.current
    else
      var coordinate := env.coordinateOf(e.artifact.path);
      if coordinate.Some? then Picked(attempts, coordinate.value.0, coordinate.value.1)
      else e.role.Profile? && Picked(attempts, ProfileRun, e.attempt.value)
  }

  /** The selection changes nothing but the flags, and these to what is due. */
  lemma FlagSays(env: Env, entries: seq<Entry>, i: nat)
    requires i < |entries|
    ensures var index := AttemptIndex(env, entries);
            Applied(env, index.selected, entries)[i] == entries[i].(current := Due(env, index.attempts, entries[i]))
  {
    var e, attempts := entries[i], AllAttempts(env, entries);
    AtMostOneSelected(env, entries);
    var coordinate := EntryCoordinate(env, e);
    if coordinate.Some? { SelectedNames(attempts, coordinate.value.0, coordinate.value.1); }
  }

  /******* The dates *******/

  /** The latest date among the entries. */
  predicate Latest(entries: seq<Entry>, date: nat) {
    && (forall i :: 0 <= i < |entries| ==> entries[i].artifact.createdAt <= date)
    && (entries != [] ==> exists i :: 0 <= i < |entries| && entries[i].artifact.createdAt == date)
  }

  lemma {:induction false} NewestIsLatest(entries: seq<Entry>)
    ensures Latest(entries, Newest(entries))
  {
    if entries != [] {
      NewestIsLatest(entries[1..]);
      assert entries == [entries[0]] + entries[1..];
      if entries[1..] != [] && entries[0].artifact.createdAt <= Newest(entries[1..]) {
        var i :| 0 <= i < |entries| - 1 && entries[1..][i].artifact.createdAt == Newest(entries[1..]);
        assert entries[i + 1] == entries[1..][i];
      }
    }
  }

  /** A refresh that succeeds leaves a summary that counts and digests the listed sources,
      repeats the index's selection and has the date of the latest source; the manifest
      lists the sources, the index and the summary, and has the latest of all their dates. */
  lemma DocumentsSay(env: Env, files: Files, t1: nat, t2: nat, t3: nat) returns (sources: seq<Entry>)
    requires Distinct(env) && CollisionFree(env) && WellKeyed(files) && Refreshed(env, files, t1, t2, t3).0.Ok?
    ensures var (r, after) := Refreshed(env, files, t1, t2, t3);
            && env.summary in after && after[env.summary].content.SummaryDoc?
            && env.index in after && after[env.index].content.IndexDoc?
            && var m, s := r.value, after[env.summary].content.summary;
               && s.count == |sources| && s.digest == m.digest == env.digest(sources)
               && s.selected == after[env.index].content.index.selected && Latest(sources, s.updatedAt)
               && m.artifacts == sources + [Entry(after[env.index].ref, AttemptFile, None, true),
                                            Entry(after[env.summary].ref, SummaryFile, None, true)]
               && m.attempts == after[env.index].ref && m.summary == after[env.summary].ref
               && Latest(m.artifacts, m.publishedAt)
  {
    var found, description := Succeeds(env, files, t1, t2, t3);
    sources := EntriesOf(env, found);
    var index := IndexOf(env, found);
    AfterPublish(env, files, found, description, t1, t2, t3);
    SummaryStored(env, files, found, description, t1, t2, t3);
    NewestIsLatest(sources);
    var m := Published(env, files, found, description, t1, t2, t3).0;
    ManifestDate(sources, m.attempts, m.summary);
  }

  lemma SummaryStored(env: Env, files: Files, found: Entries, description: string, t1: nat, t2: nat, t3: nat)
    requires Distinct(env) && CollisionFree(env) && WellKeyed(files)
    ensures var after := Published(env, files, found, description, t1, t2, t3).1;
            && env.summary in after
            && after[env.summary].content
               == SummaryDoc(SummaryOf(env, EntriesOf(env, found), IndexOf(env, found).selected, description))
  {
    var (indexRef, f1) := Indexed(env, files, found, t1);
    WriteStores(env, files, env.index, IndexDoc(IndexOf(env, found)), t1);
    var summary := SummaryOf(env, EntriesOf(env, found), IndexOf(env, found).selected, description);
    var (summaryRef, f2) := Write(env, f1, env.summary, SummaryDoc(summary), t2);
    WriteStores(env, f1, env.summary, SummaryDoc(summary), t2);
    WriteStores(env, f2, env.manifest,
                ManifestDoc(ManifestOf(env, EntriesOf(env, found), summary, indexRef, summaryRef)), t3);
  }

  lemma ManifestDate(sources: seq<Entry>, index: Ref, summary: Ref)
    ensures Latest(sources + [Entry(index, AttemptFile, None, true), Entry(summary, SummaryFile, None, true)],
                   Max(Max(summary.createdAt, index.createdAt), Newest(sources)))
  {
    NewestIsLatest(sources);
    var all := sources + [Entry(index, AttemptFile, None, true), Entry(summary, SummaryFile, None, true)];
    assert all[|sources|].artifact == index && all[|sources| + 1].artifact == summary;
    forall i | 0 <= i < |sources| ensures all[i] == sources[i] {}
  }
}
