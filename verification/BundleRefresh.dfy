/** Refreshing a bundle and loading it back. */
module BundleRefresh {
  import opened Wrappers
  import opened Bundle

  /******* Writing a derived file *******/

  /** The registered file already has this content. */
  predicate UpToDate(env: Env, files: Files, path: Path, content: Content) {
    && path in files
    && files[path].ref.sha256 == env.hash(content) && files[path].ref.size == env.size(content)
    && Verified(env, files, files[path].ref)
  }

  /** `_canonical_write`: a file that is up to date is left alone, with its date. */
  function Write(env: Env, files: Files, path: Path, content: Content, now: nat): (Ref, Files) {
    if UpToDate(env, files, path, content) then (files[path].ref, files)
    else
      var ref := Ref(path, env.hash(content), env.size(content), now);
      (ref, files[path := Stored(ref, content)])
  }

  /******* Refresh *******/

  /** What the summary describes: the selected files and the provenance of the model. */
  function Described(env: Env, files: Files): Files {
    map p | p in files && (Chosen(env, p) || p == env.provenance) :: files[p]
  }

  /** The descriptive part of a summary; `_build_summary` refuses evidence that does not
      verify or that it cannot read. */
  function Description(env: Env, files: Files): Option<string> {
    if forall p :: p in Described(env, files) ==> Verified(env, files, files[p].ref)
    then env.describe(Described(env, files)) else None
  }

  function Newest(entries: seq<Entry>): nat {
    if entries == [] then 0
    else Max(entries[0].artifact.createdAt, Newest(entries[1..]))
  }

  function Max(a: nat, b: nat): nat {
    if a <= b then b else a
  }

  function SummaryOf(env: Env, entries: seq<Entry>, selected: map<Kind, string>, description: string): Summary {
    Summary(|entries|, env.digest(entries), selected, description, Newest(entries))
  }

  function ManifestOf(env: Env, entries: seq<Entry>, summary: Summary, indexRef: Ref, summaryRef: Ref): Manifest {
    Manifest(summary.digest, summaryRef, indexRef,
             entries + [Entry(indexRef, AttemptFile, None, true), Entry(summaryRef, SummaryFile, None, true)],
             Max(Max(summaryRef.createdAt, indexRef.createdAt), Newest(entries)))
  }

  /** The attempt index of given source entries, and the entries with their flags. */
  ghost function IndexOf(env: Env, sources: Entries): Index {
    AttemptIndex(env, InOrder(sources))
  }

  ghost function EntriesOf(env: Env, sources: Entries): seq<Entry> {
    Applied(env, IndexOf(env, sources).selected, InOrder(sources))
  }

  /** Writing the index comes first. */
  ghost function Indexed(env: Env, files: Files, sources: Entries, t1: nat): (Ref, Files) {
    Write(env, files, env.index, IndexDoc(IndexOf(env, sources)), t1)
  }

  /** The manifest and the files after publishing given source entries. */
  ghost function Published(env: Env, files: Files, sources: Entries, description: string, t1: nat, t2: nat, t3: nat)
    : (Manifest, Files)
  {
    var entries := EntriesOf(env, sources);
    var (indexRef, f1) := Indexed(env, files, sources, t1);
    var summary := SummaryOf(env, entries, IndexOf(env, sources).selected, description);
    var (summaryRef, f2) := Write(env, f1, env.summary, SummaryDoc(summary), t2);
    var manifest := ManifestOf(env, entries, summary, indexRef, summaryRef);
    (manifest, Write(env, f2, env.manifest, ManifestDoc(manifest), t3).1)
  }

  /** The result of a refresh, and the files that it leaves.  When the summary cannot be
      built the index has already been written. */
  ghost function Refreshed(env: Env, files: Files, t1: nat, t2: nat, t3: nat): (Result<Manifest, BundleError>, Files) {
    match SourceEntries(env, files)
    case Err(e) => (Err(e), files)
    case Ok(sources) =>
      if !QualitiesNamed(env) then (Err(QualityMisnamed), files)
      else
        var f1 := Indexed(env, files, sources, t1).1;
        match Description(env, f1)
        case None => (Err(Undescribed), f1)
        case Some(description) =>
          var (manifest, after) := Published(env, files, sources, description, t1, t2, t3);
          (Ok(manifest), after)
  }

  /******* Load *******/

  predicate IsSource(env: Env, e: Entry) {
    e.artifact.path != env.summary && e.artifact.path != env.index
  }

  function Sources(env: Env, entries: seq<Entry>): seq<Entry> {
    if entries == [] then []
    else
      var last := entries[|entries| - 1];
      Sources(env, entries[..|entries| - 1]) + (if IsSource(env, last) then [last] else [])
  }

  predicate UniquePaths(entries: seq<Entry>) {
    forall i, j :: 0 <= i < j < |entries| ==> entries[i].artifact.path != entries[j].artifact.path
  }

  predicate Registered(env: Env, files: Files, ref: Ref) {
    ref.path in files && files[ref.path].ref == ref && Verified(env, files, ref)
  }

  predicate AllRegistered(env: Env, files: Files, entries: seq<Entry>) {
    forall i :: 0 <= i < |entries| ==> Registered(env, files, entries[i].artifact)
  }

  datatype LoadError =
    | Unreadable | DigestsDiffer | PathNotCanonical | NotHashBound | DuplicateArtifact | ArtifactCorrupt | CountDiffers
    | DigestUnverified

  /** What the loader accepts. */
  predicate Loads(env: Env, files: Files) {
    && env.summary in files && files[env.summary].content.SummaryDoc?
    && env.manifest in files && files[env.manifest].content.ManifestDoc?
    && var s, m := files[env.summary].content.summary, files[env.manifest].content.manifest;
       && s.digest == m.digest
       && m.summary.path == env.summary && m.attempts.path == env.index
       && Registered(env, files, m.summary)
       && Verified(env, files, files[env.manifest].ref)
       && Verified(env, files, m.attempts) && files[m.attempts.path].content.IndexDoc?
       && UniquePaths(m.artifacts) && AllRegistered(env, files, m.artifacts)
       && s.count == |Sources(env, m.artifacts)| && env.digest(Sources(env, m.artifacts)) == s.digest
  }

  /******* Right after a refresh *******/

  predicate WellKeyed(files: Files) {
    forall p :: p in files ==> files[p].ref.path == p
  }

  /** Every source entry is the registered, verified file at its path. */
  ghost predicate Faithful(env: Env, files: Files, entries: Entries) {
    forall p :: p in entries ==> entries[p].artifact.path == p && Registered(env, files, entries[p].artifact)
  }

  predicate FromFiles(files: Files, entries: Entries) {
    forall p :: p in entries ==> p in files && entries[p].artifact == files[p].ref
  }

  lemma {:induction false} ChoicesFromFiles(env: Env, files: Files, choices: seq<Choice>, entries: Entries)
    requires FromFiles(files, entries) && AddChoices(env, files, choices, entries).Ok?
    ensures FromFiles(files, AddChoices(env, files, choices, entries).value)
  {
    if choices != [] {
      ChoicesFromFiles(env, files, choices[1..], entries[choices[0].path := ChoiceEntry(env, files, choices[0])]);
    }
  }

  lemma {:induction false} ProfilesFromFiles(env: Env, files: Files, trials: seq<ProfileTrial>, entries: Entries)
    requires FromFiles(files, entries)
    ensures FromFiles(files, AddProfiles(env, files, trials, entries))
  {
    if trials != [] {
      var t := trials[0];
      ProfilesFromFiles(env, files, trials[1..],
                        if t.evidence.Some? && t.evidence.value in files
                        then entries[t.evidence.value := ProfileEntry(env, files, t)] else entries);
    }
  }

  lemma SourcesFaithful(env: Env, files: Files)
    requires WellKeyed(files) && SourceEntries(env, files).Ok?
    ensures Faithful(env, files, SourceEntries(env, files).value)
  {
    var owned := OwnedEntries(env, files);
    ChoicesFromFiles(env, files, env.choices, owned);
    ProfilesFromFiles(env, files, env.profiles, AddChoices(env, files, env.choices, owned).value);
  }

  /** No two documents have one hash. */
  ghost predicate CollisionFree(env: Env) {
    forall a, b :: env.hash(a) == env.hash(b) ==> a == b
  }

  /** What a write leaves behind. */
  lemma WriteStores(env: Env, files: Files, path: Path, content: Content, now: nat)
    requires CollisionFree(env) && WellKeyed(files)
    ensures var (ref, after) := Write(env, files, path, content, now);
            && ref.path == path && Registered(env, after, ref) && after[path].content == content
            && WellKeyed(after)
            && forall p :: p != path ==> (p in after <==> p in files) && (p in files ==> after[p] == files[p])
  {}

  /** Files that agree on everything but the derived files. */
  ghost predicate SameSources(env: Env, a: Files, b: Files) {
    forall p :: !Derived(env, p) ==> (p in a <==> p in b) && (p in a ==> a[p] == b[p])
  }

  /** The files after a refresh, and its three documents in them. */
  lemma AfterPublish(env: Env, files: Files, sources: Entries, description: string, t1: nat, t2: nat, t3: nat)
    requires Distinct(env) && CollisionFree(env) && WellKeyed(files)
    ensures var (m, after) := Published(env, files, sources, description, t1, t2, t3);
            var entries := EntriesOf(env, sources);
            && WellKeyed(after) && SameSources(env, files, after)
            && m.summary.path == env.summary && m.attempts.path == env.index
            && Registered(env, after, m.summary) && Registered(env, after, m.attempts)
            && after[env.index].content == IndexDoc(IndexOf(env, sources))
            && env.manifest in after && after[env.manifest].content == ManifestDoc(m)
            && Registered(env, after, after[env.manifest].ref)
            && after[env.summary].content.SummaryDoc?
            && after[env.summary].content.summary.count == |entries|
            && after[env.summary].content.summary.digest == env.digest(entries) == m.digest
            && m.artifacts == entries + [Entry(m.attempts, AttemptFile, None, true),
                                         Entry(m.summary, SummaryFile, None, true)]
  {
    var index, entries := IndexOf(env, sources), EntriesOf(env, sources);
    var (indexRef, f1) := Indexed(env, files, sources, t1);
    WriteStores(env, files, env.index, IndexDoc(index), t1);
    var summary := SummaryOf(env, entries, index.selected, description);
    var (summaryRef, f2) := Write(env, f1, env.summary, SummaryDoc(summary), t2);
    WriteStores(env, f1, env.summary, SummaryDoc(summary), t2);
    var m := ManifestOf(env, entries, summary, indexRef, summaryRef);
    WriteStores(env, f2, env.manifest, ManifestDoc(m), t3);
  }

  /** A refresh that succeeds has published its sources. */
  lemma Succeeds(env: Env, files: Files, t1: nat, t2: nat, t3: nat) returns (sources: Entries, description: string)
    requires Distinct(env) && CollisionFree(env) && WellKeyed(files) && Refreshed(env, files, t1, t2, t3).0.Ok?
    ensures SourceEntries(env, files) == Ok(sources) && Faithful(env, files, sources)
    ensures var (m, after) := Published(env, files, sources, description, t1, t2, t3);
            Refreshed(env, files, t1, t2, t3) == (Ok(m), after)
    ensures Description(env, Indexed(env, files, sources, t1).1) == Some(description)
  {
    sources := SourceEntries(env, files).value;
    description := Description(env, Indexed(env, files, sources, t1).1).value;
    SourcesFaithful(env, files);
  }

  /** The files after a refresh that succeeds, without the documents' contents but the index. */
  lemma AfterRefresh(env: Env, files: Files, t1: nat, t2: nat, t3: nat) returns (sources: Entries)
    requires Distinct(env) && CollisionFree(env) && WellKeyed(files) && Refreshed(env, files, t1, t2, t3).0.Ok?
    ensures SourceEntries(env, files) == Ok(sources)
    ensures var after := Refreshed(env, files, t1, t2, t3).1;
            && WellKeyed(after) && SameSources(env, files, after)
            && (forall p :: Derived(env, p) ==> p in after && Verified(env, after, after[p].ref))
            && after[env.index].content == IndexDoc(IndexOf(env, sources))
  {
    var found, description := Succeeds(env, files, t1, t2, t3);
    sources := found;
    AfterPublish(env, files, sources, description, t1, t2, t3);
  }

  lemma {:induction false} SourcesConcat(env: Env, a: seq<Entry>, b: seq<Entry>)
    ensures Sources(env, a + b) == Sources(env, a) + Sources(env, b)
  {
    if b == [] {
      assert a + b == a;
      assert Sources(env, a) + [] == Sources(env, a);
    } else {
      assert (a + b)[..|a + b| - 1] == a + b[..|b| - 1];
      SourcesConcat(env, a, b[..|b| - 1]);
      var last := b[|b| - 1];
      assert (a + b)[|a + b| - 1] == last;
    }
  }

  lemma {:induction false} AllSources(env: Env, entries: seq<Entry>)
    requires forall i :: 0 <= i < |entries| ==> IsSource(env, entries[i])
    ensures Sources(env, entries) == entries
  {
    if entries != [] { AllSources(env, entries[..|entries| - 1]); }
  }

  lemma DerivedLast(env: Env, entries: seq<Entry>, a: Entry, b: Entry)
    requires a.artifact.path == env.index && b.artifact.path == env.summary
    requires forall i :: 0 <= i < |entries| ==> IsSource(env, entries[i])
    ensures Sources(env, entries + [a, b]) == entries
  {
    SourcesConcat(env, entries, [a, b]);
    AllSources(env, entries);
    assert [a, b][..1] == [a] && [a][..0] == [];
    assert Sources(env, [a]) == [] && Sources(env, [a, b]) == [];
  }

  /** The listed entries are those of the map, with flags. */
  lemma ListedEntries(env: Env, selected: map<Kind, string>, sources: Entries, files: Files, i: nat)
    requires Faithful(env, files, sources) && i < |InOrder(sources)|
    ensures var e := Applied(env, selected, InOrder(sources))[i];
            && e.artifact.path == SortedPaths(sources.Keys)[i] && e.artifact.path in sources
            && e.artifact == sources[e.artifact.path].artifact
  {
    assert SortedPaths(sources.Keys)[i] in SortedPaths(sources.Keys);
  }

  lemma UniqueAppend(entries: seq<Entry>, a: Entry, b: Entry)
    requires UniquePaths(entries) && a.artifact.path != b.artifact.path
    requires forall i :: 0 <= i < |entries| ==>
               entries[i].artifact.path != a.artifact.path && entries[i].artifact.path != b.artifact.path
    ensures UniquePaths(entries + [a, b])
  {}

  lemma ListedUnique(env: Env, selected: map<Kind, string>, sources: Entries, files: Files)
    requires Faithful(env, files, sources)
    ensures UniquePaths(Applied(env, selected, InOrder(sources)))
  {
    var entries, ps := Applied(env, selected, InOrder(sources)), SortedPaths(sources.Keys);
    forall i, j | 0 <= i < j < |entries| ensures entries[i].artifact.path != entries[j].artifact.path {
      ListedEntries(env, selected, sources, files, i);
      ListedEntries(env, selected, sources, files, j);
      assert ps[i] != ps[j];
    }
  }

  lemma NoDuplicates(env: Env, selected: map<Kind, string>, sources: Entries, files: Files, a: Entry, b: Entry)
    requires Faithful(env, files, sources) && Distinct(env)
    requires a.artifact.path == env.index && b.artifact.path == env.summary
    requires env.index !in sources && env.summary !in sources
    ensures UniquePaths(Applied(env, selected, InOrder(sources)) + [a, b])
    ensures forall i :: 0 <= i < |InOrder(sources)| ==> IsSource(env, Applied(env, selected, InOrder(sources))[i])
  {
    var entries := Applied(env, selected, InOrder(sources));
    forall i | 0 <= i < |entries| ensures IsSource(env, entries[i]) {
      ListedEntries(env, selected, sources, files, i);
    }
    ListedUnique(env, selected, sources, files);
    UniqueAppend(entries, a, b);
  }

  lemma StillRegistered(env: Env, before: Files, after: Files, ref: Ref)
    requires SameSources(env, before, after) && !Derived(env, ref.path) && Registered(env, before, ref)
    ensures Registered(env, after, ref)
  {}

  lemma ArtifactsRegistered(env: Env, before: Files, after: Files, sources: Entries, selected: map<Kind, string>,
                            a: Entry, b: Entry)
    requires SameSources(env, before, after) && Faithful(env, before, sources)
    requires forall p :: p in sources ==> !Derived(env, p)
    requires Registered(env, after, a.artifact) && Registered(env, after, b.artifact)
    ensures AllRegistered(env, after, Applied(env, selected, InOrder(sources)) + [a, b])
  {
    var entries := Applied(env, selected, InOrder(sources));
    forall i | 0 <= i < |entries| ensures Registered(env, after, entries[i].artifact) {
      ListedEntries(env, selected, sources, before, i);
      StillRegistered(env, before, after, entries[i].artifact);
    }
  }

  /** Right after a refresh whose sources are not derived files, the loader accepts. */
  lemma LoadsAfterRefresh(env: Env, files: Files, t1: nat, t2: nat, t3: nat)
    requires Distinct(env) && CollisionFree(env) && WellKeyed(files) && Refreshed(env, files, t1, t2, t3).0.Ok?
    requires forall p :: p in SourceEntries(env, files).value ==> !Derived(env, p)
    ensures Loads(env, Refreshed(env, files, t1, t2, t3).1)
  {
    var sources, description := Succeeds(env, files, t1, t2, t3);
    var (m, after) := Published(env, files, sources, description, t1, t2, t3);
    var selected, entries := IndexOf(env, sources).selected, EntriesOf(env, sources);
    var a, b := Entry(m.attempts, AttemptFile, None, true), Entry(m.summary, SummaryFile, None, true);
    AfterPublish(env, files, sources, description, t1, t2, t3);
    NoDuplicates(env, selected, sources, files, a, b);
    DerivedLast(env, entries, a, b);
    ArtifactsRegistered(env, files, after, sources, selected, a, b);
  }

  /** When the index or the summary is itself a source, it is listed twice and the
      loader refuses. */
  lemma DerivedSourceRefused(env: Env, files: Files, t1: nat, t2: nat, t3: nat)
    requires Distinct(env) && CollisionFree(env) && WellKeyed(files) && Refreshed(env, files, t1, t2, t3).0.Ok?
    requires env.index in SourceEntries(env, files).value || env.summary in SourceEntries(env, files).value
    ensures !Loads(env, Refreshed(env, files, t1, t2, t3).1)
  {
    var sources, description := Succeeds(env, files, t1, t2, t3);
    var (m, after) := Published(env, files, sources, description, t1, t2, t3);
    AfterPublish(env, files, sources, description, t1, t2, t3);
    if env.index in sources {
      var i := SourceListed(env, files, t1, t2, t3, env.index);
      assert m.artifacts[i].artifact.path == m.artifacts[|m.artifacts| - 2].artifact.path;
    } else {
      var i := SourceListed(env, files, t1, t2, t3, env.summary);
      assert m.artifacts[i].artifact.path == m.artifacts[|m.artifacts| - 1].artifact.path;
    }
  }

  /** Every source is listed in the manifest, before the index and the summary, as it
      was registered before the refresh. */
  lemma SourceListed(env: Env, files: Files, t1: nat, t2: nat, t3: nat, p: Path) returns (i: nat)
    requires Distinct(env) && CollisionFree(env) && WellKeyed(files) && Refreshed(env, files, t1, t2, t3).0.Ok?
    requires p in SourceEntries(env, files).value
    ensures var m := Refreshed(env, files, t1, t2, t3).0.value;
            i + 2 < |m.artifacts| && p in files && m.artifacts[i].artifact == files[p].ref && files[p].ref.path == p
  {
    var sources, description := Succeeds(env, files, t1, t2, t3);
    var selected := IndexOf(env, sources).selected;
    AfterPublish(env, files, sources, description, t1, t2, t3);
    assert p in SortedPaths(sources.Keys);
    i :| 0 <= i < |SortedPaths(sources.Keys)| && SortedPaths(sources.Keys)[i] == p;
    ListedEntries(env, selected, sources, files, i);
  }

  /** No manifest lists itself with its own hash. */
  ghost predicate NoSelfHash(env: Env) {
    forall m: Manifest, i :: 0 <= i < |m.artifacts| && m.artifacts[i].artifact.path == env.manifest ==>
      m.artifacts[i].artifact.sha256 != env.hash(ManifestDoc(m))
  }

  /** When the manifest is itself a source, it lists a version of itself that the refresh
      has replaced, and the loader refuses. */
  lemma ManifestSourceRefused(env: Env, files: Files, t1: nat, t2: nat, t3: nat)
    requires Distinct(env) && CollisionFree(env) && NoSelfHash(env) && WellKeyed(files)
    requires Refreshed(env, files, t1, t2, t3).0.Ok? && env.manifest in SourceEntries(env, files).value
    ensures !Loads(env, Refreshed(env, files, t1, t2, t3).1)
  {
    var sources, description := Succeeds(env, files, t1, t2, t3);
    var (m, after) := Published(env, files, sources, description, t1, t2, t3);
    AfterPublish(env, files, sources, description, t1, t2, t3);
    var i := SourceListed(env, files, t1, t2, t3, env.manifest);
    assert m.artifacts[i].artifact.sha256 != env.hash(ManifestDoc(m));
    assert !Registered(env, after, m.artifacts[i].artifact);
  }

  /******* Which files are sources *******/

  predicate IsEvidence(env: Env, p: Path) {
    exists i :: 0 <= i < |env.profiles| && env.profiles[i].evidence == Some(p)
  }

  /** A registered file of the experiment that is not derived, or one that is selected,
      or the evidence of a profile attempt. */
  predicate IsSourcePath(env: Env, files: Files, p: Path) {
    p in files && ((env.owned(p) && !Derived(env, p)) || Chosen(env, p) || IsEvidence(env, p))
  }

  lemma {:induction false} ChoicesPaths(env: Env, files: Files, choices: seq<Choice>, entries: Entries, p: Path)
    ensures var r := AddChoices(env, files, choices, entries);
            && (r.Ok? <==> forall i :: 0 <= i < |choices| ==> choices[i].path in files)
            && (r.Ok? ==> (p in r.value <==> p in entries || exists i :: 0 <= i < |choices| && choices[i].path == p))
  {
    if choices != [] && choices[0].path in files {
      ChoicesPaths(env, files, choices[1..], entries[choices[0].path := ChoiceEntry(env, files, choices[0])], p);
      assert choices == [choices[0]] + choices[1..];
    }
  }

  lemma {:induction false} ProfilesPaths(env: Env, files: Files, trials: seq<ProfileTrial>, entries: Entries, p: Path)
    ensures p in AddProfiles(env, files, trials, entries)
       <==> p in entries || (p in files && exists i :: 0 <= i < |trials| && trials[i].evidence == Some(p))
  {
    if trials != [] {
      var t := trials[0];
      ProfilesPaths(env, files, trials[1..],
                    if t.evidence.Some? && t.evidence.value in files
                    then entries[t.evidence.value := ProfileEntry(env, files, t)] else entries, p);
      assert trials == [t] + trials[1..];
    }
  }

  /** The sources of a refresh are exactly these paths. */
  lemma SourcesAre(env: Env, files: Files, p: Path)
    requires SourceEntries(env, files).Ok?
    ensures p in SourceEntries(env, files).value <==> IsSourcePath(env, files, p)
  {
    ChoicesPaths(env, files, env.choices, OwnedEntries(env, files), p);
    ProfilesPaths(env, files, env.profiles, AddChoices(env, files, env.choices, OwnedEntries(env, files)).value, p);
    if i :| 0 <= i < |env.choices| && env.choices[i].path == p { assert p in files; }
  }

  /** None of the three files that a refresh writes is selected as evidence, nor
      registered as the evidence of a profile attempt. */
  predicate ReadsApart(env: Env, files: Files) {
    && (forall i :: 0 <= i < |env.choices| ==> !Derived(env, env.choices[i].path))
    && (forall i :: 0 <= i < |env.profiles| && env.profiles[i].evidence.Some?
                    && env.profiles[i].evidence.value in files ==>
          !Derived(env, env.profiles[i].evidence.value))
  }

  lemma SourcesOutsideIff(env: Env, files: Files)
    requires SourceEntries(env, files).Ok?
    ensures ReadsApart(env, files) <==> forall p :: p in SourceEntries(env, files).value ==> !Derived(env, p)
  {
    forall p ensures p in SourceEntries(env, files).value <==> IsSourcePath(env, files, p) {
      SourcesAre(env, files, p);
    }
    ChoicesPaths(env, files, env.choices, OwnedEntries(env, files), env.index);
    if !ReadsApart(env, files) {
      if i :| 0 <= i < |env.choices| && Derived(env, env.choices[i].path) {
        assert IsSourcePath(env, files, env.choices[i].path);
      } else {
        var i :| 0 <= i < |env.profiles| && env.profiles[i].evidence.Some? && env.profiles[i].evidence.value in files
                 && Derived(env, env.profiles[i].evidence.value);
        assert IsSourcePath(env, files, env.profiles[i].evidence.value);
      }
    }
  }

  /** Right after a refresh that succeeds, the loader accepts if and only if, before it,
      none of the derived files was selected or registered as profile evidence. */
  lemma LoadsIffSourcesApart(env: Env, files: Files, t1: nat, t2: nat, t3: nat)
    requires Distinct(env) && CollisionFree(env) && NoSelfHash(env) && WellKeyed(files)
    requires Refreshed(env, files, t1, t2, t3).0.Ok?
    ensures Loads(env, Refreshed(env, files, t1, t2, t3).1) <==> ReadsApart(env, files)
  {
    var sources := SourceEntries(env, files).value;
    SourcesOutsideIff(env, files);
    if ReadsApart(env, files) {
      LoadsAfterRefresh(env, files, t1, t2, t3);
    } else if env.manifest in sources {
      ManifestSourceRefused(env, files, t1, t2, t3);
    } else {
      DerivedSourceRefused(env, files, t1, t2, t3);
    }
  }

  /** Collecting the sources succeeds exactly when the selected evidence is registered and
      every source verifies. */
  lemma SourcesOkIff(env: Env, files: Files)
    ensures SourceEntries(env, files).Ok? <==>
              && (forall i :: 0 <= i < |env.choices| ==> env.choices[i].path in files)
              && forall p :: IsSourcePath(env, files, p) ==> Verified(env, files, files[p].ref)
  {
    var owned, added := OwnedEntries(env, files), AddChoices(env, files, env.choices, OwnedEntries(env, files));
    ChoicesPaths(env, files, env.choices, owned, env.index);
    if added.Ok? {
      var entries := AddProfiles(env, files, env.profiles, added.value);
      ChoicesFromFiles(env, files, env.choices, owned);
      ProfilesFromFiles(env, files, env.profiles, added.value);
      forall p ensures p in entries <==> IsSourcePath(env, files, p) {
        ChoicesPaths(env, files, env.choices, owned, p);
        ProfilesPaths(env, files, env.profiles, added.value, p);
      }
    }
  }

  /** The refused case occurs: once the index of any refreshed bundle is selected as
      evidence, the next refresh succeeds unless the summary cannot be built from it, and
      what it writes is refused. */
  lemma ChosenIndexRefused(env: Env, files: Files, t1: nat, t2: nat, t3: nat, u1: nat, u2: nat, u3: nat)
    requires Distinct(env) && CollisionFree(env) && WellKeyed(files) && Refreshed(env, files, t1, t2, t3).0.Ok?
    ensures var after, again := Refreshed(env, files, t1, t2, t3).1, Selecting(env, env.index, []);
            var (r, left) := Refreshed(again, after, u1, u2, u3);
            (r.Ok? || r == Err(Undescribed)) && (r.Ok? ==> !Loads(again, left))
  {
    var sources := AfterRefresh(env, files, t1, t2, t3);
    var after, again := Refreshed(env, files, t1, t2, t3).1, Selecting(env, env.index, []);
    SelectingOk(env, files, after, env.index, []);
    if Refreshed(again, after, u1, u2, u3).0.Ok? { DerivedSourceRefused(again, after, u1, u2, u3); }
  }

  /** The file `p` becomes selected evidence, and more quality attempts appear. */
  function Selecting(env: Env, p: Path, more: seq<Trial>): Env {
    env.(choices := env.choices + [Choice(p, false, false)], qualities := env.qualities + more)
  }

  /** Sources stay sound when a verified file is selected too. */
  lemma SelectingOk(env: Env, files: Files, after: Files, p: Path, more: seq<Trial>)
    requires SourceEntries(env, files).Ok? && WellKeyed(files) && p in after
    requires forall q :: q in files ==> q in after
    requires forall q :: q in after && (Derived(env, q) || q == p) ==> Verified(env, after, after[q].ref)
    requires forall q :: q in after && !Derived(env, q) && q != p ==> q in files && after[q] == files[q]
    ensures SourceEntries(Selecting(env, p, more), after).Ok?
    ensures p in SourceEntries(Selecting(env, p, more), after).value
  {
    var again := Selecting(env, p, more);
    SourcesOkIff(env, files);
    SourcesOkIff(again, after);
    forall q ensures Chosen(again, q) <==> Chosen(env, q) || q == p { ChosenEither(env, p, more, q); }
    forall q | IsSourcePath(again, after, q) ensures Verified(again, after, after[q].ref) {
      if !Derived(env, q) && q != p { assert IsSourcePath(env, files, q); }
    }
    forall i | 0 <= i < |again.choices| ensures again.choices[i].path in after {
      if i < |env.choices| { assert again.choices[i] == env.choices[i]; }
    }
    SourcesAre(again, after, p);
  }

  lemma ChosenEither(env: Env, p: Path, more: seq<Trial>, q: Path)
    ensures Chosen(Selecting(env, p, more), q) <==> Chosen(env, q) || q == p
  {
    var all := Selecting(env, p, more).choices;
    assert all[|env.choices|].path == p && forall i :: 0 <= i < |env.choices| ==> all[i] == env.choices[i];
  }

  /******* Refreshing again *******/

  /** Neither the selected evidence nor the profile evidence is a derived file. */
  predicate ReadsNoDerived(env: Env) {
    && (forall i :: 0 <= i < |env.choices| ==> !Derived(env, env.choices[i].path))
    && (forall i :: 0 <= i < |env.profiles| && env.profiles[i].evidence.Some? ==>
          !Derived(env, env.profiles[i].evidence.value))
  }

  lemma {:induction false} SameChoices(env: Env, a: Files, b: Files, choices: seq<Choice>, entries: Entries)
    requires SameSources(env, a, b) && forall i :: 0 <= i < |choices| ==> !Derived(env, choices[i].path)
    ensures AddChoices(env, a, choices, entries) == AddChoices(env, b, choices, entries)
  {
    if choices != [] && choices[0].path in a {
      SameChoices(env, a, b, choices[1..], entries[choices[0].path := ChoiceEntry(env, a, choices[0])]);
    }
  }

  lemma {:induction false} SameProfiles(env: Env, a: Files, b: Files, trials: seq<ProfileTrial>, entries: Entries)
    requires SameSources(env, a, b)
    requires forall i :: 0 <= i < |trials| && trials[i].evidence.Some? ==> !Derived(env, trials[i].evidence.value)
    ensures AddProfiles(env, a, trials, entries) == AddProfiles(env, b, trials, entries)
  {
    if trials != [] {
      var t := trials[0];
      SameProfiles(env, a, b, trials[1..],
                   if t.evidence.Some? && t.evidence.value in a
                   then entries[t.evidence.value := ProfileEntry(env, a, t)] else entries);
    }
  }

  /** Entries that avoid the derived files. */
  predicate Outside(env: Env, entries: Entries) {
    forall p :: p in entries ==> !Derived(env, p)
  }

  lemma {:induction false} ChoicesOutside(env: Env, files: Files, choices: seq<Choice>, entries: Entries)
    requires Outside(env, entries) && forall i :: 0 <= i < |choices| ==> !Derived(env, choices[i].path)
    requires AddChoices(env, files, choices, entries).Ok?
    ensures Outside(env, AddChoices(env, files, choices, entries).value)
  {
    if choices != [] {
      ChoicesOutside(env, files, choices[1..], entries[choices[0].path := ChoiceEntry(env, files, choices[0])]);
    }
  }

  lemma {:induction false} ProfilesOutside(env: Env, files: Files, trials: seq<ProfileTrial>, entries: Entries)
    requires Outside(env, entries)
    requires forall i :: 0 <= i < |trials| && trials[i].evidence.Some? ==> !Derived(env, trials[i].evidence.value)
    ensures Outside(env, AddProfiles(env, files, trials, entries))
  {
    if trials != [] {
      var t := trials[0];
      ProfilesOutside(env, files, trials[1..],
                      if t.evidence.Some? && t.evidence.value in files
                      then entries[t.evidence.value := ProfileEntry(env, files, t)] else entries);
    }
  }

  /** What a refresh reads does not change with the derived files. */
  lemma SameSourceEntries(env: Env, a: Files, b: Files)
    requires ReadsNoDerived(env) && SameSources(env, a, b) && WellKeyed(a) && SourceEntries(env, a).Ok?
    ensures SourceEntries(env, b) == SourceEntries(env, a) && Outside(env, SourceEntries(env, a).value)
  {
    assert OwnedEntries(env, a) == OwnedEntries(env, b);
    var owned := OwnedEntries(env, a);
    SameChoices(env, a, b, env.choices, owned);
    var chosen := AddChoices(env, a, env.choices, owned).value;
    SameProfiles(env, a, b, env.profiles, chosen);
    ChoicesFromFiles(env, a, env.choices, owned);
    ProfilesFromFiles(env, a, env.profiles, chosen);
    ChoicesOutside(env, a, env.choices, owned);
    ProfilesOutside(env, a, env.profiles, chosen);
  }

  lemma SameDescription(env: Env, a: Files, b: Files)
    requires Distinct(env) && ReadsNoDerived(env) && SameSources(env, a, b) && WellKeyed(a) && WellKeyed(b)
    ensures Description(env, a) == Description(env, b)
  {
    assert Described(env, a) == Described(env, b);
  }

  lemma WriteAgain(env: Env, files: Files, path: Path, content: Content, now: nat)
    requires path in files && files[path].content == content && Registered(env, files, files[path].ref)
    requires files[path].ref.path == path
    ensures Write(env, files, path, content, now) == (files[path].ref, files)
  {}

  /** Publishing the same sources on the files of a publication changes nothing. */
  lemma PublishAgain(env: Env, files: Files, sources: Entries, description: string,
                     t1: nat, t2: nat, t3: nat, u1: nat, u2: nat, u3: nat)
    requires Distinct(env) && CollisionFree(env) && WellKeyed(files)
    ensures var (m, after) := Published(env, files, sources, description, t1, t2, t3);
            && Published(env, after, sources, description, u1, u2, u3) == (m, after)
            && Indexed(env, after, sources, u1).1 == after
  {
    var index, entries := IndexOf(env, sources), EntriesOf(env, sources);
    var (indexRef, f1) := Indexed(env, files, sources, t1);
    WriteStores(env, files, env.index, IndexDoc(index), t1);
    var summary := SummaryOf(env, entries, index.selected, description);
    var (summaryRef, f2) := Write(env, f1, env.summary, SummaryDoc(summary), t2);
    WriteStores(env, f1, env.summary, SummaryDoc(summary), t2);
    var m := ManifestOf(env, entries, summary, indexRef, summaryRef);
    var (manifestRef, f3) := Write(env, f2, env.manifest, ManifestDoc(m), t3);
    WriteStores(env, f2, env.manifest, ManifestDoc(m), t3);
    WriteAgain(env, f3, env.index, IndexDoc(index), u1);
    WriteAgain(env, f3, env.summary, SummaryDoc(summary), u2);
    WriteAgain(env, f3, env.manifest, ManifestDoc(m), u3);
  }

  /** Refreshing again with unchanged sources, at any time, changes no file and
      returns the same manifest. */
  lemma RefreshIsFixpoint(env: Env, files: Files, t1: nat, t2: nat, t3: nat, u1: nat, u2: nat, u3: nat)
    requires Distinct(env) && CollisionFree(env) && WellKeyed(files) && ReadsNoDerived(env)
    requires Refreshed(env, files, t1, t2, t3).0.Ok?
    ensures var done := Refreshed(env, files, t1, t2, t3);
            Refreshed(env, done.1, u1, u2, u3) == done
  {
    var sources, description := Succeeds(env, files, t1, t2, t3);
    var (m, after) := Published(env, files, sources, description, t1, t2, t3);
    AfterPublish(env, files, sources, description, t1, t2, t3);
    SameSourceEntries(env, files, after);
    PublishAgain(env, files, sources, description, t1, t2, t3, u1, u2, u3);
    WriteStores(env, files, env.index, IndexDoc(IndexOf(env, sources)), t1);
    SameDescription(env, Indexed(env, files, sources, t1).1, after);
  }
}
