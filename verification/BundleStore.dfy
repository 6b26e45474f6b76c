/** The refresh and the loader as they run, against the registered files of a task. */
module BundleStore {
  import opened Wrappers
  import opened Ranking
  import opened Bundle
  import opened BundleRefresh

  /** The entries of a dictionary, sorted by path. */
  method ListInOrder(entries: Entries) returns (es: seq<Entry>)
    ensures es == InOrder(entries)
  {
    var listed: seq<Path>, remaining := [], entries.Keys;
    while remaining != {}
      invariant Unique(listed) && Elements(listed) !! remaining && Elements(listed) + remaining == entries.Keys
    {
      var p :| p in remaining;
      listed, remaining := listed + [p], remaining - {p};
    }
    PathsOrdered(entries.Keys);
    var ps := Sorted(listed, PathBefore);
    SortedIsAscending(listed, PathBefore);
    assert Elements(SortedPaths(entries.Keys)) == Elements(ps);
    OneAscendingOrder(ps, SortedPaths(entries.Keys), PathBefore);
    assert forall p :: p in ps ==> p in Elements(ps);
    es := seq(|ps|, i requires 0 <= i < |ps| => entries[ps[i]]);
  }

  /** The loops of `_source_entries`, which overwrite earlier entries of a path. */
  method CollectEntries(env: Env, files: Files) returns (r: Result<Entries, BundleError>)
    ensures r == SourceEntries(env, files)
  {
    var entries := OwnedEntries(env, files);
    for i := 0 to |env.choices|
      invariant AddChoices(env, files, env.choices, OwnedEntries(env, files))
                == AddChoices(env, files, env.choices[i..], entries)
    {
      var c := env.choices[i];
      assert env.choices[i..][0] == c && env.choices[i..][1..] == env.choices[i + 1..];
      if c.path !in files { return Err(NotRegistered); }
      entries := entries[c.path := ChoiceEntry(env, files, c)];
    }
    ghost var chosen := entries;
    for i := 0 to |env.profiles|
      invariant AddProfiles(env, files, env.profiles, chosen) == AddProfiles(env, files, env.profiles[i..], entries)
    {
      var t := env.profiles[i];
      assert env.profiles[i..][0] == t && env.profiles[i..][1..] == env.profiles[i + 1..];
      if t.evidence.Some? && t.evidence.value in files {
        entries := entries[t.evidence.value := ProfileEntry(env, files, t)];
      }
    }
    r := if AllVerified(env, files, entries) then Ok(entries) else Err(Corrupt);
  }

  class TaskStore {
    var files: Files

    constructor (files: Files)
      ensures this.files == files
    {
      this.files := files;
    }

    /** `_canonical_write`: afterwards the file is registered with this content; nothing
        changes when it already was, and no other file changes. */
    method CanonicalWrite(env: Env, path: Path, content: Content, now: nat) returns (ref: Ref)
      modifies this
      ensures (ref, files) == Write(env, old(files), path, content, now)
      ensures WellKeyed(old(files)) ==> WellKeyed(files) && ref.path == path && Registered(env, files, ref)
      ensures WellKeyed(old(files)) && CollisionFree(env) ==> files[path].content == content
      ensures UpToDate(env, old(files), path, content) ==> files == old(files)
      ensures forall p :: p != path ==> (p in files <==> p in old(files)) && (p in files ==> files[p] == old(files)[p])
    {
      if UpToDate(env, files, path, content) { return files[path].ref; }
      ref := Ref(path, env.hash(content), env.size(content), now);
      files := files[path := Stored(ref, content)];
    }

    /** `refresh_experiment_bundle`, after the selection and the collection of outputs;
        the times are those at which the three files would be written.  A summary that
        cannot be built is found out after the index has been written. */
    method Refresh(env: Env, t1: nat, t2: nat, t3: nat) returns (r: Result<Manifest, BundleError>)
      modifies this
      ensures (r, files) == Refreshed(env, old(files), t1, t2, t3)
      ensures r.Err? && r.error != Undescribed ==> files == old(files)
    {
      var sources := CollectEntries(env, files);
      if sources.Err? { return Err(sources.error); }
      var listed := ListInOrder(sources.value);
      if !QualitiesNamed(env) { return Err(QualityMisnamed); }
      var index := AttemptIndex(env, listed);
      var entries := ApplySelection(env, index.selected, listed);
      var indexRef := CanonicalWrite(env, env.index, IndexDoc(index), t1);
      var description := Description(env, files);
      if description.None? { return Err(Undescribed); }
      var summary := SummaryOf(env, entries, index.selected, description.value);
      var summaryRef := CanonicalWrite(env, env.summary, SummaryDoc(summary), t2);
      var manifest := ManifestOf(env, entries, summary, indexRef, summaryRef);
      var manifestRef := CanonicalWrite(env, env.manifest, ManifestDoc(manifest), t3);
      r := Ok(manifest);
    }

    /** `load_experiment_bundle`, for documents of the right task and experiment. */
    method Load(env: Env) returns (r: Result<(Summary, Manifest), LoadError>)
      ensures r.Ok? <==> Loads(env, files)
      ensures r.Ok? ==> r.value == (files[env.summary].content.summary, files[env.manifest].content.manifest)
    {
      if env.summary !in files || !files[env.summary].content.SummaryDoc? { return Err(Unreadable); }
      if env.manifest !in files || !files[env.manifest].content.ManifestDoc? { return Err(Unreadable); }
      var summary, manifest := files[env.summary].content.summary, files[env.manifest].content.manifest;
      if summary.digest != manifest.digest { return Err(DigestsDiffer); }
      if manifest.summary.path != env.summary || manifest.attempts.path != env.index { return Err(PathNotCanonical); }
      if !Registered(env, files, manifest.summary) { return Err(NotHashBound); }
      if !Verified(env, files, files[env.manifest].ref) { return Err(NotHashBound); }
      if !Verified(env, files, manifest.attempts) { return Err(NotHashBound); }
      if !files[manifest.attempts.path].content.IndexDoc? { return Err(Unreadable); }
      var seen: set<Path> := {};
      for i := 0 to |manifest.artifacts|
        invariant forall p :: p in seen <==> exists k :: 0 <= k < i && manifest.artifacts[k].artifact.path == p
        invariant forall k, l :: 0 <= k < l < i ==>
                    manifest.artifacts[k].artifact.path != manifest.artifacts[l].artifact.path
        invariant forall k :: 0 <= k < i ==> Registered(env, files, manifest.artifacts[k].artifact)
      {
        var ref := manifest.artifacts[i].artifact;
        if ref.path in seen { return Err(DuplicateArtifact); }
        seen := seen + {ref.path};
        if !Registered(env, files, ref) { return Err(ArtifactCorrupt); }
      }
      var sources := Sources(env, manifest.artifacts);
      if summary.count != |sources| { return Err(CountDiffers); }
      if env.digest(sources) != summary.digest { return Err(DigestUnverified); }
      r := Ok((summary, manifest));
    }
  }
}
