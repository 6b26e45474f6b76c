/** When a refresh fails, and what is left of the bundle then. */
module BundleFailures {
  import opened Wrappers
  import opened Bundle
  import opened BundleRefresh

  /** The files when the summary is built: sound sources have had their index written. */
  ghost function WhenDescribed(env: Env, files: Files, t1: nat): Files {
    match SourceEntries(env, files)
    case Err(_) => files
    case Ok(sources) => Indexed(env, files, sources, t1).1
  }

  lemma AfterIndex(env: Env, files: Files, sources: Entries, t1: nat)
    requires WellKeyed(files)
    ensures var after := Indexed(env, files, sources, t1).1;
            && WellKeyed(after) && env.index in after && Verified(env, after, after[env.index].ref)
            && forall p :: p != env.index ==> (p in after <==> p in files) && (p in files ==> after[p] == files[p])
  {}

  /** What is described has been verified as a source, or is the index just written. */
  lemma DescribedVerified(env: Env, files: Files, t1: nat)
    requires WellKeyed(files) && env.owned(env.provenance) && !Derived(env, env.provenance)
    requires SourceEntries(env, files).Ok?
    ensures var during := WhenDescribed(env, files, t1);
            Description(env, during) == env.describe(Described(env, during))
  {
    var during := WhenDescribed(env, files, t1);
    SourcesOkIff(env, files);
    AfterIndex(env, files, SourceEntries(env, files).value, t1);
    forall p | p in Described(env, during) ensures Verified(env, during, during[p].ref) {
      if p != env.index { assert IsSourcePath(env, files, p); }
    }
  }

  /** Unless the index is itself selected, writing it does not change what is described. */
  lemma DescribedBefore(env: Env, files: Files, t1: nat)
    requires Distinct(env) && WellKeyed(files) && !Chosen(env, env.index)
    ensures Described(env, WhenDescribed(env, files, t1)) == Described(env, files)
  {
    if SourceEntries(env, files).Ok? { AfterIndex(env, files, SourceEntries(env, files).value, t1); }
  }

  /** A refresh succeeds exactly when the selected evidence is registered, every source
      verifies, quality attempts carry the ids of their files, and a summary can be made
      of the evidence.  A failed refresh has changed at most the index, and that only
      when no summary could be made. */
  lemma RefreshOkIff(env: Env, files: Files, t1: nat, t2: nat, t3: nat)
    requires Distinct(env) && WellKeyed(files) && env.owned(env.provenance)
    ensures Refreshed(env, files, t1, t2, t3).0.Ok? <==>
              && (forall i :: 0 <= i < |env.choices| ==> env.choices[i].path in files)
              && (forall p :: IsSourcePath(env, files, p) ==> Verified(env, files, files[p].ref))
              && (forall i :: 0 <= i < |env.qualities| ==> RecordsFileId(env.qualities[i]))
              && env.describe(Described(env, WhenDescribed(env, files, t1))).Some?
    ensures !Chosen(env, env.index) ==> Described(env, WhenDescribed(env, files, t1)) == Described(env, files)
    ensures var (r, left) := Refreshed(env, files, t1, t2, t3);
            r.Err? ==> left == if r == Err(Undescribed) then WhenDescribed(env, files, t1) else files
  {
    SourcesOkIff(env, files);
    QualitiesNamedIff(env);
    if SourceEntries(env, files).Ok? { DescribedVerified(env, files, t1); }
    if !Chosen(env, env.index) { DescribedBefore(env, files, t1); }
  }

  /** `left` is `files` with another registration of the index. */
  ghost predicate OnlyIndex(env: Env, files: Files, left: Files) {
    && WellKeyed(files) && WellKeyed(left) && env.index in left
    && forall p :: p != env.index ==> (p in left <==> p in files) && (p in files ==> left[p] == files[p])
  }

  /** The manifest is bound to the content of its index. */
  lemma OtherIndexRefused(env: Env, files: Files, left: Files)
    requires Distinct(env) && CollisionFree(env) && OnlyIndex(env, files, left) && Loads(env, files)
    requires left[env.index].content != files[env.index].content
    ensures !Loads(env, left)
  {
    assert left[env.manifest] == files[env.manifest];
  }

  /** Registering the same index anew keeps a bundle that does not list it. */
  lemma SameIndexLoads(env: Env, files: Files, left: Files)
    requires Distinct(env) && OnlyIndex(env, files, left) && Loads(env, files)
    requires left[env.index].content == files[env.index].content
    requires !Verified(env, files, files[env.index].ref)
    ensures Loads(env, left)
  {
    var m := files[env.manifest].content.manifest;
    forall i | 0 <= i < |m.artifacts| ensures Registered(env, left, m.artifacts[i].artifact) {
      assert Registered(env, files, m.artifacts[i].artifact);
    }
  }

  lemma ReindexedLoadsIff(env: Env, files: Files, doc: Content, now: nat)
    requires Distinct(env) && CollisionFree(env) && WellKeyed(files) && Loads(env, files)
    ensures Loads(env, Write(env, files, env.index, doc, now).1) <==> files[env.index].content == doc
  {
    var left := Write(env, files, env.index, doc, now).1;
    WriteStores(env, files, env.index, doc, now);
    if files[env.index].content != doc {
      OtherIndexRefused(env, files, left);
    } else if !UpToDate(env, files, env.index, doc) {
      SameIndexLoads(env, files, left);
    }
  }

  /** What a refresh leaves when no summary can be made. */
  lemma FailureLeaves(env: Env, files: Files, t1: nat, t2: nat, t3: nat) returns (index: Index)
    requires Refreshed(env, files, t1, t2, t3).0 == Err(Undescribed)
    ensures SourceEntries(env, files).Ok? && index == IndexOf(env, SourceEntries(env, files).value)
    ensures Refreshed(env, files, t1, t2, t3).1 == Write(env, files, env.index, IndexDoc(index), t1).1
  {
    index := IndexOf(env, SourceEntries(env, files).value);
  }

  /** For a registered file that verifies, having the content is what the writer checks. */
  lemma UpToDateIff(env: Env, files: Files, path: Path, content: Content)
    requires CollisionFree(env) && WellKeyed(files) && path in files && Verified(env, files, files[path].ref)
    ensures UpToDate(env, files, path, content) <==> files[path].content == content
  {}

  /** A bundle that loaded still loads after a refresh that could make no summary of the
      evidence, if and only if its index was already the new one. */
  lemma FailedRefreshLoadsIff(env: Env, files: Files, t1: nat, t2: nat, t3: nat)
    requires Distinct(env) && CollisionFree(env) && WellKeyed(files) && Loads(env, files)
    requires Refreshed(env, files, t1, t2, t3).0 == Err(Undescribed)
    ensures Loads(env, Refreshed(env, files, t1, t2, t3).1)
       <==> files[env.index].content == IndexDoc(IndexOf(env, SourceEntries(env, files).value))
    ensures Verified(env, files, files[env.index].ref) ==>
              (files[env.index].content == IndexDoc(IndexOf(env, SourceEntries(env, files).value))
               <==> UpToDate(env, files, env.index, IndexDoc(IndexOf(env, SourceEntries(env, files).value))))
  {
    var index := FailureLeaves(env, files, t1, t2, t3);
    ReindexedLoadsIff(env, files, IndexDoc(index), t1);
    if Verified(env, files, files[env.index].ref) { UpToDateIff(env, files, env.index, IndexDoc(index)); }
  }

  /******* The failing case occurs *******/

  /** No summary can be made when the evidence at `p` has this content: it is no JSON
      object, say. */
  ghost predicate Unreadable(env: Env, p: Path, bad: Content) {
    forall inputs: Files :: p in inputs && inputs[p].content == bad ==> env.describe(inputs).None?
  }

  lemma NoSuchAttempt(env: Env, entries: seq<Entry>, id: string)
    requires forall i :: 0 <= i < |env.qualities| ==> env.qualities[i].id != id
    ensures forall a :: a in AllAttempts(env, entries) ==> !(a.kind == QualityRun && a.id == id)
  {}

  lemma NewAttempt(env: Env, entries: seq<Entry>, p: Path, t: Trial)
    ensures exists a :: a in AllAttempts(Selecting(env, p, [t]), entries) && a.kind == QualityRun && a.id == t.id
  {
    var again := Selecting(env, p, [t]);
    var group := Group(again, entries, QualityRun, again.qualities);
    assert group[|env.qualities|] in group;
    assert group[|env.qualities|] in OtherAttempts(again, entries);
  }

  lemma {:induction false} SourcesAlike(env: Env, p: Path, more: seq<Trial>, entries: seq<Entry>)
    ensures Sources(Selecting(env, p, more), entries) == Sources(env, entries)
  {
    if entries != [] { SourcesAlike(env, p, more, entries[..|entries| - 1]); }
  }

  /** A file that the manifest does not know does not matter to the loader. */
  lemma LoadsBeside(env: Env, files: Files, p: Path, stored: Stored, more: seq<Trial>)
    requires Loads(env, files) && p !in files
    ensures Loads(Selecting(env, p, more), files[p := stored])
  {
    var m := files[env.manifest].content.manifest;
    SourcesAlike(env, p, more, m.artifacts);
    forall i | 0 <= i < |m.artifacts|
      ensures Registered(Selecting(env, p, more), files[p := stored], m.artifacts[i].artifact)
    {
      assert Registered(env, files, m.artifacts[i].artifact);
    }
  }

  /** With evidence that cannot be read among the selected, a refresh whose sources are
      sound fails for want of a summary. */
  lemma UnreadableRefused(env: Env, files: Files, p: Path, t1: nat, t2: nat, t3: nat)
    requires WellKeyed(files) && SourceEntries(env, files).Ok? && QualitiesNamed(env)
    requires p in files && Chosen(env, p) && p != env.index && Unreadable(env, p, files[p].content)
    ensures Refreshed(env, files, t1, t2, t3).0 == Err(Undescribed)
  {
    var during := Indexed(env, files, SourceEntries(env, files).value, t1).1;
    AfterIndex(env, files, SourceEntries(env, files).value, t1);
    assert p in Described(env, during) && Described(env, during)[p].content == files[p].content;
  }

  /** A new quality attempt shows in the index. */
  lemma IndexDiffers(env: Env, sources: Entries, p: Path, t: Trial, found: Entries)
    requires forall i :: 0 <= i < |env.qualities| ==> env.qualities[i].id != t.id
    ensures IndexOf(Selecting(env, p, [t]), found) != IndexOf(env, sources)
  {
    NoSuchAttempt(env, InOrder(sources), t.id);
    NewAttempt(env, InOrder(found), p, t);
  }

  /** Once both are there, the refresh replaces the index that the manifest is bound to. */
  lemma UnloadsWith(env: Env, sources: Entries, after: Files, p: Path, t: Trial, u1: nat, u2: nat, u3: nat)
    requires Distinct(env) && CollisionFree(env) && WellKeyed(after)
    requires forall i :: 0 <= i < |env.qualities| ==> env.qualities[i].id != t.id
    requires QualitiesNamed(env) && Named(t)
    requires p in after && p != env.index && Unreadable(env, p, after[p].content)
    requires SourceEntries(Selecting(env, p, [t]), after).Ok? && Loads(Selecting(env, p, [t]), after)
    requires after[env.index].content == IndexDoc(IndexOf(env, sources))
    ensures var (r, left) := Refreshed(Selecting(env, p, [t]), after, u1, u2, u3);
            r == Err(Undescribed) && !Loads(Selecting(env, p, [t]), left)
  {
    var again := Selecting(env, p, [t]);
    ChosenEither(env, p, [t], p);
    UnreadableRefused(again, after, p, u1, u2, u3);
    IndexDiffers(env, sources, p, t, SourceEntries(again, after).value);
    FailedRefreshLoadsIff(again, after, u1, u2, u3);
  }

  /** A further quality attempt whose result becomes selected evidence but cannot be read:
      the bundle loads before the next refresh, that refresh fails, and the bundle does
      not load any more. */
  lemma UnreadableEvidenceUnloads(env: Env, files: Files, t1: nat, t2: nat, t3: nat,
                                  p: Path, stored: Stored, t: Trial, u1: nat, u2: nat, u3: nat)
    requires Distinct(env) && CollisionFree(env) && WellKeyed(files)
    requires Refreshed(env, files, t1, t2, t3).0.Ok? && Loads(env, Refreshed(env, files, t1, t2, t3).1)
    requires p !in files && !Derived(env, p) && Unreadable(env, p, stored.content)
    requires stored.ref == Ref(p, env.hash(stored.content), env.size(stored.content), stored.ref.createdAt)
    requires Named(t) && forall i :: 0 <= i < |env.qualities| ==> env.qualities[i].id != t.id
    ensures var after, again := Refreshed(env, files, t1, t2, t3).1[p := stored], Selecting(env, p, [t]);
            var (r, left) := Refreshed(again, after, u1, u2, u3);
            Loads(again, after) && r == Err(Undescribed) && !Loads(again, left)
  {
    var sources := AfterRefresh(env, files, t1, t2, t3);
    var after := Refreshed(env, files, t1, t2, t3).1[p := stored];
    LoadsBeside(env, Refreshed(env, files, t1, t2, t3).1, p, stored, [t]);
    SelectingOk(env, files, after, p, [t]);
    UnloadsWith(env, sources, after, p, t, u1, u2, u3);
  }
}
