/** What a bundle that loads guarantees. */
module BundleTampering {
  import opened Bundle
  import opened BundleRefresh

  /** The files that a loaded bundle vouches for: its three documents and every file listed. */
  predicate Vouched(env: Env, files: Files, p: Path)
    requires Loads(env, files)
  {
    || p == env.manifest || p == env.summary || p == env.index
    || exists i :: 0 <= i < |Listed(env, files)| && Listed(env, files)[i].artifact.path == p
  }

  function Listed(env: Env, files: Files): seq<Entry>
    requires Loads(env, files)
  {
    files[env.manifest].content.manifest.artifacts
  }

  /** The file at `p` with other content, still under its registration. */
  function Tampered(files: Files, p: Path, content: Content): Files
    requires p in files
  {
    files[p := Stored(files[p].ref, content)]
  }

  lemma ManifestVerifies(env: Env, files: Files)
    requires Loads(env, files)
    ensures Verified(env, files, files[env.manifest].ref)
  {}

  lemma VouchedVerifies(env: Env, files: Files, p: Path) returns (ref: Ref)
    requires Loads(env, files) && Vouched(env, files, p) && p != env.manifest
    ensures p in files && ref.path == p && env.hash(files[p].content) == ref.sha256
    ensures var m := files[env.manifest].content.manifest;
            || ref == m.summary || ref == m.attempts
            || exists i :: 0 <= i < |m.artifacts| && m.artifacts[i].artifact == ref
  {
    var m := files[env.manifest].content.manifest;
    if p == env.summary {
      ref := m.summary;
    } else if p == env.index {
      ref := m.attempts;
    } else {
      var i :| 0 <= i < |m.artifacts| && m.artifacts[i].artifact.path == p;
      ref := m.artifacts[i].artifact;
      assert Registered(env, files, m.artifacts[i].artifact);
    }
  }

  lemma StillBound(env: Env, files: Files, ref: Ref)
    requires Loads(env, files)
    requires var m := files[env.manifest].content.manifest;
             || ref == m.summary || ref == m.attempts
             || exists i :: 0 <= i < |m.artifacts| && m.artifacts[i].artifact == ref
    ensures ref.path in files && env.hash(files[ref.path].content) == ref.sha256
  {
    var m := files[env.manifest].content.manifest;
    if i :| 0 <= i < |m.artifacts| && m.artifacts[i].artifact == ref {
      assert Registered(env, files, m.artifacts[i].artifact);
    }
  }

  /** Where hashes do not collide, any change to the content of a file that a loaded bundle
      vouches for makes the loader refuse it. */
  lemma TamperingRefused(env: Env, files: Files, p: Path, content: Content)
    requires CollisionFree(env) && WellKeyed(files) && Loads(env, files) && Vouched(env, files, p)
    requires p in files && content != files[p].content
    ensures !Loads(env, Tampered(files, p, content))
  {
    var after := Tampered(files, p, content);
    if Loads(env, after) {
      if p == env.manifest {
        ManifestVerifies(env, files);
        ManifestVerifies(env, after);
      } else {
        var ref := VouchedVerifies(env, files, p);
        StillBound(env, after, ref);
      }
    }
  }

  /** The entries that satisfy `p`, in order. */
  function Kept(entries: seq<Entry>, p: Entry -> bool): seq<Entry> {
    if entries == [] then [] else (if p(entries[0]) then [entries[0]] else []) + Kept(entries[1..], p)
  }

  lemma {:induction false} KeptConcat(a: seq<Entry>, b: seq<Entry>, p: Entry -> bool)
    ensures Kept(a + b, p) == Kept(a, p) + Kept(b, p)
  {
    if a == [] {
      assert a + b == b;
    } else {
      assert (a + b)[1..] == a[1..] + b;
      KeptConcat(a[1..], b, p);
    }
  }

  lemma {:induction false} SourcesKept(env: Env, entries: seq<Entry>, p: Entry -> bool)
    requires forall e :: p(e) <==> e.artifact.path != env.index && e.artifact.path != env.summary
    ensures Sources(env, entries) == Kept(entries, p)
  {
    if entries != [] {
      var front, last := entries[..|entries| - 1], entries[|entries| - 1];
      SourcesKept(env, front, p);
      KeptConcat(front, [last], p);
      assert entries == front + [last];
    }
  }

  predicate Current(env: Env, files: Files, ref: Ref) {
    && ref.path in files && files[ref.path].ref == ref
    && env.hash(files[ref.path].content) == ref.sha256 && env.size(files[ref.path].content) == ref.size
  }

  /** A bundle that loads is consistent: its manifest and summary have one digest, which is
      that of the listed files other than index and summary, whose number the summary gives;
      every listed file is registered as listed and verifies, and none is listed twice. */
  lemma LoadedAgrees(env: Env, files: Files)
    requires Loads(env, files)
    ensures var s, m := files[env.summary].content.summary, files[env.manifest].content.manifest;
            var sources :=
              Kept(m.artifacts, (e: Entry) => e.artifact.path != env.index && e.artifact.path != env.summary);
            && s.digest == m.digest == env.digest(sources) && s.count == |sources|
            && m.summary.path == env.summary && m.attempts.path == env.index && Current(env, files, m.summary)
            && (forall i :: 0 <= i < |m.artifacts| ==> Current(env, files, m.artifacts[i].artifact))
            && (forall i, j :: 0 <= i < j < |m.artifacts| ==>
                  m.artifacts[i].artifact.path != m.artifacts[j].artifact.path)
  {
    var m := files[env.manifest].content.manifest;
    SourcesKept(env, m.artifacts, (e: Entry) => e.artifact.path != env.index && e.artifact.path != env.summary);
    forall i | 0 <= i < |m.artifacts| ensures Current(env, files, m.artifacts[i].artifact) {
      assert Registered(env, files, m.artifacts[i].artifact);
    }
  }
}
