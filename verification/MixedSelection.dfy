/** Selecting the mixed suite: a quota of ranked cases from each source. */
module MixedSelection {
  import opened Wrappers
  import opened Ranking

  type Id = string

  datatype Source = MmluPro | ArcChallenge | Hellaswag | Winogrande

  const SOURCES: seq<Source> := [MmluPro, ArcChallenge, Hellaswag, Winogrande]
  const QUOTA: nat := 125
  const SUITE_SIZE: nat := 500

  datatype Case = Case(id: Id, source: Source, content: string)

  datatype SuiteError = SourceUnsound | RepeatedIds | WrongSize

  /** What `_load_selection` finds for one source: its cases, and whether the manifest
      lists it with the digest and number of rows of its file and all rows are well-formed. */
  datatype File = File(asRecorded: bool, cases: seq<Case>)

  /** SHA-256 of the seed, a source and a case id, as code points. */
  type Digest = (Source, Id) -> seq<nat>

  function CodePoints(text: string): (points: seq<nat>)
    ensures |points| == |text| && forall i :: 0 <= i < |text| ==> points[i] == text[i] as nat
  {
    seq(|text|, i requires 0 <= i < |text| => text[i] as nat)
  }

  lemma CodePointsDetermine(a: string, b: string)
    requires CodePoints(a) == CodePoints(b)
    ensures a == b
  {
    forall i | 0 <= i < |a| ensures a[i] == b[i] {
      assert CodePoints(a)[i] == CodePoints(b)[i];
    }
  }

  /** Cases rank by digest, then by id. */
  function RankOf(digest: Digest): Case -> Rank {
    (c: Case) => (digest(c.source, c.id), CodePoints(c.id))
  }

  function Before(digest: Digest): (Case, Case) -> bool {
    (a: Case, b: Case) => RankBefore(RankOf(digest)(a), RankOf(digest)(b))
  }

  /** Ranking orders cases with different ids, whatever their digests. */
  lemma BeforeOrders(digest: Digest, cases: seq<Case>)
    requires DistinctIds(cases)
    ensures Orders(Before(digest), Elements(cases))
  {
    forall a, b | a in cases && b in cases && RankOf(digest)(a) == RankOf(digest)(b) ensures a == b {
      CodePointsDetermine(a.id, b.id);
    }
    ByRankOrders(Before(digest), RankOf(digest), Elements(cases));
  }

  predicate From(s: Source, cases: seq<Case>) {
    forall i :: 0 <= i < |cases| ==> cases[i].source == s
  }

  predicate DistinctIds(cases: seq<Case>) {
    forall i, j :: 0 <= i < j < |cases| ==> cases[i].id != cases[j].id
  }

  function OfSource(s: Source): Case -> bool {
    (c: Case) => c.source == s
  }

  lemma {:induction false} InsertHowMany(xs: seq<Case>, x: Case, before: (Case, Case) -> bool, p: Case -> bool)
    ensures HowMany(Insert(xs, x, before), p) == HowMany(xs, p) + (if p(x) then 1 else 0)
  {
    if xs == [] {
      HowManyConcat([], [x], p);
      assert [] + [x] == [x];
    } else if before(x, xs[0]) {
      HowManyConcat([x], xs, p);
    } else {
      InsertHowMany(xs[1..], x, before, p);
      HowManyConcat([xs[0]], xs[1..], p);
      HowManyConcat([xs[0]], Insert(xs[1..], x, before), p);
      assert [xs[0]] + xs[1..] == xs;
    }
    assert HowMany([x], p) == if p(x) then 1 else 0;
  }

  /** Sorting keeps how many elements satisfy a predicate, and the elements. */
  lemma {:induction false} SortedHowMany(xs: seq<Case>, before: (Case, Case) -> bool, p: Case -> bool)
    ensures HowMany(Sorted(xs, before), p) == HowMany(xs, p)
    ensures |Sorted(xs, before)| == |xs|
    ensures forall c :: c in Sorted(xs, before) <==> c in xs
  {
    if xs != [] {
      var front, last := xs[..|xs| - 1], xs[|xs| - 1];
      SortedHowMany(front, before, p);
      InsertHowMany(Sorted(front, before), last, before, p);
      InsertContents(Sorted(front, before), last, before);
      assert xs == front + [last];
    }
  }

  lemma SortedUnique(xs: seq<Case>, before: (Case, Case) -> bool)
    requires Unique(xs)
    ensures Unique(Sorted(xs, before))
  {
    SortedHowMany(xs, before, OfSource(MmluPro));
    UniqueSize(xs);
    assert Elements(Sorted(xs, before)) == Elements(xs);
    ElementsSize(Sorted(xs, before));
  }

  lemma DistinctUnique(cases: seq<Case>)
    requires DistinctIds(cases)
    ensures Unique(cases)
  {}

  /** No two cases of one source share an id. */
  predicate DistinctWithinSources(cases: seq<Case>) {
    forall i, j :: 0 <= i < j < |cases| && cases[i].source == cases[j].source ==> cases[i].id != cases[j].id
  }

  lemma WithinSources(files: map<Source, File>, cases: seq<Case>)
    requires forall s: Source :: s in files && DistinctIds(files[s].cases)
    requires Unique(cases) && forall c :: c in cases ==> c in files[c.source].cases
    ensures DistinctWithinSources(cases)
  {
    forall i, j | 0 <= i < j < |cases| && cases[i].source == cases[j].source ensures cases[i].id != cases[j].id {
      var all := files[cases[i].source].cases;
      var k, l :| 0 <= k < |all| && 0 <= l < |all| && all[k] == cases[i] && all[l] == cases[j];
      assert k != l;
    }
  }

  lemma UniqueApart(a: seq<Case>, b: seq<Case>)
    requires Unique(a) && Unique(b) && forall x, y :: x in a && y in b ==> x != y
    ensures Unique(a + b)
  {
    forall i, j | 0 <= i < |a| <= j < |a| + |b| ensures (a + b)[i] != (a + b)[j] {
      assert (a + b)[i] in a && (a + b)[j] in b;
    }
  }

  lemma {:induction false} AllOrNothing(cases: seq<Case>, s: Source, t: Source)
    requires From(s, cases)
    ensures HowMany(cases, OfSource(t)) == if s == t then |cases| else 0
  {
    if cases != [] { AllOrNothing(cases[..|cases| - 1], s, t); }
  }

  /** The suite so far: at most the quota of each source done, none of the others. */
  ghost predicate Filled(selected: seq<Case>, done: nat)
    requires done <= |SOURCES|
  {
    && |selected| <= done * QUOTA
    && (|selected| == done * QUOTA ==>
          forall k :: 0 <= k < |SOURCES| ==> HowMany(selected, OfSource(SOURCES[k])) == if k < done then QUOTA else 0)
  }

  lemma FillOne(selected: seq<Case>, done: nat, more: seq<Case>)
    requires done < |SOURCES| && Filled(selected, done)
    requires |more| <= QUOTA && From(SOURCES[done], more)
    ensures Filled(selected + more, done + 1)
  {
    forall k | 0 <= k < |SOURCES|
      ensures HowMany(selected + more, OfSource(SOURCES[k]))
              == HowMany(selected, OfSource(SOURCES[k])) + (if k == done then |more| else 0)
    {
      HowManyConcat(selected, more, OfSource(SOURCES[k]));
      AllOrNothing(more, SOURCES[done], SOURCES[k]);
    }
  }

  /** The position of a source in the table of quotas. */
  function Place(s: Source): (k: nat)
    ensures k < |SOURCES| && SOURCES[k] == s
  {
    match s
    case MmluPro => 0
    case ArcChallenge => 1
    case Hellaswag => 2
    case Winogrande => 3
  }

  predicate Sound(f: File) {
    f.asRecorded && DistinctIds(f.cases)
  }

  /** What the loop takes from one source. */
  ghost predicate Taken(f: File, s: Source, digest: Digest, taken: seq<Case>) {
    && |taken| == (if |f.cases| <= QUOTA then |f.cases| else QUOTA)
    && From(s, taken) && Unique(taken) && (forall c :: c in taken ==> c in f.cases)
    && (|f.cases| >= QUOTA ==> Elements(taken) == FirstFew(Elements(f.cases), QUOTA, Before(digest)))
  }

  /** The sorted cases of a sound file. */
  lemma RankedCases(f: File, s: Source, digest: Digest)
    requires From(s, f.cases) && DistinctIds(f.cases)
    ensures var sorted := Sorted(f.cases, Before(digest));
            && |sorted| == |f.cases| && Unique(sorted) && Ascending(sorted, Before(digest))
            && From(s, sorted) && Elements(sorted) == Elements(f.cases)
            && Orders(Before(digest), Elements(sorted))
  {
    var sorted := Sorted(f.cases, Before(digest));
    DistinctUnique(f.cases);
    SortedUnique(f.cases, Before(digest));
    BeforeOrders(digest, f.cases);
    SortedIsAscending(f.cases, Before(digest));
    forall i | 0 <= i < |sorted| ensures sorted[i].source == s {
      assert sorted[i] in Elements(sorted);
    }
  }

  /** The first cases of one source, as many as its quota or all there are. */
  method TakeTop(f: File, s: Source, digest: Digest) returns (r: Result<seq<Case>, SuiteError>)
    requires From(s, f.cases)
    ensures r.Ok? <==> Sound(f)
    ensures r.Ok? ==> Taken(f, s, digest, r.value) && Ascending(r.value, Before(digest))
  {
    if !f.asRecorded { return Err(SourceUnsound); }
    if !DistinctIds(f.cases) { return Err(RepeatedIds); }
    var sorted := Sorted(f.cases, Before(digest));
    RankedCases(f, s, digest);
    var taken := if |sorted| <= QUOTA then sorted else sorted[..QUOTA];
    if |f.cases| >= QUOTA {
      FirstOfAscending(sorted, QUOTA, Before(digest));
      assert taken == sorted[..QUOTA];
    }
    forall c | c in taken ensures c in f.cases { assert c in Elements(sorted); }
    r := Ok(taken);
  }

  /** A case with fewer than the quota of its source's cases before it. */
  ghost predicate Top(files: map<Source, File>, digest: Digest, c: Case)
    requires forall s: Source :: s in files
  {
    c in FirstFew(Elements(files[c.source].cases), 125, Before(digest))
  }

  /** Exactly the top cases of the first `done` sources. */
  ghost predicate TopSoFar(files: map<Source, File>, digest: Digest, done: nat, selected: seq<Case>)
    requires forall s: Source :: s in files
  {
    forall c: Case :: c in selected <==> Place(c.source) < done && Top(files, digest, c)
  }

  /** What holds after the first `done` sources. */
  ghost predicate LoadedSoFar(files: map<Source, File>, digest: Digest, done: nat, selected: seq<Case>)
    requires done <= |SOURCES| && forall s: Source :: s in files
  {
    && Filled(selected, done) && Unique(selected)
    && (forall c :: c in selected ==> Place(c.source) < done && c in files[c.source].cases)
    && (forall i :: 0 <= i < done ==> Sound(files[SOURCES[i]]))
    && (|selected| == done * QUOTA ==> TopSoFar(files, digest, done, selected))
    && (|selected| == done * QUOTA <==> forall i :: 0 <= i < done ==> |files[SOURCES[i]].cases| >= QUOTA)
  }

  lemma LoadOne(files: map<Source, File>, digest: Digest, k: nat, selected: seq<Case>, taken: seq<Case>)
    requires forall s: Source :: s in files && From(s, files[s].cases)
    requires k < |SOURCES| && LoadedSoFar(files, digest, k, selected)
    requires Sound(files[SOURCES[k]]) && Taken(files[SOURCES[k]], SOURCES[k], digest, taken)
    ensures LoadedSoFar(files, digest, k + 1, selected + taken)
  {
    FillOne(selected, k, taken);
    UniqueApart(selected, taken);
  }

  /** Every file is sound and holds its quota. */
  predicate Complete(files: map<Source, File>) {
    forall s: Source :: s in files && From(s, files[s].cases) && Sound(files[s]) && |files[s].cases| >= 125
  }

  /** The suite of 500: of each source the 125 that rank first, each once, in rank order. */
  ghost predicate IsSuite(files: map<Source, File>, digest: Digest, suite: seq<Case>)
    requires Complete(files)
  {
    && |suite| == 500 && Unique(suite) && DistinctWithinSources(suite)
    && (forall s: Source :: HowMany(suite, OfSource(s)) == 125)
    && (forall c :: c in suite <==> Top(files, digest, c))
    && Nondescending(suite, Before(digest))
  }

  lemma SortedSuite(files: map<Source, File>, digest: Digest, selected: seq<Case>)
    requires Complete(files) && Unique(selected) && |selected| == SUITE_SIZE
    requires forall c :: c in selected <==> Top(files, digest, c)
    requires forall s: Source :: HowMany(selected, OfSource(s)) == QUOTA
    ensures IsSuite(files, digest, Sorted(selected, Before(digest)))
  {
    var suite := Sorted(selected, Before(digest));
    forall s: Source ensures HowMany(suite, OfSource(s)) == QUOTA && |suite| == SUITE_SIZE
                             && forall c :: c in suite <==> c in selected {
      SortedHowMany(selected, Before(digest), OfSource(s));
    }
    assert HowMany(suite, OfSource(MmluPro)) == QUOTA;
    SortedUnique(selected, Before(digest));
    forall c | c in suite ensures c in files[c.source].cases { assert Top(files, digest, c); }
    WithinSources(files, suite);
    SortedNondescending(selected, Before(digest), RankOf(digest));
  }

  lemma LoadedAll(files: map<Source, File>, digest: Digest, selected: seq<Case>)
    requires forall s: Source :: s in files && From(s, files[s].cases)
    requires LoadedSoFar(files, digest, |SOURCES|, selected)
    ensures |selected| == SUITE_SIZE <==> Complete(files)
    ensures Complete(files) ==> IsSuite(files, digest, Sorted(selected, Before(digest)))
  {
    forall s: Source ensures SOURCES[Place(s)] == s && Sound(files[s]) {}
    if Complete(files) {
      forall s: Source ensures HowMany(selected, OfSource(s)) == QUOTA {
        assert OfSource(s) == OfSource(SOURCES[Place(s)]);
      }
      SortedSuite(files, digest, selected);
    }
  }

  /** `_load_selection`.  A selection of 500 cases can only hold the quota of every source. */
  method LoadSelection(files: map<Source, File>, digest: Digest) returns (r: Result<seq<Case>, SuiteError>)
    requires forall s: Source :: s in files && From(s, files[s].cases)
    ensures r.Ok? <==> Complete(files)
    ensures r.Ok? ==> IsSuite(files, digest, r.value)
  {
    var selected: seq<Case> := [];
    for k := 0 to |SOURCES|
      invariant LoadedSoFar(files, digest, k, selected)
    {
      var taken := TakeTop(files[SOURCES[k]], SOURCES[k], digest);
      if taken.Err? { return taken; }
      LoadOne(files, digest, k, selected, taken.value);
      selected := selected + taken.value;
    }
    LoadedAll(files, digest, selected);
    if |selected| != SUITE_SIZE { return Err(WrongSize); }
    r := Ok(Sorted(selected, Before(digest)));
  }

  /** A suite whose ids are unique is in strict rank order, and the only one of its files. */
  lemma OneSuite(files: map<Source, File>, digest: Digest, a: seq<Case>, b: seq<Case>)
    requires Complete(files) && IsSuite(files, digest, a) && IsSuite(files, digest, b) && DistinctIds(a)
    ensures Ascending(a, Before(digest)) && a == b
  {
    assert Elements(a) == Elements(b);
    BeforeOrders(digest, a);
    Strict(digest, a);
    Strict(digest, b);
    OneAscendingOrder(a, b, Before(digest));
  }

  lemma Strict(digest: Digest, xs: seq<Case>)
    requires Unique(xs) && Nondescending(xs, Before(digest)) && Orders(Before(digest), Elements(xs))
    ensures Ascending(xs, Before(digest))
  {
    forall i, j | 0 <= i < j < |xs| ensures Before(digest)(xs[i], xs[j]) {
      assert xs[i] in Elements(xs) && xs[j] in Elements(xs);
    }
  }
}
