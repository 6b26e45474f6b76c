/** Selecting the general suite: 25 ranked cases from each of four sources. */
module Selection {
  import opened Wrappers
  import opened Ranking

  datatype Source = MmluGeneral | ArcChallenge | Hellaswag | Winogrande | Other(name: string)

  const GENERAL_SOURCES: set<Source> := {MmluGeneral, ArcChallenge, Hellaswag, Winogrande}
  const QUOTA: nat := 25

  /** The code points of a case id. */
  type Id = seq<nat>

  datatype Case = Case(id: Id, group: Source, content: string)

  datatype SelectError = BadSources | SourceOmitted | BadRow | ConflictingDuplicate | DuplicateAcrossSources
    | TooFewCases

  /** Cases rank by digest, then by id. */
  function RankOf(digest: (Source, Id) -> seq<nat>): Case -> Rank {
    (c: Case) => (digest(c.group, c.id), c.id)
  }

  function Before(digest: (Source, Id) -> seq<nat>): (Case, Case) -> bool {
    (a: Case, b: Case) => RankBefore(RankOf(digest)(a), RankOf(digest)(b))
  }

  predicate DistinctIds(cs: set<Case>) {
    forall a, b :: a in cs && b in cs && a.id == b.id ==> a == b
  }

  lemma BeforeOrders(digest: (Source, Id) -> seq<nat>, cs: set<Case>)
    requires DistinctIds(cs)
    ensures Orders(Before(digest), cs)
  {
    ByRankOrders(Before(digest), RankOf(digest), cs);
  }

  /******* What a selection is, in terms of sets of rows *******/

  /** What a row says, apart from its source. */
  datatype Parsed = Parsed(id: Id, content: string)

  /** The case of a well-formed row; its group is its source. */
  function CaseOf(s: Source, p: Parsed): Case {
    Case(p.id, s, p.content)
  }

  // `normalize` reads a row of a source; it is `None` for a malformed row.

  ghost predicate AllNormal<Row(!new)>(normalize: (Source, Row) -> Option<Parsed>, s: Source, rows: set<Row>) {
    forall row :: row in rows ==> normalize(s, row).Some?
  }

  ghost function CasesOf<Row(!new)>(normalize: (Source, Row) -> Option<Parsed>, s: Source, rows: set<Row>): set<Case> {
    set row | row in rows && normalize(s, row).Some? :: CaseOf(s, normalize(s, row).value)
  }

  /** The cases that each source offers. */
  type Pools = map<Source, set<Case>>

  ghost function PoolsOf<Row(!new)>(normalize: (Source, Row) -> Option<Parsed>, rows: map<Source, set<Row>>): Pools {
    map s | s in rows :: CasesOf(normalize, s, rows[s])
  }

  ghost predicate Grouped(pools: Pools) {
    forall s, c :: s in pools && c in pools[s] ==> c.group == s
  }

  /** Pools that name no two different cases by one id and hold enough cases. */
  ghost predicate Ready(pools: Pools, s: Source) {
    s in pools && DistinctIds(pools[s]) && |pools[s]| >= 25
  }

  ghost predicate Apart(cs: set<Case>, ds: set<Case>) {
    forall c, d :: c in cs && d in ds ==> c.id != d.id
  }

  ghost predicate AllReady(pools: Pools, done: set<Source>) {
    && (forall s :: s in done ==> Ready(pools, s))
    && (forall s, t :: s in done && t in done && s != t ==> Apart(pools[s], pools[t]))
  }

  /** Every source is there with well-formed rows only, and its pool is ready. */
  ghost predicate Selectable<Row(!new)>(normalize: (Source, Row) -> Option<Parsed>, rows: map<Source, set<Row>>) {
    && (forall s :: s in GENERAL_SOURCES ==> s in rows && AllNormal(normalize, s, rows[s]))
    && AllReady(PoolsOf(normalize, rows), GENERAL_SOURCES)
  }

  /** A case with fewer than 25 cases of its source before it. */
  ghost predicate Chosen(pools: Pools, before: (Case, Case) -> bool, done: set<Source>, c: Case) {
    c.group in done && c.group in pools && c in FirstFew(pools[c.group], 25, before)
  }

  /** Exactly the chosen cases, in rank order. */
  ghost predicate IsSelection(pools: Pools, before: (Case, Case) -> bool, selected: seq<Case>) {
    Ascending(selected, before) && forall c :: c in selected <==> Chosen(pools, before, GENERAL_SOURCES, c)
  }

  ghost function RowSets<Row(!new)>(records: map<Source, seq<Row>>): map<Source, set<Row>> {
    map s | s in records :: Elements(records[s])
  }

  /******* The selection *******/

  lemma CasesOfSnoc<Row(!new)>(normalize: (Source, Row) -> Option<Parsed>, s: Source, rows: seq<Row>, i: nat)
    requires i < |rows| && normalize(s, rows[i]).Some?
    ensures CasesOf(normalize, s, Elements(rows[..i + 1]))
            == CasesOf(normalize, s, Elements(rows[..i])) + {CaseOf(s, normalize(s, rows[i]).value)}
  {
    assert Elements(rows[..i + 1]) == Elements(rows[..i]) + {rows[i]};
  }

  lemma CasesOfPrefix<Row(!new)>(normalize: (Source, Row) -> Option<Parsed>, s: Source, rows: seq<Row>, i: nat)
    requires i < |rows| && normalize(s, rows[i]).Some?
    ensures CasesOf(normalize, s, Elements(rows[..i])) <= CasesOf(normalize, s, Elements(rows))
    ensures CaseOf(s, normalize(s, rows[i]).value) in CasesOf(normalize, s, Elements(rows))
  {
    assert rows[i] in Elements(rows);
  }

  /** The dictionary and the list of candidates agree. */
  ghost predicate Indexed(unique: map<Id, Case>, candidates: seq<Case>) {
    && (forall c :: c in candidates ==> c.id in unique && unique[c.id] == c)
    && (forall id :: id in unique ==> unique[id].id == id && unique[id] in candidates)
    && Unique(candidates)
  }

  lemma IndexOne(unique: map<Id, Case>, candidates: seq<Case>, c: Case)
    requires Indexed(unique, candidates) && c.id !in unique
    ensures Indexed(unique[c.id := c], candidates + [c])
    ensures Elements(candidates + [c]) == Elements(candidates) + {c}
  {}

  lemma IndexedHas(unique: map<Id, Case>, candidates: seq<Case>, c: Case)
    requires Indexed(unique, candidates) && c.id in unique && unique[c.id] == c
    ensures Elements(candidates) == Elements(candidates) + {c}
  {}

  lemma Conflict(unique: map<Id, Case>, candidates: seq<Case>, c: Case, cases: set<Case>)
    requires Indexed(unique, candidates) && c.id in unique && unique[c.id] != c
    requires Elements(candidates) <= cases && c in cases
    ensures !DistinctIds(cases)
  {
    assert unique[c.id] in Elements(candidates);
  }

  /** Deduplicating the rows of one source; identical repetitions count once. */
  method Candidates<Row(!new)>(normalize: (Source, Row) -> Option<Parsed>, s: Source, rows: seq<Row>)
    returns (r: Result<seq<Case>, SelectError>)
    ensures r.Ok? <==> AllNormal(normalize, s, Elements(rows)) && DistinctIds(CasesOf(normalize, s, Elements(rows)))
    ensures r.Ok? ==> Unique(r.value) && Elements(r.value) == CasesOf(normalize, s, Elements(rows))
  {
    var unique: map<Id, Case>, candidates: seq<Case> := map[], [];
    for i := 0 to |rows|
      invariant Indexed(unique, candidates)
      invariant forall k :: 0 <= k < i ==> normalize(s, rows[k]).Some?
      invariant Elements(candidates) == CasesOf(normalize, s, Elements(rows[..i]))
    {
      var normal := normalize(s, rows[i]);
      if normal.None? {
        assert rows[i] in Elements(rows);
        return Err(BadRow);
      }
      CasesOfPrefix(normalize, s, rows, i);
      CasesOfSnoc(normalize, s, rows, i);
      var found := CaseOf(s, normal.value);
      if found.id in unique {
        if unique[found.id] != found {
          Conflict(unique, candidates, found, CasesOf(normalize, s, Elements(rows)));
          return Err(ConflictingDuplicate);
        }
        IndexedHas(unique, candidates, found);
      } else {
        IndexOne(unique, candidates, found);
        unique := unique[found.id := found];
        candidates := candidates + [found];
      }
    }
    assert rows[..|rows|] == rows;
    r := Ok(candidates);
  }

  ghost function Ids(cs: set<Case>): set<Id> {
    set c | c in cs :: c.id
  }

  /** The first 25 of a source's candidates. */
  method TopRanked(candidates: seq<Case>, digest: (Source, Id) -> seq<nat>) returns (top: seq<Case>)
    requires Unique(candidates) && DistinctIds(Elements(candidates)) && |candidates| >= QUOTA
    ensures |top| == QUOTA && Unique(top)
    ensures Elements(top) == FirstFew(Elements(candidates), QUOTA, Before(digest))
  {
    BeforeOrders(digest, Elements(candidates));
    var sorted := Sorted(candidates, Before(digest));
    SortedIsAscending(candidates, Before(digest));
    FirstOfAscending(sorted, QUOTA, Before(digest));
    top := sorted[..QUOTA];
  }

  /** `known` are the ids of all cases of the sources in `done`. */
  ghost predicate Known(pools: Pools, done: set<Source>, known: set<Id>) {
    && done <= pools.Keys
    && (forall s :: s in done ==> Ids(pools[s]) <= known)
    && (forall id :: id in known ==> exists s :: s in done && id in Ids(pools[s]))
  }

  /** What holds after the sources in `done`. */
  ghost predicate Progress(pools: Pools, before: (Case, Case) -> bool, done: set<Source>, selected: seq<Case>) {
    && AllReady(pools, done)
    && (forall c :: c in selected <==> Chosen(pools, before, done, c))
    && |selected| == |done| * QUOTA && Unique(selected)
  }

  lemma ApartFrom(pools: Pools, done: set<Source>, s: Source, known: set<Id>)
    requires AllReady(pools, done) && Ready(pools, s) && s !in done
    requires Known(pools, done, known) && Ids(pools[s]) * known == {}
    ensures AllReady(pools, done + {s})
  {
    forall t | t in done ensures Apart(pools[s], pools[t]) && Apart(pools[t], pools[s]) {
      forall c, d | c in pools[s] && d in pools[t] ensures c.id != d.id {
        assert c.id in Ids(pools[s]) && d.id in Ids(pools[t]);
        assert c.id !in Ids(pools[s]) * known;
      }
    }
  }

  lemma KnowMore(pools: Pools, done: set<Source>, s: Source, known: set<Id>)
    requires Known(pools, done, known) && s in pools
    ensures Known(pools, done + {s}, known + Ids(pools[s]))
  {
    var done', known' := done + {s}, known + Ids(pools[s]);
    forall t | t in done' ensures Ids(pools[t]) <= known' {
      if t != s { assert t in done; }
    }
    forall id | id in known' ensures exists t :: t in done' && id in Ids(pools[t]) {
      if id in known {
        var t :| t in done && id in Ids(pools[t]);
        assert t in done';
      } else {
        assert s in done' && id in Ids(pools[s]);
      }
    }
  }

  lemma Extend(pools: Pools, before: (Case, Case) -> bool, done: set<Source>, selected: seq<Case>, s: Source,
               top: seq<Case>)
    requires Grouped(pools) && Progress(pools, before, done, selected) && s !in done && AllReady(pools, done + {s})
    requires |top| == QUOTA && Unique(top) && Elements(top) == FirstFew(pools[s], QUOTA, before)
    ensures Progress(pools, before, done + {s}, selected + top)
  {
    forall c ensures c in top <==> c.group == s && Chosen(pools, before, done + {s}, c) {
      assert c in top <==> c in Elements(top);
    }
    forall c ensures c in selected + top <==> Chosen(pools, before, done + {s}, c) {
      assert c in selected <==> Chosen(pools, before, done, c);
    }
    assert |done + {s}| == |done| + 1;
    UniqueConcat(selected, top);
  }

  lemma UniqueConcat(a: seq<Case>, b: seq<Case>)
    requires Unique(a) && Unique(b) && forall c, d :: c in a && d in b ==> c != d
    ensures Unique(a + b)
  {
    forall i, j | 0 <= i < |a| <= j < |a| + |b| ensures (a + b)[i] != (a + b)[j] {
      assert (a + b)[i] in a && (a + b)[j] in b;
    }
  }

  lemma Overlap(pools: Pools, done: set<Source>, s: Source, known: set<Id>)
    requires done <= GENERAL_SOURCES <= pools.Keys && s in GENERAL_SOURCES && s !in done
    requires Known(pools, done, known) && Ids(pools[s]) * known != {}
    ensures !AllReady(pools, GENERAL_SOURCES)
  {
    var id :| id in Ids(pools[s]) * known;
    var t :| t in done && id in Ids(pools[t]);
    var d :| d in pools[t] && d.id == id;
    var c :| c in pools[s] && c.id == id;
    assert !Apart(pools[s], pools[t]);
  }

  /** Putting all the chosen cases in rank order makes the selection. */
  lemma SortedIsSelection(pools: Pools, digest: (Source, Id) -> seq<nat>, selected: seq<Case>)
    requires Progress(pools, Before(digest), GENERAL_SOURCES, selected)
    ensures var sorted := Sorted(selected, Before(digest));
            |sorted| == 4 * QUOTA && IsSelection(pools, Before(digest), sorted)
  {
    BeforeOrders(digest, Elements(selected));
    SortedIsAscending(selected, Before(digest));
    var sorted := Sorted(selected, Before(digest));
    assert |GENERAL_SOURCES| == 4;
    forall c ensures c in sorted <==> c in selected {
      assert c in Elements(sorted) <==> c in Elements(selected);
    }
  }

  /** What the loop does with one source: its candidates, those of them that come
      first, and the ids it now knows. */
  method AddSource<Row(!new)>(normalize: (Source, Row) -> Option<Parsed>, digest: (Source, Id) -> seq<nat>,
                              s: Source, rows: seq<Row>, allIds: set<Id>)
    returns (r: Result<(seq<Case>, set<Id>), SelectError>)
    ensures var cases := CasesOf(normalize, s, Elements(rows));
            && (r.Ok? <==> AllNormal(normalize, s, Elements(rows)) && DistinctIds(cases)
                           && Ids(cases) * allIds == {} && |cases| >= QUOTA)
            && (r.Ok? ==> |r.value.0| == QUOTA && Unique(r.value.0) && r.value.1 == Ids(cases)
                          && Elements(r.value.0) == FirstFew(cases, QUOTA, Before(digest)))
  {
    var candidates := Candidates(normalize, s, rows);
    if candidates.Err? { return Err(candidates.error); }
    UniqueSize(candidates.value);
    var ids := set c | c in candidates.value :: c.id;
    assert ids == Ids(CasesOf(normalize, s, Elements(rows)));
    if allIds * ids != {} { return Err(DuplicateAcrossSources); }
    if |candidates.value| < QUOTA { return Err(TooFewCases); }
    var top := TopRanked(candidates.value, digest);
    r := Ok((top, ids));
  }

  /** The loop's state after the sources in `done`. */
  ghost predicate State<Row(!new)>(normalize: (Source, Row) -> Option<Parsed>, rows: map<Source, set<Row>>,
                                   before: (Case, Case) -> bool, done: set<Source>, selected: seq<Case>,
                                   known: set<Id>) {
    var pools := PoolsOf(normalize, rows);
    && Known(pools, done, known)
    && (forall s :: s in done ==> AllNormal(normalize, s, rows[s]))
    && Progress(pools, before, done, selected)
  }

  lemma Advance<Row(!new)>(normalize: (Source, Row) -> Option<Parsed>, rows: map<Source, set<Row>>,
                           before: (Case, Case) -> bool, done: set<Source>, selected: seq<Case>, known: set<Id>,
                           s: Source, top: seq<Case>)
    requires State(normalize, rows, before, done, selected, known) && s in rows && s !in done
    requires var cases := CasesOf(normalize, s, rows[s]);
             && AllNormal(normalize, s, rows[s]) && DistinctIds(cases) && |cases| >= QUOTA && Ids(cases) * known == {}
             && |top| == QUOTA && Unique(top) && Elements(top) == FirstFew(cases, QUOTA, before)
    ensures State(normalize, rows, before, done + {s}, selected + top, known + Ids(CasesOf(normalize, s, rows[s])))
  {
    var pools := PoolsOf(normalize, rows);
    assert pools[s] == CasesOf(normalize, s, rows[s]) && Grouped(pools);
    ApartFrom(pools, done, s, known);
    KnowMore(pools, done, s, known);
    Extend(pools, before, done, selected, s, top);
  }

  lemma Refused<Row(!new)>(normalize: (Source, Row) -> Option<Parsed>, rows: map<Source, set<Row>>,
                           before: (Case, Case) -> bool, done: set<Source>, selected: seq<Case>, known: set<Id>,
                           s: Source)
    requires State(normalize, rows, before, done, selected, known)
    requires done <= GENERAL_SOURCES && s in GENERAL_SOURCES && s !in done
    requires s !in rows
             || !(AllNormal(normalize, s, rows[s]) && DistinctIds(CasesOf(normalize, s, rows[s]))
                  && Ids(CasesOf(normalize, s, rows[s])) * known == {} && |CasesOf(normalize, s, rows[s])| >= QUOTA)
    ensures !Selectable(normalize, rows)
  {
    var pools := PoolsOf(normalize, rows);
    if GENERAL_SOURCES <= pools.Keys {
      assert pools[s] == CasesOf(normalize, s, rows[s]);
      if Ids(pools[s]) * known != {} { Overlap(pools, done, s, known); }
      assert AllReady(pools, GENERAL_SOURCES) ==> Ready(pools, s);
    } else {
      assert exists t :: t in GENERAL_SOURCES && t !in rows;
    }
  }

  lemma Finish<Row(!new)>(normalize: (Source, Row) -> Option<Parsed>, rows: map<Source, set<Row>>,
                          digest: (Source, Id) -> seq<nat>, selected: seq<Case>, known: set<Id>)
    requires State(normalize, rows, Before(digest), GENERAL_SOURCES, selected, known)
    ensures Selectable(normalize, rows)
    ensures var sorted := Sorted(selected, Before(digest));
            |sorted| == 4 * QUOTA && IsSelection(PoolsOf(normalize, rows), Before(digest), sorted)
  {
    SortedIsSelection(PoolsOf(normalize, rows), digest, selected);
  }

  lemma NextSource(sources: seq<Source>, i: nat)
    requires i < |sources| && Unique(sources) && Elements(sources) == GENERAL_SOURCES
    ensures sources[i] in GENERAL_SOURCES && sources[i] !in Elements(sources[..i])
    ensures Elements(sources[..i]) <= GENERAL_SOURCES
    ensures Elements(sources[..i + 1]) == Elements(sources[..i]) + {sources[i]}
  {
    assert sources[i] in Elements(sources);
    forall s | s in Elements(sources[..i]) ensures s in Elements(sources) {}
  }

  /** One turn of the loop over the sources. */
  method NextTurn<Row(!new)>(normalize: (Source, Row) -> Option<Parsed>, digest: (Source, Id) -> seq<nat>,
                             records: map<Source, seq<Row>>, s: Source, selected: seq<Case>, allIds: set<Id>,
                             ghost done: set<Source>)
    returns (r: Result<(seq<Case>, set<Id>), SelectError>)
    requires State(normalize, RowSets(records), Before(digest), done, selected, allIds)
    requires done <= GENERAL_SOURCES && s in GENERAL_SOURCES && s !in done
    ensures r.Ok? ==> State(normalize, RowSets(records), Before(digest), done + {s}, r.value.0, r.value.1)
    ensures r.Err? ==> !Selectable(normalize, RowSets(records))
  {
    if s !in records {
      Refused(normalize, RowSets(records), Before(digest), done, selected, allIds, s);
      return Err(SourceOmitted);
    }
    var step := AddSource(normalize, digest, s, records[s], allIds);
    if step.Err? {
      Refused(normalize, RowSets(records), Before(digest), done, selected, allIds, s);
      return Err(step.error);
    }
    var (top, ids) := step.value;
    Advance(normalize, RowSets(records), Before(digest), done, selected, allIds, s, top);
    r := Ok((selected + top, allIds + ids));
  }

  method EverySource<Row(!new)>(normalize: (Source, Row) -> Option<Parsed>, digest: (Source, Id) -> seq<nat>,
                                records: map<Source, seq<Row>>, sources: seq<Source>)
    returns (r: Result<(seq<Case>, set<Id>), SelectError>)
    requires Unique(sources) && Elements(sources) == GENERAL_SOURCES
    ensures r.Ok? ==> State(normalize, RowSets(records), Before(digest), GENERAL_SOURCES, r.value.0, r.value.1)
    ensures r.Err? ==> !Selectable(normalize, RowSets(records))
  {
    var selected: seq<Case>, allIds: set<Id> := [], {};
    for i := 0 to |sources|
      invariant State(normalize, RowSets(records), Before(digest), Elements(sources[..i]), selected, allIds)
    {
      NextSource(sources, i);
      var turn := NextTurn(normalize, digest, records, sources[i], selected, allIds, Elements(sources[..i]));
      if turn.Err? { return turn; }
      selected, allIds := turn.value.0, turn.value.1;
    }
    assert sources[..|sources|] == sources;
    r := Ok((selected, allIds));
  }

  /** `select_general_100`.  It succeeds exactly for selectable sets of rows, and then
      returns their selection: neither depends on the order or repetition of rows or
      on the order of the sources. */
  method SelectGeneral100<Row(!new)>(normalize: (Source, Row) -> Option<Parsed>, digest: (Source, Id) -> seq<nat>,
                                     records: map<Source, seq<Row>>, sources: seq<Source>)
    returns (r: Result<seq<Case>, SelectError>)
    ensures r.Ok? <==>
              Unique(sources) && Elements(sources) == GENERAL_SOURCES && Selectable(normalize, RowSets(records))
    ensures r.Ok? ==>
              |r.value| == 100 && IsSelection(PoolsOf(normalize, RowSets(records)), Before(digest), r.value)
  {
    if !Unique(sources) || (set s | s in sources) != GENERAL_SOURCES { return Err(BadSources); }
    var found := EverySource(normalize, digest, records, sources);
    if found.Err? { return Err(found.error); }
    Finish(normalize, RowSets(records), digest, found.value.0, found.value.1);
    r := Ok(Sorted(found.value.0, Before(digest)));
  }

  /** There is one selection for given pools. */
  lemma OneSelection(pools: Pools, digest: (Source, Id) -> seq<nat>, a: seq<Case>, b: seq<Case>)
    requires AllReady(pools, GENERAL_SOURCES)
    requires IsSelection(pools, Before(digest), a) && IsSelection(pools, Before(digest), b)
    ensures a == b
  {
    assert Elements(a) == Elements(b);
    BeforeOrders(digest, Elements(a));
    OneAscendingOrder(a, b, Before(digest));
  }

  lemma FewIsQuota(cases: set<Case>, digest: (Source, Id) -> seq<nat>)
    requires DistinctIds(cases) && |cases| >= QUOTA
    ensures |FirstFew(cases, QUOTA, Before(digest))| == QUOTA
  {
    BeforeOrders(digest, cases);
    var listed := Listing(cases);
    SortedIsAscending(listed, Before(digest));
    UniqueSize(listed);
    FirstOfAscending(Sorted(listed, Before(digest)), QUOTA, Before(digest));
  }

  /** A selection holds 25 cases of every source, and every case left out ranks after
      every selected case of its source. */
  lemma SelectionIsTop(pools: Pools, digest: (Source, Id) -> seq<nat>, selected: seq<Case>, s: Source)
    requires Grouped(pools) && AllReady(pools, GENERAL_SOURCES) && s in GENERAL_SOURCES
    requires IsSelection(pools, Before(digest), selected)
    ensures |set c | c in selected && c.group == s| == 25
    ensures forall c, d :: c in selected && c.group == s && d in pools[s] && d !in selected ==> Before(digest)(c, d)
  {
    var before := Before(digest);
    var few := FirstFew(pools[s], QUOTA, before);
    assert (set c | c in selected && c.group == s) == few;
    FewIsQuota(pools[s], digest);
    BeforeOrders(digest, pools[s]);
    forall c, d | c in few && d in pools[s] - few ensures before(c, d) {
      LeftOutComesLater(pools[s], QUOTA, before, c, d);
    }
  }
}
