/** Two implementations of one upsert: a list with a position index, and a dictionary. */
module ExecutionMap {
  import opened Wrappers

  type Id = string

  datatype Entry = Entry(id: Id, body: string)

  datatype MergeError = RepeatedUpdate

  function IdsOf(es: seq<Entry>): (ids: seq<Id>)
    ensures |ids| == |es|
    ensures forall i :: 0 <= i < |es| ==> ids[i] == es[i].id
  {
    seq(|es|, i requires 0 <= i < |es| => es[i].id)
  }

  predicate Has(es: seq<Entry>, id: Id) {
    exists i :: 0 <= i < |es| && es[i].id == id
  }

  predicate UniqueIds(es: seq<Entry>) {
    forall i, j :: 0 <= i < j < |es| ==> es[i].id != es[j].id
  }

  /** The last entry with `e`'s id, `e` itself when there is none. */
  function Latest(e: Entry, es: seq<Entry>): (l: Entry)
    ensures l.id == e.id
  {
    if es == [] then e
    else if es[|es| - 1].id == e.id then es[|es| - 1]
    else Latest(e, es[..|es| - 1])
  }

  lemma {:induction false} LatestAbsent(e: Entry, es: seq<Entry>)
    requires !Has(es, e.id)
    ensures Latest(e, es) == e
  {
    if es != [] {
      var front, last := es[..|es| - 1], es[|es| - 1];
      assert es == front + [last];
      HasSnoc(front, last);
      LatestAbsent(e, front);
    }
  }

  /** The entries of `es` whose ids `known` does not have, in order. */
  function NewOnes(known: seq<Entry>, es: seq<Entry>): seq<Entry> {
    if es == [] then []
    else NewOnes(known, es[..|es| - 1]) + (if Has(known, es[|es| - 1].id) then [] else [es[|es| - 1]])
  }

  /** Position `i` is the last one with its id. */
  predicate LastPlace(es: seq<Entry>, i: nat)
    requires i < |es|
  {
    forall j :: i < j < |es| ==> es[j].id != es[i].id
  }

  /** Old entries keep their places, updated where their id was updated (the last of
      several with one id); new entries follow in update order. */
  function ListMerge(current: seq<Entry>, updates: seq<Entry>): (m: seq<Entry>)
    ensures |m| == |current| + |NewOnes(current, updates)|
    ensures forall i :: 0 <= i < |current| ==>
            m[i] == (if LastPlace(current, i) then Latest(current[i], updates) else current[i])
    ensures m[|current|..] == NewOnes(current, updates)
  {
    seq(|current|, i requires 0 <= i < |current| =>
      if LastPlace(current, i) then Latest(current[i], updates) else current[i])
    + NewOnes(current, updates)
  }

  /** The ids in the order of their first occurrence. */
  function FirstIds(es: seq<Entry>): seq<Id> {
    if es == [] then []
    else
      var front, last := es[..|es| - 1], es[|es| - 1];
      FirstIds(front) + (if last.id in FirstIds(front) then [] else [last.id])
  }

  lemma {:induction false} FirstIdsAre(es: seq<Entry>, id: Id)
    ensures Unique(FirstIds(es)) && (id in FirstIds(es) <==> Has(es, id))
  {
    if es != [] {
      var front, last := es[..|es| - 1], es[|es| - 1];
      assert es == front + [last];
      FirstIdsAre(front, id);
      HasSnoc(front, last);
    }
  }

  lemma HasSnoc(es: seq<Entry>, e: Entry)
    ensures forall id :: Has(es + [e], id) <==> Has(es, id) || id == e.id
  {
    forall id | Has(es, id) ensures Has(es + [e], id) {
      var i :| 0 <= i < |es| && es[i].id == id;
      assert (es + [e])[i].id == id;
    }
    assert (es + [e])[|es|].id == e.id;
  }

  /** What a dictionary keyed by id holds after assigning all of `es`: first places,
      last values. */
  function Collapse(es: seq<Entry>): (c: seq<Entry>)
    ensures |c| == |FirstIds(es)|
    ensures forall i :: 0 <= i < |c| ==> c[i] == Latest(Entry(FirstIds(es)[i], ""), es)
  {
    seq(|FirstIds(es)|, i requires 0 <= i < |FirstIds(es)| => Latest(Entry(FirstIds(es)[i], ""), es))
  }

  /******* The two implementations *******/

  lemma ListMergeSnoc(current: seq<Entry>, updates: seq<Entry>, u: Entry, place: nat)
    requires Has(current, u.id) ==> place < |current| && current[place].id == u.id && LastPlace(current, place)
    ensures ListMerge(current, updates + [u])
            == if Has(current, u.id) then ListMerge(current, updates)[place := u] else ListMerge(current, updates) + [u]
  {
    var before, after := ListMerge(current, updates), ListMerge(current, updates + [u]);
    assert (updates + [u])[..|updates|] == updates;
    assert |after| == |before| + (if Has(current, u.id) then 0 else 1);
    forall i | 0 <= i < |current| ensures after[i] == if Has(current, u.id) && i == place then u else before[i] {
      if current[i].id == u.id {
        assert Has(current, u.id);
        if LastPlace(current, i) && i != place { assert i < place || place < i; }
      }
    }
    assert after == after[..|current|] + after[|current|..];
    assert before == before[..|current|] + before[|current|..];
  }

  /** Each id of `ordered` has its last place recorded. */
  ghost predicate Indexed(positions: map<Id, nat>, ordered: seq<Entry>) {
    && (forall id :: id in positions ==> positions[id] < |ordered| && ordered[positions[id]].id == id)
    && (forall i :: 0 <= i < |ordered| ==> ordered[i].id in positions && i <= positions[ordered[i].id])
  }

  /** The index of the last place of every id. */
  method IndexPositions(ordered: seq<Entry>) returns (positions: map<Id, nat>)
    ensures Indexed(positions, ordered)
  {
    positions := map[];
    for i := 0 to |ordered|
      invariant Indexed(positions, ordered[..i])
    {
      positions := positions[ordered[i].id := i];
    }
    assert ordered[..|ordered|] == ordered;
  }

  /** One update, whose id no earlier update had. */
  method ApplyUpdate(ordered: seq<Entry>, positions: map<Id, nat>, update: Entry,
                     ghost current: seq<Entry>, ghost done: seq<Entry>)
    returns (ordered': seq<Entry>, positions': map<Id, nat>)
    requires ordered == ListMerge(current, done) && Indexed(positions, ordered) && !Has(done, update.id)
    ensures ordered' == ListMerge(current, done + [update]) && Indexed(positions', ordered')
  {
    PlaceIn(current, done, positions, update.id);
    ListMergeSnoc(current, done, update, if update.id in positions then positions[update.id] else 0);
    if update.id in positions {
      ordered', positions' := ordered[positions[update.id] := update], positions;
    } else {
      positions' := positions[update.id := |ordered|];
      ordered' := ordered + [update];
    }
  }

  lemma UniqueSnoc(es: seq<Entry>, e: Entry)
    ensures UniqueIds(es + [e]) <==> UniqueIds(es) && !Has(es, e.id)
  {
    if UniqueIds(es + [e]) {
      forall i, j | 0 <= i < j < |es| ensures es[i].id != es[j].id {
        assert (es + [e])[i].id != (es + [e])[j].id;
      }
      forall i | 0 <= i < |es| ensures es[i].id != e.id {
        assert (es + [e])[i].id != (es + [e])[|es|].id;
      }
    }
  }

  lemma RepeatedPrefix(es: seq<Entry>, front: seq<Entry>, e: Entry)
    requires front + [e] <= es && Has(front, e.id)
    ensures !UniqueIds(es)
  {
    var i :| 0 <= i < |front| && front[i].id == e.id;
    assert es[i] == (front + [e])[i] && es[|front|] == (front + [e])[|front|];
  }

  /** `merge_execution_map_updates`, for a map of the right task. */
  method MergeWithPositions(current: seq<Entry>, updates: seq<Entry>) returns (r: Result<seq<Entry>, MergeError>)
    ensures r == if UniqueIds(updates) then Ok(ListMerge(current, updates)) else Err(RepeatedUpdate)
  {
    var ordered := current;
    var positions := IndexPositions(ordered);
    var seen: set<Id> := {};
    ghost var done: seq<Entry> := [];
    for k := 0 to |updates|
      invariant done == updates[..k]
      invariant UniqueIds(done) && forall id :: id in seen <==> Has(done, id)
      invariant ordered == ListMerge(current, done) && Indexed(positions, ordered)
    {
      UniqueSnoc(done, updates[k]);
      HasSnoc(done, updates[k]);
      assert updates[..k + 1] == done + [updates[k]];
      if updates[k].id in seen {
        RepeatedPrefix(updates, done, updates[k]);
        return Err(RepeatedUpdate);
      }
      seen := seen + {updates[k].id};
      ordered, positions := ApplyUpdate(ordered, positions, updates[k], current, done);
      done := done + [updates[k]];
    }
    assert updates[..|updates|] == updates;
    r := Ok(ordered);
  }

  /** The index finds exactly the old ids, and their last places, apart from ids of
      earlier updates. */
  lemma PlaceIn(current: seq<Entry>, updates: seq<Entry>, positions: map<Id, nat>, id: Id)
    requires Indexed(positions, ListMerge(current, updates)) && !Has(updates, id)
    ensures id in positions <==> Has(current, id)
    ensures id in positions ==>
              positions[id] < |current| && current[positions[id]].id == id && LastPlace(current, positions[id])
  {
    var merged := ListMerge(current, updates);
    forall e | e in NewOnes(current, updates) ensures e.id != id {
      NewOnesInside(current, updates, e);
    }
    forall i | |current| <= i < |merged| ensures merged[i].id != id {
      assert merged[i] == merged[|current|..][i - |current|];
    }
    if Has(current, id) {
      var i :| 0 <= i < |current| && current[i].id == id;
      assert merged[i].id == id;
    }
    if id in positions {
      var p := positions[id];
      assert current[p].id == id;
      forall j | p < j < |current| ensures current[j].id != id {
        assert merged[j].id == current[j].id;
      }
    }
  }

  lemma {:induction false} NewOnesInside(known: seq<Entry>, es: seq<Entry>, e: Entry)
    requires e in NewOnes(known, es)
    ensures e in es && !Has(known, e.id)
  {
    var front, last := es[..|es| - 1], es[|es| - 1];
    assert es == front + [last];
    if e in NewOnes(known, front) { NewOnesInside(known, front, e); }
  }

  /** The dictionary of `es`: keys in insertion order, values by key. */
  ghost predicate Holds(keys: seq<Id>, values: map<Id, Entry>, es: seq<Entry>) {
    && keys == FirstIds(es)
    && (forall id :: id in values <==> id in keys)
    && (forall id :: id in keys ==> values[id] == Latest(Entry(id, ""), es))
  }

  /** `entries[e.id] = e`. */
  method Assign(keys: seq<Id>, values: map<Id, Entry>, e: Entry, ghost es: seq<Entry>)
    returns (keys': seq<Id>, values': map<Id, Entry>)
    requires Holds(keys, values, es)
    ensures Holds(keys', values', es + [e])
  {
    keys' := if e.id in keys then keys else keys + [e.id];
    values' := values[e.id := e];
  }

  /** Assigning every entry of `more` into the dictionary. */
  method AssignAll(keys: seq<Id>, values: map<Id, Entry>, more: seq<Entry>, ghost es: seq<Entry>)
    returns (keys': seq<Id>, values': map<Id, Entry>)
    requires Holds(keys, values, es)
    ensures Holds(keys', values', es + more)
  {
    keys', values' := keys, values;
    ghost var done := es;
    for k := 0 to |more|
      invariant Holds(keys', values', done)
      invariant done == es + more[..k]
    {
      keys', values' := Assign(keys', values', more[k], done);
      done := done + [more[k]];
    }
    assert more[..|more|] == more;
  }

  /** `_merge_execution_map_updates`: the values of the dictionary, in order. */
  method MergeWithDictionary(current: seq<Entry>, updates: seq<Entry>) returns (merged: seq<Entry>)
    ensures merged == Collapse(current + updates)
  {
    var keys, values := AssignAll([], map[], current, []);
    assert [] + current == current;
    keys, values := AssignAll(keys, values, updates, current);
    merged := seq(|keys|, i requires 0 <= i < |keys| => values[keys[i]]);
  }

  /******* When the two agree *******/

  function IfNew(known: bool, id: Id): seq<Id> {
    if known then [] else [id]
  }

  lemma NewOnesUnfold(known: seq<Entry>, es: seq<Entry>)
    requires es != []
    ensures var front, last := es[..|es| - 1], es[|es| - 1];
            IdsOf(NewOnes(known, es)) == IdsOf(NewOnes(known, front)) + IfNew(Has(known, last.id), last.id)
  {}

  lemma FirstIdsUnfold(es: seq<Entry>)
    requires es != []
    ensures var front, last := es[..|es| - 1], es[|es| - 1];
            FirstIds(es) == FirstIds(front) + IfNew(Has(front, last.id), last.id)
  {
    FirstIdsAre(es[..|es| - 1], es[|es| - 1].id);
  }

  lemma FirstIdsSnoc(es: seq<Entry>, e: Entry)
    ensures FirstIds(es + [e]) == FirstIds(es) + IfNew(Has(es, e.id), e.id)
  {
    FirstIdsAre(es, e.id);
    assert (es + [e])[..|es|] == es;
  }

  lemma Associate(a: seq<Id>, b: seq<Id>, c: seq<Id>)
    ensures (a + b) + c == a + (b + c)
  {}

  /** Appending updates to the ids adds the new ones, in order. */
  lemma {:induction false} FirstIdsConcat(current: seq<Entry>, updates: seq<Entry>)
    requires UniqueIds(updates)
    ensures FirstIds(current + updates) == FirstIds(current) + IdsOf(NewOnes(current, updates))
  {
    var es := current + updates;
    if updates == [] {
      assert es == current;
      assert FirstIds(current) + [] == FirstIds(current);
    } else {
      var front, last := updates[..|updates| - 1], updates[|updates| - 1];
      FirstIdsConcat(current, front);
      assert es[..|es| - 1] == current + front && es[|es| - 1] == last;
      FirstIdsUnfold(es);
      NewOnesUnfold(current, updates);
      OnlyKnown(current, updates);
      Associate(FirstIds(current), IdsOf(NewOnes(current, front)), IfNew(Has(current, last.id), last.id));
    }
  }

  lemma OnlyKnown(current: seq<Entry>, updates: seq<Entry>)
    requires UniqueIds(updates) && updates != []
    ensures var front, last := updates[..|updates| - 1], updates[|updates| - 1];
            Has(current + front, last.id) <==> Has(current, last.id)
  {
    var front, last := updates[..|updates| - 1], updates[|updates| - 1];
    HasConcat(current, front, last.id);
  }

  lemma HasConcat(a: seq<Entry>, b: seq<Entry>, id: Id)
    ensures Has(a + b, id) <==> Has(a, id) || Has(b, id)
  {
    if Has(a, id) {
      var i :| 0 <= i < |a| && a[i].id == id;
      assert (a + b)[i].id == id;
    }
    if Has(b, id) {
      var i :| 0 <= i < |b| && b[i].id == id;
      assert (a + b)[|a| + i].id == id;
    }
  }

  lemma {:induction false} FirstIdsShorter(es: seq<Entry>)
    ensures |FirstIds(es)| <= |es|
    ensures |FirstIds(es)| == |es| <==> UniqueIds(es)
    ensures UniqueIds(es) ==> FirstIds(es) == IdsOf(es)
  {
    if es != [] {
      var front, last := es[..|es| - 1], es[|es| - 1];
      assert es == front + [last];
      FirstIdsShorter(front);
      FirstIdsSnoc(front, last);
      UniqueSnoc(front, last);
    }
  }

  lemma {:induction false} LatestConcat(e: Entry, a: seq<Entry>, b: seq<Entry>)
    ensures Latest(e, a + b) == if Has(b, e.id) then Latest(e, b) else Latest(e, a)
  {
    if b == [] {
      assert a + b == a;
    } else {
      var front, last := b[..|b| - 1], b[|b| - 1];
      LatestConcat(e, a, front);
      assert a + b == (a + front) + [last] && b == front + [last];
      HasSnoc(front, last);
    }
  }

  /** With its id present, what `e` itself is does not matter. */
  lemma {:induction false} LatestById(d: Entry, e: Entry, es: seq<Entry>)
    requires d.id == e.id && Has(es, e.id)
    ensures Latest(d, es) == Latest(e, es)
  {
    var front, last := es[..|es| - 1], es[|es| - 1];
    assert es == front + [last];
    HasSnoc(front, last);
    if last.id != e.id { LatestById(d, e, front); }
  }

  lemma {:induction false} LatestSelf(es: seq<Entry>, i: nat)
    requires i < |es| && UniqueIds(es)
    ensures Latest(Entry(es[i].id, ""), es) == es[i]
  {
    var front, last := es[..|es| - 1], es[|es| - 1];
    assert es == front + [last];
    if i < |front| { LatestSelf(front, i); }
  }

  lemma {:induction false} NewOnesUnique(known: seq<Entry>, es: seq<Entry>, e: Entry)
    requires UniqueIds(es) && e in NewOnes(known, es)
    ensures Latest(Entry(e.id, ""), es) == e
  {
    NewOnesInside(known, es, e);
    var i :| 0 <= i < |es| && es[i] == e;
    LatestSelf(es, i);
  }

  /** An old entry, in the dictionary and in the list. */
  lemma OldEntry(current: seq<Entry>, updates: seq<Entry>, i: nat)
    requires UniqueIds(current) && i < |current|
    ensures Latest(Entry(current[i].id, ""), current + updates) == ListMerge(current, updates)[i]
  {
    LatestConcat(Entry(current[i].id, ""), current, updates);
    assert LastPlace(current, i);
    if !Has(updates, current[i].id) { LatestAbsent(current[i], updates); }
    if Has(updates, current[i].id) {
      LatestById(Entry(current[i].id, ""), current[i], updates);
    } else {
      LatestSelf(current, i);
    }
  }

  /** A new entry, in the dictionary. */
  lemma NewEntry(current: seq<Entry>, updates: seq<Entry>, e: Entry)
    requires UniqueIds(updates) && e in NewOnes(current, updates)
    ensures Latest(Entry(e.id, ""), current + updates) == e
  {
    NewOnesInside(current, updates, e);
    LatestConcat(Entry(e.id, ""), current, updates);
    NewOnesUnique(current, updates, e);
    var i :| 0 <= i < |updates| && updates[i] == e;
  }

  lemma IdAt(current: seq<Entry>, updates: seq<Entry>, i: nat)
    requires i < |ListMerge(current, updates)|
    ensures ListMerge(current, updates)[i].id == (IdsOf(current) + IdsOf(NewOnes(current, updates)))[i]
  {
    if i >= |current| {
      assert ListMerge(current, updates)[i] == ListMerge(current, updates)[|current|..][i - |current|];
    }
  }

  lemma AgreeAt(current: seq<Entry>, updates: seq<Entry>, i: nat)
    requires UniqueIds(updates) && UniqueIds(current) && i < |ListMerge(current, updates)|
    ensures Latest(Entry(ListMerge(current, updates)[i].id, ""), current + updates) == ListMerge(current, updates)[i]
  {
    if i < |current| {
      OldEntry(current, updates, i);
    } else {
      assert ListMerge(current, updates)[i] == ListMerge(current, updates)[|current|..][i - |current|];
      NewEntry(current, updates, ListMerge(current, updates)[i]);
    }
  }

  lemma MergesAgree(current: seq<Entry>, updates: seq<Entry>)
    requires UniqueIds(updates) && UniqueIds(current)
    ensures ListMerge(current, updates) == Collapse(current + updates)
  {
    var merged, collapsed := ListMerge(current, updates), Collapse(current + updates);
    FirstIdsConcat(current, updates);
    FirstIdsShorter(current);
    assert |merged| == |collapsed|;
    forall i | 0 <= i < |merged| ensures merged[i] == collapsed[i] {
      IdAt(current, updates, i);
      AgreeAt(current, updates, i);
    }
  }

  /** On updates with unique ids, which the list form demands, the two forms return
      the same entries exactly when the ids of the map are unique. */
  lemma MergesAgreeIff(current: seq<Entry>, updates: seq<Entry>)
    requires UniqueIds(updates)
    ensures ListMerge(current, updates) == Collapse(current + updates) <==> UniqueIds(current)
  {
    if UniqueIds(current) { MergesAgree(current, updates); }
    FirstIdsConcat(current, updates);
    FirstIdsShorter(current);
  }

  /** Merging keeps ids unique. */
  lemma MergeKeepsUnique(current: seq<Entry>, updates: seq<Entry>)
    requires UniqueIds(updates) && UniqueIds(current)
    ensures UniqueIds(ListMerge(current, updates))
  {
    var merged, ids := ListMerge(current, updates), FirstIds(current + updates);
    FirstIdsConcat(current, updates);
    FirstIdsShorter(current);
    FirstIdsAre(current + updates, "");
    forall i | 0 <= i < |merged| ensures merged[i].id == ids[i] {
      IdAt(current, updates, i);
    }
  }
}
