/** The early-stopping Q8 reader against the full reader: exactly when they agree. */
module GgufEarlyStop {
  import opened Wrappers
  import opened Bytes
  import opened GgufFormat
  import opened GgufTheorems

  type Reader = nat -> Parse<(Key, Value)>

  /** The entries the metadata loop meets. */
  function EntriesRead(read: Reader, pos: nat, count: nat): seq<(Key, Value)>
    decreases count
  {
    if count == 0 || read(pos).Malformed? then []
    else [read(pos).value] + EntriesRead(read, read(pos).next, count - 1)
  }

  function KeysOf(es: seq<(Key, Value)>): (keys: seq<Key>)
    ensures |keys| == |es| && forall i :: 0 <= i < |es| ==> keys[i] == es[i].0
  {
    seq(|es|, i requires 0 <= i < |es| => es[i].0)
  }

  /** How many keys are met until none of `missing` is missing any more. */
  function Cut(keys: seq<Key>, missing: set<Key>): (n: nat)
    ensures n <= |keys|
  {
    if missing == {} || keys == [] then 0 else 1 + Cut(keys[1..], missing - {keys[0]})
  }

  /** The readers meet the same keys, stop at the same places, and keep the same
      values under the keys that both want. */
  predicate Agree(full: Parse<(Key, Value)>, early: Parse<(Key, Value)>, few: set<Key>) {
    && SameCursor(full, early)
    && (full.Parsed? ==>
          full.value.0 == early.value.0 && (full.value.0 in few ==> full.value.1 == early.value.1))
  }

  ghost predicate AlwaysAgree(full: Reader, early: Reader, few: set<Key>) {
    forall p: nat :: Agree(full(p), early(p), few)
  }

  lemma AgreeAt(full: Reader, early: Reader, few: set<Key>, pos: nat)
    requires AlwaysAgree(full, early, few)
    ensures Agree(full(pos), early(pos), few)
  {}

  lemma ReadersAgree(data: seq<Byte>, pos: nat, all: set<Key>, few: set<Key>)
    requires few <= all
    ensures Agree(EntryAt(data, pos, all), EntryAt(data, pos, few), few)
  {
    if TextAt(data, pos).Parsed? {
      var p := TextAt(data, pos).next;
      if Unsigned(data, p, 4).Parsed? { SkipAsKeep(data, p + 4, Unsigned(data, p, 4).value); }
    }
  }

  lemma WantedKeysDistinct()
    ensures ARCHITECTURE != FILE_TYPE && ARCHITECTURE != GENERAL_TYPE && FILE_TYPE != GENERAL_TYPE
  {
    assert |ARCHITECTURE| == 20 && |FILE_TYPE| == 17 && |GENERAL_TYPE| == 12;
  }

  /** The loop holds as many values as there are wanted keys only when it holds them all. */
  lemma AllWanted(wanted: Wanted, few: set<Key>)
    requires wanted.Keys <= few
    ensures |wanted| == |few| <==> wanted.Keys == few
  {
    if |wanted| == |few| {
      var missing := few - wanted.Keys;
      assert |missing| == |few| - |wanted.Keys|;
    }
  }

  /******* The two loops *******/

  /** A loop that gets through has met `count` entries, and found them. */
  lemma {:induction false} FullFinds(read: Reader, pos: nat, count: nat, keys: set<Key>, wanted: Wanted)
    requires Metadata(read, pos, count, keys, None, wanted).Parsed?
    ensures |EntriesRead(read, pos, count)| == count
    ensures FindsEntries(read, pos, EntriesRead(read, pos, count), keys,
                         Metadata(read, pos, count, keys, None, wanted).next)
    decreases count
  {
    if count > 0 {
      FullFinds(read, read(pos).next, count - 1, keys, Note(wanted, keys, read(pos).value));
    }
  }

  /** Under every key of `few`, `found` holds the last value among `done`. */
  predicate HoldsLast(found: Wanted, done: seq<(Key, Value)>, few: set<Key>) {
    forall k :: k in few ==> Get(found, k) == LastValue(done, k)
  }

  /** The entries until none of `missing` is missing any more. */
  function Front(es: seq<(Key, Value)>, missing: set<Key>): seq<(Key, Value)> {
    es[..Cut(KeysOf(es), missing)]
  }

  /** Under `key`, the loop returns the last value among `done` and then `es`. */
  predicate ReturnsLast(r: Parse<Wanted>, done: seq<(Key, Value)>, es: seq<(Key, Value)>, key: Key) {
    r.Parsed? && Get(r.value, key) == LastValue(done + es, key)
  }

  lemma ReturnsLastCons(r: Parse<Wanted>, done: seq<(Key, Value)>, e: (Key, Value), es: seq<(Key, Value)>, key: Key)
    requires ReturnsLast(r, done + [e], es, key)
    ensures ReturnsLast(r, done, [e] + es, key)
  {
    assert done + [e] + es == done + ([e] + es);
  }

  lemma ReturnsHeld(r: Parse<Wanted>, done: seq<(Key, Value)>, few: set<Key>, key: Key)
    requires r.Parsed? && HoldsLast(r.value, done, few) && key in few
    ensures ReturnsLast(r, done, [], key)
  {
    assert done + [] == done;
  }

  /** Under every key of its own, the early loop returns the last value among the
      entries up to the cut. */
  lemma {:induction false} EarlyIsPrefix(full: Reader, early: Reader, pos: nat, count: nat, few: set<Key>,
                                         enough: Option<nat>, found: Wanted, done: seq<(Key, Value)>, key: Key)
    requires AlwaysAgree(full, early, few)
    requires key in few && found.Keys <= few && found.Keys != few
    requires |EntriesRead(full, pos, count)| == count
    requires HoldsLast(found, done, few)
    requires enough == Some(|few|)
    ensures ReturnsLast(Metadata(early, pos, count, few, enough, found),
                        done, Front(EntriesRead(full, pos, count), few - found.Keys), key)
    decreases count
  {
    if count == 0 {
      ReturnsHeld(Parsed(found, pos), done, few, key);
    } else {
      var e, next, rest := full(pos).value, full(pos).next, EntriesRead(full, full(pos).next, count - 1);
      var noted := Note(found, few, early(pos).value);
      AgreeAt(full, early, few, pos);
      NotedValues(found, done, e, few, early(pos).value);
      if noted.Keys != few {
        EarlyIsPrefix(full, early, next, count - 1, few, enough, noted, done + [e], key);
      }
      EarlyStep(early, pos, count, few, enough, found, done, e, rest, key);
    }
  }

  lemma EarlyStep(early: Reader, pos: nat, count: nat, few: set<Key>, enough: Option<nat>, found: Wanted,
                  done: seq<(Key, Value)>, e: (Key, Value), rest: seq<(Key, Value)>, key: Key)
    requires key in few && found.Keys <= few && found.Keys != few && enough == Some(|few|)
    requires count > 0 && early(pos).Parsed? && early(pos).value.0 == e.0
    requires var noted := Note(found, few, early(pos).value);
             if noted.Keys == few then HoldsLast(noted, done + [e], few)
             else ReturnsLast(Metadata(early, early(pos).next, count - 1, few, enough, noted),
                              done + [e], Front(rest, few - noted.Keys), key)
    ensures ReturnsLast(Metadata(early, pos, count, few, enough, found), done, Front([e] + rest, few - found.Keys), key)
  {
    var noted, r := Note(found, few, early(pos).value), Metadata(early, pos, count, few, enough, found);
    EarlyOne(early, pos, count, few, enough, found, noted);
    FrontOne(e, rest, few, found, noted);
    if noted.Keys == few {
      ReturnsHeld(r, done + [e], few, key);
      assert Front(rest, few - noted.Keys) == [];
    }
    ReturnsLastCons(r, done, e, Front(rest, few - noted.Keys), key);
  }

  lemma EarlyOne(early: Reader, pos: nat, count: nat, few: set<Key>, enough: Option<nat>, found: Wanted, noted: Wanted)
    requires enough == Some(|few|) && count > 0 && early(pos).Parsed? && found.Keys <= few
             && noted == Note(found, few, early(pos).value)
    ensures Metadata(early, pos, count, few, enough, found)
         == if noted.Keys == few then Parsed(noted, early(pos).next)
            else Metadata(early, early(pos).next, count - 1, few, enough, noted)
  {
    AllWanted(noted, few);
  }

  lemma NotedValues(found: Wanted, done: seq<(Key, Value)>, e: (Key, Value), few: set<Key>, entry: (Key, Value))
    requires HoldsLast(found, done, few)
    requires entry.0 == e.0 && (e.0 in few ==> entry.1 == e.1)
    ensures HoldsLast(Note(found, few, entry), done + [e], few)
  {
    forall k | k in few ensures Get(Note(found, few, entry), k) == LastValue(done + [e], k) {
      CollectOne(found, done, e, few, entry.1, k);
    }
  }

  lemma FrontOne(e: (Key, Value), rest: seq<(Key, Value)>, few: set<Key>, found: Wanted, noted: Wanted)
    requires found.Keys <= few && found.Keys != few
    requires noted.Keys == if e.0 in few then found.Keys + {e.0} else found.Keys
    ensures Front([e] + rest, few - found.Keys) == [e] + Front(rest, few - noted.Keys)
  {
    var missing := few - found.Keys;
    assert found.Keys + missing == few;
    assert few - noted.Keys == missing - {e.0};
    FrontCons(e, rest, missing);
  }

  lemma FrontCons(e: (Key, Value), rest: seq<(Key, Value)>, missing: set<Key>)
    requires missing != {}
    ensures Front([e] + rest, missing) == [e] + Front(rest, missing - {e.0})
  {
    assert KeysOf([e] + rest)[1..] == KeysOf(rest);
  }

  /******* The two inspections of one file *******/

  /** The entries of a file's metadata block. */
  function MetadataEntries(data: seq<Byte>): seq<(Key, Value)> {
    var c := VersionedCounts(data);
    if c.Malformed? then [] else EntriesRead(EntryReader(data, FULL_KEYS), c.next, c.value.metadata)
  }

  function MetadataKeys(data: seq<Byte>): seq<Key> {
    KeysOf(MetadataEntries(data))
  }

  /** The entries up to the first at which both keys of the Q8 reader have occurred. */
  function FrontEntries(data: seq<Byte>): seq<(Key, Value)> {
    Front(MetadataEntries(data), Q8_KEYS)
  }

  lemma FullReadsAll(data: seq<Byte>)
    requires Inspect(data).Ok?
    ensures VersionedCounts(data).Parsed?
    ensures |MetadataEntries(data)| == VersionedCounts(data).value.metadata
    ensures Inspect(data).value.architecture == LastValue(MetadataEntries(data), ARCHITECTURE)
    ensures Inspect(data).value.fileType == LastValue(MetadataEntries(data), FILE_TYPE)
  {
    var c, read, none: Wanted := VersionedCounts(data), EntryReader(data, FULL_KEYS), map[];
    var es, end := MetadataEntries(data), Metadata(read, c.next, c.value.metadata, FULL_KEYS, None, none).next;
    FullFinds(read, c.next, c.value.metadata, FULL_KEYS, none);
    assert [] + es == es;
    ReadEntries(read, c.next, [], es, FULL_KEYS, end, none, ARCHITECTURE);
    ReadEntries(read, c.next, [], es, FULL_KEYS, end, none, FILE_TYPE);
  }

  /** On every file that the full reader accepts, the early-stopping reader succeeds,
      with the last values among the entries up to the cut. */
  lemma EarlyReadsFront(data: seq<Byte>)
    requires Inspect(data).Ok?
    ensures var front := FrontEntries(data);
            InspectQ8(data)
            == Ok(Q8Inspection(Inspect(data).value.counts, LastValue(front, ARCHITECTURE), LastValue(front, FILE_TYPE)))
  {
    var c, none: Wanted := VersionedCounts(data), map[];
    var full, early := EntryReader(data, FULL_KEYS), EntryReader(data, Q8_KEYS);
    FullReadsAll(data);
    forall p: nat ensures Agree(full(p), early(p), Q8_KEYS) {
      ReadersAgree(data, p, FULL_KEYS, Q8_KEYS);
    }
    assert AlwaysAgree(full, early, Q8_KEYS) && HoldsLast(none, [], Q8_KEYS);
    WantedKeysDistinct();
    assert |Q8_KEYS| == 2 && ARCHITECTURE in Q8_KEYS && none.Keys != Q8_KEYS && Q8_KEYS - none.Keys == Q8_KEYS;
    assert [] + FrontEntries(data) == FrontEntries(data);
    EarlyIsPrefix(full, early, c.next, c.value.metadata, Q8_KEYS, Some(2), none, [], ARCHITECTURE);
    EarlyIsPrefix(full, early, c.next, c.value.metadata, Q8_KEYS, Some(2), none, [], FILE_TYPE);
  }

  /** The early-stopping reader returns what the full reader does. */
  predicate SameInspection(data: seq<Byte>)
    requires Inspect(data).Ok?
  {
    var i := Inspect(data).value;
    InspectQ8(data) == Ok(Q8Inspection(i.counts, i.architecture, i.fileType))
  }

  /** On every file that the full reader accepts, both readers return the same version,
      counts, architecture and file type if and only if neither wanted value changes
      behind the cut. */
  lemma EarlyStopAgreesIff(data: seq<Byte>)
    requires Inspect(data).Ok?
    ensures SameInspection(data)
       <==> forall k :: k in Q8_KEYS ==> LastValue(FrontEntries(data), k) == LastValue(MetadataEntries(data), k)
  {
    FullReadsAll(data);
    EarlyReadsFront(data);
    assert ARCHITECTURE in Q8_KEYS && FILE_TYPE in Q8_KEYS;
  }

  /******* Which keys a file may hold *******/

  /** No key of `few` occurs behind the cut. */
  predicate QuietBehindCut(keys: seq<Key>, few: set<Key>) {
    forall i :: Cut(keys, few) <= i < |keys| ==> keys[i] !in few
  }

  lemma {:induction false} LastValueQuiet(es: seq<(Key, Value)>, n: nat, key: Key)
    requires n <= |es| && forall i :: n <= i < |es| ==> es[i].0 != key
    ensures LastValue(es, key) == LastValue(es[..n], key)
    decreases |es|
  {
    if n == |es| {
      assert es[..n] == es;
    } else {
      LastValueQuiet(es[..|es| - 1], n, key);
      assert es[..|es| - 1][..n] == es[..n];
    }
  }

  lemma QuietAgrees(data: seq<Byte>)
    requires Inspect(data).Ok? && QuietBehindCut(MetadataKeys(data), Q8_KEYS)
    ensures SameInspection(data)
  {
    var es, n := MetadataEntries(data), Cut(MetadataKeys(data), Q8_KEYS);
    forall k | k in Q8_KEYS ensures LastValue(es[..n], k) == LastValue(es, k) {
      assert forall i :: 0 <= i < |es| ==> MetadataKeys(data)[i] == es[i].0;
      LastValueQuiet(es, n, k);
    }
    EarlyStopAgreesIff(data);
  }

  /** No key of `few` occurs twice. */
  predicate OnceEach(keys: seq<Key>, few: set<Key>) {
    forall i, j :: 0 <= i < j < |keys| && keys[i] in few ==> keys[i] != keys[j]
  }

  lemma {:induction false} OnceIsQuiet(keys: seq<Key>, few: set<Key>, missing: set<Key>, i: nat)
    requires OnceEach(keys, few) && (forall k :: k in few && k !in missing ==> k !in keys)
    requires Cut(keys, missing) <= i < |keys|
    ensures keys[i] !in few
  {
    if missing != {} {
      assert forall k :: k in keys[1..] ==> exists j :: 1 <= j < |keys| && keys[j] == k;
      OnceIsQuiet(keys[1..], few, missing - {keys[0]}, i - 1);
    }
  }

  /** On every file that the full reader accepts and in which neither wanted key is
      repeated, the readers agree. */
  lemma EarlyStopAgrees(data: seq<Byte>)
    requires Inspect(data).Ok? && OnceEach(MetadataKeys(data), Q8_KEYS)
    ensures SameInspection(data)
  {
    var keys := MetadataKeys(data);
    forall i | Cut(keys, Q8_KEYS) <= i < |keys| ensures keys[i] !in Q8_KEYS {
      OnceIsQuiet(keys, Q8_KEYS, Q8_KEYS, i);
    }
    QuietAgrees(data);
  }

  /** So they agree on every accepted file with unique keys, as the format demands them. */
  lemma UniqueKeysSuffice(data: seq<Byte>)
    requires Inspect(data).Ok? && Unique(MetadataKeys(data))
    ensures SameInspection(data)
  {
    EarlyStopAgrees(data);
  }

  /******* Files on which they differ *******/

  /** Keys that a header can hold. */
  predicate KeysFit(keys: seq<Key>) {
    |keys| <= MAX_COUNT && forall i :: 0 <= i < |keys| ==> TextFits(keys[i])
  }

  /** A header with these keys, whose values change at the cut. */
  function ChangingHeader(keys: seq<Key>, cut: nat): Header {
    Header(3, seq(|keys|, i requires 0 <= i < |keys| => Entry(keys[i], if i < cut then Str([]) else Array(0, []))), [])
  }

  lemma ChangingFits(keys: seq<Key>, cut: nat)
    requires KeysFit(keys)
    ensures HeaderFits(ChangingHeader(keys, cut))
  {
    assert Fits(Str([])) && Fits(Array(0, []));
  }

  lemma CountsOnHeader(h: Header, rest: seq<Byte>)
    requires HeaderFits(h)
    ensures VersionedCounts(EncodeHeader(h) + rest) == Parsed(Counts(h.version, |h.tensors|, |h.metadata|), 24)
  {
    HeaderLayout(h, rest);
    ReadCounts(EncodeHeader(h) + rest, h);
  }

  lemma EntriesOnHeader(h: Header, rest: seq<Byte>, keys: set<Key>)
    requires HeaderFits(h)
    ensures FindsEntries(EntryReader(EncodeHeader(h) + rest, keys), 24, Map(Shown, h.metadata), keys,
                         24 + |EncodeEntries(h.metadata)|)
  {
    var data, pos: nat := EncodeHeader(h) + rest, 24;
    assert pos <= |data| && At(data, pos, EncodeEntries(h.metadata)) by { HeaderLayout(h, rest); }
    EachEntryFound(data, h.metadata, keys);
    EachFound(data, EntryReader(data, keys), pos, h.metadata, EncodeEntry, Shown, keys);
  }

  /** What a reader finds it reads: the same keys, and the same values under `keys`. */
  lemma {:induction false} FoundIsRead(read: Reader, pos: nat, es: seq<(Key, Value)>, keys: set<Key>, end: nat)
    requires FindsEntries(read, pos, es, keys, end)
    ensures var got := EntriesRead(read, pos, |es|);
            && |got| == |es|
            && forall i :: 0 <= i < |es| ==> got[i].0 == es[i].0 && (es[i].0 in keys ==> got[i].1 == es[i].1)
    decreases |es|
  {
    if es != [] { FoundIsRead(read, read(pos).next, es[1..], keys, end); }
  }

  /** The same keys, and the same values under the keys of the full reader. */
  predicate ReadAs(got: seq<(Key, Value)>, es: seq<(Key, Value)>) {
    && |got| == |es|
    && forall i :: 0 <= i < |es| ==> got[i].0 == es[i].0 && (es[i].0 in FULL_KEYS ==> got[i].1 == es[i].1)
  }

  lemma EntriesFromStart(data: seq<Byte>, c: Counts, es: seq<(Key, Value)>, end: nat)
    requires VersionedCounts(data) == Parsed(c, 24) && c.metadata == |es|
    requires FindsEntries(EntryReader(data, FULL_KEYS), 24, es, FULL_KEYS, end)
    ensures ReadAs(MetadataEntries(data), es)
  {
    FoundIsRead(EntryReader(data, FULL_KEYS), 24, es, FULL_KEYS, end);
  }

  lemma EntriesOfHeader(h: Header)
    requires HeaderFits(h)
    ensures ReadAs(MetadataEntries(EncodeHeader(h) + []), Map(Shown, h.metadata))
  {
    var c, es := Counts(h.version, |h.tensors|, |h.metadata|), Map(Shown, h.metadata);
    var end := 24 + |EncodeEntries(h.metadata)|;
    CountsOnHeader(h, []);
    EntriesOnHeader(h, [], FULL_KEYS);
    EntriesFromStart(EncodeHeader(h) + [], c, es, end);
  }

  lemma {:induction false} LastValueIs(es: seq<(Key, Value)>, key: Key, v: Value)
    requires forall i :: 0 <= i < |es| && es[i].0 == key ==> es[i].1 == v
    ensures LastValue(es, key) == None || LastValue(es, key) == Some(v)
  {
    if es != [] { LastValueIs(es[..|es| - 1], key, v); }
  }

  lemma {:induction false} LastValueFrom(es: seq<(Key, Value)>, n: nat, i: nat, key: Key, v: Value)
    requires n <= i < |es| && es[i].0 == key
    requires forall j :: n <= j < |es| && es[j].0 == key ==> es[j].1 == v
    ensures LastValue(es, key) == Some(v)
    decreases |es|
  {
    if es[|es| - 1].0 != key { LastValueFrom(es[..|es| - 1], n, i, key, v); }
  }

  /** Values that change at the cut show under a key that occurs behind it. */
  lemma ChangeShows(es: seq<(Key, Value)>, n: nat, i: nat, key: Key, before: Value, behind: Value)
    requires n <= i < |es| && es[i].0 == key && before != behind
    requires forall j :: 0 <= j < |es| && es[j].0 == key ==> es[j].1 == if j < n then before else behind
    ensures LastValue(es[..n], key) != LastValue(es, key)
  {
    LastValueIs(es[..n], key, before);
    LastValueFrom(es, n, i, key, behind);
  }

  /** The values of `es` are one text before the cut and one list behind it. */
  predicate Changing(es: seq<(Key, Value)>, cut: nat) {
    forall i :: 0 <= i < |es| && es[i].0 in FULL_KEYS ==> es[i].1 == if i < cut then Text([]) else List([])
  }

  lemma ChangingMeanings(keys: seq<Key>, cut: nat)
    ensures Map(Shown, ChangingHeader(keys, cut).metadata)
            == seq(|keys|, i requires 0 <= i < |keys| => (keys[i], if i < cut then Text([]) else List([])))
  {}

  lemma ChangingEntries(keys: seq<Key>, cut: nat)
    requires KeysFit(keys)
    ensures var es := MetadataEntries(EncodeHeader(ChangingHeader(keys, cut)) + []);
            KeysOf(es) == keys && Changing(es, cut)
  {
    ChangingFits(keys, cut);
    ChangingMeanings(keys, cut);
    EntriesOfHeader(ChangingHeader(keys, cut));
  }

  lemma ChangingValues(data: seq<Byte>, i: nat)
    requires Changing(MetadataEntries(data), Cut(MetadataKeys(data), Q8_KEYS))
    requires Cut(MetadataKeys(data), Q8_KEYS) <= i < |MetadataKeys(data)| && MetadataKeys(data)[i] in FULL_KEYS
    ensures var key := MetadataKeys(data)[i];
            LastValue(FrontEntries(data), key) != LastValue(MetadataEntries(data), key)
  {
    ChangeShows(MetadataEntries(data), Cut(MetadataKeys(data), Q8_KEYS), i, MetadataKeys(data)[i], Text([]), List([]));
  }

  /** Whenever a wanted key occurs behind the cut, there is a file with these keys that
      both readers accept and read differently. */
  lemma RepeatedKeyDisagrees(keys: seq<Key>, i: nat) returns (data: seq<Byte>)
    requires KeysFit(keys) && Cut(keys, Q8_KEYS) <= i < |keys| && keys[i] in Q8_KEYS
    ensures Inspect(data).Ok? && InspectQ8(data).Ok?
    ensures MetadataKeys(data) == keys && !SameInspection(data)
  {
    var h := ChangingHeader(keys, Cut(keys, Q8_KEYS));
    data := EncodeHeader(h) + [];
    ChangingFits(keys, Cut(keys, Q8_KEYS));
    InspectInvertsEncode(h, []);
    ChangingEntries(keys, Cut(keys, Q8_KEYS));
    ChangingValues(data, i);
    EarlyStopAgreesIff(data);
    EarlyReadsFront(data);
  }

  /** Which key sequences are safe: on all accepted files with these keys the readers
      agree if and only if no wanted key occurs once both have occurred. */
  lemma AllAgreeIff(keys: seq<Key>)
    requires KeysFit(keys)
    ensures (forall data | Inspect(data).Ok? && MetadataKeys(data) == keys :: SameInspection(data))
            <==> QuietBehindCut(keys, Q8_KEYS)
  {
    if QuietBehindCut(keys, Q8_KEYS) {
      forall data | Inspect(data).Ok? && MetadataKeys(data) == keys ensures SameInspection(data) {
        QuietAgrees(data);
      }
    } else {
      var i :| Cut(keys, Q8_KEYS) <= i < |keys| && keys[i] in Q8_KEYS;
      var data := RepeatedKeyDisagrees(keys, i);
    }
  }
}
