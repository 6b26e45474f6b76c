/** The full reader accepts exactly the encoded headers. */
module GgufAccepts {
  import opened Wrappers
  import opened Bytes
  import opened GgufFormat
  import opened GgufTheorems

  /******* Every number of bytes spells a number *******/

  lemma {:induction false} LittleEndianFits(bs: seq<Byte>)
    ensures LittleEndian(bs) < Power256(|bs|)
  {
    if bs != [] { LittleEndianFits(bs[1..]); }
  }

  lemma {:induction false} UnpackPack(bs: seq<Byte>)
    ensures Pack(LittleEndian(bs), |bs|) == bs
  {
    if bs != [] {
      UnpackPack(bs[1..]);
      assert bs == [bs[0]] + bs[1..];
    }
  }

  lemma RawAt(data: seq<Byte>, pos: nat, width: nat)
    requires Exact(data, pos, width).Parsed?
    ensures At(data, pos, Exact(data, pos, width).value)
  {
    AtSlice(data, pos, Exact(data, pos, width).value);
  }

  /** A number that was read lies there packed. */
  lemma NumberAt(data: seq<Byte>, pos: nat, width: nat)
    requires Unsigned(data, pos, width).Parsed?
    ensures At(data, pos, Pack(Unsigned(data, pos, width).value, width))
    ensures Unsigned(data, pos, width).value < Power256(width)
  {
    RawAt(data, pos, width);
    UnpackPack(Exact(data, pos, width).value);
    LittleEndianFits(Exact(data, pos, width).value);
  }

  lemma U32At(data: seq<Byte>, pos: nat)
    requires Unsigned(data, pos, 4).Parsed?
    ensures At(data, pos, Pack(Unsigned(data, pos, 4).value, 4)) && Unsigned(data, pos, 4).value < 0x1_0000_0000
  {
    NumberAt(data, pos, 4);
    Bounds(4);
  }

  /******* Values *******/

  /** The item that a scalar's bytes spell under its tag. */
  function ItemOf(tag: nat, raw: seq<Byte>): Item
    requires ScalarSize(tag) > 0 && |raw| == ScalarSize(tag)
  {
    var n := LittleEndian(raw);
    if tag == 1 || tag == 3 || tag == 5 || tag == 11 then
      Int(|raw|, if 2 * n >= Beyond(|raw|) then n - Beyond(|raw|) else n)
    else if tag == 6 || tag == 12 then Bits(|raw|, n)
    else if tag == 7 then Truth(raw[0])
    else Natural(|raw|, n)
  }

  lemma ScalarIsEncoded(tag: nat, raw: seq<Byte>)
    requires ScalarSize(tag) > 0 && |raw| == ScalarSize(tag)
    ensures Fits(ItemOf(tag, raw)) && TagOf(ItemOf(tag, raw)) == tag && Encode(ItemOf(tag, raw)) == raw
  {
    LittleEndianFits(raw);
    UnpackPack(raw);
    Bounds(|raw|);
  }

  lemma TextIsEncoded(data: seq<Byte>, pos: nat)
    requires TextAt(data, pos).Parsed?
    ensures var text := TextAt(data, pos).value;
            TextFits(text) && At(data, pos, EncodeText(text)) && TextAt(data, pos).next == pos + |EncodeText(text)|
  {
    var text := TextAt(data, pos).value;
    NumberAt(data, pos, 8);
    RawAt(data, pos + 8, |text|);
    AtConcat(data, pos, Pack(|text|, 8), text);
  }

  /** Every value that the reader accepts lies there encoded, within the limits. */
  lemma {:induction false} ValueIsEncoded(data: seq<Byte>, pos: nat, tag: nat) returns (i: Item)
    requires ValueAt(data, pos, tag, true).Parsed?
    ensures Fits(i) && TagOf(i) == tag && At(data, pos, Encode(i))
    decreases if pos <= |data| then |data| - pos else 0, 0
  {
    if ScalarSize(tag) > 0 {
      var raw := Exact(data, pos, ScalarSize(tag)).value;
      RawAt(data, pos, ScalarSize(tag));
      ScalarIsEncoded(tag, raw);
      i := ItemOf(tag, raw);
    } else if tag == 8 {
      TextIsEncoded(data, pos);
      i := Str(TextAt(data, pos).value);
    } else {
      var element, count := Unsigned(data, pos, 4).value, Unsigned(data, pos + 4, 8).value;
      U32At(data, pos);
      NumberAt(data, pos + 4, 8);
      var items := ItemsAreEncoded(data, pos + 12, element, count);
      AtConcat(data, pos, Pack(element, 4), Pack(count, 8));
      AtConcat(data, pos, Pack(element, 4) + Pack(count, 8), EncodeAll(items));
      i := Array(element, items);
    }
  }

  lemma {:induction false} ItemsAreEncoded(data: seq<Byte>, pos: nat, tag: nat, count: nat) returns (items: seq<Item>)
    requires pos <= |data| && ItemsAt(data, pos, tag, count, true).Parsed?
    ensures |items| == count && AllFit(items, tag) && At(data, pos, EncodeAll(items))
    decreases |data| - pos, 1
  {
    if count == 0 {
      items := [];
    } else {
      var first := ValueIsEncoded(data, pos, tag);
      ReadValue(data, pos, first);
      var next := ValueAt(data, pos, tag, true).next;
      var rest := ItemsAreEncoded(data, next, tag, count - 1);
      items := [first] + rest;
      AtConcat(data, pos, Encode(first), EncodeAll(rest));
    }
  }

  /******* Entries and tensors *******/

  /** The tag and the value behind a key. */
  lemma TaggedIsEncoded(data: seq<Byte>, pos: nat, tag: Parse<nat>, keep: bool) returns (i: Item)
    requires tag == Unsigned(data, pos, 4) && tag.Parsed? && ValueAt(data, tag.next, tag.value, keep).Parsed?
    ensures Fits(i) && TagOf(i) == tag.value && At(data, pos, Pack(tag.value, 4) + Encode(i))
  {
    U32At(data, pos);
    SkipAsKeep(data, tag.next, tag.value);
    i := ValueIsEncoded(data, tag.next, tag.value);
    AtConcat(data, pos, Pack(tag.value, 4), Encode(i));
  }

  lemma EntryIsEncoded(data: seq<Byte>, pos: nat, keys: set<Key>) returns (e: Entry)
    requires EntryAt(data, pos, keys).Parsed?
    ensures EntryFits(e) && At(data, pos, EncodeEntry(e))
    ensures EntryAt(data, pos, keys).next == pos + |EncodeEntry(e)|
  {
    var key := TextAt(data, pos);
    TextIsEncoded(data, pos);
    var tag := Unsigned(data, key.next, 4);
    var i := TaggedIsEncoded(data, key.next, tag, key.value in keys);
    e := Entry(key.value, i);
    AtConcat(data, pos, EncodeText(key.value), Pack(tag.value, 4) + Encode(i));
    ReadEntry(data, pos, e, keys);
  }

  predicate EntriesFit(es: seq<Entry>) {
    forall i :: 0 <= i < |es| ==> EntryFits(es[i])
  }

  predicate TensorsFit(ts: seq<Tensor>) {
    forall i :: 0 <= i < |ts| ==> TensorFits(ts[i])
  }

  /** Chunks that lie in a row, one more in front. */
  lemma InFront(data: seq<Byte>, pos: nat, chunk: seq<Byte>, chunks: seq<seq<Byte>>)
    requires At(data, pos, chunk) && At(data, pos + |chunk|, Flatten(chunks))
    ensures At(data, pos, Flatten([chunk] + chunks)) && |Flatten([chunk] + chunks)| == |chunk| + |Flatten(chunks)|
  {
    assert ([chunk] + chunks)[1..] == chunks;
    AtConcat(data, pos, chunk, Flatten(chunks));
  }

  lemma OneMore<T>(data: seq<Byte>, pos: nat, x: T, rest: seq<T>, encode: T -> seq<Byte>)
    requires At(data, pos, encode(x)) && At(data, pos + |encode(x)|, Flatten(Map(encode, rest)))
    ensures At(data, pos, Flatten(Map(encode, [x] + rest)))
    ensures |Flatten(Map(encode, [x] + rest))| == |encode(x)| + |Flatten(Map(encode, rest))|
  {
    assert Map(encode, [x] + rest) == [encode(x)] + Map(encode, rest);
    InFront(data, pos, encode(x), Map(encode, rest));
  }

  /** `count` reads in a row succeed. */
  predicate ReadsAll<T>(read: nat -> Parse<T>, pos: nat, count: nat)
    decreases count
  {
    count > 0 ==> read(pos).Parsed? && ReadsAll(read, read(pos).next, count - 1)
  }

  function EndOf<T>(read: nat -> Parse<T>, pos: nat, count: nat): nat
    requires ReadsAll(read, pos, count)
    decreases count
  {
    if count == 0 then pos else EndOf(read, read(pos).next, count - 1)
  }

  /** `x` lies encoded where `read` succeeds, and takes what it reads. */
  ghost predicate LiesAt<T, E>(data: seq<Byte>, read: nat -> Parse<T>, pos: nat, encode: E -> seq<Byte>,
                               fits: E -> bool, x: E) {
    read(pos).Parsed? ==> fits(x) && At(data, pos, encode(x)) && read(pos).next == pos + |encode(x)|
  }

  ghost predicate FindsEncoded<T, E(!new)>(data: seq<Byte>, read: nat -> Parse<T>, pos: nat, encode: E -> seq<Byte>,
                                           fits: E -> bool) {
    exists x :: LiesAt(data, read, pos, encode, fits, x)
  }

  /** When every single read finds something encoded, so do reads in a row. */
  lemma {:induction false} AllEncoded<T, E(!new)>(data: seq<Byte>, read: nat -> Parse<T>, encode: E -> seq<Byte>,
                                                  fits: E -> bool, pos: nat, count: nat) returns (xs: seq<E>)
    requires forall p: nat :: FindsEncoded(data, read, p, encode, fits)
    requires ReadsAll(read, pos, count)
    ensures |xs| == count && (forall i :: 0 <= i < count ==> fits(xs[i]))
    ensures At(data, pos, Flatten(Map(encode, xs))) && EndOf(read, pos, count) == pos + |Flatten(Map(encode, xs))|
    decreases count
  {
    if count == 0 {
      xs := [];
    } else {
      assert FindsEncoded(data, read, pos, encode, fits);
      var x :| LiesAt(data, read, pos, encode, fits, x);
      var rest := AllEncoded(data, read, encode, fits, read(pos).next, count - 1);
      OneMore(data, pos, x, rest, encode);
      xs := [x] + rest;
    }
  }

  lemma {:induction false} MetadataReads(read: nat -> Parse<(Key, Value)>, pos: nat, count: nat, keys: set<Key>,
                                         wanted: Wanted)
    requires Metadata(read, pos, count, keys, None, wanted).Parsed?
    ensures ReadsAll(read, pos, count) && EndOf(read, pos, count) == Metadata(read, pos, count, keys, None, wanted).next
    decreases count
  {
    if count > 0 { MetadataReads(read, read(pos).next, count - 1, keys, Note(wanted, keys, read(pos).value)); }
  }

  lemma {:induction false} TensorsRead(read: nat -> Parse<TensorType>, pos: nat, count: nat, h: Histogram)
    requires Tensors(read, pos, count, h).Parsed?
    ensures ReadsAll(read, pos, count)
    decreases count
  {
    if count > 0 { TensorsRead(read, read(pos).next, count - 1, Tally(h, read(pos).value)); }
  }

  /** The type with a given number. */
  lemma EveryCode(code: nat)
    requires code < 0x1_0000_0000
    ensures KindFits(TypeName(code)) && CodeOf(TypeName(code)) == code
  {}

  lemma {:induction false} EightByEight(data: seq<Byte>, pos: nat, n: nat) returns (dimensions: seq<seq<Byte>>)
    requires pos + 8 * n <= |data|
    ensures |dimensions| == n && (forall i :: 0 <= i < n ==> |dimensions[i]| == 8)
    ensures At(data, pos, Flatten(dimensions))
    decreases n
  {
    if n == 0 {
      dimensions := [];
    } else {
      var rest := EightByEight(data, pos + 8, n - 1);
      RawAt(data, pos, 8);
      dimensions := [data[pos..pos + 8]] + rest;
      InFront(data, pos, data[pos..pos + 8], rest);
    }
  }

  /** The dimensions, type and offset behind a name. */
  lemma TailIsEncoded(data: seq<Byte>, pos: nat, n: nat, code: nat)
    returns (dimensions: seq<seq<Byte>>, offset: seq<Byte>)
    requires Unsigned(data, pos, 4) == Parsed(n, pos + 4) && Exact(data, pos + 4, 8 * n).Parsed?
    requires Unsigned(data, pos + 4 + 8 * n, 4) == Parsed(code, pos + 8 + 8 * n)
    requires Exact(data, pos + 8 + 8 * n, 8).Parsed?
    ensures |dimensions| == n && (forall i :: 0 <= i < n ==> |dimensions[i]| == 8) && |offset| == 8
    ensures code < 0x1_0000_0000 && At(data, pos, TensorTail(dimensions, code, offset))
  {
    U32At(data, pos);
    dimensions := EightByEight(data, pos + 4, n);
    FlattenLength(dimensions);
    U32At(data, pos + 4 + 8 * n);
    RawAt(data, pos + 8 + 8 * n, 8);
    offset := Exact(data, pos + 8 + 8 * n, 8).value;
    AtConcat(data, pos + 4 + 8 * n, Pack(code, 4), offset);
    AtConcat(data, pos + 4, Flatten(dimensions), Pack(code, 4) + offset);
    AtConcat(data, pos, Pack(n, 4), Flatten(dimensions) + (Pack(code, 4) + offset));
  }

  lemma TensorIsEncoded(data: seq<Byte>, pos: nat) returns (t: Tensor)
    requires TensorAt(data, pos).Parsed?
    ensures TensorFits(t) && At(data, pos, EncodeTensor(t)) && TensorAt(data, pos).next == pos + |EncodeTensor(t)|
  {
    var name := TextAt(data, pos);
    TextIsEncoded(data, pos);
    var n := Unsigned(data, name.next, 4).value;
    var code := Unsigned(data, name.next + 4 + 8 * n, 4).value;
    var dimensions, offset := TailIsEncoded(data, name.next, n, code);
    EveryCode(code);
    AtConcat(data, pos, EncodeText(name.value), TensorTail(dimensions, code, offset));
    t := Tensor(name.value, dimensions, TypeName(code), offset);
    ReadTensor(data, pos, t);
  }

  lemma EveryEntry(data: seq<Byte>, keys: set<Key>)
    ensures forall p: nat :: FindsEncoded(data, EntryReader(data, keys), p, EncodeEntry, EntryFits)
  {
    forall p: nat ensures FindsEncoded(data, EntryReader(data, keys), p, EncodeEntry, EntryFits) {
      var some := Entry([], Str([]));
      if EntryAt(data, p, keys).Parsed? {
        some := EntryIsEncoded(data, p, keys);
      }
      assert LiesAt(data, EntryReader(data, keys), p, EncodeEntry, EntryFits, some);
    }
  }

  lemma EveryTensor(data: seq<Byte>)
    ensures forall p: nat :: FindsEncoded(data, TensorReader(data), p, EncodeTensor, TensorFits)
  {
    forall p: nat ensures FindsEncoded(data, TensorReader(data), p, EncodeTensor, TensorFits) {
      var some := Tensor([], [], F32, []);
      if TensorAt(data, p).Parsed? {
        some := TensorIsEncoded(data, p);
      }
      assert LiesAt(data, TensorReader(data), p, EncodeTensor, TensorFits, some);
    }
  }

  lemma EntriesAreEncoded(data: seq<Byte>, pos: nat, count: nat, keys: set<Key>) returns (es: seq<Entry>)
    requires Metadata(EntryReader(data, keys), pos, count, keys, None, map[]).Parsed?
    ensures |es| == count && EntriesFit(es) && At(data, pos, EncodeEntries(es))
    ensures Metadata(EntryReader(data, keys), pos, count, keys, None, map[]).next == pos + |EncodeEntries(es)|
  {
    EveryEntry(data, keys);
    MetadataReads(EntryReader(data, keys), pos, count, keys, map[]);
    es := AllEncoded(data, EntryReader(data, keys), EncodeEntry, EntryFits, pos, count);
  }

  lemma TensorsAreEncoded(data: seq<Byte>, pos: nat, count: nat) returns (ts: seq<Tensor>)
    requires Tensors(TensorReader(data), pos, count, map[]).Parsed?
    ensures |ts| == count && TensorsFit(ts) && At(data, pos, EncodeTensors(ts))
  {
    EveryTensor(data);
    TensorsRead(TensorReader(data), pos, count, map[]);
    ts := AllEncoded(data, TensorReader(data), EncodeTensor, TensorFits, pos, count);
  }

  /******* Files *******/

  lemma CountsAreEncoded(data: seq<Byte>, h: Header)
    requires VersionedCounts(data) == Parsed(Counts(h.version, |h.tensors|, |h.metadata|), 24)
    ensures (h.version == 2 || h.version == 3) && At(data, 0, EncodeCounts(h)) && |EncodeCounts(h)| == 24
  {
    RawAt(data, 0, 4);
    NumberAt(data, 4, 4);
    NumberAt(data, 8, 8);
    NumberAt(data, 16, 8);
    var tail := Pack(|h.tensors|, 8) + Pack(|h.metadata|, 8);
    AtConcat(data, 8, Pack(|h.tensors|, 8), Pack(|h.metadata|, 8));
    AtConcat(data, 4, Pack(h.version, 4), tail);
    AtConcat(data, 0, Ascii("GGUF"), Pack(h.version, 4) + tail);
  }

  /** A file starts with the encoding of `h`. */
  ghost predicate StartsWith(data: seq<Byte>, h: Header) {
    HeaderFits(h) && EncodeHeader(h) <= data
  }

  lemma HeaderInFront(data: seq<Byte>, h: Header)
    requires At(data, 0, EncodeCounts(h)) && |EncodeCounts(h)| == 24 && At(data, 24, EncodeEntries(h.metadata))
    requires At(data, 24 + |EncodeEntries(h.metadata)|, EncodeTensors(h.tensors))
    ensures EncodeHeader(h) <= data
  {
    AtConcat(data, 24, EncodeEntries(h.metadata), EncodeTensors(h.tensors));
    AtConcat(data, 0, EncodeCounts(h), EncodeEntries(h.metadata) + EncodeTensors(h.tensors));
    AtSlice(data, 0, EncodeHeader(h));
  }

  lemma AcceptedIsEncoded(data: seq<Byte>) returns (h: Header)
    requires Inspect(data).Ok?
    ensures StartsWith(data, h)
  {
    var c := VersionedCounts(data).value;
    var es := EntriesAreEncoded(data, 24, c.metadata, FULL_KEYS);
    var ts := TensorsAreEncoded(data, 24 + |EncodeEntries(es)|, c.tensors);
    h := Header(c.version, es, ts);
    CountsAreEncoded(data, h);
    HeaderInFront(data, h);
  }

  lemma InFrontOfRest(front: seq<Byte>, data: seq<Byte>)
    requires front <= data
    ensures front + data[|front|..] == data
  {}

  lemma EncodedIsAccepted(data: seq<Byte>, h: Header)
    requires StartsWith(data, h)
    ensures Inspect(data).Ok?
  {
    InFrontOfRest(EncodeHeader(h), data);
    InspectInvertsEncode(h, data[|EncodeHeader(h)|..]);
  }

  /** The full reader accepts exactly the files that start with an encoded header: of
      version 2 or 3, with at most ten million entries and tensors, texts of well-formed
      UTF-8 of at most 64 MiB, arrays of at most a hundred million elements and tensors
      of at most 16 dimensions. */
  lemma AcceptsExactlyEncoded(data: seq<Byte>)
    ensures Inspect(data).Ok? <==> exists h :: StartsWith(data, h)
  {
    if Inspect(data).Ok? { var h := AcceptedIsEncoded(data); }
    if h :| StartsWith(data, h) { EncodedIsAccepted(data, h); }
  }
}
