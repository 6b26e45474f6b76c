/** An encoder for GGUF headers, and what the readers recover from its output. */
module GgufTheorems {
  import opened Wrappers
  import opened Bytes
  import opened GgufFormat

  /******* Skipping *******/

  /** Two parses that agree on success, error and position, whatever they return. */
  predicate SameCursor<T, U>(a: Parse<T>, b: Parse<U>) {
    if a.Parsed? then b.Parsed? && a.next == b.next else b.Malformed? && a.error == b.error
  }

  /** Skipping a value consumes exactly the bytes that keeping it does, and fails
      exactly when keeping it fails, for arrays nested to any depth. */
  lemma {:induction false} SkipAsKeep(data: seq<Byte>, pos: nat, tag: nat)
    ensures SameCursor(ValueAt(data, pos, tag, true), ValueAt(data, pos, tag, false))
    decreases if pos <= |data| then |data| - pos else 0, 0
  {
    if tag == 9 && Unsigned(data, pos, 4).Parsed? {
      var afterType := Unsigned(data, pos, 4).next;
      if Unsigned(data, afterType, 8).Parsed? && Unsigned(data, afterType, 8).value <= MAX_ARRAY {
        SkipItemsAsKeep(data, Unsigned(data, afterType, 8).next, Unsigned(data, pos, 4).value,
                        Unsigned(data, afterType, 8).value);
      }
    }
  }

  lemma {:induction false} SkipItemsAsKeep(data: seq<Byte>, pos: nat, tag: nat, count: nat)
    requires pos <= |data|
    ensures SameCursor(ItemsAt(data, pos, tag, count, true), ItemsAt(data, pos, tag, count, false))
    decreases |data| - pos, 1
  {
    if count > 0 {
      SkipAsKeep(data, pos, tag);
      var first := ValueAt(data, pos, tag, true);
      if first.Parsed? { SkipItemsAsKeep(data, first.next, tag, count - 1); }
    }
  }

  /******* Encoding *******/

  /** A metadata value by what it says.  Floats are given by their bits. */
  datatype Item =
    | Natural(width: nat, n: nat)
    | Int(width: nat, z: int)
    | Bits(width: nat, bits: nat)
    | Truth(byte: Byte)
    | Str(bytes: seq<Byte>)
    | Array(element: nat, items: seq<Item>)

  /** The value types of the GGUF specification. */
  function TagOf(i: Item): nat {
    match i
    case Natural(width, _) => if width == 1 then 0 else if width == 2 then 2 else if width == 4 then 4 else 10
    case Int(width, _) => if width == 1 then 1 else if width == 2 then 3 else if width == 4 then 5 else 11
    case Bits(width, _) => if width == 4 then 6 else 12
    case Truth(_) => 7
    case Str(_) => 8
    case Array(_, _) => 9
  }

  /** The first number that does not fit in `width` bytes. */
  function Beyond(width: nat): nat {
    if width == 1 then 0x100 else if width == 2 then 0x1_0000 else if width == 4 then 0x1_0000_0000
    else 0x1_0000_0000_0000_0000
  }

  function TwosComplement(z: int, width: nat): nat {
    if z >= 0 then z else if -z <= Beyond(width) then Beyond(width) - (-z) else 0
  }

  predicate TextFits(bytes: seq<Byte>) {
    |bytes| <= 64 * 1024 * 1024 && Utf8(bytes)
  }

  predicate Fits(i: Item)
    decreases i, 0
  {
    match i
    case Natural(width, n) => width in {1, 2, 4, 8} && n < Beyond(width)
    case Int(width, z) => width in {1, 2, 4, 8} && 2 * z < Beyond(width) && -2 * z <= Beyond(width)
    case Bits(width, bits) => width in {4, 8} && bits < Beyond(width)
    case Truth(_) => true
    case Str(bytes) => TextFits(bytes)
    case Array(element, items) => element < 0x1_0000_0000 && |items| <= 100_000_000 && AllFit(items, element)
  }

  predicate AllFit(items: seq<Item>, element: nat)
    decreases items, 1
  {
    items == [] || (TagOf(items[0]) == element && Fits(items[0]) && AllFit(items[1..], element))
  }

  function EncodeText(bytes: seq<Byte>): seq<Byte> {
    Pack(|bytes|, 8) + bytes
  }

  function Encode(i: Item): seq<Byte>
    decreases i, 0
  {
    match i
    case Natural(width, n) => Pack(n, width)
    case Int(width, z) => Pack(TwosComplement(z, width), width)
    case Bits(width, bits) => Pack(bits, width)
    case Truth(byte) => [byte]
    case Str(bytes) => EncodeText(bytes)
    case Array(element, items) => Pack(element, 4) + Pack(|items|, 8) + EncodeAll(items)
  }

  function EncodeAll(items: seq<Item>): seq<Byte>
    decreases items, 1
  {
    if items == [] then [] else Encode(items[0]) + EncodeAll(items[1..])
  }

  function Meaning(i: Item): Value
    decreases i, 0
  {
    match i
    case Natural(_, n) => Integer(n)
    case Int(_, z) => Integer(z)
    case Bits(_, bits) => Float(bits)
    case Truth(byte) => Boolean(byte != 0)
    case Str(bytes) => Text(bytes)
    case Array(_, items) => List(Meanings(items))
  }

  function Meanings(items: seq<Item>): seq<Value>
    decreases items, 1
  {
    if items == [] then [] else [Meaning(items[0])] + Meanings(items[1..])
  }

  lemma ReadBytes(data: seq<Byte>, pos: nat, bs: seq<Byte>)
    requires pos <= |data| && At(data, pos, bs)
    ensures Exact(data, pos, |bs|) == Parsed(bs, pos + |bs|)
  {
    AtSlice(data, pos, bs);
  }

  lemma ReadU32(data: seq<Byte>, pos: nat, n: nat)
    requires n < 0x1_0000_0000 && pos <= |data| && At(data, pos, Pack(n, 4))
    ensures Unsigned(data, pos, 4) == Parsed(n, pos + 4)
  {
    PackU32(n);
    ReadBytes(data, pos, Pack(n, 4));
  }

  lemma ReadU64(data: seq<Byte>, pos: nat, n: nat)
    requires n < 0x1_0000_0000_0000_0000 && pos <= |data| && At(data, pos, Pack(n, 8))
    ensures Unsigned(data, pos, 8) == Parsed(n, pos + 8)
  {
    PackU64(n);
    ReadBytes(data, pos, Pack(n, 8));
  }

  lemma ReadText(data: seq<Byte>, pos: nat, bytes: seq<Byte>)
    requires TextFits(bytes) && pos <= |data| && At(data, pos, EncodeText(bytes))
    ensures TextAt(data, pos) == Parsed(bytes, pos + |EncodeText(bytes)|)
  {
    AtConcat(data, pos, Pack(|bytes|, 8), bytes);
    ReadU64(data, pos, |bytes|);
    ReadBytes(data, pos + 8, bytes);
  }

  lemma Bounds(width: nat)
    requires width in {1, 2, 4, 8}
    ensures Power256(width) == Beyond(width)
  {
    assert Power256(2) == 65536 && Power256(4) == 0x1_0000_0000;
    assert Power256(6) == 0x1_0000_0000_0000;
  }

  /** Unpacking a scalar's bytes by its tag gives back what they say. */
  lemma UnpackInverts(i: Item)
    requires Fits(i) && !i.Str? && !i.Array?
    ensures |Encode(i)| == ScalarSize(TagOf(i)) > 0
    ensures Unpack(TagOf(i), Encode(i)) == Meaning(i)
  {
    match i
    case Natural(width, n) =>
      Bounds(width);
      PackUnpack(n, width);
    case Int(width, z) =>
      Bounds(width);
      PackUnpack(TwosComplement(z, width), width);
    case Bits(width, bits) =>
      Bounds(width);
      PackUnpack(bits, width);
    case Truth(byte) => assert LittleEndian([byte]) == byte;
  }

  lemma ReadScalar(data: seq<Byte>, pos: nat, i: Item)
    requires Fits(i) && !i.Str? && !i.Array? && pos <= |data| && At(data, pos, Encode(i))
    ensures ValueAt(data, pos, TagOf(i), true) == Parsed(Meaning(i), pos + |Encode(i)|)
  {
    UnpackInverts(i);
    ReadBytes(data, pos, Encode(i));
  }

  /** The reader inverts the encoder, wherever the value lies in the file. */
  lemma {:induction false} ReadValue(data: seq<Byte>, pos: nat, i: Item)
    requires Fits(i) && pos <= |data| && At(data, pos, Encode(i))
    ensures ValueAt(data, pos, TagOf(i), true) == Parsed(Meaning(i), pos + |Encode(i)|)
    decreases i, 0
  {
    match i
    case Str(bytes) => ReadText(data, pos, bytes);
    case Array(element, items) =>
      AtConcat(data, pos, Pack(element, 4) + Pack(|items|, 8), EncodeAll(items));
      AtConcat(data, pos, Pack(element, 4), Pack(|items|, 8));
      ReadU32(data, pos, element);
      ReadU64(data, pos + 4, |items|);
      ReadItems(data, pos + 12, items, element);
    case _ => ReadScalar(data, pos, i);
  }

  lemma {:induction false} ReadItems(data: seq<Byte>, pos: nat, items: seq<Item>, element: nat)
    requires AllFit(items, element) && pos <= |data| && At(data, pos, EncodeAll(items))
    ensures ItemsAt(data, pos, element, |items|, true) == Parsed(Meanings(items), pos + |EncodeAll(items)|)
    decreases items, 1
  {
    if items != [] {
      var first, rest := Encode(items[0]), EncodeAll(items[1..]);
      AtConcat(data, pos, first, rest);
      ReadValue(data, pos, items[0]);
      ReadItems(data, pos + |first|, items[1..], element);
      ItemsCons(data, pos, element, |items|, Meaning(items[0]), pos + |first|, Meanings(items[1..]),
        pos + |first| + |rest|);
    }
  }

  lemma ItemsCons(data: seq<Byte>, pos: nat, tag: nat, count: nat, first: Value, next: nat, rest: seq<Value>, last: nat)
    requires count > 0 && pos <= next <= |data| && ValueAt(data, pos, tag, true) == Parsed(first, next)
    requires ItemsAt(data, next, tag, count - 1, true) == Parsed(rest, last)
    ensures ItemsAt(data, pos, tag, count, true) == Parsed([first] + rest, last)
  {}

  /******* A whole header *******/

  datatype Entry = Entry(key: Key, item: Item)

  datatype Tensor = Tensor(name: seq<Byte>, dimensions: seq<seq<Byte>>, kind: TensorType, offset: seq<Byte>)

  /** The numbers of the GGML tensor types. */
  function CodeOf(kind: TensorType): nat {
    match kind
    case F32 => 0
    case F16 => 1
    case Q4_0 => 2
    case Q4_1 => 3
    case Q5_0 => 6
    case Q5_1 => 7
    case Q8_0 => 8
    case Q8_1 => 9
    case Q2_K => 10
    case Q3_K => 11
    case Q4_K => 12
    case Q5_K => 13
    case Q6_K => 14
    case Q8_K => 15
    case IQ2_XXS => 16
    case IQ2_XS => 17
    case IQ3_XXS => 18
    case IQ1_S => 19
    case IQ4_NL => 20
    case IQ3_S => 21
    case IQ2_S => 22
    case IQ4_XS => 23
    case I8 => 24
    case I16 => 25
    case I32 => 26
    case I64 => 27
    case F64 => 28
    case IQ1_M => 29
    case BF16 => 30
    case TQ1_0 => 34
    case TQ2_0 => 35
    case MXFP4 => 39
    case NVFP4 => 40
    case Unknown(code) => code
  }

  /** Numbers that were withdrawn or are not assigned. */
  predicate KindFits(kind: TensorType) {
    kind.Unknown? ==>
      (kind.code in {4, 5, 31, 32, 33, 36, 37, 38} || kind.code > 40) && kind.code < 0x1_0000_0000
  }

  lemma NamedByCode(kind: TensorType)
    requires KindFits(kind)
    ensures CodeOf(kind) < 0x1_0000_0000 && TypeName(CodeOf(kind)) == kind
  {
    if kind.Unknown? {
    } else if CodeOf(kind) < 16 {
    } else {
    }
  }

  datatype Header = Header(version: nat, metadata: seq<Entry>, tensors: seq<Tensor>)

  predicate EntryFits(e: Entry) {
    TextFits(e.key) && Fits(e.item)
  }

  predicate TensorFits(t: Tensor) {
    && TextFits(t.name) && |t.dimensions| <= 16
    && (forall i :: 0 <= i < |t.dimensions| ==> |t.dimensions[i]| == 8)
    && KindFits(t.kind) && |t.offset| == 8
  }

  predicate HeaderFits(h: Header) {
    && (h.version == 2 || h.version == 3)
    && |h.metadata| <= 10_000_000 && |h.tensors| <= 10_000_000
    && (forall i :: 0 <= i < |h.metadata| ==> EntryFits(h.metadata[i]))
    && (forall i :: 0 <= i < |h.tensors| ==> TensorFits(h.tensors[i]))
  }

  function EncodeEntry(e: Entry): seq<Byte> {
    EncodeText(e.key) + (Pack(TagOf(e.item), 4) + Encode(e.item))
  }

  function EncodeEntries(es: seq<Entry>): seq<Byte> {
    Flatten(Map(EncodeEntry, es))
  }

  function EncodeTensor(t: Tensor): seq<Byte> {
    EncodeText(t.name) + TensorTail(t.dimensions, CodeOf(t.kind), t.offset)
  }

  function EncodeTensors(ts: seq<Tensor>): seq<Byte> {
    Flatten(Map(EncodeTensor, ts))
  }

  function EncodeCounts(h: Header): seq<Byte> {
    Ascii("GGUF") + (Pack(h.version, 4) + (Pack(|h.tensors|, 8) + Pack(|h.metadata|, 8)))
  }

  function EncodeHeader(h: Header): seq<Byte> {
    EncodeCounts(h) + (EncodeEntries(h.metadata) + EncodeTensors(h.tensors))
  }

  /** What an entry and a tensor say, without their encoding. */
  function Shown(e: Entry): (Key, Value) {
    (e.key, Meaning(e.item))
  }

  function TypeOf(t: Tensor): TensorType {
    t.kind
  }

  /** The value of the last entry under `key`. */
  function LastValue(es: seq<(Key, Value)>, key: Key): Option<Value> {
    if es == [] then None
    else if es[|es| - 1].0 == key then Some(es[|es| - 1].1)
    else LastValue(es[..|es| - 1], key)
  }

  /** How many tensors have type `t`. */
  function CountType(ts: seq<TensorType>, t: TensorType): nat {
    if ts == [] then 0 else (if ts[0] == t then 1 else 0) + CountType(ts[1..], t)
  }

  /** Reading a key and a tag in a row. */
  lemma ReadKeyAndTag(data: seq<Byte>, pos: nat, key: Key, tag: nat, body: seq<Byte>)
    requires TextFits(key) && tag < 0x1_0000_0000 && pos <= |data|
    requires At(data, pos, EncodeText(key) + (Pack(tag, 4) + body))
    ensures var p := pos + |EncodeText(key)|;
            && TextAt(data, pos) == Parsed(key, p) && Unsigned(data, p, 4) == Parsed(tag, p + 4)
            && p + 4 <= |data| && At(data, p + 4, body)
  {
    var p := pos + |EncodeText(key)|;
    AtConcat(data, pos, EncodeText(key), Pack(tag, 4) + body);
    AtConcat(data, p, Pack(tag, 4), body);
    ReadText(data, pos, key);
    ReadU32(data, p, tag);
  }

  lemma EntryFrom(data: seq<Byte>, pos: nat, key: Key, p: nat, tag: nat, value: Value, next: nat, keys: set<Key>)
    requires TextAt(data, pos) == Parsed(key, p) && Unsigned(data, p, 4) == Parsed(tag, p + 4)
    requires ValueAt(data, p + 4, tag, true) == Parsed(value, next)
    ensures EntryAt(data, pos, keys).Parsed? && EntryAt(data, pos, keys).next == next
    ensures EntryAt(data, pos, keys).value.0 == key && (key in keys ==> EntryAt(data, pos, keys).value.1 == value)
  {
    SkipAsKeep(data, p + 4, tag);
  }

  lemma ReadEntry(data: seq<Byte>, pos: nat, e: Entry, keys: set<Key>)
    requires EntryFits(e) && pos <= |data| && At(data, pos, EncodeEntry(e))
    ensures EntryAt(data, pos, keys).Parsed?
    ensures EntryAt(data, pos, keys).next == pos + |EncodeEntry(e)|
    ensures EntryAt(data, pos, keys).value.0 == e.key
    ensures e.key in keys ==> EntryAt(data, pos, keys).value.1 == Meaning(e.item)
  {
    var p := pos + |EncodeText(e.key)|;
    TagSmall(e.item);
    ReadKeyAndTag(data, pos, e.key, TagOf(e.item), Encode(e.item));
    ReadValue(data, p + 4, e.item);
    EntryFrom(data, pos, e.key, p, TagOf(e.item), Meaning(e.item), p + 4 + |Encode(e.item)|, keys);
  }

  lemma TagSmall(i: Item)
    requires Fits(i)
    ensures TagOf(i) <= 12
  {}

  lemma CollectOne(wanted: Wanted, done: seq<(Key, Value)>, e: (Key, Value), keys: set<Key>, value: Value, key: Key)
    requires key in keys && Get(wanted, key) == LastValue(done, key)
    requires e.0 in keys ==> value == e.1
    ensures Get(Note(wanted, keys, (e.0, value)), key) == LastValue(done + [e], key)
  {
    assert (done + [e])[..|done|] == done;
  }

  /** A reader that finds the entries `es` one after the other from `pos` to `end`. */
  predicate FindsEntries(read: nat -> Parse<(Key, Value)>, pos: nat, es: seq<(Key, Value)>, keys: set<Key>, end: nat)
    decreases |es|
  {
    if es == [] then pos == end
    else
      && read(pos).Parsed? && read(pos).value.0 == es[0].0
      && (es[0].0 in keys ==> read(pos).value.1 == es[0].1)
      && FindsEntries(read, read(pos).next, es[1..], keys, end)
  }

  /** `read` finds the entry `e`, `length` bytes long, at `pos`. */
  predicate FindsEntry(read: nat -> Parse<(Key, Value)>, pos: nat, length: nat, e: (Key, Value), keys: set<Key>) {
    && read(pos).Parsed? && read(pos).next == pos + length && read(pos).value.0 == e.0
    && (e.0 in keys ==> read(pos).value.1 == e.1)
  }

  /** Finding each chunk wherever it lies means finding them all in a row. */
  lemma {:induction false} EntriesInARow(data: seq<Byte>, read: nat -> Parse<(Key, Value)>, pos: nat,
                                         es: seq<(Key, Value)>, chunks: seq<seq<Byte>>, keys: set<Key>)
    requires |es| == |chunks| && pos <= |data| && At(data, pos, Flatten(chunks))
    requires forall i, p: nat :: 0 <= i < |es| && p <= |data| && At(data, p, chunks[i]) ==>
               p + |chunks[i]| <= |data| && FindsEntry(read, p, |chunks[i]|, es[i], keys)
    ensures FindsEntries(read, pos, es, keys, pos + |Flatten(chunks)|)
    decreases |es|
  {
    if es != [] {
      AtConcat(data, pos, chunks[0], Flatten(chunks[1..]));
      assert FindsEntry(read, pos, |chunks[0]|, es[0], keys);
      EntriesInARow(data, read, pos + |chunks[0]|, es[1..], chunks[1..], keys);
    }
  }

  lemma EntryFound(data: seq<Byte>, pos: nat, e: Entry, keys: set<Key>)
    requires EntryFits(e) && pos <= |data| && At(data, pos, EncodeEntry(e))
    ensures pos + |EncodeEntry(e)| <= |data|
    ensures FindsEntry(EntryReader(data, keys), pos, |EncodeEntry(e)|, Shown(e), keys)
  {
    ReadEntry(data, pos, e, keys);
  }

  /** Wherever one of the entries lies encoded, the reader finds it. */
  ghost predicate FindsEach(data: seq<Byte>, read: nat -> Parse<(Key, Value)>, es: seq<Entry>,
                            encode: Entry -> seq<Byte>, shown: Entry -> (Key, Value), keys: set<Key>) {
    forall i, p: nat :: 0 <= i < |es| && p <= |data| && At(data, p, encode(es[i])) ==>
      p + |encode(es[i])| <= |data| && FindsEntry(read, p, |encode(es[i])|, shown(es[i]), keys)
  }

  lemma EachEntryFound(data: seq<Byte>, es: seq<Entry>, keys: set<Key>)
    requires forall i :: 0 <= i < |es| ==> EntryFits(es[i])
    ensures FindsEach(data, EntryReader(data, keys), es, EncodeEntry, Shown, keys)
  {
    forall i, p: nat | 0 <= i < |es| && p <= |data| && At(data, p, EncodeEntry(es[i]))
      ensures p + |EncodeEntry(es[i])| <= |data|
      ensures FindsEntry(EntryReader(data, keys), p, |EncodeEntry(es[i])|, Shown(es[i]), keys)
    {
      EntryFound(data, p, es[i], keys);
    }
  }

  lemma EachFound(data: seq<Byte>, read: nat -> Parse<(Key, Value)>, pos: nat, es: seq<Entry>,
                  encode: Entry -> seq<Byte>, shown: Entry -> (Key, Value), keys: set<Key>)
    requires pos <= |data| && At(data, pos, Flatten(Map(encode, es)))
    requires FindsEach(data, read, es, encode, shown, keys)
    ensures FindsEntries(read, pos, Map(shown, es), keys, pos + |Flatten(Map(encode, es))|)
  {
    EntriesInARow(data, read, pos, Map(shown, es), Map(encode, es), keys);
  }

  /** The metadata loop leaves, under every wanted key, the value of its last entry. */
  lemma {:induction false} ReadEntries(read: nat -> Parse<(Key, Value)>, pos: nat, done: seq<(Key, Value)>,
                                       es: seq<(Key, Value)>, keys: set<Key>, end: nat, wanted: Wanted, key: Key)
    requires FindsEntries(read, pos, es, keys, end)
    requires key in keys && Get(wanted, key) == LastValue(done, key)
    ensures var r := Metadata(read, pos, |es|, keys, None, wanted);
            r.Parsed? && r.next == end && Get(r.value, key) == LastValue(done + es, key)
    decreases |es|
  {
    if es == [] {
      assert done + es == done;
    } else {
      CollectOne(wanted, done, es[0], keys, read(pos).value.1, key);
      ReadEntries(read, read(pos).next, done + [es[0]], es[1..], keys, end, Note(wanted, keys, read(pos).value), key);
      assert done + [es[0]] + es[1..] == done + es;
    }
  }

  lemma {:induction false} FlattenLength(xss: seq<seq<Byte>>)
    requires forall i :: 0 <= i < |xss| ==> |xss[i]| == 8
    ensures |Flatten(xss)| == 8 * |xss|
  {
    if xss != [] { FlattenLength(xss[1..]); }
  }

  lemma ReadTensorTail(data: seq<Byte>, pos: nat, dimensions: seq<seq<Byte>>, code: nat, offset: seq<Byte>)
    requires |dimensions| <= 16 && (forall i :: 0 <= i < |dimensions| ==> |dimensions[i]| == 8)
    requires code < 0x1_0000_0000 && |offset| == 8 && pos <= |data|
    requires At(data, pos, TensorTail(dimensions, code, offset))
    ensures Unsigned(data, pos, 4) == Parsed(|dimensions|, pos + 4)
    ensures Exact(data, pos + 4, 8 * |dimensions|).Parsed? && |Flatten(dimensions)| == 8 * |dimensions|
    ensures Unsigned(data, pos + 4 + 8 * |dimensions|, 4) == Parsed(code, pos + 8 + 8 * |dimensions|)
    ensures Exact(data, pos + 8 + 8 * |dimensions|, 8).Parsed?
    ensures |TensorTail(dimensions, code, offset)| == 16 + 8 * |dimensions|
  {
    var tail := Pack(code, 4) + offset;
    AtConcat(data, pos, Pack(|dimensions|, 4), Flatten(dimensions) + tail);
    ReadU32(data, pos, |dimensions|);
    FlattenLength(dimensions);
    AtConcat(data, pos + 4, Flatten(dimensions), tail);
    ReadBytes(data, pos + 4, Flatten(dimensions));
    AtConcat(data, pos + 4 + 8 * |dimensions|, Pack(code, 4), offset);
    ReadU32(data, pos + 4 + 8 * |dimensions|, code);
    ReadBytes(data, pos + 8 + 8 * |dimensions|, offset);
  }

  lemma TensorParts(data: seq<Byte>, pos: nat, name: seq<Byte>, p1: nat, n: nat, code: nat)
    requires TextAt(data, pos) == Parsed(name, p1) && n <= MAX_DIMENSIONS
    requires Unsigned(data, p1, 4) == Parsed(n, p1 + 4) && Exact(data, p1 + 4, 8 * n).Parsed?
    requires Unsigned(data, p1 + 4 + 8 * n, 4) == Parsed(code, p1 + 8 + 8 * n) && Exact(data, p1 + 8 + 8 * n, 8).Parsed?
    ensures TensorAt(data, pos) == Parsed(TypeName(code), p1 + 16 + 8 * n)
  {}

  function TensorTail(dimensions: seq<seq<Byte>>, code: nat, offset: seq<Byte>): seq<Byte> {
    Pack(|dimensions|, 4) + (Flatten(dimensions) + (Pack(code, 4) + offset))
  }

  lemma ReadTensorParts(data: seq<Byte>, pos: nat, name: seq<Byte>, dimensions: seq<seq<Byte>>, code: nat,
                        offset: seq<Byte>)
    requires TextFits(name) && |dimensions| <= 16 && (forall i :: 0 <= i < |dimensions| ==> |dimensions[i]| == 8)
    requires code < 0x1_0000_0000 && |offset| == 8 && pos <= |data|
    requires At(data, pos, EncodeText(name) + TensorTail(dimensions, code, offset))
    ensures TensorAt(data, pos)
            == Parsed(TypeName(code), pos + |EncodeText(name) + TensorTail(dimensions, code, offset)|)
  {
    var p1 := pos + |EncodeText(name)|;
    AtConcat(data, pos, EncodeText(name), TensorTail(dimensions, code, offset));
    ReadText(data, pos, name);
    ReadTensorTail(data, p1, dimensions, code, offset);
    TensorParts(data, pos, name, p1, |dimensions|, code);
  }

  lemma ReadTensor(data: seq<Byte>, pos: nat, t: Tensor)
    requires TensorFits(t) && pos <= |data| && At(data, pos, EncodeTensor(t))
    ensures TensorAt(data, pos) == Parsed(TypeOf(t), pos + |EncodeTensor(t)|)
  {
    NamedByCode(t.kind);
    ReadTensorParts(data, pos, t.name, t.dimensions, CodeOf(t.kind), t.offset);
  }

  function CountOf(h: Histogram, t: TensorType): nat {
    if t in h then h[t] else 0
  }

  lemma TallyCount(h: Histogram, t: TensorType, u: TensorType)
    ensures CountOf(Tally(h, u), t) == CountOf(h, t) + (if u == t then 1 else 0)
  {}

  /** A reader that finds the tensor types `ts` one after the other from `pos`. */
  predicate FindsTensors(read: nat -> Parse<TensorType>, pos: nat, ts: seq<TensorType>)
    decreases |ts|
  {
    ts != [] ==> read(pos).Parsed? && read(pos).value == ts[0] && FindsTensors(read, read(pos).next, ts[1..])
  }

  /** `read` finds a tensor of type `t`, `length` bytes long, at `pos`. */
  predicate FindsTensor(read: nat -> Parse<TensorType>, pos: nat, length: nat, t: TensorType) {
    read(pos).Parsed? && read(pos).value == t && read(pos).next == pos + length
  }

  lemma {:induction false} TensorsInARow(data: seq<Byte>, read: nat -> Parse<TensorType>, pos: nat,
                                         ts: seq<TensorType>, chunks: seq<seq<Byte>>)
    requires |ts| == |chunks| && pos <= |data| && At(data, pos, Flatten(chunks))
    requires forall i, p: nat :: 0 <= i < |ts| && p <= |data| && At(data, p, chunks[i]) ==>
               p + |chunks[i]| <= |data| && FindsTensor(read, p, |chunks[i]|, ts[i])
    ensures FindsTensors(read, pos, ts)
    decreases |ts|
  {
    if ts != [] {
      AtConcat(data, pos, chunks[0], Flatten(chunks[1..]));
      assert FindsTensor(read, pos, |chunks[0]|, ts[0]);
      TensorsInARow(data, read, pos + |chunks[0]|, ts[1..], chunks[1..]);
    }
  }

  lemma TensorFound(data: seq<Byte>, pos: nat, t: Tensor)
    requires TensorFits(t) && pos <= |data| && At(data, pos, EncodeTensor(t))
    ensures pos + |EncodeTensor(t)| <= |data|
    ensures FindsTensor(TensorReader(data), pos, |EncodeTensor(t)|, TypeOf(t))
  {
    ReadTensor(data, pos, t);
  }

  lemma TensorsFound(data: seq<Byte>, pos: nat, ts: seq<Tensor>)
    requires pos <= |data| && At(data, pos, EncodeTensors(ts))
    requires forall i :: 0 <= i < |ts| ==> TensorFits(ts[i])
    ensures FindsTensors(TensorReader(data), pos, Map(TypeOf, ts))
  {
    var chunks, types := Map(EncodeTensor, ts), Map(TypeOf, ts);
    forall i, p: nat | 0 <= i < |types| && p <= |data| && At(data, p, chunks[i])
      ensures p + |chunks[i]| <= |data| && FindsTensor(TensorReader(data), p, |chunks[i]|, types[i])
    {
      TensorFound(data, p, ts[i]);
    }
    TensorsInARow(data, TensorReader(data), pos, types, chunks);
  }

  lemma {:induction false} ReadTensors(read: nat -> Parse<TensorType>, pos: nat, ts: seq<TensorType>, h: Histogram,
                                       t: TensorType)
    requires FindsTensors(read, pos, ts)
    ensures Tensors(read, pos, |ts|, h).Parsed?
    ensures CountOf(Tensors(read, pos, |ts|, h).value, t) == CountOf(h, t) + CountType(ts, t)
    decreases |ts|
  {
    if ts != [] {
      TallyCount(h, t, ts[0]);
      ReadTensors(read, read(pos).next, ts[1..], Tally(h, ts[0]), t);
    }
  }

  lemma ReadCounts(data: seq<Byte>, h: Header)
    requires HeaderFits(h) && At(data, 0, EncodeCounts(h))
    ensures VersionedCounts(data) == Parsed(Counts(h.version, |h.tensors|, |h.metadata|), 24)
  {
    var tail := Pack(|h.tensors|, 8) + Pack(|h.metadata|, 8);
    AtConcat(data, 0, Ascii("GGUF"), Pack(h.version, 4) + tail);
    AtConcat(data, 4, Pack(h.version, 4), tail);
    AtConcat(data, 8, Pack(|h.tensors|, 8), Pack(|h.metadata|, 8));
    ReadBytes(data, 0, Ascii("GGUF"));
    ReadU32(data, 4, h.version);
    ReadU64(data, 8, |h.tensors|);
    ReadU64(data, 16, |h.metadata|);
  }

  /** Reading any file that starts with an encoded header returns its counts, the
      last value under each wanted key, and the number of tensors of every type. */
  lemma InspectInvertsEncode(h: Header, rest: seq<Byte>)
    requires HeaderFits(h)
    ensures Inspect(EncodeHeader(h) + rest).Ok?
    ensures var i, es := Inspect(EncodeHeader(h) + rest).value, Map(Shown, h.metadata);
            && i.counts == Counts(h.version, |h.tensors|, |h.metadata|)
            && i.architecture == LastValue(es, Ascii("general.architecture"))
            && i.fileType == LastValue(es, Ascii("general.file_type"))
            && i.generalType == LastValue(es, Ascii("general.type"))
            && forall t :: CountOf(i.histogram, t) == CountType(Map(TypeOf, h.tensors), t)
  {
    var data := EncodeHeader(h) + rest;
    var es, ts, start := Map(Shown, h.metadata), Map(TypeOf, h.tensors), 24 + |EncodeEntries(h.metadata)|;
    HeaderLayout(h, rest);
    ReadCounts(data, h);
    EachEntryFound(data, h.metadata, FULL_KEYS);
    EachFound(data, EntryReader(data, FULL_KEYS), 24, h.metadata, EncodeEntry, Shown, FULL_KEYS);
    TensorsFound(data, start, h.tensors);
    InspectFound(data, Counts(h.version, |ts|, |es|), es, start, ts);
  }

  lemma InspectFound(data: seq<Byte>, c: Counts, es: seq<(Key, Value)>, start: nat, ts: seq<TensorType>)
    requires VersionedCounts(data) == Parsed(c, 24) && c.metadata == |es| <= MAX_COUNT && c.tensors == |ts| <= MAX_COUNT
    requires FindsEntries(EntryReader(data, FULL_KEYS), 24, es, FULL_KEYS, start)
    requires FindsTensors(TensorReader(data), start, ts)
    ensures Inspect(data).Ok?
    ensures var i := Inspect(data).value;
            && i.counts == c
            && i.architecture == LastValue(es, ARCHITECTURE)
            && i.fileType == LastValue(es, FILE_TYPE)
            && i.generalType == LastValue(es, GENERAL_TYPE)
            && forall t :: CountOf(i.histogram, t) == CountType(ts, t)
  {
    assert [] + es == es;
    var entries := EntryReader(data, FULL_KEYS);
    ReadEntries(entries, 24, [], es, FULL_KEYS, start, map[], ARCHITECTURE);
    ReadEntries(entries, 24, [], es, FULL_KEYS, start, map[], FILE_TYPE);
    ReadEntries(entries, 24, [], es, FULL_KEYS, start, map[], GENERAL_TYPE);
    ReadTensors(TensorReader(data), start, ts, map[], F32);
    forall t ensures CountOf(Inspect(data).value.histogram, t) == CountType(ts, t) {
      ReadTensors(TensorReader(data), start, ts, map[], t);
    }
  }

  lemma HeaderLayout(h: Header, rest: seq<Byte>)
    ensures var data := EncodeHeader(h) + rest;
            && At(data, 0, EncodeCounts(h)) && |EncodeCounts(h)| == 24
            && At(data, 24, EncodeEntries(h.metadata))
            && At(data, 24 + |EncodeEntries(h.metadata)|, EncodeTensors(h.tensors))
  {
    var data := EncodeHeader(h) + rest;
    AtSlice(data, 0, EncodeHeader(h));
    AtConcat(data, 0, EncodeCounts(h), EncodeEntries(h.metadata) + EncodeTensors(h.tensors));
    AtConcat(data, 24, EncodeEntries(h.metadata), EncodeTensors(h.tensors));
  }

  /******* The histogram sums to the tensor count *******/

  ghost function Total(h: Histogram): nat {
    if h == map[] then 0
    else var t :| t in h; h[t] + Total(h - {t})
  }

  lemma {:induction false} TotalSplit(h: Histogram, t: TensorType)
    requires t in h
    ensures Total(h) == h[t] + Total(h - {t})
    decreases |h|
  {
    var u :| u in h && Total(h) == h[u] + Total(h - {u});
    if u != t {
      var a, b := h - {u}, h - {t};
      Without(h, t, u);
      TotalSplit(a, t);
      TotalSplit(b, u);
    }
  }

  lemma Without(h: Histogram, t: TensorType, u: TensorType)
    requires t in h && u in h && t != u
    ensures t in h - {u} && (h - {u})[t] == h[t] && |h - {u}| < |h|
    ensures u in h - {t} && (h - {t})[u] == h[u] && |h - {t}| < |h|
    ensures h - {u} - {t} == h - {t} - {u}
  {
    Smaller(h, u);
    Smaller(h, t);
  }

  lemma Smaller(h: Histogram, t: TensorType)
    requires t in h
    ensures |h - {t}| < |h|
  {
    assert (h - {t}).Keys == h.Keys - {t};
  }

  lemma TotalTally(h: Histogram, t: TensorType)
    ensures Total(Tally(h, t)) == Total(h) + 1
  {
    TotalSplit(Tally(h, t), t);
    assert Tally(h, t) - {t} == h - {t};
    if t in h { TotalSplit(h, t); } else { assert h - {t} == h; }
  }

  lemma {:induction false} TensorsTotal(read: nat -> Parse<TensorType>, pos: nat, count: nat, h: Histogram)
    requires Tensors(read, pos, count, h).Parsed?
    ensures Total(Tensors(read, pos, count, h).value) == Total(h) + count
    decreases count
  {
    if count > 0 {
      TotalTally(h, read(pos).value);
      TensorsTotal(read, read(pos).next, count - 1, Tally(h, read(pos).value));
    }
  }

  /** In every file the reader accepts, encoded by whatever, the histogram accounts
      for every tensor. */
  lemma HistogramAccountsForTensors(data: seq<Byte>)
    requires Inspect(data).Ok?
    ensures Total(Inspect(data).value.histogram) == Inspect(data).value.counts.tensors
  {
    var c := VersionedCounts(data);
    var m := Metadata(EntryReader(data, FULL_KEYS), c.next, c.value.metadata, FULL_KEYS, None, map[]);
    TensorsTotal(TensorReader(data), m.next, c.value.tensors, map[]);
  }
}
