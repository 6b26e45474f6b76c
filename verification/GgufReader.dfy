/** The readers as the scripts run them: a stream cursor that every read advances,
    and loops that fill `wanted` and the histogram.  Each method is proved to return
    what the format's functions say. */
module GgufReader {
  import opened Wrappers
  import opened Bytes
  import opened GgufFormat

  /** Putting the elements already read in front of those still to come. */
  function Prepend(items: seq<Value>, later: Parse<seq<Value>>): Parse<seq<Value>> {
    match later
    case Malformed(e) => Malformed(e)
    case Parsed(rest, last) => Parsed(items + rest, last)
  }

  lemma PrependOne(data: seq<Byte>, pos: nat, tag: nat, count: nat, keep: bool, items: seq<Value>)
    requires pos <= |data| && count > 0 && ValueAt(data, pos, tag, keep).Parsed? && (keep || items == [])
    ensures var v := ValueAt(data, pos, tag, keep);
            Prepend(items, ItemsAt(data, pos, tag, count, keep))
            == Prepend(if keep then items + [v.value] else [], ItemsAt(data, v.next, tag, count - 1, keep))
  {
    var v := ValueAt(data, pos, tag, keep);
    var later := ItemsAt(data, v.next, tag, count - 1, keep);
    if keep && later.Parsed? {
      assert items + ([v.value] + later.value) == items + [v.value] + later.value;
    }
  }

  lemma PrependNone(later: Parse<seq<Value>>)
    ensures Prepend([], later) == later
  {
    if later.Parsed? { assert [] + later.value == later.value; }
  }

  lemma TensorsStep(read: nat -> Parse<TensorType>, pos: nat, count: nat, h: Histogram, t: TensorType, next: nat)
    requires count > 0 && read(pos) == Parsed(t, next)
    ensures Tensors(read, pos, count, h) == Tensors(read, next, count - 1, Tally(h, t))
  {}

  /** A position that the proof looks at. */
  ghost predicate Cursor(pos: nat) {
    true
  }

  class Source {
    const data: seq<Byte>
    var pos: nat

    constructor (data: seq<Byte>)
      ensures this.data == data && pos == 0
    {
      this.data, pos := data, 0;
    }

    /** A result and the cursor are what `spec` computes. */
    ghost predicate Is<T>(r: Result<T, GgufError>, spec: Parse<T>)
      reads this
    {
      if r.Ok? then spec == Parsed(r.value, pos) else spec == Malformed(r.error)
    }

    method ReadExact(size: nat) returns (r: Result<seq<Byte>, GgufError>)
      modifies this`pos
      ensures Is(r, Exact(data, old(pos), size))
    {
      if pos + size > |data| { return Err(Truncated); }
      r := Ok(data[pos..pos + size]);
      pos := pos + size;
    }

    method ReadUnsigned(width: nat) returns (r: Result<nat, GgufError>)
      modifies this`pos
      ensures Is(r, Unsigned(data, old(pos), width))
    {
      var raw := ReadExact(width);
      r := if raw.Ok? then Ok(LittleEndian(raw.value)) else Err(raw.error);
    }

    method ReadString() returns (r: Result<seq<Byte>, GgufError>)
      modifies this`pos
      ensures Is(r, TextAt(data, old(pos)))
    {
      var length := ReadUnsigned(8);
      if length.Err? { return Err(length.error); }
      if length.value > MAX_STRING { return Err(UnreasonableString); }
      r := ReadExact(length.value);
      if r.Ok? && !Utf8(r.value) { r := Err(InvalidUtf8); }
    }

    method ReadValue(tag: nat, keep: bool) returns (r: Result<Value, GgufError>)
      modifies this`pos
      ensures Is(r, ValueAt(data, old(pos), tag, keep))
      decreases if pos <= |data| then |data| - pos else 0, 0
    {
      if ScalarSize(tag) > 0 {
        var raw := ReadExact(ScalarSize(tag));
        if raw.Err? { return Err(raw.error); }
        return Ok(if keep then Unpack(tag, raw.value) else Skipped);
      }
      if tag == 8 {
        var text := ReadString();
        if text.Err? { return Err(text.error); }
        return Ok(if keep then Text(text.value) else Skipped);
      }
      if tag == 9 {
        var element := ReadUnsigned(4);
        if element.Err? { return Err(element.error); }
        var count := ReadUnsigned(8);
        if count.Err? { return Err(count.error); }
        if count.value > MAX_ARRAY { return Err(UnreasonableArray); }
        var values := ReadItems(element.value, count.value, keep);
        if values.Err? { return Err(values.error); }
        return Ok(if keep then List(values.value) else Skipped);
      }
      return Err(UnsupportedType);
    }

    /** The loop over the elements of an array. */
    method ReadItems(tag: nat, count: nat, keep: bool) returns (r: Result<seq<Value>, GgufError>)
      requires pos <= |data|
      modifies this`pos
      ensures Is(r, ItemsAt(data, old(pos), tag, count, keep))
      decreases |data| - pos, 1
    {
      var values: seq<Value> := [];
      ghost var all := ItemsAt(data, pos, tag, count, keep);
      PrependNone(all);
      for i := 0 to count
        invariant old(pos) <= pos <= |data| && (keep || values == [])
        invariant all == Prepend(values, ItemsAt(data, pos, tag, count - i, keep))
      {
        ghost var start := pos;
        var value := ReadValue(tag, keep);
        if value.Err? { return Err(value.error); }
        PrependOne(data, start, tag, count - i, keep, values);
        if keep { values := values + [value.value]; }
      }
      assert values + [] == values;
      r := Ok(values);
    }

    /** `inspect_gguf`. */
    method InspectFile() returns (r: Result<Inspection, GgufError>)
      requires pos == 0
      modifies this`pos
      ensures r == Inspect(data)
    {
      var magic := ReadExact(4);
      if magic.Err? { return Err(magic.error); }
      if magic.value != Ascii("GGUF") { return Err(BadMagic); }
      var version := ReadUnsigned(4);
      if version.Err? { return Err(version.error); }
      if version.value != 2 && version.value != 3 { return Err(UnsupportedVersion); }
      var tensors := ReadUnsigned(8);
      if tensors.Err? { return Err(tensors.error); }
      var metadata := ReadUnsigned(8);
      if metadata.Err? { return Err(metadata.error); }
      var counts := Counts(version.value, tensors.value, metadata.value);
      assert VersionedCounts(data) == Parsed(counts, pos);
      if counts.tensors > MAX_COUNT || counts.metadata > MAX_COUNT { return Err(UnreasonableCounts); }
      var wanted := ReadMetadata(counts.metadata, FULL_KEYS, None);
      if wanted.Err? { return Err(wanted.error); }
      var histogram := ReadTensors(counts.tensors);
      if histogram.Err? { return Err(histogram.error); }
      r := Ok(Inspection(counts, Get(wanted.value, ARCHITECTURE), Get(wanted.value, FILE_TYPE),
                         Get(wanted.value, GENERAL_TYPE), histogram.value));
    }

    /** `inspect_q8_gguf`. */
    method InspectQ8File() returns (r: Result<Q8Inspection, GgufError>)
      requires pos == 0
      modifies this`pos
      ensures r == InspectQ8(data)
    {
      var magic := ReadExact(4);
      if magic.Err? { return Err(magic.error); }
      if magic.value != Ascii("GGUF") { return Err(BadMagic); }
      var version := ReadUnsigned(4);
      if version.Err? { return Err(version.error); }
      var tensors := ReadUnsigned(8);
      if tensors.Err? { return Err(tensors.error); }
      var metadata := ReadUnsigned(8);
      if metadata.Err? { return Err(metadata.error); }
      var counts := Counts(version.value, tensors.value, metadata.value);
      assert CountsAt(data) == Parsed(counts, pos);
      var wanted := ReadMetadata(counts.metadata, Q8_KEYS, Some(2));
      if wanted.Err? { return Err(wanted.error); }
      r := Ok(Q8Inspection(counts, Get(wanted.value, ARCHITECTURE), Get(wanted.value, FILE_TYPE)));
    }

    method ReadEntry(keys: set<Key>) returns (r: Result<(Key, Value), GgufError>)
      modifies this`pos
      ensures Is(r, EntryAt(data, old(pos), keys))
    {
      var key := ReadString();
      if key.Err? { return Err(key.error); }
      var tag := ReadUnsigned(4);
      if tag.Err? { return Err(tag.error); }
      var value := ReadValue(tag.value, key.value in keys);
      if value.Err? { return Err(value.error); }
      r := Ok((key.value, value.value));
    }

    /** `read` is the entry reader of this file, wherever the cursor is. */
    ghost predicate ReadsEntries(read: nat -> Parse<(Key, Value)>, keys: set<Key>) {
      forall p: nat {:trigger Cursor(p)} :: Cursor(p) ==> read(p) == EntryAt(data, p, keys)
    }

    /** One turn of the metadata loop: the entry is noted when its key is wanted. */
    method NoteEntry(keys: set<Key>, wanted: Wanted, ghost count: nat, ghost enough: Option<nat>,
                     ghost read: nat -> Parse<(Key, Value)>)
      returns (r: Result<Wanted, GgufError>)
      requires count > 0 && ReadsEntries(read, keys)
      modifies this`pos
      ensures var all := Metadata(read, old(pos), count, keys, enough, wanted);
              if r.Err? then all == Malformed(r.error)
              else if enough == Some(|r.value|) then all == Parsed(r.value, pos)
              else all == Metadata(read, pos, count - 1, keys, enough, r.value)
    {
      ghost var start := pos;
      assert Cursor(start);
      var entry := ReadEntry(keys);
      if entry.Err? { return Err(entry.error); }
      r := Ok(Note(wanted, keys, entry.value));
    }

    /** The loop over the metadata, which breaks once `enough` values are wanted. */
    method MetadataLoop(count: nat, keys: set<Key>, enough: Option<nat>, ghost read: nat -> Parse<(Key, Value)>)
      returns (r: Result<Wanted, GgufError>)
      requires ReadsEntries(read, keys)
      modifies this`pos
      ensures Is(r, Metadata(read, old(pos), count, keys, enough, map[]))
    {
      var wanted: Wanted := map[];
      for i := 0 to count
        invariant Metadata(read, old(pos), count, keys, enough, map[])
                  == Metadata(read, pos, count - i, keys, enough, wanted)
      {
        var noted := NoteEntry(keys, wanted, count - i, enough, read);
        if noted.Err? { return noted; }
        wanted := noted.value;
        if enough == Some(|wanted|) { break; }
      }
      r := Ok(wanted);
    }

    method ReadMetadata(count: nat, keys: set<Key>, enough: Option<nat>) returns (r: Result<Wanted, GgufError>)
      modifies this`pos
      ensures Is(r, Metadata(EntryReader(data, keys), old(pos), count, keys, enough, map[]))
    {
      r := MetadataLoop(count, keys, enough, EntryReader(data, keys));
    }

    method ReadTensor() returns (r: Result<TensorType, GgufError>)
      modifies this`pos
      ensures Is(r, TensorAt(data, old(pos)))
    {
      var name := ReadString();
      if name.Err? { return Err(name.error); }
      var dimensions := ReadUnsigned(4);
      if dimensions.Err? { return Err(dimensions.error); }
      if dimensions.value > MAX_DIMENSIONS { return Err(UnreasonableDimensions); }
      var sizes := ReadExact(dimensions.value * 8);
      if sizes.Err? { return Err(sizes.error); }
      var code := ReadUnsigned(4);
      if code.Err? { return Err(code.error); }
      var offset := ReadExact(8);
      if offset.Err? { return Err(offset.error); }
      r := Ok(TypeName(code.value));
    }

    method ReadTensors(count: nat) returns (r: Result<Histogram, GgufError>)
      modifies this`pos
      ensures Is(r, Tensors(TensorReader(data), old(pos), count, map[]))
    {
      var histogram: Histogram := map[];
      ghost var read := TensorReader(data);
      for i := 0 to count
        invariant Tensors(read, old(pos), count, map[]) == Tensors(read, pos, count - i, histogram)
      {
        ghost var start := pos;
        var t := ReadTensor();
        if t.Err? { return Err(t.error); }
        TensorsStep(read, start, count - i, histogram, t.value, pos);
        histogram := Tally(histogram, t.value);
      }
      r := Ok(histogram);
    }
  }
}
