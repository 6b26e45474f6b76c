/** The GGUF header: what the reader computes from bytes, as functions of the data
    and a position. */
module GgufFormat {
  import opened Wrappers
  import opened Bytes

  datatype GgufError =
    | Truncated | BadMagic | UnsupportedVersion | UnreasonableCounts | UnreasonableString
    | InvalidUtf8 | UnreasonableArray | UnsupportedType | UnreasonableDimensions

  /** A value and the position after it, or the error that stopped the reader. */
  datatype Parse<+T> = Parsed(value: T, next: nat) | Malformed(error: GgufError)

  /** `Skipped` is the `None` that a reader told not to keep returns.  Floats keep their bits. */
  datatype Value =
    | Integer(n: int)
    | Float(bits: nat)
    | Boolean(b: bool)
    | Text(bytes: seq<Byte>)
    | List(items: seq<Value>)
    | Skipped

  const MAX_STRING := 64 * 1024 * 1024
  const MAX_ARRAY := 100_000_000
  const MAX_COUNT := 10_000_000
  const MAX_DIMENSIONS := 16

  function Exact(data: seq<Byte>, pos: nat, n: nat): (r: Parse<seq<Byte>>)
    ensures r.Parsed? <==> pos + n <= |data|
    ensures r.Parsed? ==> r.next == pos + n && |r.value| == n
  {
    if pos + n <= |data| then Parsed(data[pos..pos + n], pos + n) else Malformed(Truncated)
  }

  function Unsigned(data: seq<Byte>, pos: nat, width: nat): (r: Parse<nat>)
    ensures r.Parsed? ==> r.next == pos + width <= |data|
  {
    match Exact(data, pos, width)
    case Malformed(e) => Malformed(e)
    case Parsed(raw, next) => Parsed(LittleEndian(raw), next)
  }

  function TextAt(data: seq<Byte>, pos: nat): (r: Parse<seq<Byte>>)
    ensures r.Parsed? ==> pos + 8 <= r.next <= |data|
  {
    match Unsigned(data, pos, 8)
    case Malformed(e) => Malformed(e)
    case Parsed(length, next) =>
      if length > MAX_STRING then Malformed(UnreasonableString)
      else
        match Exact(data, next, length)
        case Malformed(e) => Malformed(e)
        case Parsed(raw, after) => if Utf8(raw) then Parsed(raw, after) else Malformed(InvalidUtf8)
  }

  /** The size of a scalar type, 0 for every other type. */
  function ScalarSize(tag: nat): nat {
    if tag == 0 || tag == 1 || tag == 7 then 1
    else if tag == 2 || tag == 3 then 2
    else if tag == 4 || tag == 5 || tag == 6 then 4
    else if tag == 10 || tag == 11 || tag == 12 then 8
    else 0
  }

  /** Two's complement. */
  function Signed(raw: seq<Byte>): int {
    var n := LittleEndian(raw);
    if 2 * n >= Power256(|raw|) then n - Power256(|raw|) else n
  }

  function Unpack(tag: nat, raw: seq<Byte>): Value {
    if tag == 1 || tag == 3 || tag == 5 || tag == 11 then Integer(Signed(raw))
    else if tag == 6 || tag == 12 then Float(LittleEndian(raw))
    else if tag == 7 then Boolean(LittleEndian(raw) != 0)
    else Integer(LittleEndian(raw))
  }

  /** `_read_gguf_value`: an array is an element type, a count, and that many elements. */
  function ValueAt(data: seq<Byte>, pos: nat, tag: nat, keep: bool): (r: Parse<Value>)
    ensures r.Parsed? ==> pos < r.next <= |data|
    decreases if pos <= |data| then |data| - pos else 0, 0
  {
    if ScalarSize(tag) > 0 then
      match Exact(data, pos, ScalarSize(tag))
      case Malformed(e) => Malformed(e)
      case Parsed(raw, next) => Parsed(if keep then Unpack(tag, raw) else Skipped, next)
    else if tag == 8 then
      match TextAt(data, pos)
      case Malformed(e) => Malformed(e)
      case Parsed(text, next) => Parsed(if keep then Text(text) else Skipped, next)
    else if tag == 9 then
      match Unsigned(data, pos, 4)
      case Malformed(e) => Malformed(e)
      case Parsed(element, afterType) =>
        match Unsigned(data, afterType, 8)
        case Malformed(e) => Malformed(e)
        case Parsed(count, start) =>
          if count > MAX_ARRAY then Malformed(UnreasonableArray)
          else
            match ItemsAt(data, start, element, count, keep)
            case Malformed(e) => Malformed(e)
            case Parsed(items, next) => Parsed(if keep then List(items) else Skipped, next)
    else Malformed(UnsupportedType)
  }

  /** `count` elements in a row; the list stays empty when nothing is kept. */
  function ItemsAt(data: seq<Byte>, pos: nat, tag: nat, count: nat, keep: bool): (r: Parse<seq<Value>>)
    requires pos <= |data|
    ensures r.Parsed? ==> pos <= r.next <= |data|
    decreases |data| - pos, 1
  {
    if count == 0 then Parsed([], pos)
    else
      match ValueAt(data, pos, tag, keep)
      case Malformed(e) => Malformed(e)
      case Parsed(first, next) =>
        match ItemsAt(data, next, tag, count - 1, keep)
        case Malformed(e) => Malformed(e)
        case Parsed(rest, last) => Parsed(if keep then [first] + rest else [], last)
  }

  /******* Metadata *******/

  type Key = seq<Byte>
  type Wanted = map<Key, Value>

  const ARCHITECTURE: Key := Ascii("general.architecture")
  const FILE_TYPE: Key := Ascii("general.file_type")
  const GENERAL_TYPE: Key := Ascii("general.type")

  /** One metadata entry; its value is kept only under a wanted key. */
  function EntryAt(data: seq<Byte>, pos: nat, keys: set<Key>): (r: Parse<(Key, Value)>)
    ensures r.Parsed? ==> pos < r.next <= |data|
  {
    match TextAt(data, pos)
    case Malformed(e) => Malformed(e)
    case Parsed(key, afterKey) =>
      match Unsigned(data, afterKey, 4)
      case Malformed(e) => Malformed(e)
      case Parsed(tag, afterTag) =>
        match ValueAt(data, afterTag, tag, key in keys)
        case Malformed(e) => Malformed(e)
        case Parsed(value, next) => Parsed((key, value), next)
  }

  function Note(wanted: Wanted, keys: set<Key>, entry: (Key, Value)): Wanted {
    if entry.0 in keys then wanted[entry.0 := entry.1] else wanted
  }

  function EntryReader(data: seq<Byte>, keys: set<Key>): nat -> Parse<(Key, Value)> {
    (pos: nat) => EntryAt(data, pos, keys)
  }

  /** The metadata loop; `enough` is the number of wanted keys after which it stops early. */
  function Metadata(read: nat -> Parse<(Key, Value)>, pos: nat, count: nat, keys: set<Key>,
                    enough: Option<nat>, wanted: Wanted): (r: Parse<Wanted>)
    decreases count
  {
    if count == 0 then Parsed(wanted, pos)
    else
      match read(pos)
      case Malformed(e) => Malformed(e)
      case Parsed(entry, next) =>
        var wanted' := Note(wanted, keys, entry);
        if enough == Some(|wanted'|) then Parsed(wanted', next)
        else Metadata(read, next, count - 1, keys, enough, wanted')
  }

  /******* Tensors *******/

  /** The names of GGML_TYPE_NAMES; any other code is named by its number. */
  datatype TensorType =
    | F32 | F16 | Q4_0 | Q4_1 | Q5_0 | Q5_1 | Q8_0 | Q8_1 | Q2_K
    | Q3_K | Q4_K | Q5_K | Q6_K | Q8_K | IQ2_XXS | IQ2_XS | IQ3_XXS | IQ1_S
    | IQ4_NL | IQ3_S | IQ2_S | IQ4_XS | I8 | I16 | I32 | I64 | F64
    | IQ1_M | BF16 | TQ1_0 | TQ2_0 | MXFP4 | NVFP4
    | Unknown(code: nat)

  function TypeName(code: nat): TensorType {
    match code
    case 0 => F32
    case 1 => F16
    case 2 => Q4_0
    case 3 => Q4_1
    case 6 => Q5_0
    case 7 => Q5_1
    case 8 => Q8_0
    case 9 => Q8_1
    case 10 => Q2_K
    case 11 => Q3_K
    case 12 => Q4_K
    case 13 => Q5_K
    case 14 => Q6_K
    case 15 => Q8_K
    case 16 => IQ2_XXS
    case 17 => IQ2_XS
    case 18 => IQ3_XXS
    case 19 => IQ1_S
    case 20 => IQ4_NL
    case 21 => IQ3_S
    case 22 => IQ2_S
    case 23 => IQ4_XS
    case 24 => I8
    case 25 => I16
    case 26 => I32
    case 27 => I64
    case 28 => F64
    case 29 => IQ1_M
    case 30 => BF16
    case 34 => TQ1_0
    case 35 => TQ2_0
    case 39 => MXFP4
    case 40 => NVFP4
    case _ => Unknown(code)
  }

  type Histogram = map<TensorType, nat>

  function Tally(h: Histogram, t: TensorType): Histogram {
    h[t := (if t in h then h[t] else 0) + 1]
  }

  /** One tensor record: name, dimension count, dimensions, type, offset. */
  function TensorAt(data: seq<Byte>, pos: nat): (r: Parse<TensorType>)
    ensures r.Parsed? ==> pos < r.next <= |data|
  {
    match TextAt(data, pos)
    case Malformed(e) => Malformed(e)
    case Parsed(_, p1) =>
      match Unsigned(data, p1, 4)
      case Malformed(e) => Malformed(e)
      case Parsed(dimensions, p2) =>
        if dimensions > MAX_DIMENSIONS then Malformed(UnreasonableDimensions)
        else
          match Exact(data, p2, dimensions * 8)
          case Malformed(e) => Malformed(e)
          case Parsed(_, p3) =>
            match Unsigned(data, p3, 4)
            case Malformed(e) => Malformed(e)
            case Parsed(code, p4) =>
              match Exact(data, p4, 8)
              case Malformed(e) => Malformed(e)
              case Parsed(_, p5) => Parsed(TypeName(code), p5)
  }

  function TensorReader(data: seq<Byte>): nat -> Parse<TensorType> {
    (pos: nat) => TensorAt(data, pos)
  }

  function Tensors(read: nat -> Parse<TensorType>, pos: nat, count: nat, h: Histogram): (r: Parse<Histogram>)
    decreases count
  {
    if count == 0 then Parsed(h, pos)
    else
      match read(pos)
      case Malformed(e) => Malformed(e)
      case Parsed(t, next) => Tensors(read, next, count - 1, Tally(h, t))
  }

  /******* The two inspections *******/

  datatype Counts = Counts(version: nat, tensors: nat, metadata: nat)

  function CountsAt(data: seq<Byte>): (r: Parse<Counts>)
    ensures r.Parsed? ==> r.next == 24 <= |data|
  {
    match Exact(data, 0, 4)
    case Malformed(e) => Malformed(e)
    case Parsed(magic, p1) =>
      if magic != Ascii("GGUF") then Malformed(BadMagic)
      else
        match Unsigned(data, p1, 4)
        case Malformed(e) => Malformed(e)
        case Parsed(version, p2) =>
          match Unsigned(data, p2, 8)
          case Malformed(e) => Malformed(e)
          case Parsed(tensors, p3) =>
            match Unsigned(data, p3, 8)
            case Malformed(e) => Malformed(e)
            case Parsed(metadata, p4) => Parsed(Counts(version, tensors, metadata), p4)
  }

  datatype Inspection = Inspection(
    counts: Counts,
    architecture: Option<Value>,
    fileType: Option<Value>,
    generalType: Option<Value>,
    histogram: Histogram)

  function Get(wanted: Wanted, key: Key): Option<Value> {
    if key in wanted then Some(wanted[key]) else None
  }

  const FULL_KEYS: set<Key> := {ARCHITECTURE, FILE_TYPE, GENERAL_TYPE}
  const Q8_KEYS: set<Key> := {ARCHITECTURE, FILE_TYPE}

  /** `inspect_gguf`.  The version is checked before the counts are read. */
  function Inspect(data: seq<Byte>): Result<Inspection, GgufError> {
    match VersionedCounts(data)
    case Malformed(e) => Err(e)
    case Parsed(c, start) =>
      if c.tensors > MAX_COUNT || c.metadata > MAX_COUNT then Err(UnreasonableCounts)
      else
        match Metadata(EntryReader(data, FULL_KEYS), start, c.metadata, FULL_KEYS, None, map[])
        case Malformed(e) => Err(e)
        case Parsed(wanted, next) =>
          match Tensors(TensorReader(data), next, c.tensors, map[])
          case Malformed(e) => Err(e)
          case Parsed(h, _) =>
            Ok(Inspection(c, Get(wanted, ARCHITECTURE), Get(wanted, FILE_TYPE), Get(wanted, GENERAL_TYPE), h))
  }

  function VersionedCounts(data: seq<Byte>): (r: Parse<Counts>)
    ensures r.Parsed? ==> r == CountsAt(data)
  {
    match Exact(data, 0, 4)
    case Malformed(e) => Malformed(e)
    case Parsed(magic, p1) =>
      if magic != Ascii("GGUF") then Malformed(BadMagic)
      else
        match Unsigned(data, p1, 4)
        case Malformed(e) => Malformed(e)
        case Parsed(version, _) =>
          if version != 2 && version != 3 then Malformed(UnsupportedVersion) else CountsAt(data)
  }

  datatype Q8Inspection = Q8Inspection(counts: Counts, architecture: Option<Value>, fileType: Option<Value>)

  /** `inspect_q8_gguf`: no version or count checks, and it stops at the second wanted key. */
  function InspectQ8(data: seq<Byte>): Result<Q8Inspection, GgufError> {
    match CountsAt(data)
    case Malformed(e) => Err(e)
    case Parsed(c, start) =>
      match Metadata(EntryReader(data, Q8_KEYS), start, c.metadata, Q8_KEYS, Some(2), map[])
      case Malformed(e) => Err(e)
      case Parsed(wanted, _) => Ok(Q8Inspection(c, Get(wanted, ARCHITECTURE), Get(wanted, FILE_TYPE)))
  }
}
