/** Bytes, little-endian integers and UTF-8. */
module Bytes {
  import opened Wrappers

  type Byte = x: int | 0 <= x < 256

  /** The unsigned number that `bs` spells, least significant byte first. */
  function LittleEndian(bs: seq<Byte>): nat {
    if bs == [] then 0 else bs[0] + 256 * LittleEndian(bs[1..])
  }

  /** `width` bytes of `n`, least significant first. */
  function Pack(n: nat, width: nat): (bs: seq<Byte>)
    ensures |bs| == width
  {
    if width == 0 then [] else [n % 256] + Pack(n / 256, width - 1)
  }

  function Power256(width: nat): nat {
    if width == 0 then 1 else 256 * Power256(width - 1)
  }

  lemma {:induction false} PackUnpack(n: nat, width: nat)
    requires n < Power256(width)
    ensures LittleEndian(Pack(n, width)) == n
  {
    if width > 0 {
      PackUnpack(n / 256, width - 1);
      assert Pack(n, width)[1..] == Pack(n / 256, width - 1);
    }
  }

  lemma PackU32(n: nat)
    requires n < 0x1_0000_0000
    ensures LittleEndian(Pack(n, 4)) == n
  {
    assert Power256(4) == 0x1_0000_0000 by { assert Power256(2) == 65536; }
    PackUnpack(n, 4);
  }

  lemma PackU64(n: nat)
    requires n < 0x1_0000_0000_0000_0000
    ensures LittleEndian(Pack(n, 8)) == n
  {
    assert Power256(8) == 0x1_0000_0000_0000_0000 by {
      assert Power256(2) == 65536;
      assert Power256(4) == 0x1_0000_0000;
      assert Power256(6) == 0x1_0000_0000_0000;
    }
    PackUnpack(n, 8);
  }

  function Ascii(s: string): (bs: seq<Byte>)
    ensures |bs| == |s|
  {
    seq(|s|, i requires 0 <= i < |s| => (s[i] as int) % 128)
  }

  predicate Continuation(b: Byte) {
    0x80 <= b < 0xC0
  }

  /** The length of the well-formed UTF-8 sequence at the front, 0 when there is none. */
  function Utf8Step(bs: seq<Byte>): (n: nat)
    ensures n <= |bs|
  {
    if bs == [] then 0
    else if bs[0] < 0x80 then 1
    else if 0xC2 <= bs[0] < 0xE0 && |bs| >= 2 && Continuation(bs[1]) then 2
    else if 0xE0 <= bs[0] < 0xF0 && |bs| >= 3 && Continuation(bs[1]) && Continuation(bs[2])
            && (bs[0] == 0xE0 ==> bs[1] >= 0xA0) && (bs[0] == 0xED ==> bs[1] < 0xA0) then 3
    else if 0xF0 <= bs[0] < 0xF5 && |bs| >= 4 && Continuation(bs[1]) && Continuation(bs[2]) && Continuation(bs[3])
            && (bs[0] == 0xF0 ==> bs[1] >= 0x90) && (bs[0] == 0xF4 ==> bs[1] < 0x90) then 4
    else 0
  }

  predicate Utf8(bs: seq<Byte>)
    decreases |bs|
  {
    bs == [] || (Utf8Step(bs) > 0 && Utf8(bs[Utf8Step(bs)..]))
  }

  /******* Where bytes lie *******/

  /** `bs` lies in `data` at `pos`. */
  predicate At(data: seq<Byte>, pos: nat, bs: seq<Byte>)
    decreases |bs|
  {
    bs == [] || (pos < |data| && data[pos] == bs[0] && At(data, pos + 1, bs[1..]))
  }

  lemma {:induction false} AtSlice(data: seq<Byte>, pos: nat, bs: seq<Byte>)
    requires pos <= |data|
    ensures At(data, pos, bs) <==> pos + |bs| <= |data| && data[pos..pos + |bs|] == bs
    decreases |bs|
  {
    if bs != [] && pos < |data| {
      AtSlice(data, pos + 1, bs[1..]);
      if pos + |bs| <= |data| {
        assert data[pos..pos + |bs|] == [data[pos]] + data[pos + 1..pos + |bs|];
      }
    }
  }

  lemma {:induction false} AtConcat(data: seq<Byte>, pos: nat, a: seq<Byte>, b: seq<Byte>)
    ensures At(data, pos, a + b) <==> At(data, pos, a) && At(data, pos + |a|, b)
    decreases |a|
  {
    if a == [] {
      assert a + b == b;
    } else {
      assert (a + b)[1..] == a[1..] + b;
      AtConcat(data, pos + 1, a[1..], b);
    }
  }

  /** Each of the chunks that lie in a row lies after those before it. */
  lemma {:induction false} AtFlatten(data: seq<Byte>, pos: nat, chunks: seq<seq<Byte>>, i: nat)
    requires i < |chunks| && At(data, pos, Flatten(chunks))
    ensures At(data, pos + |Flatten(chunks[..i])|, chunks[i])
    decreases i
  {
    AtConcat(data, pos, chunks[0], Flatten(chunks[1..]));
    if i > 0 {
      AtFlatten(data, pos + |chunks[0]|, chunks[1..], i - 1);
      assert chunks[..i][1..] == chunks[1..][..i - 1];
    }
  }

  lemma {:induction false} FlattenSnoc(chunks: seq<seq<Byte>>, chunk: seq<Byte>)
    ensures Flatten(chunks + [chunk]) == Flatten(chunks) + chunk
  {
    if chunks == [] {
      assert [chunk][1..] == [];
    } else {
      assert (chunks + [chunk])[1..] == chunks[1..] + [chunk];
      FlattenSnoc(chunks[1..], chunk);
    }
  }
}
