/** The check of UTF-8 bytes accepts exactly the encodings of Unicode scalar values. */
module Utf8Scalars {
  import opened Bytes

  predicate IsScalar(c: nat) {
    c < 0xD800 || 0xE000 <= c < 0x11_0000
  }

  /** Section 3 of RFC 3629. */
  function EncodeScalar(c: nat): seq<Byte>
    requires IsScalar(c)
  {
    if c < 0x80 then [c]
    else if c < 0x800 then [0xC0 + c / 0x40, 0x80 + c % 0x40]
    else if c < 0x1_0000 then [0xE0 + c / 0x1000, 0x80 + c / 0x40 % 0x40, 0x80 + c % 0x40]
    else [0xF0 + c / 0x4_0000, 0x80 + c / 0x1000 % 0x40, 0x80 + c / 0x40 % 0x40, 0x80 + c % 0x40]
  }

  predicate AllScalars(cs: seq<nat>) {
    forall i :: 0 <= i < |cs| ==> IsScalar(cs[i])
  }

  function EncodeScalars(cs: seq<nat>): seq<Byte>
    requires AllScalars(cs)
  {
    if cs == [] then [] else EncodeScalar(cs[0]) + EncodeScalars(cs[1..])
  }

  lemma StepEncoded(c: nat, rest: seq<Byte>)
    requires IsScalar(c)
    ensures Utf8Step(EncodeScalar(c) + rest) == |EncodeScalar(c)|
  {}

  /** Three digits to the base 64 behind a leading one. */
  lemma Digits(a: nat, b: nat, c: nat, d: nat)
    requires b < 0x40 && c < 0x40 && d < 0x40
    ensures var n := a * 0x4_0000 + b * 0x1000 + c * 0x40 + d;
            n / 0x4_0000 == a && n / 0x1000 % 0x40 == b && n / 0x40 % 0x40 == c && n % 0x40 == d
  {
    var n := a * 0x4_0000 + b * 0x1000 + c * 0x40 + d;
    assert n / 0x40 == a * 0x1000 + b * 0x40 + c && n / 0x1000 == a * 0x40 + b;
  }

  /** The value of a continuation byte. */
  function Low(b: Byte): (d: nat)
    ensures Continuation(b) ==> d < 0x40 && b == 0x80 + d
  {
    if b < 0x80 then 0 else b - 0x80
  }

  /** The scalar at the front. */
  function FrontScalar(bs: seq<Byte>): nat
    requires Utf8Step(bs) > 0
  {
    if bs[0] < 0x80 then bs[0]
    else if bs[0] < 0xE0 then (bs[0] - 0xC0) * 0x40 + Low(bs[1])
    else if bs[0] < 0xF0 then (bs[0] - 0xE0) * 0x1000 + Low(bs[1]) * 0x40 + Low(bs[2])
    else (bs[0] - 0xF0) * 0x4_0000 + Low(bs[1]) * 0x1000 + Low(bs[2]) * 0x40 + Low(bs[3])
  }

  lemma FrontEncoded(bs: seq<Byte>)
    requires Utf8Step(bs) > 0
    ensures IsScalar(FrontScalar(bs)) && EncodeScalar(FrontScalar(bs)) == bs[..Utf8Step(bs)]
  {
    if bs[0] < 0x80 {
    } else if bs[0] < 0xE0 {
      Digits(0, 0, bs[0] - 0xC0, Low(bs[1]));
    } else if bs[0] < 0xF0 {
      Digits(0, bs[0] - 0xE0, Low(bs[1]), Low(bs[2]));
    } else {
      Digits(bs[0] - 0xF0, Low(bs[1]), Low(bs[2]), Low(bs[3]));
    }
  }

  lemma {:induction false} EncodedAccepted(cs: seq<nat>)
    requires AllScalars(cs)
    ensures Utf8(EncodeScalars(cs))
  {
    if cs != [] {
      var first, rest := EncodeScalar(cs[0]), EncodeScalars(cs[1..]);
      EncodedAccepted(cs[1..]);
      StepEncoded(cs[0], rest);
      assert (first + rest)[|first|..] == rest;
    }
  }

  lemma {:induction false} AcceptedEncoded(bs: seq<Byte>) returns (cs: seq<nat>)
    requires Utf8(bs)
    ensures AllScalars(cs) && EncodeScalars(cs) == bs
    decreases |bs|
  {
    if bs == [] {
      cs := [];
    } else {
      var n := Utf8Step(bs);
      FrontEncoded(bs);
      var rest := AcceptedEncoded(bs[n..]);
      cs := [FrontScalar(bs)] + rest;
      assert cs[1..] == rest && bs == bs[..n] + bs[n..];
    }
  }

  /** A text is accepted if and only if it encodes some scalar values. */
  lemma Utf8Iff(bs: seq<Byte>)
    ensures Utf8(bs) <==> exists cs :: AllScalars(cs) && EncodeScalars(cs) == bs
  {
    if Utf8(bs) { var cs := AcceptedEncoded(bs); }
    if cs :| AllScalars(cs) && EncodeScalars(cs) == bs { EncodedAccepted(cs); }
  }
}
