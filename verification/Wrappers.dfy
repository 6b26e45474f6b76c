/** Optional values, results that carry an error, and facts about sequences
    that several components share. */
module Wrappers {
  datatype Option<+T> = None | Some(value: T)

  datatype Result<+T, +E> = Ok(value: T) | Err(error: E)

  function Min(a: nat, b: nat): nat {
    if a <= b then a else b
  }

  /** No two positions hold the same element: Python's `len(xs) == len(set(xs))`. */
  predicate Unique<T(==)>(xs: seq<T>) {
    forall i, j :: 0 <= i < j < |xs| ==> xs[i] != xs[j]
  }

  /** The least index whose element satisfies `p`, or the length when there is none. */
  function First<T>(xs: seq<T>, p: T -> bool): (k: nat)
    ensures k <= |xs|
    ensures forall i :: 0 <= i < k ==> !p(xs[i])
    ensures k < |xs| ==> p(xs[k])
  {
    if xs == [] then 0
    else if p(xs[0]) then 0
    else
      var k := First(xs[1..], p);
      assert forall i :: 0 < i < k + 1 ==> xs[i] == xs[1..][i - 1];
      k + 1
  }

  function Map<T, U>(f: T -> U, xs: seq<T>): (ys: seq<U>)
    ensures |ys| == |xs|
    ensures forall i :: 0 <= i < |xs| ==> ys[i] == f(xs[i])
  {
    seq(|xs|, i requires 0 <= i < |xs| => f(xs[i]))
  }

  function Flatten<T>(xss: seq<seq<T>>): seq<T> {
    if xss == [] then [] else xss[0] + Flatten(xss[1..])
  }

  /** The number of elements that satisfy `p`. */
  function HowMany<T>(xs: seq<T>, p: T -> bool): nat {
    if xs == [] then 0 else HowMany(xs[..|xs| - 1], p) + (if p(xs[|xs| - 1]) then 1 else 0)
  }

  lemma {:induction false} HowManyConcat<T>(a: seq<T>, b: seq<T>, p: T -> bool)
    ensures HowMany(a + b, p) == HowMany(a, p) + HowMany(b, p)
  {
    if b == [] {
      assert a + b == a;
    } else {
      assert (a + b)[..|a + b| - 1] == a + b[..|b| - 1];
      HowManyConcat(a, b[..|b| - 1], p);
    }
  }

  lemma {:induction false} HowManyAgree<S, T>(xs: seq<S>, p: S -> bool, ys: seq<T>, q: T -> bool)
    requires |xs| == |ys| && forall i :: 0 <= i < |xs| ==> (p(xs[i]) <==> q(ys[i]))
    ensures HowMany(xs, p) == HowMany(ys, q)
  {
    if xs != [] { HowManyAgree(xs[..|xs| - 1], p, ys[..|ys| - 1], q); }
  }
}
