/** Sorting by rank and taking the first few, described by sets: what comes first
    does not depend on the order of the input. */
module Ranking {
  import opened Wrappers

  /** `before` is a strict total order on the elements of `s`. */
  ghost predicate Orders<T(!new)>(before: (T, T) -> bool, s: set<T>) {
    && (forall x :: x in s ==> !before(x, x))
    && (forall x, y, z :: x in s && y in s && z in s && before(x, y) && before(y, z) ==> before(x, z))
    && (forall x, y :: x in s && y in s && x != y ==> before(x, y) || before(y, x))
  }

  ghost function Elements<T(!new)>(xs: seq<T>): (s: set<T>)
    ensures forall x :: x in s <==> x in xs
  {
    set x | x in xs
  }

  /** Some listing of a set. */
  ghost function Listing<T(!new)>(s: set<T>): (xs: seq<T>)
    ensures Unique(xs) && Elements(xs) == s
  {
    if s == {} then [] else var x :| x in s; Listing(s - {x}) + [x]
  }

  predicate Ascending<T>(xs: seq<T>, before: (T, T) -> bool) {
    forall i, j :: 0 <= i < j < |xs| ==> before(xs[i], xs[j])
  }

  function Insert<T>(xs: seq<T>, x: T, before: (T, T) -> bool): seq<T> {
    if xs == [] then [x]
    else if before(x, xs[0]) then [x] + xs
    else [xs[0]] + Insert(xs[1..], x, before)
  }

  function Sorted<T>(xs: seq<T>, before: (T, T) -> bool): seq<T> {
    if xs == [] then [] else Insert(Sorted(xs[..|xs| - 1], before), xs[|xs| - 1], before)
  }

  lemma {:induction false} InsertContents<T>(xs: seq<T>, x: T, before: (T, T) -> bool)
    ensures |Insert(xs, x, before)| == |xs| + 1
    ensures forall y :: y in Insert(xs, x, before) <==> y in xs || y == x
  {
    if xs != [] && !before(x, xs[0]) {
      InsertContents(xs[1..], x, before);
      assert xs == [xs[0]] + xs[1..];
    }
  }

  lemma {:induction false} InsertAscending<T(!new)>(xs: seq<T>, x: T, before: (T, T) -> bool)
    requires Ascending(xs, before) && x !in xs && Orders(before, Elements(xs) + {x})
    ensures Ascending(Insert(xs, x, before), before)
  {
    if xs != [] {
      if before(x, xs[0]) {
        forall j | 0 <= j < |xs| ensures before(x, xs[j]) {
          assert xs[0] in Elements(xs) && xs[j] in Elements(xs);
        }
      } else {
        assert xs[0] in Elements(xs) + {x};
        assert before(xs[0], x);
        forall y | y in xs[1..] ensures before(xs[0], y) && y in xs {
          var j :| 0 <= j < |xs| - 1 && xs[1..][j] == y;
          assert xs[j + 1] == y;
        }
        assert Elements(xs[1..]) + {x} <= Elements(xs) + {x};
        InsertAscending(xs[1..], x, before);
        InsertContents(xs[1..], x, before);
      }
    }
  }

  /** Sorting distinct elements keeps them and puts them in order. */
  lemma {:induction false} SortedIsAscending<T(!new)>(xs: seq<T>, before: (T, T) -> bool)
    requires Unique(xs) && Orders(before, Elements(xs))
    ensures Ascending(Sorted(xs, before), before)
    ensures |Sorted(xs, before)| == |xs| && Elements(Sorted(xs, before)) == Elements(xs)
  {
    if xs != [] {
      var front, last := xs[..|xs| - 1], xs[|xs| - 1];
      assert xs == front + [last];
      assert Elements(front) + {last} == Elements(xs);
      SortedIsAscending(front, before);
      assert last !in Elements(front);
      InsertAscending(Sorted(front, before), last, before);
      InsertContents(Sorted(front, before), last, before);
    }
  }

  lemma {:induction false} UniqueSize<T(!new)>(xs: seq<T>)
    requires Unique(xs)
    ensures |Elements(xs)| == |xs|
  {
    if xs != [] {
      var front, last := xs[..|xs| - 1], xs[|xs| - 1];
      UniqueSize(front);
      assert Elements(xs) == Elements(front) + {last};
    }
  }

  lemma {:induction false} ElementsSize<T(!new)>(xs: seq<T>)
    ensures |Elements(xs)| <= |xs|
    ensures |Elements(xs)| == |xs| ==> Unique(xs)
  {
    if xs != [] {
      var front, last := xs[..|xs| - 1], xs[|xs| - 1];
      ElementsSize(front);
      assert Elements(xs) == Elements(front) + {last};
      if last in front {
        assert Elements(xs) == Elements(front);
      } else {
        assert |Elements(xs)| == |Elements(front)| + 1;
      }
    }
  }

  /** The elements of `s` that come before `x`. */
  ghost function Earlier<T>(s: set<T>, x: T, before: (T, T) -> bool): set<T> {
    set y | y in s && before(y, x)
  }

  /** The elements of `s` with fewer than `n` elements before them. */
  ghost function FirstFew<T>(s: set<T>, n: nat, before: (T, T) -> bool): set<T> {
    set x | x in s && |Earlier(s, x, before)| < n
  }

  /** In an ascending list, the elements before the one at `k` are those at lower positions. */
  lemma EarlierInAscending<T(!new)>(xs: seq<T>, k: nat, before: (T, T) -> bool)
    requires k < |xs| && Ascending(xs, before) && Orders(before, Elements(xs))
    ensures |Earlier(Elements(xs), xs[k], before)| == k
  {
    assert xs[k] in Elements(xs);
    forall j | k <= j < |xs| ensures !before(xs[j], xs[k]) {
      assert xs[j] in Elements(xs);
    }
    assert Earlier(Elements(xs), xs[k], before) == Elements(xs[..k]);
    UniqueSize(xs[..k]);
  }

  /** The first `n` of an ascending list are those with fewer than `n` before them. */
  lemma FirstOfAscending<T(!new)>(xs: seq<T>, n: nat, before: (T, T) -> bool)
    requires n <= |xs| && Ascending(xs, before) && Orders(before, Elements(xs))
    ensures Elements(xs[..n]) == FirstFew(Elements(xs), n, before)
    ensures |FirstFew(Elements(xs), n, before)| == n
  {
    forall k | 0 <= k < |xs| ensures |Earlier(Elements(xs), xs[k], before)| == k {
      EarlierInAscending(xs, k, before);
    }
    forall x | x in FirstFew(Elements(xs), n, before) ensures x in xs[..n] {
      var k :| 0 <= k < |xs| && xs[k] == x;
    }
    UniqueSize(xs[..n]);
  }

  /** A set is in ascending order in one way only. */
  lemma {:induction false} OneAscendingOrder<T(!new)>(xs: seq<T>, ys: seq<T>, before: (T, T) -> bool)
    requires Ascending(xs, before) && Ascending(ys, before)
    requires Elements(xs) == Elements(ys) && Orders(before, Elements(xs))
    ensures xs == ys
  {
    UniqueSize(xs);
    UniqueSize(ys);
    forall k | 0 <= k < |xs| ensures xs[k] == ys[k] {
      EarlierInAscending(xs, k, before);
      assert xs[k] in ys;
      var j :| 0 <= j < |ys| && ys[j] == xs[k];
      EarlierInAscending(ys, j, before);
    }
  }

  lemma EarlierGrows<T(!new)>(s: set<T>, before: (T, T) -> bool, x: T, y: T)
    requires Orders(before, s) && x in s && y in s && before(y, x)
    ensures |Earlier(s, y, before)| <= |Earlier(s, x, before)|
  {
    var fewer, more := Earlier(s, y, before), Earlier(s, x, before);
    assert more == fewer + (more - fewer);
  }

  /** Whatever is left out comes after everything that is taken. */
  lemma LeftOutComesLater<T(!new)>(s: set<T>, n: nat, before: (T, T) -> bool, x: T, y: T)
    requires Orders(before, s) && x in FirstFew(s, n, before) && y in s - FirstFew(s, n, before)
    ensures before(x, y)
  {
    if before(y, x) { EarlierGrows(s, before, x, y); }
  }

  /******* Lexicographic order *******/

  predicate LexBefore(a: seq<nat>, b: seq<nat>) {
    if b == [] then false
    else if a == [] then true
    else a[0] < b[0] || (a[0] == b[0] && LexBefore(a[1..], b[1..]))
  }

  lemma {:induction false} LexIrreflexive(a: seq<nat>)
    ensures !LexBefore(a, a)
  {
    if a != [] { LexIrreflexive(a[1..]); }
  }

  lemma {:induction false} LexTransitive(a: seq<nat>, b: seq<nat>, c: seq<nat>)
    requires LexBefore(a, b) && LexBefore(b, c)
    ensures LexBefore(a, c)
  {
    if a != [] && a[0] == b[0] && b[0] == c[0] { LexTransitive(a[1..], b[1..], c[1..]); }
  }

  lemma {:induction false} LexTotal(a: seq<nat>, b: seq<nat>)
    requires a != b
    ensures LexBefore(a, b) || LexBefore(b, a)
  {
    if a != [] && b != [] && a[0] == b[0] {
      assert a == [a[0]] + a[1..] && b == [b[0]] + b[1..];
      LexTotal(a[1..], b[1..]);
    }
  }

  /******* Rank: by digest, then by id *******/

  /** A digest and the code points of an id. */
  type Rank = (seq<nat>, seq<nat>)

  predicate RankBefore(a: Rank, b: Rank) {
    LexBefore(a.0, b.0) || (a.0 == b.0 && LexBefore(a.1, b.1))
  }

  lemma RankTransitive(a: Rank, b: Rank, c: Rank)
    requires RankBefore(a, b) && RankBefore(b, c)
    ensures RankBefore(a, c)
  {
    LexIrreflexive(a.0);
    if LexBefore(a.0, b.0) && LexBefore(b.0, c.0) { LexTransitive(a.0, b.0, c.0); }
    if a.0 == b.0 == c.0 { LexTransitive(a.1, b.1, c.1); }
  }

  lemma RankTotal(a: Rank, b: Rank)
    ensures !RankBefore(a, a)
    ensures a != b ==> RankBefore(a, b) || RankBefore(b, a)
  {
    LexIrreflexive(a.0);
    LexIrreflexive(a.1);
    if a.0 != b.0 { LexTotal(a.0, b.0); } else if a.1 != b.1 { LexTotal(a.1, b.1); }
  }

  /** `before` compares by rank. */
  ghost predicate ByRank<T(!new)>(before: (T, T) -> bool, rank: T -> Rank) {
    forall a, b :: before(a, b) <==> RankBefore(rank(a), rank(b))
  }

  /** Ranking orders elements of different ranks. */
  lemma ByRankOrders<T(!new)>(before: (T, T) -> bool, rank: T -> Rank, s: set<T>)
    requires ByRank(before, rank) && forall x, y :: x in s && y in s && rank(x) == rank(y) ==> x == y
    ensures Orders(before, s)
  {
    forall x, y | x in s && y in s ensures !before(x, x) && (x != y ==> before(x, y) || before(y, x)) {
      RankTotal(rank(x), rank(y));
    }
    forall x, y, z | x in s && y in s && z in s && before(x, y) && before(y, z) ensures before(x, z) {
      RankTransitive(rank(x), rank(y), rank(z));
    }
  }

  /** No element comes before an earlier one. */
  predicate Nondescending<T>(xs: seq<T>, before: (T, T) -> bool) {
    forall i, j :: 0 <= i < j < |xs| ==> !before(xs[j], xs[i])
  }

  lemma RankAsymmetric(a: Rank, b: Rank)
    requires RankBefore(a, b)
    ensures !RankBefore(b, a)
  {
    RankTotal(a, a);
    if RankBefore(b, a) { RankTransitive(a, b, a); }
  }

  lemma NotBeforeTransitive(a: Rank, b: Rank, c: Rank)
    requires !RankBefore(b, a) && !RankBefore(c, b)
    ensures !RankBefore(c, a)
  {
    RankTotal(a, b);
    RankTotal(b, c);
    if a != b && b != c {
      RankTransitive(a, b, c);
      RankAsymmetric(a, c);
    }
  }

  lemma {:induction false} InsertNondescending<T(!new)>(xs: seq<T>, x: T, before: (T, T) -> bool, rank: T -> Rank)
    requires ByRank(before, rank) && Nondescending(xs, before)
    ensures Nondescending(Insert(xs, x, before), before)
  {
    if xs != [] {
      if before(x, xs[0]) {
        RankAsymmetric(rank(x), rank(xs[0]));
        forall j | 0 < j < |xs| ensures !before(xs[j], x) {
          NotBeforeTransitive(rank(x), rank(xs[0]), rank(xs[j]));
        }
      } else {
        InsertNondescending(xs[1..], x, before, rank);
        InsertContents(xs[1..], x, before);
        forall y | y in Insert(xs[1..], x, before) ensures !before(y, xs[0]) {}
      }
    }
  }

  /** Sorting by rank puts any elements in order. */
  lemma {:induction false} SortedNondescending<T(!new)>(xs: seq<T>, before: (T, T) -> bool, rank: T -> Rank)
    requires ByRank(before, rank)
    ensures Nondescending(Sorted(xs, before), before)
  {
    if xs != [] {
      SortedNondescending(xs[..|xs| - 1], before, rank);
      InsertNondescending(Sorted(xs[..|xs| - 1], before), xs[|xs| - 1], before, rank);
    }
  }
}
