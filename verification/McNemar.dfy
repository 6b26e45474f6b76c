/** The exact two-sided McNemar value, and what it counts. */
module McNemar {
  import opened Wrappers
  import opened ProgressLog

  function Power2(n: nat): (p: nat)
    ensures p > 0
  {
    if n == 0 then 1 else 2 * Power2(n - 1)
  }

  /** Binomial coefficients by Pascal's rule. */
  function Choose(n: nat, k: nat): nat {
    if k == 0 then 1 else if n == 0 then 0 else Choose(n - 1, k - 1) + Choose(n - 1, k)
  }

  /** The number of ways to choose at most `k` out of `n`. */
  function ChooseUpTo(n: nat, k: nat): (s: nat)
    ensures s > 0
  {
    Choose(n, k) + (if k == 0 then 0 else ChooseUpTo(n, k - 1))
  }

  datatype CountError = NegativeCount

  /** Twice the lower tail, at most 1. */
  function Probability(b: nat, c: nat): real {
    if b + c == 0 then 1.0
    else
      var doubled := 2.0 * (ChooseUpTo(b + c, Min(b, c)) as real / Power2(b + c) as real);
      if doubled <= 1.0 then doubled else 1.0
  }

  /** `exact_two_sided_mcnemar_p`, which refuses negative counts. */
  function ExactTwoSided(b: int, c: int): Result<real, CountError> {
    if b < 0 || c < 0 then Err(NegativeCount) else Ok(Probability(b, c))
  }

  /******* Outcomes *******/

  /** Each of `n` discordant pairs goes to one side or the other. */
  ghost function Outcomes(n: nat): set<seq<bool>> {
    if n == 0 then {[]} else Extended(Outcomes(n - 1), true) + Extended(Outcomes(n - 1), false)
  }

  ghost function Extended(os: set<seq<bool>>, bit: bool): set<seq<bool>> {
    set o | o in os :: o + [bit]
  }

  ghost function WithOnes(n: nat, k: int): set<seq<bool>> {
    set o | o in Outcomes(n) && Ones(o) == k
  }

  ghost function AtMost(n: nat, k: int): set<seq<bool>> {
    set o | o in Outcomes(n) && Ones(o) <= k
  }

  ghost function AtLeast(n: nat, k: int): set<seq<bool>> {
    set o | o in Outcomes(n) && Ones(o) >= k
  }

  /** How far an outcome is from an even split. */
  function Imbalance(ones: int, n: nat): nat {
    if 2 * ones >= n then 2 * ones - n else n - 2 * ones
  }

  /** The outcomes of `n` pairs that are at least as uneven as `imbalance`. */
  ghost function AsExtreme(n: nat, imbalance: nat): set<seq<bool>> {
    set o | o in Outcomes(n) && Imbalance(Ones(o), n) >= imbalance
  }

  /** `Outcomes(n)` holds every vector of length `n`. */
  lemma {:induction false} EveryOutcome(n: nat, o: seq<bool>)
    ensures o in Outcomes(n) <==> |o| == n
  {
    if n > 0 {
      if |o| == n {
        EveryOutcome(n - 1, o[..n - 1]);
        assert o == o[..n - 1] + [o[n - 1]];
        assert o in Extended(Outcomes(n - 1), o[n - 1]);
      }
      if o in Outcomes(n) {
        var bit: bool :| o in Extended(Outcomes(n - 1), bit);
        var p :| p in Outcomes(n - 1) && o == p + [bit];
        EveryOutcome(n - 1, p);
      }
    }
  }

  lemma {:induction false} ExtendedSize(os: set<seq<bool>>, bit: bool)
    ensures |Extended(os, bit)| == |os|
  {
    if os != {} {
      var o :| o in os;
      ExtendedSize(os - {o}, bit);
      assert Extended(os, bit) == Extended(os - {o}, bit) + {o + [bit]};
      forall p | p in os - {o} ensures p + [bit] != o + [bit] {
        assert (p + [bit])[..|p|] == p && (o + [bit])[..|o|] == o;
      }
    } else {
      assert Extended(os, bit) == {};
    }
  }

  lemma ExtendedBothSize(a: set<seq<bool>>, b: set<seq<bool>>)
    ensures |Extended(a, true) + Extended(b, false)| == |a| + |b|
  {
    ExtendedSize(a, true);
    ExtendedSize(b, false);
    forall o | o in Extended(a, true) ensures o !in Extended(b, false) {
      assert o[|o| - 1];
    }
  }

  lemma {:induction false} OutcomesSize(n: nat)
    ensures |Outcomes(n)| == Power2(n)
  {
    if n > 0 {
      OutcomesSize(n - 1);
      ExtendedBothSize(Outcomes(n - 1), Outcomes(n - 1));
    }
  }

  lemma SplitOnLastBit(n: nat, k: int)
    requires n > 0
    ensures WithOnes(n, k) == Extended(WithOnes(n - 1, k - 1), true) + Extended(WithOnes(n - 1, k), false)
  {
    forall o | o in WithOnes(n, k)
      ensures o in Extended(WithOnes(n - 1, k - 1), true) + Extended(WithOnes(n - 1, k), false)
    {
      var bit: bool :| o in Extended(Outcomes(n - 1), bit);
      var p :| p in Outcomes(n - 1) && o == p + [bit];
    }
    forall p, bit: bool | p in Outcomes(n - 1) ensures Ones(p + [bit]) == Ones(p) + (if bit then 1 else 0) {}
  }

  lemma PascalSize(n: nat, k: int)
    requires n > 0
    ensures |WithOnes(n, k)| == |WithOnes(n - 1, k - 1)| + |WithOnes(n - 1, k)|
  {
    SplitOnLastBit(n, k);
    ExtendedBothSize(WithOnes(n - 1, k - 1), WithOnes(n - 1, k));
  }

  lemma SmallSizes(n: nat, k: nat)
    ensures |WithOnes(n, -1)| == 0
    ensures |WithOnes(0, k)| == if k == 0 then 1 else 0
  {
    assert WithOnes(n, -1) == {};
    assert WithOnes(0, k) == if k == 0 then {[]} else {};
  }

  /** The coefficients count the outcomes. */
  lemma {:induction false} WithOnesSize(n: nat, k: nat)
    ensures |WithOnes(n, k)| == Choose(n, k)
  {
    if n == 0 {
      SmallSizes(n, k);
    } else {
      PascalSize(n, k);
      WithOnesSize(n - 1, k);
      if k == 0 {
        SmallSizes(n - 1, k);
      } else {
        WithOnesSize(n - 1, k - 1);
      }
    }
  }

  lemma {:induction false} AtMostSize(n: nat, k: nat)
    ensures |AtMost(n, k)| == ChooseUpTo(n, k)
  {
    WithOnesSize(n, k);
    AtMostSplit(n, k);
    if k > 0 { AtMostSize(n, k - 1); }
  }

  lemma AtMostSplit(n: nat, k: nat)
    ensures |AtMost(n, k)| == |WithOnes(n, k)| + (if k == 0 then 0 else |AtMost(n, k - 1)|)
  {
    if k == 0 {
      assert AtMost(n, 0) == WithOnes(n, 0);
    } else {
      assert AtMost(n, k) == WithOnes(n, k) + AtMost(n, k - 1);
      assert WithOnes(n, k) * AtMost(n, k - 1) == {};
    }
  }

  /** Giving every pair to the other side. */
  function Flip(o: seq<bool>): (f: seq<bool>)
    ensures |f| == |o|
  {
    seq(|o|, i requires 0 <= i < |o| => !o[i])
  }

  lemma {:induction false} FlipOnes(o: seq<bool>)
    ensures Ones(Flip(o)) == |o| - Ones(o)
  {
    if o != [] {
      FlipOnes(o[..|o| - 1]);
      assert Flip(o)[..|o| - 1] == Flip(o[..|o| - 1]);
    }
  }

  /** Two sets that `Flip` carries into each other have as many elements. */
  lemma {:induction false} FlipSize(a: set<seq<bool>>, b: set<seq<bool>>)
    requires forall o :: o in a ==> Flip(o) in b
    requires forall o :: o in b ==> Flip(o) in a
    ensures |a| == |b|
    decreases |a|
  {
    if a == {} {
      assert b == {};
    } else {
      var o :| o in a;
      forall p ensures Flip(Flip(p)) == p {}
      FlipSize(a - {o}, b - {Flip(o)});
    }
  }

  lemma AtLeastSize(n: nat, k: nat)
    requires k <= n
    ensures |AtLeast(n, n - k)| == ChooseUpTo(n, k)
  {
    forall o | o in Outcomes(n) ensures Flip(o) in Outcomes(n) && Ones(Flip(o)) == n - Ones(o) {
      EveryOutcome(n, o);
      EveryOutcome(n, Flip(o));
      FlipOnes(o);
    }
    FlipSize(AtLeast(n, n - k), AtMost(n, k));
    AtMostSize(n, k);
  }

  lemma CoverSize(all: set<seq<bool>>, low: set<seq<bool>>, high: set<seq<bool>>, extreme: set<seq<bool>>)
    requires extreme == low + high && extreme <= all
    ensures |low| + |high| == |extreme| + |low * high| && |extreme| <= |all|
  {
    SubsetSize(extreme, all);
  }

  lemma UnevenCount(n: nat, t: nat)
    requires 2 * t < n
    ensures 2 * ChooseUpTo(n, t) == |AsExtreme(n, n - 2 * t)| <= Power2(n)
  {
    CoverSize(Outcomes(n), AtMost(n, t), AtLeast(n, n - t), AsExtreme(n, n - 2 * t));
    AtMostSize(n, t);
    AtLeastSize(n, t);
    OutcomesSize(n);
  }

  lemma EvenTails(n: nat, t: nat)
    requires n == 2 * t
    ensures AtMost(n, t) + AtLeast(n, n - t) == AsExtreme(n, 0) == Outcomes(n)
    ensures AtMost(n, t) * AtLeast(n, n - t) == WithOnes(n, t)
  {}

  lemma MiddleSize(n: nat, t: nat)
    requires t <= n
    ensures |WithOnes(n, t)| > 0
  {
    WithOnesSize(n, t);
    ChoosePositive(n, t);
  }

  lemma EvenSizes(n: nat, t: nat)
    requires n == 2 * t
    ensures |AtMost(n, t)| + |AtLeast(n, n - t)| > |AsExtreme(n, 0)| == |Outcomes(n)|
  {
    MiddleSize(n, t);
    EvenTails(n, t);
  }

  lemma EvenCount(n: nat, t: nat)
    requires n == 2 * t
    ensures 2 * ChooseUpTo(n, t) > Power2(n) == |AsExtreme(n, 0)|
  {
    EvenSizes(n, t);
    AtMostSize(n, t);
    AtLeastSize(n, t);
    OutcomesSize(n);
  }

  /** The two tails are the outcomes as extreme as the observed one; they overlap
      exactly for an even split. */
  lemma TailsCount(b: nat, c: nat)
    ensures var n, t, d := b + c, Min(b, c), Imbalance(b, b + c);
            && (b != c ==> 2 * ChooseUpTo(n, t) == |AsExtreme(n, d)| <= Power2(n))
            && (b == c ==> 2 * ChooseUpTo(n, t) > Power2(n) == |AsExtreme(n, d)|)
  {
    if b == c { EvenCount(b + c, b); } else { UnevenCount(b + c, Min(b, c)); }
  }

  lemma {:induction false} ChoosePositive(n: nat, k: nat)
    requires k <= n
    ensures Choose(n, k) > 0
  {
    if k > 0 { ChoosePositive(n - 1, k - 1); }
  }

  lemma SubsetSize<T>(a: set<T>, b: set<T>)
    requires a <= b
    ensures |a| <= |b|
  {
    assert b == a + (b - a);
  }

  /** The value is the share of outcomes at least as extreme as the observed one. */
  lemma ProbabilityCounts(b: nat, c: nat)
    ensures Probability(b, c) == |AsExtreme(b + c, Imbalance(b, b + c))| as real / Power2(b + c) as real
  {
    TailsCount(b, c);
    Share(ChooseUpTo(b + c, Min(b, c)), Power2(b + c));
  }

  lemma Share(part: nat, whole: nat)
    requires whole > 0
    ensures 2.0 * (part as real / whole as real) == (2 * part) as real / whole as real
    ensures 2.0 * (part as real / whole as real) <= 1.0 <==> 2 * part <= whole
    ensures whole as real / whole as real == 1.0
  {
    var p, w := part as real, whole as real;
    Multiply(p, w);
    Multiply(2.0 * p, w);
    Multiply(w, w);
    Cancel(2.0 * (p / w), 2.0 * p / w, w);
    Cancel(w / w, 1.0, w);
    assert (1.0 - 2.0 * (p / w)) * w == w - 2.0 * p;
  }

  lemma Multiply(x: real, w: real)
    requires w > 0.0
    ensures x / w * w == x
  {}

  lemma Cancel(x: real, y: real, w: real)
    requires w > 0.0 && x * w == y * w
    ensures x == y
  {}

  /** The clamp at 1 changes the doubled tail exactly for an even split. */
  lemma ClampOnlyWhenEven(b: nat, c: nat)
    requires b + c > 0
    ensures 2.0 * (ChooseUpTo(b + c, Min(b, c)) as real / Power2(b + c) as real) > 1.0 <==> b == c
  {
    TailsCount(b, c);
    Share(ChooseUpTo(b + c, Min(b, c)), Power2(b + c));
    ProbabilityCounts(b, c);
  }

  /** The value never rises as the imbalance grows, for as many discordant pairs. */
  lemma MoreUnevenIsRarer(n: nat, b: nat, b': nat)
    requires b <= n && b' <= n && Imbalance(b, n) <= Imbalance(b', n)
    ensures Probability(b', n - b') <= Probability(b, n - b)
  {
    ProbabilityCounts(b, n - b);
    ProbabilityCounts(b', n - b');
    RarerSize(n, Imbalance(b, n), Imbalance(b', n));
    Divide(|AsExtreme(n, Imbalance(b', n))|, |AsExtreme(n, Imbalance(b, n))|, Power2(n));
  }

  lemma RarerSize(n: nat, less: nat, more: nat)
    requires less <= more
    ensures |AsExtreme(n, more)| <= |AsExtreme(n, less)|
  {
    SubsetSize(AsExtreme(n, more), AsExtreme(n, less));
  }

  lemma Divide(x: nat, y: nat, whole: nat)
    requires whole > 0 && x <= y
    ensures x as real / whole as real <= y as real / whole as real
  {}

  lemma ProbabilityRange(b: nat, c: nat)
    ensures 0.0 < Probability(b, c) <= 1.0
    ensures Probability(b, c) == Probability(c, b)
  {}

  /** With nothing won by the candidate, five lost answers are the most that stay
      above the 5% level. */
  lemma OneSided(b: nat)
    ensures Probability(b, 0) == (if b == 0 then 1.0 else 2.0 / Power2(b) as real)
    ensures Probability(b, 0) > 0.05 <==> b <= 5
  {
    if b > 0 {
      assert ChooseUpTo(b, 0) == 1;
      Power2Grows(b);
      TwoOver(Power2(b));
    }
  }

  lemma TwoOver(p: nat)
    requires p >= 2
    ensures 2.0 * (1.0 / p as real) == 2.0 / p as real <= 1.0
    ensures 2.0 / p as real > 0.05 <==> p < 40
  {}

  lemma {:induction false} Power2Grows(b: nat)
    ensures b >= 6 ==> Power2(b) >= 64
    ensures b <= 5 ==> Power2(b) <= 32
    ensures b > 0 ==> Power2(b) >= 2
  {
    if b > 0 { Power2Grows(b - 1); }
    if b == 6 { assert Power2(6) == 2 * Power2(5) && Power2(2) == 4 && Power2(4) == 16; }
  }
}
