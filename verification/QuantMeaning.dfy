/** The emitted rules mean the policy. */
module QuantMeaning {
  import opened Wrappers
  import opened Ranking
  import opened QuantRules

  /******* Chunks *******/

  /** The number of chunks is the rounded-up quotient. */
  function CeilingDivide(n: nat, size: nat): nat
    requires size > 0
  {
    (n + size - 1) / size
  }

  lemma Quotient(a: nat, size: nat, q: nat)
    requires size > 0 && q * size <= a < q * size + size
    ensures a / size == q
  {
    var d := a / size;
    assert d * size <= a < d * size + size;
    if d < q { Larger(d, q, size); }
    if q < d { Larger(q, d, size); }
  }

  lemma {:induction false} Larger(d: nat, q: nat, size: nat)
    requires d < q
    ensures d * size + size <= q * size
  {
    assert q * size == (q - 1) * size + size;
    if d + 1 < q { Larger(d, q - 1, size); }
  }

  /** `m` chunks of at most `size` hold `n` names, and fewer would not. */
  predicate JustEnough(n: nat, m: nat, size: nat) {
    n <= m * size < n + size
  }

  lemma {:induction false} ChunkBounds(names: seq<string>, size: nat)
    requires size > 0
    ensures JustEnough(|names|, |Chunks(names, size)|, size)
    decreases |names|
  {
    if |names| > size {
      ChunkBounds(names[size..], size);
    } else if names != [] {
      assert names[|names|..] == [];
    }
  }

  lemma ChunkCount(names: seq<string>, size: nat)
    requires size > 0
    ensures |Chunks(names, size)| == CeilingDivide(|names|, size)
  {
    ChunkBounds(names, size);
    Quotient(|names| + size - 1, size, |Chunks(names, size)|);
  }

  function Holding(x: string): Piece -> bool {
    (piece: Piece) => x in piece.names
  }

  /** In how many of the pieces a name occurs. */
  function Hits(pieces: seq<Piece>, x: string): nat {
    HowMany(pieces, Holding(x))
  }

  lemma HitsCons(first: Piece, more: seq<Piece>, x: string)
    ensures Hits([first] + more, x) == (if x in first.names then 1 else 0) + Hits(more, x)
  {
    HowManyConcat([first], more, Holding(x));
    assert [first][..0] == [];
  }

  lemma ChunksCons(names: seq<string>, p: Precision, size: nat, n: nat)
    requires size > 0 && names != [] && n == (if |names| <= size then |names| else size)
    ensures PiecesOf(Chunks(names, size), p) == [Piece(names[..n], p)] + PiecesOf(Chunks(names[n..], size), p)
  {}

  /** Cutting distinct names into chunks puts each of them into one chunk. */
  lemma {:induction false} ChunkHits(names: seq<string>, p: Precision, size: nat, x: string)
    requires size > 0 && Unique(names)
    ensures Hits(PiecesOf(Chunks(names, size), p), x) == if x in names then 1 else 0
    decreases |names|
  {
    if names != [] {
      var n := if |names| <= size then |names| else size;
      ChunkHits(names[n..], p, size, x);
      ChunksCons(names, p, size, n);
      HitsCons(Piece(names[..n], p), PiecesOf(Chunks(names[n..], size), p), x);
    }
  }

  lemma {:induction false} ChunksInside(names: seq<string>, size: nat, i: nat)
    requires size > 0 && i < |Chunks(names, size)|
    ensures Chunks(names, size)[i] != [] && |Chunks(names, size)[i]| <= size
    ensures forall x :: x in Chunks(names, size)[i] ==> x in names
    decreases |names|
  {
    var n := if |names| <= size then |names| else size;
    if i > 0 { ChunksInside(names[n..], size, i - 1); }
  }

  /******* Groups *******/

  lemma {:induction false} GroupMembers(assignments: seq<Assignment>, p: Precision, x: string)
    ensures x in GroupOf(assignments, p) <==> Assignment(x, p) in assignments
  {
    if assignments != [] {
      var front, last := assignments[..|assignments| - 1], assignments[|assignments| - 1];
      GroupMembers(front, p, x);
      assert assignments == front + [last];
    }
  }

  predicate DistinctNames(assignments: seq<Assignment>) {
    forall i, j :: 0 <= i < j < |assignments| ==> assignments[i].tensorName != assignments[j].tensorName
  }

  lemma {:induction false} GroupUnique(assignments: seq<Assignment>, p: Precision)
    requires DistinctNames(assignments)
    ensures Unique(GroupOf(assignments, p))
  {
    if assignments != [] {
      var front, last := assignments[..|assignments| - 1], assignments[|assignments| - 1];
      GroupUnique(front, p);
      GroupMembers(front, p, last.tensorName);
    }
  }

  lemma CodesInjective(a: string, b: string)
    requires Codes(a) == Codes(b)
    ensures a == b
  {
    forall i | 0 <= i < |a| ensures a[i] == b[i] {
      assert Codes(a)[i] == Codes(b)[i];
    }
  }

  lemma NamesOrdered(names: set<string>)
    ensures Orders(NameBefore, names)
  {
    forall a | a in names ensures !NameBefore(a, a) {
      LexIrreflexive(Codes(a));
    }
    forall a, b, c | a in names && b in names && c in names && NameBefore(a, b) && NameBefore(b, c)
      ensures NameBefore(a, c)
    {
      LexTransitive(Codes(a), Codes(b), Codes(c));
    }
    forall a, b | a in names && b in names && a != b ensures NameBefore(a, b) || NameBefore(b, a) {
      if Codes(a) == Codes(b) { CodesInjective(a, b); }
      LexTotal(Codes(a), Codes(b));
    }
  }

  lemma SortedGroup(names: seq<string>, x: string)
    requires Unique(names)
    ensures Unique(SortedNames(names)) && |SortedNames(names)| == |names|
    ensures x in SortedNames(names) <==> x in names
  {
    NamesOrdered(Elements(names));
    SortedIsAscending(names, NameBefore);
    assert x in Elements(SortedNames(names)) <==> x in Elements(names);
  }

  /******* The pieces of a policy *******/

  /** In how many precisions of `order`, the base apart, a name is assigned. */
  function Assigned(assignments: seq<Assignment>, base: Precision, order: seq<Precision>, x: string): nat {
    if order == [] then 0
    else
      var p := order[|order| - 1];
      Assigned(assignments, base, order[..|order| - 1], x)
      + (if p != base && Assignment(x, p) in assignments then 1 else 0)
  }

  lemma SegmentHits(assignments: seq<Assignment>, base: Precision, p: Precision, size: nat, x: string)
    requires size > 0 && DistinctNames(assignments)
    ensures Hits(Segment(assignments, base, p, size), x)
            == if p != base && Assignment(x, p) in assignments then 1 else 0
  {
    GroupUnique(assignments, p);
    GroupMembers(assignments, p, x);
    SortedGroup(GroupOf(assignments, p), x);
    ChunkHits(SortedNames(GroupOf(assignments, p)), p, size, x);
  }

  lemma {:induction false} PieceHits(assignments: seq<Assignment>, base: Precision, order: seq<Precision>, size: nat,
                                     x: string)
    requires size > 0 && DistinctNames(assignments)
    ensures Hits(Pieces(assignments, base, order, size), x) == Assigned(assignments, base, order, x)
  {
    if order != [] {
      var front, p := order[..|order| - 1], order[|order| - 1];
      PieceHits(assignments, base, front, size, x);
      SegmentHits(assignments, base, p, size, x);
      HowManyConcat(Pieces(assignments, base, front, size), Segment(assignments, base, p, size), Holding(x));
    }
  }

  lemma {:induction false} AssignedAtMostOnce(assignments: seq<Assignment>, base: Precision, order: seq<Precision>,
                                              a: Assignment)
    requires DistinctNames(assignments) && Unique(order) && a in assignments
    ensures Assigned(assignments, base, order, a.tensorName)
            == if a.precision != base && a.precision in order then 1 else 0
  {
    if order != [] {
      var front, p := order[..|order| - 1], order[|order| - 1];
      AssignedAtMostOnce(assignments, base, front, a);
      assert order == front + [p];
      if Assignment(a.tensorName, p) in assignments {
        var i, j :| 0 <= i < |assignments| && 0 <= j < |assignments|
                    && assignments[i] == Assignment(a.tensorName, p) && assignments[j] == a;
        assert i == j;
      }
    }
  }

  lemma {:induction false} AssignedNowhere(assignments: seq<Assignment>, base: Precision, order: seq<Precision>,
                                           x: string)
    requires forall p :: p != base ==> Assignment(x, p) !in assignments
    ensures Assigned(assignments, base, order, x) == 0
  {
    if order != [] { AssignedNowhere(assignments, base, order[..|order| - 1], x); }
  }

  /** At least one and at most `size` names, all assigned a precision other than the base. */
  predicate Faithful(piece: Piece, assignments: seq<Assignment>, base: Precision, size: nat) {
    && 0 < |piece.names| <= size && piece.precision != base
    && forall x :: x in piece.names ==> Assignment(x, piece.precision) in assignments
  }

  lemma SegmentNames(assignments: seq<Assignment>, base: Precision, p: Precision, size: nat, i: nat)
    requires size > 0 && DistinctNames(assignments) && i < |Segment(assignments, base, p, size)|
    ensures Faithful(Segment(assignments, base, p, size)[i], assignments, base, size)
  {
    var names := GroupOf(assignments, p);
    ChunksInside(SortedNames(names), size, i);
    GroupUnique(assignments, p);
    forall x | x in SortedNames(names) ensures Assignment(x, p) in assignments {
      SortedGroup(names, x);
      GroupMembers(assignments, p, x);
    }
  }

  lemma {:induction false} PieceNames(assignments: seq<Assignment>, base: Precision, order: seq<Precision>,
                                      size: nat, i: nat)
    requires size > 0 && DistinctNames(assignments) && i < |Pieces(assignments, base, order, size)|
    ensures Faithful(Pieces(assignments, base, order, size)[i], assignments, base, size)
  {
    var front, p := order[..|order| - 1], order[|order| - 1];
    var earlier := Pieces(assignments, base, front, size);
    if i < |earlier| {
      PieceNames(assignments, base, front, size, i);
    } else {
      SegmentNames(assignments, base, p, size, i - |earlier|);
    }
  }

  /******* What the rules mean *******/

  function Taking(x: string): Rule -> bool {
    (rule: Rule) => Matches(rule.pattern, x)
  }

  /** How many rules match a tensor name. */
  function Matching(rules: seq<Rule>, x: string): nat {
    HowMany(rules, Taking(x))
  }

  lemma MatchingIsHits(pieces: seq<Piece>, x: string)
    requires forall i :: 0 <= i < |pieces| ==> pieces[i].names != []
    ensures Matching(Map(RuleOf, pieces), x) == Hits(pieces, x)
  {
    forall i | 0 <= i < |pieces| ensures Taking(x)(Map(RuleOf, pieces)[i]) <==> Holding(x)(pieces[i]) {
      SelectorMatches(pieces[i].names, x);
    }
    HowManyAgree(Map(RuleOf, pieces), Taking(x), pieces, Holding(x));
  }

  lemma MatchingRules(policy: Policy, size: nat, x: string)
    requires ValidPolicy(policy) && size > 0
    ensures Matching(Rules(policy, size), x) == Assigned(policy.assignments, policy.base, ORDERED, x)
  {
    var pieces := Pieces(policy.assignments, policy.base, ORDERED, size);
    forall i | 0 <= i < |pieces| ensures pieces[i].names != [] {
      PieceNames(policy.assignments, policy.base, ORDERED, size, i);
    }
    MatchingIsHits(pieces, x);
    PieceHits(policy.assignments, policy.base, ORDERED, size, x);
  }

  lemma OneForAssigned(policy: Policy, size: nat, k: nat)
    requires ValidPolicy(policy) && AllSupported(policy) && size > 0 && k < |policy.assignments|
    requires policy.assignments[k].precision != policy.base
    ensures Matching(Rules(policy, size), policy.assignments[k].tensorName) == 1
  {
    var a := policy.assignments[k];
    MatchingRules(policy, size, a.tensorName);
    assert SupportedOr(a.precision, policy.base);
    InOrdered(a.precision);
    AssignedAtMostOnce(policy.assignments, policy.base, ORDERED, a);
  }

  lemma InOrdered(p: Precision)
    requires Supported(p)
    ensures p in ORDERED && Unique(ORDERED)
  {
    assert ORDERED[0] == BF16 && ORDERED[1] == F16 && ORDERED[2] == F32 && ORDERED[3] == Q4_K;
    assert ORDERED[4] == Q5_K && ORDERED[5] == Q6_K && ORDERED[6] == Q8_0;
  }

  lemma NoneForOthers(policy: Policy, size: nat, x: string)
    requires ValidPolicy(policy) && size > 0
    requires forall p :: p != policy.base ==> Assignment(x, p) !in policy.assignments
    ensures Matching(Rules(policy, size), x) == 0
  {
    MatchingRules(policy, size, x);
    AssignedNowhere(policy.assignments, policy.base, ORDERED, x);
  }

  /** The policy gives the tensor a precision other than the base. */
  ghost predicate Overridden(policy: Policy, x: string) {
    exists p :: p != policy.base && Assignment(x, p) in policy.assignments
  }

  /** A tensor assigned a precision other than the base is matched by exactly one
      rule; a tensor assigned the base, or no tensor of the policy, by none. */
  lemma OneRulePerTensor(policy: Policy, size: nat, x: string)
    requires ValidPolicy(policy) && AllSupported(policy) && size > 0
    ensures Matching(Rules(policy, size), x) == if Overridden(policy, x) then 1 else 0
  {
    if Overridden(policy, x) {
      var p :| p != policy.base && Assignment(x, p) in policy.assignments;
      var k :| 0 <= k < |policy.assignments| && policy.assignments[k] == Assignment(x, p);
      OneForAssigned(policy, size, k);
    } else {
      NoneForOthers(policy, size, x);
    }
  }

  /** A rule gives every tensor it matches the precision that the policy assigns. */
  lemma RuleGivesPrecision(policy: Policy, size: nat, i: nat, x: string)
    requires ValidPolicy(policy) && size > 0 && i < |Rules(policy, size)|
    requires Matches(Rules(policy, size)[i].pattern, x)
    ensures Assignment(x, Rules(policy, size)[i].precision) in policy.assignments
    ensures Rules(policy, size)[i].precision != policy.base
  {
    var piece := Pieces(policy.assignments, policy.base, ORDERED, size)[i];
    PieceNames(policy.assignments, policy.base, ORDERED, size, i);
    SelectorMatches(piece.names, x);
  }

  /** The rounded-up number of rules of every group. */
  function ExpectedRules(assignments: seq<Assignment>, base: Precision, order: seq<Precision>, size: nat): nat
    requires size > 0
  {
    if order == [] then 0
    else
      var p := order[|order| - 1];
      ExpectedRules(assignments, base, order[..|order| - 1], size)
      + (if p == base then 0 else CeilingDivide(|GroupOf(assignments, p)|, size))
  }

  lemma {:induction false} PieceTotal(assignments: seq<Assignment>, base: Precision, order: seq<Precision>, size: nat)
    requires size > 0 && DistinctNames(assignments)
    ensures |Pieces(assignments, base, order, size)| == ExpectedRules(assignments, base, order, size)
  {
    if order != [] {
      var p := order[|order| - 1];
      PieceTotal(assignments, base, order[..|order| - 1], size);
      GroupUnique(assignments, p);
      SortedGroup(GroupOf(assignments, p), "");
      ChunkCount(SortedNames(GroupOf(assignments, p)), size);
    }
  }

  /** The number of rules is the sum of the rounded-up quotients of the groups. */
  lemma RuleTotal(policy: Policy, size: nat)
    requires ValidPolicy(policy) && size > 0
    ensures |Rules(policy, size)| == ExpectedRules(policy.assignments, policy.base, ORDERED, size)
  {
    PieceTotal(policy.assignments, policy.base, ORDERED, size);
  }

  /** The text of a rule's argument determines its pattern and its type. */
  lemma ArgumentDetermines(a: Rule, b: Rule)
    requires Supported(a.precision) && Supported(b.precision) && Arguments(a)[1] == Arguments(b)[1]
    ensures a == b
  {
    var s, t := TypeArgument(a.precision), TypeArgument(b.precision);
    var text := a.pattern + "=" + s;
    assert text == b.pattern + "=" + t;
    assert text[|text| - |s| - 1] == '=' && text[|text| - |t| - 1] == '=';
    assert text[|text| - |s|..] == s && text[|text| - |t|..] == t;
    assert text[..|text| - |s| - 1] == a.pattern && text[..|text| - |t| - 1] == b.pattern;
  }
}
