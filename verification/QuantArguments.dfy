/** Reading the quantizer's command line back: which type it asks for a tensor. */
module QuantArguments {
  import opened Wrappers
  import opened QuantRules
  import opened QuantMeaning

  /** The precision that a type name stands for. */
  function NamedType(text: string): Option<Precision> {
    if text == "q4_k" then Some(Q4_K)
    else if text == "q5_k" then Some(Q5_K)
    else if text == "q6_k" then Some(Q6_K)
    else if text == "q8_0" then Some(Q8_0)
    else if text == "f16" then Some(F16)
    else if text == "bf16" then Some(BF16)
    else if text == "f32" then Some(F32)
    else None
  }

  /** Where the type starts that a rule ends in: behind the last equals sign. */
  function TypeStart(text: string): (k: nat)
    ensures k <= |text|
  {
    if text == "" then 0
    else if text[|text| - 1] == '=' then |text|
    else TypeStart(text[..|text| - 1])
  }

  lemma {:induction false} TypeStarts(pattern: string, name: string)
    requires '=' !in name
    ensures TypeStart(pattern + "=" + name) == |pattern| + 1
  {
    var text := pattern + "=" + name;
    if name != "" {
      TypeStarts(pattern, name[..|name| - 1]);
      assert text[..|text| - 1] == pattern + "=" + name[..|name| - 1];
    }
  }

  /** The types that the options ask for a tensor, in order: options come with a value, and
      that of `--tensor-type` is a pattern and the type of the tensors that it matches. */
  function Asked(options: seq<string>, x: string): seq<Option<Precision>> {
    if |options| < 2 then []
    else
      var k := TypeStart(options[1]);
      (if options[0] == "--tensor-type" && k > 0 && Matches(options[1][..k - 1], x)
       then [NamedType(options[1][k..])] else [])
      + Asked(options[2..], x)
  }

  /** What is asked for a tensor is the precision that the policy gives it. */
  ghost predicate AskedFor(policy: Policy, x: string, types: seq<Option<Precision>>) {
    && (forall p :: p != policy.base && Assignment(x, p) in policy.assignments ==> types == [Some(p)])
    && (!Overridden(policy, x) ==> types == [])
  }

  lemma ReadRule(r: Rule, more: seq<string>, x: string)
    requires Supported(r.precision)
    ensures Asked(Arguments(r) + more, x)
            == (if Matches(r.pattern, x) then [Some(r.precision)] else []) + Asked(more, x)
  {
    var name := TypeArgument(r.precision);
    var text := r.pattern + "=" + name;
    assert '=' !in name && NamedType(name) == Some(r.precision);
    TypeStarts(r.pattern, name);
    assert text[..|r.pattern|] == r.pattern && text[|r.pattern| + 1..] == name;
    assert (Arguments(r) + more)[2..] == more;
  }

  /** The precisions of the rules that match a tensor. */
  function Matched(rules: seq<Rule>, x: string): seq<Option<Precision>> {
    if rules == [] then []
    else (if Matches(rules[0].pattern, x) then [Some(rules[0].precision)] else []) + Matched(rules[1..], x)
  }

  /** Reading the options of the rules gives the precisions of those that match. */
  lemma {:induction false} ReadRules(rules: seq<Rule>, x: string)
    requires forall i :: 0 <= i < |rules| ==> Supported(rules[i].precision)
    ensures Asked(Flatten(Map(Arguments, rules)), x) == Matched(rules, x)
  {
    if rules != [] {
      var first, more := rules[0], rules[1..];
      assert Map(Arguments, rules)[1..] == Map(Arguments, more);
      ReadRules(more, x);
      ReadRule(first, Flatten(Map(Arguments, more)), x);
    }
  }

  lemma {:induction false} MatchedCount(rules: seq<Rule>, x: string)
    ensures |Matched(rules, x)| == Matching(rules, x)
  {
    if rules != [] {
      MatchedCount(rules[1..], x);
      HowManyConcat([rules[0]], rules[1..], Taking(x));
      assert [rules[0]] + rules[1..] == rules && [rules[0]][..0] == [];
    }
  }

  lemma {:induction false} MatchedAre(rules: seq<Rule>, x: string, p: Precision)
    requires forall i :: 0 <= i < |rules| && Matches(rules[i].pattern, x) ==> rules[i].precision == p
    ensures forall k :: 0 <= k < |Matched(rules, x)| ==> Matched(rules, x)[k] == Some(p)
  {
    if rules != [] { MatchedAre(rules[1..], x, p); }
  }

  /** Every precision but the base is one that the quantizer makes. */
  predicate Packable(policy: Policy) {
    forall i :: 0 <= i < |policy.assignments| ==>
      var p := policy.assignments[i].precision;
      p == policy.base || p in {Q4_K, Q5_K, Q6_K, Q8_0, F16, BF16, F32}
  }

  /** These are the policies for which a command line is built. */
  lemma PackableIff(policy: Policy)
    ensures Packable(policy) <==> AllSupported(policy)
  {
    forall i | 0 <= i < |policy.assignments|
      ensures SupportedOr(policy.assignments[i].precision, policy.base)
         <==> policy.assignments[i].precision == policy.base
              || policy.assignments[i].precision in {Q4_K, Q5_K, Q6_K, Q8_0, F16, BF16, F32}
    {}
  }

  /** The options of a command line that packs a policy ask for every overridden tensor the
      precision that the policy assigns to it, once, and for no other tensor anything. */
  lemma CommandMeansPolicy(policy: Policy, paths: Paths, size: nat, format: string, threads: string,
                           argv: seq<string>, x: string)
    requires ValidPolicy(policy) && Packable(policy) && size > 0
    requires argv == [paths.quantizer, "--imatrix", paths.imatrix] + Flatten(Map(Arguments, Rules(policy, size)))
                     + [paths.source, paths.output, format, threads]
    ensures AskedFor(policy, x, Asked(argv[1..|argv| - 4], x))
  {
    PackableIff(policy);
    var rules := Rules(policy, size);
    var options := Flatten(Map(Arguments, rules));
    assert argv[1..|argv| - 4] == ["--imatrix", paths.imatrix] + options;
    assert (["--imatrix", paths.imatrix] + options)[2..] == options;
    forall i | 0 <= i < |rules| ensures Supported(rules[i].precision) { RuleSupported(policy, size, i); }
    ReadRules(rules, x);
    MatchedCount(rules, x);
    OneRulePerTensor(policy, size, x);
    forall p | p != policy.base && Assignment(x, p) in policy.assignments
      ensures Matched(rules, x) == [Some(p)]
    {
      MatchedIs(policy, size, x, p);
    }
  }

  lemma MatchedIs(policy: Policy, size: nat, x: string, p: Precision)
    requires ValidPolicy(policy) && AllSupported(policy) && size > 0
    requires p != policy.base && Assignment(x, p) in policy.assignments
    ensures Matched(Rules(policy, size), x) == [Some(p)]
  {
    var rules := Rules(policy, size);
    forall i | 0 <= i < |rules| && Matches(rules[i].pattern, x) ensures rules[i].precision == p {
      RuleGivesPrecision(policy, size, i, x);
      SamePrecision(policy, x, p, rules[i].precision);
    }
    MatchedAre(rules, x, p);
    MatchedCount(rules, x);
    OneRulePerTensor(policy, size, x);
  }

  lemma SamePrecision(policy: Policy, x: string, p: Precision, q: Precision)
    requires ValidPolicy(policy)
    requires Assignment(x, p) in policy.assignments && Assignment(x, q) in policy.assignments
    ensures p == q
  {
    var i :| 0 <= i < |policy.assignments| && policy.assignments[i] == Assignment(x, p);
    var j :| 0 <= j < |policy.assignments| && policy.assignments[j] == Assignment(x, q);
    var names := Map(NameOf, policy.assignments);
    assert names[i] == names[j];
  }

  lemma RuleSupported(policy: Policy, size: nat, i: nat)
    requires ValidPolicy(policy) && AllSupported(policy) && size > 0 && i < |Rules(policy, size)|
    ensures Supported(Rules(policy, size)[i].precision)
  {
    var piece := Pieces(policy.assignments, policy.base, ORDERED, size)[i];
    PieceNames(policy.assignments, policy.base, ORDERED, size, i);
    assert piece.names[0] in piece.names;
    var k :| 0 <= k < |policy.assignments|
             && policy.assignments[k] == Assignment(piece.names[0], piece.precision);
    assert SupportedOr(policy.assignments[k].precision, policy.base);
  }
}
