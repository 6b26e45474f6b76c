/** Compiling a precision policy to the quantizer's tensor rules. */
module QuantRules {
  import opened Wrappers
  import opened Ranking

  datatype Precision = Q4_K | Q5_K | Q6_K | Q8_0 | Q4_RDNA | F16 | BF16 | F32 | OTHER

  datatype Assignment = Assignment(tensorName: string, precision: Precision)

  datatype Provider = LlamaCpp | Q4Rdna

  datatype Policy = Policy(provider: Provider, base: Precision, format: Option<string>, assignments: seq<Assignment>)

  datatype RuleError = WrongProvider | NotPositive | UnsupportedPrecision

  function NameOf(a: Assignment): string {
    a.tensorName
  }

  /** What the policy's validator guarantees. */
  predicate ValidPolicy(p: Policy) {
    Unique(Map(NameOf, p.assignments)) && p.assignments != []
  }

  /** The supported precisions in the order of their names. */
  const ORDERED: seq<Precision> := [BF16, F16, F32, Q4_K, Q5_K, Q6_K, Q8_0]

  predicate Supported(p: Precision) {
    p != Q4_RDNA && p != OTHER
  }

  function TypeArgument(p: Precision): string
    requires Supported(p)
  {
    match p
    case Q4_K => "q4_k"
    case Q5_K => "q5_k"
    case Q6_K => "q6_k"
    case Q8_0 => "q8_0"
    case F16 => "f16"
    case BF16 => "bf16"
    case F32 => "f32"
  }

  /******* Patterns *******/

  /** The characters that `re.escape` escapes. */
  predicate Special(c: char) {
    || c == '(' || c == ')' || c == '[' || c == ']' || c == '{' || c == '}' || c == '?' || c == '*'
    || c == '+' || c == '-' || c == '|' || c == '^' || c == '$' || c == '\\' || c == '.' || c == '&'
    || c == '~' || c == '#' || c == ' ' || 9 <= c as int <= 13
  }

  function Escape(name: string): string {
    if name == "" then ""
    else EscapeChar(name[0]) + Escape(name[1..])
  }

  function Alternatives(names: seq<string>): string {
    if names == [] then ""
    else if |names| == 1 then Escape(names[0])
    else Escape(names[0]) + ['|'] + Alternatives(names[1..])
  }

  const OPEN := "^(?:"
  const CLOSE := ")$"

  /** `_selector`, for names already in order. */
  function Selector(names: seq<string>): string {
    OPEN + Alternatives(names) + CLOSE
  }

  /** The characters that mean something in a regular expression when they stand alone. */
  predicate Meta(c: char) {
    c in "\\^$.|?*+()[]{}"
  }

  /** The characters that may mean something behind a backslash. */
  predicate Word(c: char) {
    'a' <= c <= 'z' || 'A' <= c <= 'Z' || '0' <= c <= '9' || c == '_'
  }

  /** The strings that an alternation of literals matches, `None` for any other regular
      expression: a backslash makes the next character literal unless that is a letter, a
      digit or an underscore, a bar separates, and no other metacharacter stands alone. */
  function Languages(body: string): Option<seq<string>>
    decreases |body|
  {
    if body == "" then Some([""])
    else if body[0] == '\\' then
      if |body| == 1 || Word(body[1]) then None else WithFirst(body[1], Languages(body[2..]))
    else if body[0] == '|' then
      match Languages(body[1..])
      case None => None
      case Some(rest) => Some([""] + rest)
    else if Meta(body[0]) then None
    else WithFirst(body[0], Languages(body[1..]))
  }

  function WithFirst(c: char, rest: Option<seq<string>>): Option<seq<string>> {
    match rest
    case None => None
    case Some(names) => if names == [] then None else Some([[c] + names[0]] + names[1..])
  }

  /** Whether an anchored group of alternatives matches a whole tensor name. */
  predicate Matches(pattern: string, name: string) {
    && |pattern| >= 6 && pattern[..4] == "^(?:" && pattern[|pattern| - 2..] == ")$"
    && var names := Languages(pattern[4..|pattern| - 2]);
       names.Some? && name in names.value
  }

  function EscapeChar(c: char): string {
    if Special(c) then ['\\', c] else [c]
  }

  /** Reading an escaped name in front of the rest gives the name back. */
  lemma {:induction false} ReadName(name: string, rest: string, first: string, later: seq<string>)
    requires Languages(rest) == Some([first] + later)
    ensures Languages(Escape(name) + rest) == Some([name + first] + later)
  {
    if name == "" {
      assert Escape(name) + rest == rest && name + first == first;
    } else {
      ReadName(name[1..], rest, first, later);
      Associate(EscapeChar(name[0]), Escape(name[1..]), rest);
      Associate([name[0]], name[1..], first);
      assert [name[0]] + name[1..] == name;
    }
  }

  lemma Associate(a: string, b: string, c: string)
    ensures (a + b) + c == a + (b + c)
  {}

  lemma ReadBar(rest: string, names: seq<string>)
    requires Languages(rest) == Some(names)
    ensures Languages(['|'] + rest) == Some([""] + names)
  {
    assert (['|'] + rest)[1..] == rest;
  }

  /** Reading an alternation of escaped names gives the names back. */
  lemma {:induction false} ReadAlternatives(names: seq<string>)
    requires names != []
    ensures Languages(Alternatives(names)) == Some(names)
  {
    if |names| == 1 {
      var none: seq<string> := [];
      assert [""] + none == [""];
      ReadName(names[0], "", "", none);
      assert Escape(names[0]) + "" == Escape(names[0]) && names[0] + "" == names[0];
      assert [names[0]] + none == names;
    } else {
      var rest := Alternatives(names[1..]);
      ReadAlternatives(names[1..]);
      ReadBar(rest, names[1..]);
      ReadName(names[0], ['|'] + rest, "", names[1..]);
      assert Escape(names[0]) + (['|'] + rest) == Alternatives(names);
      assert names[0] + "" == names[0] && [names[0]] + names[1..] == names;
    }
  }

  /** A selector matches exactly its names. */
  lemma SelectorMatches(names: seq<string>, name: string)
    requires names != []
    ensures Matches(Selector(names), name) <==> name in names
  {
    var pattern, body := Selector(names), Alternatives(names);
    ReadAlternatives(names);
    assert pattern[..|OPEN|] == OPEN;
    assert pattern[|pattern| - |CLOSE|..] == CLOSE;
    assert pattern[|OPEN|..|pattern| - |CLOSE|] == body;
  }

  /******* Rules *******/

  /** The names that one rule covers, and their precision. */
  datatype Piece = Piece(names: seq<string>, precision: Precision)

  datatype Rule = Rule(pattern: string, precision: Precision)

  function RuleOf(p: Piece): Rule {
    Rule(Selector(p.names), p.precision)
  }

  function Codes(s: string): (c: seq<nat>)
    ensures |c| == |s|
  {
    seq(|s|, i requires 0 <= i < |s| => s[i] as nat)
  }

  predicate NameBefore(a: string, b: string) {
    LexBefore(Codes(a), Codes(b))
  }

  function SortedNames(names: seq<string>): seq<string> {
    Sorted(names, NameBefore)
  }

  /** The tensors with a precision, in assignment order. */
  function GroupOf(assignments: seq<Assignment>, p: Precision): seq<string> {
    if assignments == [] then []
    else
      var last := assignments[|assignments| - 1];
      GroupOf(assignments[..|assignments| - 1], p) + (if last.precision == p then [last.tensorName] else [])
  }

  function Chunks(names: seq<string>, size: nat): seq<seq<string>>
    requires size > 0
    decreases |names|
  {
    if names == [] then []
    else
      var n := if |names| <= size then |names| else size;
      [names[..n]] + Chunks(names[n..], size)
  }

  function PiecesOf(chunks: seq<seq<string>>, p: Precision): (ps: seq<Piece>)
    ensures |ps| == |chunks|
    ensures forall i :: 0 <= i < |ps| ==> ps[i] == Piece(chunks[i], p)
  {
    seq(|chunks|, i requires 0 <= i < |chunks| => Piece(chunks[i], p))
  }

  /** The pieces of one precision, none for the base. */
  function Segment(assignments: seq<Assignment>, base: Precision, p: Precision, size: nat): seq<Piece>
    requires size > 0
  {
    if p == base then [] else PiecesOf(Chunks(SortedNames(GroupOf(assignments, p)), size), p)
  }

  /** The pieces of the precisions in `order`. */
  function Pieces(assignments: seq<Assignment>, base: Precision, order: seq<Precision>, size: nat): seq<Piece>
    requires size > 0
  {
    if order == [] then []
    else
      var p := order[|order| - 1];
      Pieces(assignments, base, order[..|order| - 1], size) + Segment(assignments, base, p, size)
  }

  function Rules(policy: Policy, size: nat): seq<Rule>
    requires size > 0
  {
    Map(RuleOf, Pieces(policy.assignments, policy.base, ORDERED, size))
  }

  function Arguments(r: Rule): seq<string> {
    ["--tensor-type", r.pattern + "=" + (if Supported(r.precision) then TypeArgument(r.precision) else "")]
  }

  /** Every assignment is the base or a precision the quantizer knows. */
  predicate AllSupported(policy: Policy) {
    forall i :: 0 <= i < |policy.assignments| ==> SupportedOr(policy.assignments[i].precision, policy.base)
  }

  datatype Paths = Paths(quantizer: string, imatrix: string, source: string, output: string)

  /** The dictionary of groups after some assignments. */
  predicate Grouped(byPrecision: map<Precision, seq<string>>, assignments: seq<Assignment>, base: Precision) {
    && base !in byPrecision
    && forall p :: p != base ==> (if p in byPrecision then byPrecision[p] else []) == GroupOf(assignments, p)
  }

  lemma GroupOne(byPrecision: map<Precision, seq<string>>, assignments: seq<Assignment>, a: Assignment, base: Precision)
    requires Grouped(byPrecision, assignments, base)
    ensures var group := if a.precision in byPrecision then byPrecision[a.precision] else [];
            var after := if a.precision == base then byPrecision
                         else byPrecision[a.precision := group + [a.tensorName]];
            Grouped(after, assignments + [a], base)
  {
    forall p
      ensures GroupOf(assignments + [a], p)
              == GroupOf(assignments, p) + (if a.precision == p then [a.tensorName] else [])
    {}
  }

  lemma GroupNext(byPrecision: map<Precision, seq<string>>, assignments: seq<Assignment>, i: nat, base: Precision)
    requires i < |assignments| && Grouped(byPrecision, assignments[..i], base)
    ensures var a := assignments[i];
            var group := if a.precision in byPrecision then byPrecision[a.precision] else [];
            var after := if a.precision == base then byPrecision
                         else byPrecision[a.precision := group + [a.tensorName]];
            Grouped(after, assignments[..i + 1], base)
  {
    GroupOne(byPrecision, assignments[..i], assignments[i], base);
    assert assignments[..i + 1] == assignments[..i] + [assignments[i]];
  }

  predicate SupportedOr(p: Precision, base: Precision) {
    p == base || Supported(p)
  }

  /** The loop that groups the tensors by precision. */
  method GroupAssignments(policy: Policy) returns (r: Result<map<Precision, seq<string>>, RuleError>)
    ensures r.Ok? <==> AllSupported(policy)
    ensures r.Ok? ==> Grouped(r.value, policy.assignments, policy.base)
  {
    var byPrecision: map<Precision, seq<string>> := map[];
    for i := 0 to |policy.assignments|
      invariant Grouped(byPrecision, policy.assignments[..i], policy.base)
      invariant forall k :: 0 <= k < i ==> SupportedOr(policy.assignments[k].precision, policy.base)
    {
      var a := policy.assignments[i];
      GroupNext(byPrecision, policy.assignments, i, policy.base);
      if a.precision == policy.base { continue; }
      if !Supported(a.precision) { return Err(UnsupportedPrecision); }
      var group := if a.precision in byPrecision then byPrecision[a.precision] else [];
      byPrecision := byPrecision[a.precision := group + [a.tensorName]];
    }
    assert policy.assignments[..|policy.assignments|] == policy.assignments;
    r := Ok(byPrecision);
  }

  lemma ChunksStep(names: seq<string>, size: nat, offset: nat, end: nat)
    requires size > 0 && offset < end <= |names| && end == (if offset + size <= |names| then offset + size else |names|)
    ensures Chunks(names[offset..], size) == [names[offset..end]] + Chunks(names[end..], size)
  {
    var rest := names[offset..];
    assert rest[..end - offset] == names[offset..end] && rest[end - offset..] == names[end..];
  }

  /** The rules of one group; the loop steps from chunk to chunk. */
  method EmitRules(names: seq<string>, p: Precision, size: nat) returns (rules: seq<Rule>)
    requires size > 0
    ensures rules == Map(RuleOf, PiecesOf(Chunks(names, size), p))
  {
    rules := [];
    ghost var chunks := Chunks(names, size);
    var offset := 0;
    while offset < |names|
      invariant offset <= |names| && |rules| <= |chunks|
      invariant chunks[|rules|..] == Chunks(names[offset..], size)
      invariant forall k :: 0 <= k < |rules| ==> rules[k] == Rule(Selector(chunks[k]), p)
    {
      var end := if offset + size <= |names| then offset + size else |names|;
      ChunksStep(names, size, offset, end);
      assert chunks[|rules|] == names[offset..end] && chunks[|rules| + 1..] == chunks[|rules|..][1..];
      rules := rules + [Rule(Selector(names[offset..end]), p)];
      offset := end;
    }
    assert Chunks(names[offset..], size) == [];
  }

  lemma PiecesSnoc(assignments: seq<Assignment>, base: Precision, order: seq<Precision>, p: Precision, size: nat)
    requires size > 0
    ensures Map(RuleOf, Pieces(assignments, base, order + [p], size))
            == Map(RuleOf, Pieces(assignments, base, order, size))
               + Map(RuleOf, Segment(assignments, base, p, size))
  {
    assert (order + [p])[..|order|] == order;
  }

  /** The loop over the precisions, in the order of their names. */
  method EmitAll(byPrecision: map<Precision, seq<string>>, policy: Policy, order: seq<Precision>, size: nat)
    returns (rules: seq<Rule>)
    requires size > 0 && Grouped(byPrecision, policy.assignments, policy.base)
    ensures rules == Map(RuleOf, Pieces(policy.assignments, policy.base, order, size))
  {
    rules := [];
    for i := 0 to |order|
      invariant rules == Map(RuleOf, Pieces(policy.assignments, policy.base, order[..i], size))
    {
      var p := order[i];
      PiecesSnoc(policy.assignments, policy.base, order[..i], p, size);
      assert order[..i + 1] == order[..i] + [p];
      if p in byPrecision {
        var more := EmitRules(SortedNames(byPrecision[p]), p, size);
        rules := rules + more;
      } else {
        assert p != policy.base ==> GroupOf(policy.assignments, p) == [];
      }
    }
    assert order[..|order|] == order;
  }

  /** `build_llama_quantize_pack_spec`, up to the digests around its command line. */
  method BuildArgv(policy: Policy, paths: Paths, threads: int, threadText: string, maximumNamesPerRule: int)
    returns (r: Result<seq<string>, RuleError>)
    ensures r.Ok? <==>
              && policy.provider == LlamaCpp && policy.format.Some?
              && threads >= 1 && maximumNamesPerRule >= 1 && AllSupported(policy)
    ensures r.Ok? ==>
              r.value == [paths.quantizer, "--imatrix", paths.imatrix]
                         + Flatten(Map(Arguments, Rules(policy, maximumNamesPerRule)))
                         + [paths.source, paths.output, policy.format.value, threadText]
  {
    if policy.provider != LlamaCpp || policy.format.None? { return Err(WrongProvider); }
    if threads < 1 || maximumNamesPerRule < 1 { return Err(NotPositive); }
    var groups := GroupAssignments(policy);
    if groups.Err? { return Err(groups.error); }
    var rules := EmitAll(groups.value, policy, ORDERED, maximumNamesPerRule);
    r := Ok([paths.quantizer, "--imatrix", paths.imatrix] + Flatten(Map(Arguments, rules))
            + [paths.source, paths.output, policy.format.value, threadText]);
  }
}
