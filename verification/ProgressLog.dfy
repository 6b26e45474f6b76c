/** Recovering the answer vector of an evaluation from its log of rounded cumulative
    percentages, in both of the repository's parsers. */
module ProgressLog {
  import opened Wrappers

  /** The number of correct answers. */
  function Ones(bits: seq<bool>): (n: nat)
    ensures n <= |bits|
  {
    if bits == [] then 0 else Ones(bits[..|bits| - 1]) + (if bits[|bits| - 1] then 1 else 0)
  }

  function Abs(x: real): real {
    if x < 0.0 then -x else x
  }

  datatype Row = Row(index: nat, percent: real)

  datatype LogError = EmptyTotal | RowsMissing | OutOfOrder | OutOfRange | NotACount | BadIncrement | FinalDiffers

  const ROW_TOLERANCE := 0.000_001
  const FINAL_TOLERANCE := 0.000_1
  /** Below this many rows the log determines the answers. */
  const CAPACITY: nat := 50_000_000

  /** `count` correct answers out of `index`, as a percentage. */
  function Percent(count: int, index: int): real
    requires index > 0
  {
    100.0 * count as real / index as real
  }

  /** The correct answers up to row `index`, or what is wrong with the row. */
  function CountAt(row: Row, index: nat, previous: int): Result<int, LogError>
    requires index > 0
  {
    if row.index != index then Err(OutOfOrder)
    else if !(0.0 <= row.percent <= 100.0) then Err(OutOfRange)
    else
      var count := (row.percent * index as real / 100.0 + 0.5).Floor;
      if Abs(row.percent - Percent(count, index)) > ROW_TOLERANCE then Err(NotACount)
      else if count - previous != 0 && count - previous != 1 then Err(BadIncrement)
      else Ok(count)
  }

  /** The answers from row `done` on. */
  function Answers(rows: seq<Row>, done: nat, previous: int): Result<seq<bool>, LogError>
    requires done <= |rows|
    decreases |rows| - done
  {
    if done == |rows| then Ok([])
    else
      match CountAt(rows[done], done + 1, previous)
      case Err(e) => Err(e)
      case Ok(count) =>
        match Answers(rows, done + 1, count)
        case Err(e) => Err(e)
        case Ok(rest) => Ok([count != previous] + rest)
  }

  function Parse(rows: seq<Row>, total: int, final: real): Result<seq<bool>, LogError> {
    if total <= 0 then Err(EmptyTotal)
    else if |rows| != total then Err(RowsMissing)
    else
      match Answers(rows, 0, 0)
      case Err(e) => Err(e)
      case Ok(bits) => if Abs(final - Percent(Ones(bits), total)) > FINAL_TOLERANCE then Err(FinalDiffers) else Ok(bits)
  }

  /** `parse_math_correctness`. */
  method ParseMathCorrectness(rows: seq<Row>, total: int, final: real) returns (r: Result<seq<bool>, LogError>)
    ensures r == Parse(rows, total, final)
  {
    if total <= 0 { return Err(EmptyTotal); }
    if |rows| != total { return Err(RowsMissing); }
    var correctness: seq<bool>, previous := [], 0;
    AfterNone(Answers(rows, 0, 0));
    for i := 0 to total
      invariant |correctness| == i && previous == Ones(correctness)
      invariant Answers(rows, 0, 0) == After(correctness, Answers(rows, i, previous))
    {
      var count := CountAt(rows[i], i + 1, previous);
      if count.Err? { return Err(count.error); }
      AfterOne(rows, correctness, count.value);
      correctness := correctness + [count.value != previous];
      previous := count.value;
    }
    assert correctness + [] == correctness;
    if Abs(final - Percent(previous, total)) > FINAL_TOLERANCE { return Err(FinalDiffers); }
    r := Ok(correctness);
  }

  function After(bits: seq<bool>, rest: Result<seq<bool>, LogError>): Result<seq<bool>, LogError> {
    match rest
    case Err(e) => Err(e)
    case Ok(later) => Ok(bits + later)
  }

  lemma AfterNone(rest: Result<seq<bool>, LogError>)
    ensures After([], rest) == rest
  {
    if rest.Ok? { assert [] + rest.value == rest.value; }
  }

  /** Reading one row moves its answer from the rest to the answers already read. */
  lemma AfterOne(rows: seq<Row>, bits: seq<bool>, count: int)
    requires |bits| < |rows| && CountAt(rows[|bits|], |bits| + 1, Ones(bits)) == Ok(count)
    ensures var now := bits + [count != Ones(bits)];
            && Ones(now) == count
            && After(bits, Answers(rows, |bits|, Ones(bits))) == After(now, Answers(rows, |bits| + 1, count))
  {
    var bit := count != Ones(bits);
    RowShows(rows[|bits|], |bits| + 1, Ones(bits));
    var rest := Answers(rows, |bits| + 1, count);
    if rest.Ok? { assert bits + ([bit] + rest.value) == bits + [bit] + rest.value; }
  }

  /******* What a log says *******/

  /** A percentage in range that shows `count` correct answers out of `index`. */
  predicate Shows(percent: real, count: int, index: int)
    requires index > 0
  {
    0.0 <= percent <= 100.0 && Abs(percent - Percent(count, index)) <= 0.000_001
  }

  /** The rows and the final line are a rendering of `bits`. */
  predicate Renders(rows: seq<Row>, final: real, bits: seq<bool>) {
    && |rows| == |bits| > 0
    && (forall i :: 0 <= i < |bits| ==> RowRenders(rows, bits, i))
    && Abs(final - Percent(Ones(bits), |bits|)) <= 0.000_1
  }

  /** Rounding recovers the count from a percentage as long as there are few rows. */
  lemma NearestCount(percent: real, count: int, index: nat)
    requires 0 < index < CAPACITY && Shows(percent, count, index)
    ensures (percent * index as real / 100.0 + 0.5).Floor == count
  {
    var n, c := index as real, count as real;
    var error := percent - Percent(count, index);
    assert Percent(count, index) * n == 100.0 * c;
    assert percent * n == 100.0 * c + error * n;
    assert -ROW_TOLERANCE * n <= error * n <= ROW_TOLERANCE * n;
    assert ROW_TOLERANCE * n < 50.0;
    assert percent * n / 100.0 == c + error * n / 100.0;
  }

  lemma RowShows(row: Row, index: nat, previous: int)
    requires index > 0 && CountAt(row, index, previous).Ok?
    ensures var count := CountAt(row, index, previous).value;
            row.index == index && Shows(row.percent, count, index) && (count == previous || count == previous + 1)
  {}

  lemma RowRead(row: Row, count: int, index: nat, previous: int)
    requires 0 < index < CAPACITY && row.index == index && Shows(row.percent, count, index)
    requires count == previous || count == previous + 1
    ensures CountAt(row, index, previous) == Ok(count)
  {
    NearestCount(row.percent, count, index);
  }

  /** Row `i` of the log shows the first `i + 1` answers. */
  predicate RowRenders(rows: seq<Row>, bits: seq<bool>, i: nat)
    requires i < |bits| == |rows|
  {
    rows[i].index == i + 1 && Shows(rows[i].percent, Ones(bits[..i + 1]), i + 1)
  }

  /** What the parser accepts renders what it returns, for logs of any length. */
  lemma {:induction false} AnswersRender(rows: seq<Row>, before: seq<bool>, i: nat)
    requires |before| <= |rows| && Answers(rows, |before|, Ones(before)).Ok?
    ensures var bits := before + Answers(rows, |before|, Ones(before)).value;
            |bits| == |rows| && (|before| <= i < |bits| ==> RowRenders(rows, bits, i))
    decreases |rows| - |before|
  {
    var done := |before|;
    if done < |rows| {
      var count := CountAt(rows[done], done + 1, Ones(before)).value;
      var now := before + [count != Ones(before)];
      AfterOne(rows, before, count);
      AnswersRender(rows, now, i);
      if i == done {
        RowShows(rows[done], done + 1, Ones(before));
        assert (now + Answers(rows, done + 1, count).value)[..done + 1] == now;
      }
    }
  }

  lemma {:induction false} RenderedAnswers(rows: seq<Row>, bits: seq<bool>, done: nat)
    requires |rows| == |bits| < CAPACITY && done <= |bits|
    requires forall i :: done <= i < |bits| ==> RowRenders(rows, bits, i)
    ensures Answers(rows, done, Ones(bits[..done])) == Ok(bits[done..])
    decreases |rows| - done
  {
    if done < |bits| {
      assert RowRenders(rows, bits, done);
      assert bits[..done + 1] == bits[..done] + [bits[done]];
      RowRead(rows[done], Ones(bits[..done + 1]), done + 1, Ones(bits[..done]));
      RenderedAnswers(rows, bits, done + 1);
      assert bits[done..] == [bits[done]] + bits[done + 1..];
    }
  }

  /** Below `CAPACITY` rows, the parser returns a vector exactly when the log renders it. */
  lemma ParseIffRenders(rows: seq<Row>, final: real, bits: seq<bool>)
    requires |rows| < CAPACITY
    ensures Parse(rows, |rows|, final) == Ok(bits) <==> Renders(rows, final, bits)
  {
    if Parse(rows, |rows|, final) == Ok(bits) { AcceptedLogRenders(rows, |rows|, final); }
    if Renders(rows, final, bits) {
      RenderedAnswers(rows, bits, 0);
      assert bits[0..] == bits && bits[..0] == [];
    }
  }

  /** Every accepted log renders what the parser returns, however long it is. */
  lemma AcceptedLogRenders(rows: seq<Row>, total: int, final: real)
    requires Parse(rows, total, final).Ok?
    ensures Renders(rows, final, Parse(rows, total, final).value)
  {
    var bits := Answers(rows, 0, 0).value;
    assert [] + bits == bits;
    AnswersRender(rows, [], 0);
    forall i | 0 <= i < |bits| ensures RowRenders(rows, bits, i) {
      AnswersRender(rows, [], i);
    }
  }

  /** So no two vectors share a log. */
  lemma LogDeterminesAnswers(rows: seq<Row>, final: real, a: seq<bool>, b: seq<bool>)
    requires |rows| < CAPACITY && Renders(rows, final, a) && Renders(rows, final, b)
    ensures a == b
  {
    ParseIffRenders(rows, final, a);
    ParseIffRenders(rows, final, b);
  }

  /******* Longer logs *******/

  function Blank(n: nat): (bits: seq<bool>)
    ensures |bits| == n
  {
    seq(n, _ => false)
  }

  lemma {:induction false} BlankOnes(bits: seq<bool>)
    requires forall i :: 0 <= i < |bits| ==> !bits[i]
    ensures Ones(bits) == 0
  {
    if bits != [] { BlankOnes(bits[..|bits| - 1]); }
  }

  /** A rendering of no correct answer out of `n` whose last percentage is one millionth. */
  function NearlyBlank(n: nat): (rows: seq<Row>)
    ensures |rows| == n
  {
    seq(n, i requires 0 <= i < n => Row(i + 1, if i == n - 1 then ROW_TOLERANCE else 0.0))
  }

  lemma NearlyBlankRenders(n: nat)
    requires n > 0
    ensures Renders(NearlyBlank(n), 0.0, Blank(n))
  {
    var rows, bits := NearlyBlank(n), Blank(n);
    BlankOnes(bits);
    forall i | 0 <= i < n ensures RowRenders(rows, bits, i) {
      BlankOnes(bits[..i + 1]);
    }
  }

  lemma NearlyBlankMisread(n: nat)
    requires n >= CAPACITY
    ensures Parse(NearlyBlank(n), n, 0.0) != Ok(Blank(n))
  {
    if Answers(NearlyBlank(n), 0, 0) == Ok(Blank(n)) {
      LastAnswer(NearlyBlank(n), 0, 0, Blank(n));
    }
  }

  /** A log read as no correct answer has a last row that rounds to zero. */
  lemma {:induction false} LastAnswer(rows: seq<Row>, done: nat, previous: int, bits: seq<bool>)
    requires done < |rows| && Answers(rows, done, previous) == Ok(bits)
    requires forall i :: 0 <= i < |bits| ==> !bits[i]
    ensures CountAt(rows[|rows| - 1], |rows|, previous) == Ok(previous)
    decreases |rows| - done
  {
    assert !bits[0];
    if done + 1 < |rows| { LastAnswer(rows, done + 1, previous, bits[1..]); }
  }

  /** The parser recovers every vector of length `n` from each of its renderings
      exactly when `n` is below `CAPACITY`. */
  lemma RecoversIffShort(n: nat)
    requires n > 0
    ensures (forall rows, final, bits | |bits| == n && Renders(rows, final, bits) :: Parse(rows, n, final) == Ok(bits))
            <==> n < 50_000_000
  {
    if n < CAPACITY {
      forall rows, final, bits | |bits| == n && Renders(rows, final, bits) ensures Parse(rows, n, final) == Ok(bits) {
        ParseIffRenders(rows, final, bits);
      }
    } else {
      NearlyBlankRenders(n);
      NearlyBlankMisread(n);
    }
  }

  /******* The second parser *******/

  type CaseId = string

  datatype Item = Item(caseId: CaseId, correct: bool)

  datatype Suite = Suite(total: nat, correct: int, accuracy: real, uncertainty: real, items: seq<Item>)

  datatype SuiteError = EmptySuite | DuplicateCases | FinalLines | ProgressRows | RowPosition | RowCount
    | FinalLine | Uncertainty

  function Correct(items: seq<Item>): seq<bool> {
    Map(IsCorrect, items)
  }

  predicate IsCorrect(item: Item) {
    item.correct
  }

  function CaseIds(items: seq<Item>): seq<CaseId> {
    Map(CaseIdOf, items)
  }

  function CaseIdOf(item: Item): CaseId {
    item.caseId
  }

  /** The validator of a completed suite result. */
  predicate Consistent(s: Suite) {
    && s.total > 0 && |s.items| == s.total
    && s.correct == Ones(Correct(s.items))
    && Abs(s.accuracy - s.correct as real / s.total as real) <= 0.000_000_000_001
    && 0.0 <= s.accuracy <= 1.0 && s.uncertainty >= 0.0
  }

  /** The loop over the rows and the cases. */
  method ReadItems(rows: seq<Row>, cases: seq<CaseId>) returns (r: Result<seq<Item>, SuiteError>)
    requires |rows| == |cases|
    ensures r.Ok? <==> Answers(rows, 0, 0).Ok?
    ensures r.Ok? ==> Correct(r.value) == Answers(rows, 0, 0).value && CaseIds(r.value) == cases
  {
    var items: seq<Item>, previous := [], 0;
    ghost var bits: seq<bool> := [];
    AfterNone(Answers(rows, 0, 0));
    for i := 0 to |cases|
      invariant |bits| == i && previous == Ones(bits)
      invariant Answers(rows, 0, 0) == After(bits, Answers(rows, i, previous))
      invariant Paired(items, cases[..i], bits)
    {
      var count := CountAt(rows[i], i + 1, previous);
      if count.Err? {
        return Err(if count.error.OutOfOrder? || count.error.OutOfRange? then RowPosition else RowCount);
      }
      AfterOne(rows, bits, count.value);
      RowShows(rows[i], i + 1, previous);
      PairOne(items, cases, bits, i, count.value > previous);
      items := items + [Item(cases[i], count.value > previous)];
      bits := bits + [count.value != previous];
      previous := count.value;
    }
    assert bits + [] == bits && cases[..|cases|] == cases;
    r := Ok(items);
  }

  /** The items are the cases with their answers. */
  predicate Paired(items: seq<Item>, cases: seq<CaseId>, bits: seq<bool>) {
    Correct(items) == bits && CaseIds(items) == cases
  }

  lemma PairOne(items: seq<Item>, cases: seq<CaseId>, bits: seq<bool>, i: nat, bit: bool)
    requires i < |cases| && Paired(items, cases[..i], bits)
    ensures Paired(items + [Item(cases[i], bit)], cases[..i + 1], bits + [bit])
  {
    assert cases[..i + 1] == cases[..i] + [cases[i]];
  }

  /** `parse_llama_multiple_choice_result`.  It accepts exactly the logs that the
      other parser accepts, for suites of distinct cases with one final line and a
      valid uncertainty, and reads the same answers. */
  method ParseSuiteResult(rows: seq<Row>, finals: seq<(real, real)>, cases: seq<CaseId>)
    returns (r: Result<Suite, SuiteError>)
    ensures r.Ok? <==>
              && cases != [] && Unique(cases) && |finals| == 1 && finals[0].1 >= 0.0
              && Parse(rows, |cases|, finals[0].0).Ok?
    ensures r.Ok? ==>
              && Consistent(r.value) && r.value.uncertainty == finals[0].1
              && Correct(r.value.items) == Parse(rows, |cases|, finals[0].0).value
              && CaseIds(r.value.items) == cases
  {
    if cases == [] { return Err(EmptySuite); }
    var distinct := IsUnique(cases);
    if !distinct { return Err(DuplicateCases); }
    if |finals| != 1 { return Err(FinalLines); }
    var (final, uncertainty) := finals[0];
    if |rows| != |cases| { return Err(ProgressRows); }
    var items := ReadItems(rows, cases);
    if items.Err? { return Err(items.error); }
    if Abs(final - Percent(Ones(Correct(items.value)), |cases|)) > FINAL_TOLERANCE { return Err(FinalLine); }
    if uncertainty < 0.0 { return Err(Uncertainty); }
    r := Ok(Completed(items.value, uncertainty));
  }

  function Completed(items: seq<Item>, uncertainty: real): (s: Suite)
    requires items != [] && uncertainty >= 0.0
    ensures Consistent(s)
  {
    var correct := Ones(Correct(items));
    Suite(|items|, correct, correct as real / |items| as real, uncertainty, items)
  }

  method IsUnique(ids: seq<CaseId>) returns (distinct: bool)
    ensures distinct <==> Unique(ids)
  {
    var seen: set<CaseId> := {};
    for i := 0 to |ids|
      invariant forall id :: id in seen <==> id in ids[..i]
      invariant Unique(ids[..i])
    {
      if ids[i] in seen { return false; }
      seen := seen + {ids[i]};
    }
    assert ids[..|ids|] == ids;
    distinct := true;
  }
}
