/** The binary multiple-choice fixture: an offset table followed by records of
    different sizes, its two serializers, and a reader of the format. */
module Fixture {
  import opened Wrappers
  import opened Bytes

  type Text = seq<Byte>

  const MAX_U32: nat := 0xFFFF_FFFF

  datatype Case = Case(question: Text, choices: seq<Text>, answer: nat)

  /** What the validator of a case says about its choices. */
  predicate ValidCase(c: Case) {
    2 <= |c.choices| <= 26 && c.answer < |c.choices|
  }

  /** Labels with a mark each; a record holds two such sets, the second one empty. */
  datatype AnswerSet = AnswerSet(labels: seq<Text>, marks: seq<int>)

  datatype Task = Task(question: Text, first: AnswerSet, second: AnswerSet)

  datatype FixtureError = EmptySuite | InvalidCase | TextTooLong | OffsetTooLarge

  /******* What a case is rendered as *******/

  const NEW_LINE: Text := [10]

  function Label(i: nat): Text
    requires i < 26
  {
    [65 + i]
  }

  function Labels(n: nat): (ls: seq<Text>)
    requires n <= 26
    ensures |ls| == n
  {
    seq(n, i requires 0 <= i < n => Label(i))
  }

  function Joined(lines: seq<Text>): Text {
    if lines == [] then []
    else if |lines| == 1 then lines[0]
    else lines[0] + NEW_LINE + Joined(lines[1..])
  }

  function Question(c: Case): Text
    requires |c.choices| <= 26
  {
    var lines := seq(|c.choices|, i requires 0 <= i < |c.choices| => Label(i) + Ascii(". ") + c.choices[i]);
    Ascii("Question: ") + c.question + NEW_LINE + Joined(lines) + NEW_LINE + Ascii("Answer:")
  }

  /** A single 1, at the answer. */
  function Marks(n: nat, answer: nat): (ms: seq<int>)
    ensures |ms| == n
    ensures forall i :: 0 <= i < n ==> ms[i] == (if i == answer then 1 else 0)
  {
    seq(n, i => if i == answer then 1 else 0)
  }

  /** A case as the serializers write it down. */
  datatype Rendered = Rendered(question: Text, labels: seq<Text>, answer: nat)

  function Render(c: Case): Rendered {
    if |c.choices| <= 26 then Rendered(Question(c), Labels(|c.choices|), c.answer) else Rendered([], [], 0)
  }

  function TaskOf(r: Rendered): Task {
    Task(r.question, AnswerSet(r.labels, Marks(|r.labels|, r.answer)), AnswerSet([], []))
  }

  /******* The format *******/

  function EncodeText(t: Text): seq<Byte> {
    Pack(|t|, 4) + t
  }

  /** A 32-bit integer in two's complement. */
  function EncodeMark(m: int): seq<Byte> {
    Pack(m % 0x1_0000_0000, 4)
  }

  function EncodeAnswers(a: AnswerSet): seq<Byte> {
    Pack(|a.labels|, 4) + (Flatten(Map(EncodeText, a.labels)) + Flatten(Map(EncodeMark, a.marks)))
  }

  function EncodeTask(t: Task): seq<Byte> {
    EncodeText(t.question) + (EncodeAnswers(t.first) + EncodeAnswers(t.second))
  }

  /** Where record `i` starts, after the count, the table and the records before it. */
  function Offset(records: seq<seq<Byte>>, i: nat): nat
    requires i <= |records|
  {
    4 + 4 * |records| + |Flatten(records[..i])|
  }

  function EncodeOffset(n: nat): seq<Byte> {
    Pack(n, 4)
  }

  function Offsets(records: seq<seq<Byte>>): (os: seq<nat>)
    ensures |os| == |records|
    ensures forall i :: 0 <= i < |os| ==> os[i] == Offset(records, i)
  {
    seq(|records|, i requires 0 <= i < |records| => Offset(records, i))
  }

  function Layout(records: seq<seq<Byte>>): seq<Byte> {
    Pack(|records|, 4) + (Flatten(Map(EncodeOffset, Offsets(records))) + Flatten(records))
  }

  predicate OffsetsFit(records: seq<seq<Byte>>) {
    forall i :: 0 <= i < |records| ==> Offset(records, i) <= MAX_U32
  }

  function Record(r: Rendered): seq<Byte> {
    EncodeTask(TaskOf(r))
  }

  function Records(rs: seq<Rendered>): seq<seq<Byte>> {
    Map(Record, rs)
  }

  predicate LabelsFit(r: Rendered) {
    forall k :: 0 <= k < |r.labels| ==> |r.labels[k]| <= MAX_U32
  }

  predicate QuestionsFit(rs: seq<Rendered>) {
    forall i :: 0 <= i < |rs| ==> |rs[i].question| <= MAX_U32
  }

  /** What serializing rendered cases returns. */
  function Encoded(rs: seq<Rendered>): Result<seq<Byte>, FixtureError> {
    if !QuestionsFit(rs) then Err(TextTooLong)
    else if !OffsetsFit(Records(rs)) then Err(OffsetTooLarge)
    else Ok(Layout(Records(rs)))
  }

  /** What serializing a suite returns. */
  function Serialized(cases: seq<Case>): Result<seq<Byte>, FixtureError> {
    if exists i :: 0 <= i < |cases| && !ValidCase(cases[i]) then Err(InvalidCase)
    else if cases == [] then Err(EmptySuite)
    else Encoded(Map(Render, cases))
  }

  /******* The serializers *******/

  /** `_pack_string`. */
  method PackString(value: Text) returns (r: Result<seq<Byte>, FixtureError>)
    ensures r == if |value| > MAX_U32 then Err(TextTooLong) else Ok(EncodeText(value))
  {
    if |value| > MAX_U32 { return Err(TextTooLong); }
    r := Ok(Pack(|value|, 4) + value);
  }

  /** The labels of a record, one after the other. */
  method PackLabels(task: seq<Byte>, labels: seq<Text>) returns (r: seq<Byte>)
    requires forall i :: 0 <= i < |labels| ==> |labels[i]| <= MAX_U32
    ensures r == task + Flatten(Map(EncodeText, labels))
  {
    r := task;
    ghost var chunks := Map(EncodeText, labels);
    for k := 0 to |labels|
      invariant r == task + Flatten(chunks[..k])
    {
      var packed := PackString(labels[k]);
      assert chunks[..k + 1] == chunks[..k] + [packed.value];
      FlattenSnoc(chunks[..k], packed.value);
      r := r + packed.value;
    }
    assert chunks[..|labels|] == chunks;
  }

  /** One record; the buffer grows part by part. */
  method PackTask(c: Rendered) returns (r: Result<seq<Byte>, FixtureError>)
    requires LabelsFit(c)
    ensures r == if |c.question| > MAX_U32 then Err(TextTooLong) else Ok(Record(c))
  {
    var labels, answer := c.labels, c.answer;
    var head := PackString(c.question);
    if head.Err? { return head; }
    var task := head.value;
    task := task + Pack(|labels|, 4);
    task := PackLabels(task, labels);
    task := task + Flatten(Map(EncodeMark, Marks(|labels|, answer)));
    task := task + Pack(0, 4);
    Associate(head.value, Pack(|labels|, 4), Flatten(Map(EncodeText, labels)),
              Flatten(Map(EncodeMark, Marks(|labels|, answer))), Pack(0, 4));
    r := Ok(task);
  }

  lemma Associate(a: seq<Byte>, b: seq<Byte>, c: seq<Byte>, d: seq<Byte>, e: seq<Byte>)
    ensures a + b + c + d + e == a + ((b + (c + d)) + (e + ([] + [])))
  {}

  /** The header, the table of positions and the records, as both serializers end. */
  method Assemble(tasks: seq<seq<Byte>>) returns (r: Result<seq<Byte>, FixtureError>)
    ensures r == if OffsetsFit(tasks) then Ok(Layout(tasks)) else Err(OffsetTooLarge)
  {
    var positions: seq<nat>, position := [], 4 + 4 * |tasks|;
    for i := 0 to |tasks|
      invariant position == Offset(tasks, i)
      invariant |positions| == i
      invariant forall k :: 0 <= k < i ==> positions[k] == Offset(tasks, k) <= MAX_U32
    {
      if position > MAX_U32 { return Err(OffsetTooLarge); }
      positions := positions + [position];
      assert tasks[..i + 1] == tasks[..i] + [tasks[i]];
      FlattenSnoc(tasks[..i], tasks[i]);
      position := position + |tasks[i]|;
    }
    assert positions == Offsets(tasks);
    r := Ok(Pack(|tasks|, 4) + (Flatten(Map(EncodeOffset, positions)) + Flatten(tasks)));
  }

  method PackEach(rs: seq<Rendered>) returns (r: Result<seq<seq<Byte>>, FixtureError>)
    requires forall i :: 0 <= i < |rs| ==> LabelsFit(rs[i])
    ensures r == if QuestionsFit(rs) then Ok(Records(rs)) else Err(TextTooLong)
  {
    var tasks: seq<seq<Byte>> := [];
    for i := 0 to |rs|
      invariant QuestionsFit(rs[..i]) && tasks == Records(rs[..i])
    {
      var task := PackTask(rs[i]);
      if task.Err? { return Err(task.error); }
      assert rs[..i + 1] == rs[..i] + [rs[i]];
      tasks := tasks + [task.value];
    }
    assert rs[..|rs|] == rs;
    r := Ok(tasks);
  }

  method PackTasks(rs: seq<Rendered>) returns (r: Result<seq<Byte>, FixtureError>)
    requires forall i :: 0 <= i < |rs| ==> LabelsFit(rs[i])
    ensures r == Encoded(rs)
  {
    var tasks := PackEach(rs);
    if tasks.Err? { return Err(tasks.error); }
    r := Assemble(tasks.value);
  }

  /** `serialize_llama_multiple_choice`. */
  method SerializeSuite(cases: seq<Case>) returns (r: Result<seq<Byte>, FixtureError>)
    ensures r == Serialized(cases)
  {
    for i := 0 to |cases|
      invariant forall k :: 0 <= k < i ==> ValidCase(cases[k])
    {
      if !ValidCase(cases[i]) { return Err(InvalidCase); }
    }
    if cases == [] { return Err(EmptySuite); }
    var rendered: seq<Rendered> := [];
    for i := 0 to |cases|
      invariant rendered == Map(Render, cases[..i])
    {
      var labels := Labels(|cases[i].choices|);
      rendered := rendered + [Rendered(Question(cases[i]), labels, cases[i].answer)];
    }
    assert cases[..|cases|] == cases;
    r := PackTasks(rendered);
  }

  lemma EmptyLayout()
    ensures Encoded([]) == Ok(Pack(0, 4))
  {
    var none: seq<seq<Byte>> := [];
    assert Records([]) == none && Map(EncodeOffset, Offsets(none)) == none;
    assert Layout(none) == Pack(0, 4) + ([] + []) == Pack(0, 4);
    assert OffsetsFit(none) && QuestionsFit([]);
  }

  /** `serialize_multiple_choice`, for items of four choices: the same bytes, except
      that it also serializes the empty list. */
  method SerializeFourChoice(items: seq<Case>) returns (r: Result<seq<Byte>, FixtureError>)
    requires forall i :: 0 <= i < |items| ==> |items[i].choices| == 4 && items[i].answer < 4
    ensures items != [] ==> r == Serialized(items)
    ensures items == [] ==> r == Ok(Pack(0, 4))
  {
    var labels: seq<Text> := [[65], [66], [67], [68]];
    assert labels == Labels(4);
    var rendered: seq<Rendered> := [];
    for i := 0 to |items|
      invariant rendered == Map(Render, items[..i])
    {
      rendered := rendered + [Rendered(Question(items[i]), labels, items[i].answer)];
    }
    assert items[..|items|] == items;
    EmptyLayout();
    r := PackTasks(rendered);
  }
}
