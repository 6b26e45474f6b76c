/** Reading a fixture, at its offset table or record after record. */
module FixtureReader {
  import opened Wrappers
  import opened Bytes
  import opened Fixture
  import opened FixturePrompts

  datatype Read<+T> = Got(value: T, next: nat) | Short

  /** A reader of some data, from a position. */
  type Reader<T> = nat -> Read<T>

  /******* Combining readers *******/

  function Both<A, B>(first: Reader<A>, second: Reader<B>): Reader<(A, B)> {
    (pos: nat) =>
      match first(pos)
      case Short => Short
      case Got(a, next) =>
        match second(next)
        case Short => Short
        case Got(b, last) => Got((a, b), last)
  }

  function Bind<A, B>(first: Reader<A>, rest: A -> Reader<B>): Reader<B> {
    (pos: nat) =>
      match first(pos)
      case Short => Short
      case Got(a, next) => rest(a)(next)
  }

  function Convert<A, B>(read: Reader<A>, f: A -> B): Reader<B> {
    (pos: nat) =>
      match read(pos)
      case Short => Short
      case Got(a, next) => Got(f(a), next)
  }

  /** `n` things in a row. */
  function Times<T>(read: Reader<T>, n: nat): Reader<seq<T>> {
    (pos: nat) => ListFrom(read, pos, n)
  }

  function ListFrom<T>(read: Reader<T>, pos: nat, n: nat): Read<seq<T>>
    decreases n
  {
    if n == 0 then Got([], pos)
    else
      match read(pos)
      case Short => Short
      case Got(first, next) =>
        match ListFrom(read, next, n - 1)
        case Short => Short
        case Got(rest, last) => Got([first] + rest, last)
  }

  /** `read` finds `value` wherever `chunk` lies. */
  ghost predicate Decodes<T>(data: seq<Byte>, read: Reader<T>, chunk: seq<Byte>, value: T) {
    forall p: nat {:trigger At(data, p, chunk)} :: p <= |data| && At(data, p, chunk) ==>
      p + |chunk| <= |data| && read(p) == Got(value, p + |chunk|)
  }

  ghost predicate AllDecode<T>(data: seq<Byte>, read: Reader<T>, chunks: seq<seq<Byte>>, values: seq<T>) {
    |chunks| == |values| && forall i :: 0 <= i < |chunks| ==> Decodes(data, read, chunks[i], values[i])
  }

  lemma BothDecode<A, B>(data: seq<Byte>, ra: Reader<A>, rb: Reader<B>, ca: seq<Byte>, cb: seq<Byte>, a: A, b: B)
    requires Decodes(data, ra, ca, a) && Decodes(data, rb, cb, b)
    ensures Decodes(data, Both(ra, rb), ca + cb, (a, b))
  {
    forall p: nat | p <= |data| && At(data, p, ca + cb)
      ensures p + |ca + cb| <= |data| && Both(ra, rb)(p) == Got((a, b), p + |ca + cb|)
    {
      AtConcat(data, p, ca, cb);
    }
  }

  lemma BindDecodes<A, B>(data: seq<Byte>, ra: Reader<A>, rest: A -> Reader<B>, ca: seq<Byte>, cb: seq<Byte>, a: A,
                          b: B)
    requires Decodes(data, ra, ca, a) && Decodes(data, rest(a), cb, b)
    ensures Decodes(data, Bind(ra, rest), ca + cb, b)
  {
    forall p: nat | p <= |data| && At(data, p, ca + cb)
      ensures p + |ca + cb| <= |data| && Bind(ra, rest)(p) == Got(b, p + |ca + cb|)
    {
      AtConcat(data, p, ca, cb);
    }
  }

  lemma ConvertDecodes<A, B>(data: seq<Byte>, read: Reader<A>, f: A -> B, chunk: seq<Byte>, a: A)
    requires Decodes(data, read, chunk, a)
    ensures Decodes(data, Convert(read, f), chunk, f(a))
  {}

  lemma {:induction false} ListFound<T>(data: seq<Byte>, read: Reader<T>, pos: nat, chunks: seq<seq<Byte>>,
                                        values: seq<T>)
    requires pos <= |data| && At(data, pos, Flatten(chunks)) && AllDecode(data, read, chunks, values)
    ensures pos + |Flatten(chunks)| <= |data|
    ensures ListFrom(read, pos, |chunks|) == Got(values, pos + |Flatten(chunks)|)
    decreases |chunks|
  {
    if chunks != [] {
      AtConcat(data, pos, chunks[0], Flatten(chunks[1..]));
      assert Decodes(data, read, chunks[0], values[0]);
      ListFound(data, read, pos + |chunks[0]|, chunks[1..], values[1..]);
      assert values == [values[0]] + values[1..];
    }
  }

  lemma TimesDecode<T>(data: seq<Byte>, read: Reader<T>, chunks: seq<seq<Byte>>, values: seq<T>)
    requires AllDecode(data, read, chunks, values)
    ensures Decodes(data, Times(read, |values|), Flatten(chunks), values)
  {
    forall p: nat | p <= |data| && At(data, p, Flatten(chunks))
      ensures p + |Flatten(chunks)| <= |data| && Times(read, |values|)(p) == Got(values, p + |Flatten(chunks)|)
    {
      ListFound(data, read, p, chunks, values);
    }
  }

  /******* The format *******/

  function RawReader(data: seq<Byte>, n: nat): Reader<seq<Byte>> {
    (pos: nat) => if pos + n <= |data| then Got(data[pos..pos + n], pos + n) else Short
  }

  function U32Reader(data: seq<Byte>): Reader<nat> {
    Convert(RawReader(data, 4), (raw: seq<Byte>) => LittleEndian(raw))
  }

  function SignedWord(n: nat): int {
    if n >= 0x8000_0000 then n - 0x1_0000_0000 else n
  }

  function MarkReader(data: seq<Byte>): Reader<int> {
    Convert<nat, int>(U32Reader(data), SignedWord)
  }

  function RawReaderOf(data: seq<Byte>): nat -> Reader<seq<Byte>> {
    (n: nat) => RawReader(data, n)
  }

  function TextReader(data: seq<Byte>): Reader<Text> {
    Bind<nat, Text>(U32Reader(data), RawReaderOf(data))
  }

  function MakeAnswers(parts: (seq<Text>, seq<int>)): AnswerSet {
    AnswerSet(parts.0, parts.1)
  }

  function AnswersOf(data: seq<Byte>): nat -> Reader<AnswerSet> {
    (n: nat) => Convert(Both(Times(TextReader(data), n), Times(MarkReader(data), n)), MakeAnswers)
  }

  function AnswersReader(data: seq<Byte>): Reader<AnswerSet> {
    Bind<nat, AnswerSet>(U32Reader(data), AnswersOf(data))
  }

  function MakeTask(parts: (Text, (AnswerSet, AnswerSet))): Task {
    Task(parts.0, parts.1.0, parts.1.1)
  }

  function TaskReader(data: seq<Byte>): Reader<Task> {
    Convert(Both(TextReader(data), Both(AnswersReader(data), AnswersReader(data))), MakeTask)
  }

  /** Record `i`, through the offset table. */
  function ThroughTable<T>(word: Reader<nat>, read: Reader<T>, i: nat): Read<T> {
    match word(4 + 4 * i)
    case Short => Short
    case Got(offset, _) => read(offset)
  }

  function ReadRecord(data: seq<Byte>, i: nat): Read<Task> {
    ThroughTable(U32Reader(data), TaskReader(data), i)
  }

  /******* The reader inverts the encoders *******/

  lemma RawDecodes(data: seq<Byte>, bs: seq<Byte>)
    ensures Decodes(data, RawReader(data, |bs|), bs, bs)
  {
    forall p: nat | p <= |data| && At(data, p, bs)
      ensures p + |bs| <= |data| && RawReader(data, |bs|)(p) == Got(bs, p + |bs|)
    {
      AtSlice(data, p, bs);
    }
  }

  lemma U32Decodes(data: seq<Byte>, n: nat)
    requires n <= MAX_U32
    ensures Decodes(data, U32Reader(data), Pack(n, 4), n)
  {
    PackU32(n);
    RawDecodes(data, Pack(n, 4));
  }

  lemma TextDecodes(data: seq<Byte>, t: Text)
    requires |t| <= MAX_U32
    ensures Decodes(data, TextReader(data), EncodeText(t), t)
  {
    U32Decodes(data, |t|);
    RawDecodes(data, t);
    BindDecodes<nat, Text>(data, U32Reader(data), RawReaderOf(data), Pack(|t|, 4), t, |t|, t);
  }

  lemma MarkDecodes(data: seq<Byte>, m: int)
    requires -0x8000_0000 <= m < 0x8000_0000
    ensures Decodes(data, MarkReader(data), EncodeMark(m), m)
  {
    U32Decodes(data, m % 0x1_0000_0000);
    ConvertDecodes<nat, int>(data, U32Reader(data), SignedWord, EncodeMark(m), m % 0x1_0000_0000);
  }

  predicate AnswersFit(a: AnswerSet) {
    && |a.labels| == |a.marks| <= MAX_U32
    && (forall i :: 0 <= i < |a.labels| ==> |a.labels[i]| <= MAX_U32)
    && (forall i :: 0 <= i < |a.marks| ==> -0x8000_0000 <= a.marks[i] < 0x8000_0000)
  }

  predicate TaskFits(t: Task) {
    |t.question| <= MAX_U32 && AnswersFit(t.first) && AnswersFit(t.second)
  }

  lemma TextsDecode(data: seq<Byte>, texts: seq<Text>)
    requires forall i :: 0 <= i < |texts| ==> |texts[i]| <= MAX_U32
    ensures Decodes(data, Times(TextReader(data), |texts|), Flatten(Map(EncodeText, texts)), texts)
  {
    forall i | 0 <= i < |texts| ensures Decodes(data, TextReader(data), Map(EncodeText, texts)[i], texts[i]) {
      TextDecodes(data, texts[i]);
    }
    TimesDecode(data, TextReader(data), Map(EncodeText, texts), texts);
  }

  lemma MarksDecode(data: seq<Byte>, marks: seq<int>)
    requires forall i :: 0 <= i < |marks| ==> -0x8000_0000 <= marks[i] < 0x8000_0000
    ensures Decodes(data, Times(MarkReader(data), |marks|), Flatten(Map(EncodeMark, marks)), marks)
  {
    forall i | 0 <= i < |marks| ensures Decodes(data, MarkReader(data), Map(EncodeMark, marks)[i], marks[i]) {
      MarkDecodes(data, marks[i]);
    }
    TimesDecode(data, MarkReader(data), Map(EncodeMark, marks), marks);
  }

  lemma AnswersDecode(data: seq<Byte>, a: AnswerSet)
    requires AnswersFit(a)
    ensures Decodes(data, AnswersReader(data), EncodeAnswers(a), a)
  {
    var n, labels, marks := |a.labels|, Flatten(Map(EncodeText, a.labels)), Flatten(Map(EncodeMark, a.marks));
    TextsDecode(data, a.labels);
    MarksDecode(data, a.marks);
    BothDecode(data, Times(TextReader(data), n), Times(MarkReader(data), n), labels, marks, a.labels, a.marks);
    ConvertDecodes(data, Both(Times(TextReader(data), n), Times(MarkReader(data), n)), MakeAnswers, labels + marks,
                   (a.labels, a.marks));
    U32Decodes(data, n);
    BindDecodes<nat, AnswerSet>(data, U32Reader(data), AnswersOf(data), Pack(n, 4), labels + marks, n, a);
  }

  lemma TaskDecodes(data: seq<Byte>, t: Task)
    requires TaskFits(t)
    ensures Decodes(data, TaskReader(data), EncodeTask(t), t)
  {
    var text, answers := TextReader(data), AnswersReader(data);
    var first, second := EncodeAnswers(t.first), EncodeAnswers(t.second);
    TextDecodes(data, t.question);
    AnswersDecode(data, t.first);
    AnswersDecode(data, t.second);
    BothDecode(data, answers, answers, first, second, t.first, t.second);
    var lists := (t.first, t.second);
    BothDecode(data, text, Both(answers, answers), EncodeText(t.question), first + second, t.question, lists);
    ConvertDecodes(data, Both(text, Both(answers, answers)), MakeTask, EncodeTask(t), (t.question, lists));
  }

  /******* A laid-out fixture *******/

  lemma {:induction false} TableSize(table: seq<nat>)
    ensures |Flatten(Map(EncodeOffset, table))| == 4 * |table|
  {
    if table != [] {
      assert Map(EncodeOffset, table)[1..] == Map(EncodeOffset, table[1..]);
      TableSize(table[1..]);
    }
  }

  lemma ThreeParts(head: seq<Byte>, table: seq<Byte>, body: seq<Byte>)
    ensures var data := head + (table + body);
            At(data, 0, head) && At(data, |head|, table) && At(data, |head| + |table|, body)
  {
    var data := head + (table + body);
    AtSlice(data, 0, data);
    AtConcat(data, 0, head, table + body);
    AtConcat(data, |head|, table, body);
  }

  lemma LayoutParts(records: seq<seq<Byte>>)
    ensures At(Layout(records), 0, Pack(|records|, 4))
    ensures At(Layout(records), 4, Flatten(Map(EncodeOffset, Offsets(records))))
    ensures At(Layout(records), 4 + 4 * |records|, Flatten(records))
    ensures |Layout(records)| == 4 + 4 * |records| + |Flatten(records)|
  {
    TableSize(Offsets(records));
    ThreeParts(Pack(|records|, 4), Flatten(Map(EncodeOffset, Offsets(records))), Flatten(records));
  }

  /** The records tile the buffer: each one starts after the table and ends where the
      next one starts, and the last one ends the buffer. */
  lemma RecordsTile(records: seq<seq<Byte>>, i: nat)
    requires i < |records|
    ensures Offset(records, i + 1) == Offset(records, i) + |records[i]|
    ensures Offset(records, 0) == 4 + 4 * |records| && |Layout(records)| == Offset(records, |records|)
    ensures At(Layout(records), Offset(records, i), records[i])
  {
    LayoutParts(records);
    assert records[..|records|] == records;
    assert records[..i + 1] == records[..i] + [records[i]];
    FlattenSnoc(records[..i], records[i]);
    AtFlatten(Layout(records), 4 + 4 * |records|, records, i);
  }

  lemma {:induction false} OffsetBound(records: seq<seq<Byte>>, i: nat)
    requires i <= |records|
    ensures Offset(records, i) <= |Layout(records)|
    decreases |records| - i
  {
    LayoutParts(records);
    assert records[..|records|] == records;
    if i < |records| {
      RecordsTile(records, i);
      OffsetBound(records, i + 1);
    }
  }

  /** The table holds each record's position. */
  lemma {:induction false} TableEntry(data: seq<Byte>, pos: nat, table: seq<nat>, i: nat)
    requires i < |table| && At(data, pos, Flatten(Map(EncodeOffset, table)))
    ensures At(data, pos + 4 * i, EncodeOffset(table[i]))
    decreases i
  {
    var chunks := Map(EncodeOffset, table);
    AtConcat(data, pos, chunks[0], Flatten(chunks[1..]));
    if i > 0 {
      assert chunks[1..] == Map(EncodeOffset, table[1..]);
      TableEntry(data, pos + 4, table[1..], i - 1);
    }
  }

  lemma EntryInLayout(records: seq<seq<Byte>>, i: nat)
    requires i < |records|
    ensures At(Layout(records), 4 + 4 * i, EncodeOffset(Offset(records, i)))
    ensures 4 + 4 * i <= |Layout(records)|
  {
    LayoutParts(records);
    TableEntry(Layout(records), 4, Offsets(records), i);
  }

  /** What rendering produces, up to the length of a question. */
  predicate Answerable(r: Rendered) {
    && |r.question| <= MAX_U32 && |r.labels| <= MAX_U32
    && forall k :: 0 <= k < |r.labels| ==> |r.labels[k]| <= MAX_U32
  }

  lemma RecordDecodes(data: seq<Byte>, r: Rendered)
    requires Answerable(r)
    ensures Decodes(data, TaskReader(data), Record(r), TaskOf(r)) && |Record(r)| > 0
  {
    TaskDecodes(data, TaskOf(r));
  }

  lemma RecordFound<T>(data: seq<Byte>, records: seq<seq<Byte>>, word: Reader<nat>, read: Reader<T>, i: nat, t: T)
    requires data == Layout(records) && i < |records|
    requires Decodes(data, word, EncodeOffset(Offset(records, i)), Offset(records, i))
    requires Decodes(data, read, records[i], t)
    ensures ThroughTable(word, read, i) == Got(t, Offset(records, i + 1))
  {
    EntryInLayout(records, i);
    RecordsTile(records, i);
    OffsetBound(records, i);
    assert word(4 + 4 * i) == Got(Offset(records, i), 8 + 4 * i);
    assert read(Offset(records, i)) == Got(t, Offset(records, i + 1));
  }

  lemma RecordInLayout(data: seq<Byte>, rs: seq<Rendered>, i: nat)
    requires i < |rs| && Answerable(rs[i]) && OffsetsFit(Records(rs)) && data == Layout(Records(rs))
    ensures Offset(Records(rs), i) < Offset(Records(rs), i + 1)
    ensures ReadRecord(data, i) == Got(TaskOf(rs[i]), Offset(Records(rs), i + 1))
  {
    RecordDecodes(data, rs[i]);
    U32Decodes(data, Offset(Records(rs), i));
    RecordsTile(Records(rs), i);
    RecordFound(data, Records(rs), U32Reader(data), TaskReader(data), i, TaskOf(rs[i]));
  }

  /** In every serialized suite, offsets increase strictly from the end of the table,
      the records tile the buffer to its end, and reading through the table returns
      each case's task. */
  lemma RecordAtOffset(cases: seq<Case>, i: nat)
    requires Serialized(cases).Ok? && i < |cases|
    ensures var data, records := Serialized(cases).value, Records(Map(Render, cases));
            && Offset(records, 0) == 4 + 4 * |cases| && Offset(records, |cases|) == |data|
            && Offset(records, i) < Offset(records, i + 1)
            && ReadRecord(data, i) == Got(TaskOf(Render(cases[i])), Offset(records, i + 1))
            && Presents(ReadRecord(data, i).value, cases[i])
  {
    var data, rs := Serialized(cases).value, Map(Render, cases);
    TaskPresents(cases[i]);
    RecordsTile(Records(rs), i);
    RecordInLayout(data, rs, i);
  }

  /** So, through the table and the lines of the prompt, a reader gets each case's choices
      back, and the marked one is its answer, when the choices have no line breaks. */
  lemma ChoicesReadBack(cases: seq<Case>, i: nat)
    requires Serialized(cases).Ok? && i < |cases|
    requires forall k :: 0 <= k < |cases[i].choices| ==> OneLine(cases[i].choices[k])
    ensures var read := ReadRecord(Serialized(cases).value, i);
            read.Got? && ChoicesRead(read.value) == cases[i].choices
            && Marked(read.value) == Some(cases[i].choices[cases[i].answer])
  {
    RecordAtOffset(cases, i);
    ReadsChoices(ReadRecord(Serialized(cases).value, i).value, cases[i]);
  }

  lemma HeadOfLayout(data: seq<Byte>, records: seq<seq<Byte>>, word: Reader<nat>)
    requires data == Layout(records) && Decodes<nat>(data, word, Pack(|records|, 4), |records|)
    ensures word(0) == Got(|records|, 4)
  {
    LayoutParts(records);
  }

  lemma BodyLies(records: seq<seq<Byte>>)
    ensures 4 + 4 * |records| <= |Layout(records)|
    ensures Layout(records)[4 + 4 * |records|..] == Flatten(records)
  {
    TableSize(Offsets(records));
  }

  /** A serialized suite is the encoding of its rendered cases, which have room for
      their labels. */
  lemma SuiteIsEncoded(cases: seq<Case>)
    requires Serialized(cases).Ok?
    ensures cases != [] && Serialized(cases) == Encoded(Map(Render, cases))
    ensures forall i :: 0 <= i < |cases| ==> Answerable(Map(Render, cases)[i])
  {
    forall i | 0 <= i < |cases| ensures Answerable(Map(Render, cases)[i]) {}
  }

  /** A count, and behind the table that many things in a row. */
  function Counted<T>(word: Reader<nat>, read: Reader<T>): Read<seq<T>> {
    match word(0)
    case Short => Short
    case Got(n, _) => ListFrom(read, 4 + 4 * n, n)
  }

  lemma CountedIs<T>(word: Reader<nat>, read: Reader<T>, n: nat, xs: seq<T>, end: nat)
    requires word(0) == Got(n, 4) && ListFrom(read, 4 + 4 * n, n) == Got(xs, end)
    ensures Counted(word, read) == Got(xs, end)
  {}

  /** The whole fixture. */
  function ReadAll(data: seq<Byte>): Read<seq<Task>> {
    Counted(U32Reader(data), TaskReader(data))
  }

  lemma BodyFound<T>(data: seq<Byte>, start: nat, records: seq<seq<Byte>>, read: Reader<T>, values: seq<T>)
    requires start <= |data| && data[start..] == Flatten(records) && AllDecode(data, read, records, values)
    ensures ListFrom(read, start, |records|) == Got(values, |data|)
  {
    AtSlice(data, start, data[start..]);
    ListFound(data, read, start, records, values);
  }

  lemma CountedFound<T>(data: seq<Byte>, start: nat, records: seq<seq<Byte>>, word: Reader<nat>, read: Reader<T>,
                        values: seq<T>)
    requires start == 4 + 4 * |records| <= |data| && data[start..] == Flatten(records)
    requires word(0) == Got(|records|, 4) && AllDecode(data, read, records, values)
    ensures Counted(word, read) == Got(values, |data|)
  {
    BodyFound(data, start, records, read, values);
    CountedIs(word, read, |records|, values, |data|);
  }

  lemma AllRecordsDecode(data: seq<Byte>, rs: seq<Rendered>)
    requires forall i :: 0 <= i < |rs| ==> Answerable(rs[i])
    ensures AllDecode(data, TaskReader(data), Records(rs), Map(TaskOf, rs))
  {
    forall i | 0 <= i < |rs| ensures Decodes(data, TaskReader(data), Record(rs[i]), TaskOf(rs[i])) {
      RecordDecodes(data, rs[i]);
    }
  }

  lemma LayoutInOrder(rs: seq<Rendered>, data: seq<Byte>)
    requires data == Layout(Records(rs)) && |rs| <= MAX_U32
    requires forall i :: 0 <= i < |rs| ==> Answerable(rs[i])
    ensures ReadAll(data) == Got(Map(TaskOf, rs), |data|)
  {
    AllRecordsDecode(data, rs);
    LayoutCounted(data, Records(rs), TaskReader(data), Map(TaskOf, rs));
  }

  lemma LayoutCounted<T>(data: seq<Byte>, records: seq<seq<Byte>>, read: Reader<T>, values: seq<T>)
    requires data == Layout(records) && |records| <= MAX_U32 && AllDecode(data, read, records, values)
    ensures Counted(U32Reader(data), read) == Got(values, |data|)
  {
    U32Decodes(data, |records|);
    HeadOfLayout(data, records, U32Reader(data));
    BodyLies(records);
    CountedFound(data, 4 + 4 * |records|, records, U32Reader(data), read, values);
  }

  lemma CountFits(records: seq<seq<Byte>>)
    requires OffsetsFit(records)
    ensures |records| <= MAX_U32
  {
    if records != [] { assert Offset(records, 0) <= MAX_U32; }
  }

  /** The task of case `i` as it is read in order. */
  predicate ReadAlike(data: seq<Byte>, tasks: seq<Task>, cases: seq<Case>, i: nat)
    requires i < |cases| == |tasks|
  {
    Presents(tasks[i], cases[i]) && ReadRecord(data, i).Got? && ReadRecord(data, i).value == tasks[i]
  }

  lemma TaskReadAlike(cases: seq<Case>, i: nat)
    requires Serialized(cases).Ok? && i < |cases|
    ensures ReadAlike(Serialized(cases).value, Map(TaskOf, Map(Render, cases)), cases, i)
  {
    RecordAtOffset(cases, i);
  }

  lemma AllReadAlike(cases: seq<Case>, tasks: seq<Task>)
    requires Serialized(cases).Ok? && tasks == Map(TaskOf, Map(Render, cases))
    ensures |tasks| == |cases| && forall i :: 0 <= i < |cases| ==> ReadAlike(Serialized(cases).value, tasks, cases, i)
  {
    forall i | 0 <= i < |cases| ensures ReadAlike(Serialized(cases).value, tasks, cases, i) {
      TaskReadAlike(cases, i);
    }
  }

  /** In every serialized suite, reading the count, and behind the table that many records
      one after the other, ends with the buffer and returns, case by case, the tasks
      that are read through the table. */
  lemma ReadInOrderInverts(cases: seq<Case>)
    requires Serialized(cases).Ok?
    ensures var data, all := Serialized(cases).value, ReadAll(Serialized(cases).value);
            && all.Got? && all.next == |data| && |all.value| == |cases|
            && forall i :: 0 <= i < |cases| ==> ReadAlike(data, all.value, cases, i)
  {
    SuiteIsEncoded(cases);
    CountFits(Records(Map(Render, cases)));
    LayoutInOrder(Map(Render, cases), Serialized(cases).value);
    AllReadAlike(cases, ReadAll(Serialized(cases).value).value);
  }
}
