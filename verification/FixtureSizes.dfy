/** Which suites the serializers accept, and where their records lie, from lengths alone. */
module FixtureSizes {
  import opened Wrappers
  import opened Bytes
  import opened Fixture

  function TotalLength(texts: seq<Text>): nat {
    if texts == [] then 0 else |texts[0]| + TotalLength(texts[1..])
  }

  /** The prompt: the words around question and choices, and for every choice a label, a
      point, a space and a line break. */
  function PromptSize(c: Case): nat {
    18 + |c.question| + TotalLength(c.choices) + 4 * |c.choices|
  }

  /** The record: the prompt and two answer sets with their lengths, and for every choice a
      label of one byte with its length and a mark. */
  function RecordSize(c: Case): nat {
    PromptSize(c) + 9 * |c.choices| + 12
  }

  function SizeBefore(cases: seq<Case>, i: nat): nat
    requires i <= |cases|
  {
    if i == 0 then 0 else SizeBefore(cases, i - 1) + RecordSize(cases[i - 1])
  }

  /** Where the record of a case starts, behind the count, the table and earlier records. */
  function StartOf(cases: seq<Case>, i: nat): nat
    requires i <= |cases|
  {
    4 + 4 * |cases| + SizeBefore(cases, i)
  }

  /** Two to 26 choices, an answer among them, and a prompt of at most 32 bits of length. */
  predicate Writable(c: Case) {
    2 <= |c.choices| <= 26 && c.answer < |c.choices| && PromptSize(c) < 0x1_0000_0000
  }

  /******* Lengths *******/

  lemma {:induction false} JoinedLength(lines: seq<Text>)
    requires lines != []
    ensures |Joined(lines)| == TotalLength(lines) + |lines| - 1
  {
    if |lines| > 1 { JoinedLength(lines[1..]); }
  }

  lemma {:induction false} LinesLength(lines: seq<Text>, choices: seq<Text>)
    requires |lines| == |choices| && forall i :: 0 <= i < |lines| ==> |lines[i]| == |choices[i]| + 3
    ensures TotalLength(lines) == TotalLength(choices) + 3 * |choices|
  {
    if lines != [] { LinesLength(lines[1..], choices[1..]); }
  }

  lemma PromptLength(c: Case)
    requires 2 <= |c.choices| <= 26
    ensures |Question(c)| == PromptSize(c)
  {
    var lines := seq(|c.choices|, i requires 0 <= i < |c.choices| => Label(i) + Ascii(". ") + c.choices[i]);
    JoinedLength(lines);
    LinesLength(lines, c.choices);
  }

  lemma {:induction false} LabelsLength(labels: seq<Text>)
    requires forall i :: 0 <= i < |labels| ==> |labels[i]| == 1
    ensures |Flatten(Map(EncodeText, labels))| == 5 * |labels|
  {
    if labels != [] {
      assert Map(EncodeText, labels)[1..] == Map(EncodeText, labels[1..]);
      LabelsLength(labels[1..]);
    }
  }

  lemma {:induction false} MarksLength(marks: seq<int>)
    ensures |Flatten(Map(EncodeMark, marks))| == 4 * |marks|
  {
    if marks != [] {
      assert Map(EncodeMark, marks)[1..] == Map(EncodeMark, marks[1..]);
      MarksLength(marks[1..]);
    }
  }

  lemma RecordLength(c: Case)
    requires 2 <= |c.choices| <= 26
    ensures |Record(Render(c))| == RecordSize(c)
  {
    var t := TaskOf(Render(c));
    PromptLength(c);
    LabelsLength(t.first.labels);
    MarksLength(t.first.marks);
    LabelsLength([]);
    MarksLength([]);
  }

  /******* Positions *******/

  lemma OneFurther(records: seq<seq<Byte>>, i: nat)
    requires 0 < i <= |records|
    ensures |Flatten(records[..i])| == |Flatten(records[..i - 1])| + |records[i - 1]|
  {
    assert records[..i] == records[..i - 1] + [records[i - 1]];
    FlattenSnoc(records[..i - 1], records[i - 1]);
  }

  lemma {:induction false} LengthBefore(records: seq<seq<Byte>>, cases: seq<Case>, i: nat)
    requires i <= |cases| == |records| && forall j :: 0 <= j < |cases| ==> |records[j]| == RecordSize(cases[j])
    ensures |Flatten(records[..i])| == SizeBefore(cases, i)
  {
    if i > 0 {
      LengthBefore(records, cases, i - 1);
      OneFurther(records, i);
    }
  }

  lemma RecordsBefore(cases: seq<Case>, i: nat)
    requires i <= |cases| && forall j :: 0 <= j < |cases| ==> 2 <= |cases[j].choices| <= 26
    ensures |Flatten(Records(Map(Render, cases))[..i])| == SizeBefore(cases, i)
  {
    var records := Records(Map(Render, cases));
    forall j | 0 <= j < |cases| ensures |records[j]| == RecordSize(cases[j]) { RecordLength(cases[j]); }
    LengthBefore(records, cases, i);
  }

  lemma OffsetIs(cases: seq<Case>, i: nat)
    requires i <= |cases| && forall j :: 0 <= j < |cases| ==> 2 <= |cases[j].choices| <= 26
    ensures Offset(Records(Map(Render, cases)), i) == StartOf(cases, i)
  {
    RecordsBefore(cases, i);
  }

  /** Prompts and positions fit exactly when their sizes do. */
  lemma EncodedIff(cases: seq<Case>)
    requires forall i :: 0 <= i < |cases| ==> 2 <= |cases[i].choices| <= 26
    ensures Encoded(Map(Render, cases)).Ok?
       <==> forall i :: 0 <= i < |cases| ==> PromptSize(cases[i]) < 0x1_0000_0000 && StartOf(cases, i) < 0x1_0000_0000
  {
    var rs := Map(Render, cases);
    forall i | 0 <= i < |cases|
      ensures |rs[i].question| == PromptSize(cases[i]) && Offset(Records(rs), i) == StartOf(cases, i)
    {
      PromptLength(cases[i]);
      OffsetIs(cases, i);
    }
  }

  /** The serializer accepts exactly the non-empty suites of writable cases whose records all
      start below two to the 32; then the record of each case starts there, and the
      buffer ends where a further record would start. */
  lemma SerializedIff(cases: seq<Case>)
    ensures Serialized(cases).Ok?
       <==> cases != [] && forall i :: 0 <= i < |cases| ==> Writable(cases[i]) && StartOf(cases, i) < 0x1_0000_0000
    ensures Serialized(cases).Ok? ==> |Serialized(cases).value| == StartOf(cases, |cases|)
    ensures Serialized(cases).Ok? ==>
              forall i :: 0 <= i < |cases| ==> Offsets(Records(Map(Render, cases)))[i] == StartOf(cases, i)
  {
    if forall i :: 0 <= i < |cases| ==> ValidCase(cases[i]) {
      EncodedIff(cases);
      if Serialized(cases).Ok? { BufferLength(cases); }
    } else {
      var i :| 0 <= i < |cases| && !ValidCase(cases[i]);
      assert !Writable(cases[i]);
    }
  }

  lemma {:induction false} TableLength(offsets: seq<nat>)
    ensures |Flatten(Map(EncodeOffset, offsets))| == 4 * |offsets|
  {
    if offsets != [] {
      assert Map(EncodeOffset, offsets)[1..] == Map(EncodeOffset, offsets[1..]);
      TableLength(offsets[1..]);
    }
  }

  lemma BufferLength(cases: seq<Case>)
    requires Serialized(cases).Ok?
    ensures |Serialized(cases).value| == StartOf(cases, |cases|)
    ensures forall i :: 0 <= i < |cases| ==> Offsets(Records(Map(Render, cases)))[i] == StartOf(cases, i)
  {
    LayoutLength(Records(Map(Render, cases)));
    OffsetIs(cases, |cases|);
    forall i | 0 <= i < |cases| ensures Offset(Records(Map(Render, cases)), i) == StartOf(cases, i) {
      OffsetIs(cases, i);
    }
  }

  lemma LayoutLength(records: seq<seq<Byte>>)
    ensures |Layout(records)| == Offset(records, |records|)
  {
    TableLength(Offsets(records));
    assert records[..|records|] == records;
  }
}
