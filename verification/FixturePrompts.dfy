/** The text of a multiple-choice prompt, and what a reader of its lines gets from it. */
module FixturePrompts {
  import opened Wrappers
  import opened Bytes
  import opened Fixture

  /** `body` lists the choices, each behind its label, one after the other. */
  predicate Lists(body: Text, labels: seq<Text>, choices: seq<Text>)
    requires |labels| == |choices|
    decreases |choices|
  {
    if choices == [] then body == []
    else
      var line := labels[0] + Ascii(". ") + choices[0];
      if |choices| == 1 then body == line
      else line + [10] <= body && Lists(body[|line| + 1..], labels[1..], choices[1..])
  }

  /** A prompt asks the question, lists the choices behind their labels, and asks for an
      answer, each from a new line. */
  predicate Prompts(text: Text, question: Text, labels: seq<Text>, choices: seq<Text>)
    requires |labels| == |choices|
  {
    var head, tail := Ascii("Question: ") + question + [10], [10] + Ascii("Answer:");
    && |head| + |tail| <= |text| && head <= text && text[|text| - |tail|..] == tail
    && Lists(text[|head|..|text| - |tail|], labels, choices)
  }

  /** What a task is to say of a case: its question and its choices behind the labels A, B
      and so on, a single 1 among the marks, at the answer, and an empty second set. */
  predicate Presents(t: Task, c: Case) {
    && |t.first.labels| == |t.first.marks| == |c.choices|
    && (forall k :: 0 <= k < |c.choices| ==> t.first.labels[k] == [65 + k])
    && (forall k :: 0 <= k < |c.choices| ==> t.first.marks[k] == (if k == c.answer then 1 else 0))
    && t.second.labels == [] && t.second.marks == []
    && Prompts(t.question, c.question, t.first.labels, c.choices)
  }

  lemma {:induction false} JoinedLists(labels: seq<Text>, choices: seq<Text>, lines: seq<Text>)
    requires |labels| == |choices| == |lines|
    requires forall i :: 0 <= i < |lines| ==> lines[i] == labels[i] + Ascii(". ") + choices[i]
    ensures Lists(Joined(lines), labels, choices)
    decreases |lines|
  {
    if |lines| > 1 {
      JoinedLists(labels[1..], choices[1..], lines[1..]);
      assert Joined(lines)[|lines[0]| + 1..] == Joined(lines[1..]);
    }
  }

  lemma TaskPresents(c: Case)
    requires ValidCase(c)
    ensures Presents(TaskOf(Render(c)), c)
  {
    var labels := Labels(|c.choices|);
    var lines := seq(|c.choices|, i requires 0 <= i < |c.choices| => Label(i) + Ascii(". ") + c.choices[i]);
    JoinedLists(labels, c.choices, lines);
    var head, tail := Ascii("Question: ") + c.question + [10], [10] + Ascii("Answer:");
    assert Question(c) == head + Joined(lines) + tail;
    assert Question(c)[|head|..|Question(c)| - |tail|] == Joined(lines);
  }

  /******* Reading lines *******/

  predicate OneLine(text: Text) {
    10 !in text
  }

  function FirstBreak(text: Text): (i: nat)
    ensures i <= |text| && OneLine(text[..i]) && (i < |text| ==> text[i] == 10)
  {
    if text == [] || text[0] == 10 then 0 else 1 + FirstBreak(text[1..])
  }

  /** The lines of a text. */
  function Lines(text: Text): (ls: seq<Text>)
    ensures |ls| >= 1
    decreases |text|
  {
    var i := FirstBreak(text);
    if i == |text| then [text] else [text[..i]] + Lines(text[i + 1..])
  }

  lemma BreakAt(line: Text, rest: Text)
    requires OneLine(line)
    ensures FirstBreak(line + [10] + rest) == |line|
    ensures FirstBreak(line) == |line|
  {
    var text := line + [10] + rest;
    assert text[..|line|] == line && text[|line|] == 10;
    assert forall k :: 0 <= k < |line| ==> text[k] == line[k] && line[k] in line;
  }

  lemma {:induction false} LinesApart(a: Text, b: Text)
    ensures Lines(a + [10] + b) == Lines(a) + Lines(b)
    decreases |a|
  {
    var i, text := FirstBreak(a), a + [10] + b;
    if i == |a| {
      BreakAt(a, b);
      assert text[|a| + 1..] == b && text[..|a|] == a;
    } else {
      assert a == a[..i] + [10] + a[i + 1..];
      var rest := a[i + 1..] + [10] + b;
      assert text == a[..i] + [10] + rest;
      BreakAt(a[..i], rest);
      assert text[i + 1..] == rest && text[..i] == a[..i];
      LinesApart(a[i + 1..], b);
      assert [a[..i]] + (Lines(a[i + 1..]) + Lines(b)) == [a[..i]] + Lines(a[i + 1..]) + Lines(b);
    }
  }

  /** Listed choices without line breaks are the lines of the list. */
  lemma {:induction false} ListedLines(body: Text, labels: seq<Text>, choices: seq<Text>)
    requires |labels| == |choices| > 0 && Lists(body, labels, choices)
    requires forall i :: 0 <= i < |choices| ==> OneLine(labels[i]) && OneLine(choices[i])
    ensures |Lines(body)| == |choices|
    ensures forall i :: 0 <= i < |choices| ==> Lines(body)[i] == labels[i] + Ascii(". ") + choices[i]
    decreases |choices|
  {
    var line := labels[0] + Ascii(". ") + choices[0];
    assert OneLine(Ascii(". "));
    if |choices| == 1 {
      BreakAt(line, []);
    } else {
      var rest := body[|line| + 1..];
      assert body == line + [10] + rest;
      LinesApart(line, rest);
      BreakAt(line, []);
      ListedLines(rest, labels[1..], choices[1..]);
    }
  }

  /** What a reader of lines takes as the choices: of the lines before the last one as
      many as there are labels, each without its label, the point and the space. */
  function ChoicesRead(t: Task): seq<Text> {
    var lines, n := Lines(t.question), |t.first.labels|;
    if |lines| < n + 1 then []
    else seq(n, i requires 0 <= i < n =>
           var line, skip := lines[|lines| - 1 - n + i], |t.first.labels[i]| + 2;
           if skip <= |line| then line[skip..] else [])
  }

  /** The choice whose label carries the mark. */
  function Marked(t: Task): Option<Text> {
    var k := First(t.first.marks, (m: int) => m == 1);
    if k < |ChoicesRead(t)| then Some(ChoicesRead(t)[k]) else None
  }

  lemma ThreeBlocks(head: Text, body: Text, tail: Text)
    requires OneLine(tail)
    ensures Lines(head + [10] + (body + [10] + tail)) == Lines(head) + (Lines(body) + [tail])
  {
    LinesApart(head, body + [10] + tail);
    LinesApart(body, tail);
    BreakAt(tail, []);
  }

  lemma PromptParts(text: Text, question: Text, labels: seq<Text>, choices: seq<Text>) returns (body: Text)
    requires |labels| == |choices| && Prompts(text, question, labels, choices)
    ensures text == Ascii("Question: ") + question + [10] + (body + [10] + Ascii("Answer:"))
    ensures Lists(body, labels, choices)
  {
    var head, tail := Ascii("Question: ") + question + [10], [10] + Ascii("Answer:");
    body := text[|head|..|text| - |tail|];
    assert text == head + (body + tail);
    assert body + tail == body + [10] + Ascii("Answer:");
  }

  /** The lines of a prompt end with those of its list and the last one. */
  lemma PromptLines(text: Text, question: Text, labels: seq<Text>, choices: seq<Text>)
    requires |labels| == |choices| > 0 && Prompts(text, question, labels, choices)
    requires forall i :: 0 <= i < |choices| ==> OneLine(labels[i]) && OneLine(choices[i])
    ensures var lines, n := Lines(text), |choices|;
            |lines| >= n + 1
            && forall i :: 0 <= i < n ==> lines[|lines| - 1 - n + i] == labels[i] + Ascii(". ") + choices[i]
  {
    var body := PromptParts(text, question, labels, choices);
    assert OneLine(Ascii("Answer:"));
    ThreeBlocks(Ascii("Question: ") + question, body, Ascii("Answer:"));
    ListedLines(body, labels, choices);
  }

  lemma ChoiceRead(t: Task, i: nat, choice: Text)
    requires i < |t.first.labels| < |Lines(t.question)|
    requires var lines, n := Lines(t.question), |t.first.labels|;
             lines[|lines| - 1 - n + i] == t.first.labels[i] + Ascii(". ") + choice
    ensures |ChoicesRead(t)| == |t.first.labels| && ChoicesRead(t)[i] == choice
  {
    var line := t.first.labels[i] + Ascii(". ") + choice;
    assert line[|t.first.labels[i]| + 2..] == choice;
  }

  /** The lines before the last one show the choices behind the labels. */
  predicate LinesShow(t: Task, choices: seq<Text>) {
    var lines, n := Lines(t.question), |choices|;
    && |t.first.labels| == n < |lines|
    && forall i :: 0 <= i < n ==> lines[|lines| - 1 - n + i] == t.first.labels[i] + Ascii(". ") + choices[i]
  }

  lemma ChoicesFrom(t: Task, choices: seq<Text>)
    requires LinesShow(t, choices)
    ensures |choices| > 0 ==> ChoicesRead(t) == choices
  {
    forall i | 0 <= i < |choices| ensures |ChoicesRead(t)| == |choices| && ChoicesRead(t)[i] == choices[i] {
      ChoiceRead(t, i, choices[i]);
    }
  }

  /** Reading the lines of a case's prompt gives its choices back, when these have no line
      breaks, whatever its question looks like; the marked one is the answer. */
  lemma ReadsChoices(t: Task, c: Case)
    requires ValidCase(c) && Presents(t, c) && forall i :: 0 <= i < |c.choices| ==> OneLine(c.choices[i])
    ensures ChoicesRead(t) == c.choices && Marked(t) == Some(c.choices[c.answer])
  {
    PromptLines(t.question, c.question, t.first.labels, c.choices);
    ChoicesFrom(t, c.choices);
    MarkFound(t.first.marks, c.answer);
  }

  lemma MarkFound(marks: seq<int>, answer: nat)
    requires answer < |marks|
    requires forall k :: 0 <= k < |marks| ==> marks[k] == (if k == answer then 1 else 0)
    ensures First(marks, (m: int) => m == 1) == answer
  {
    assert marks[answer] == 1;
  }
}
