/** The line-prefixing writer of the AAMP terminal (src/aamp_terminal_output.ts, lines
    18-101), with styling taken as the identity. */
module TerminalOutput {
  import opened JsText

  const TASK_PREFIX: string := "[aamp/task]"
  const THINKING_PREFIX: string := "[agent/thinking]"
  const LINE_PREFIX: string := "  | "

  // ----- what the writes mean

  /** Everything written so far, and the writer's one field. */
  datatype State = State(out: string, lineStart: bool)

  const INIT: State := State("", true)

  datatype Write =
    | Text(text: string)
    | Task(message: string)
    | Meta(prefix: string, message: string)

  /** Agent text, letter by letter: the first letter of a line brings the prefix. */
  function Put(s: State, c: char): State {
    if c == '\n' then State(s.out + "\n", true)
    else State(s.out + (if s.lineStart then LINE_PREFIX else "") + [c], false)
  }

  function PutAll(s: State, text: string): State
    decreases |text|
  {
    if text == "" then s else PutAll(Put(s, text[0]), text[1..])
  }

  function EndLine(s: State): State {
    if s.lineStart then s else State(s.out + "\n", true)
  }

  function Next(s: State, w: Write): State {
    match w
    case Text(text) => PutAll(s, text)
    case Task(message) => State(EndLine(s).out + "\n" + TASK_PREFIX + " " + message + "\n", true)
    case Meta(prefix, message) => State(EndLine(s).out + prefix + " " + message + "\n", true)
  }

  function Run(s: State, writes: seq<Write>): State
    decreases |writes|
  {
    if writes == [] then s else Run(Next(s, writes[0]), writes[1..])
  }

  // ----- the writer

  /** `text.indexOf('\n', cursor)`, or the length where that gives -1. */
  function NewlineFrom(text: string, cursor: nat): (i: nat)
    requires cursor <= |text|
    ensures cursor <= i <= |text|
    ensures forall k | cursor <= k < i :: text[k] != '\n'
    ensures i < |text| ==> text[i] == '\n'
    decreases |text| - cursor
  {
    if cursor == |text| || text[cursor] == '\n' then cursor else NewlineFrom(text, cursor + 1)
  }

  class Writer {
    var stdout: string
    var agentLineStart: bool

    ghost function View(): State
      reads this
    {
      State(stdout, agentLineStart)
    }

    constructor ()
      ensures View() == INIT
    {
      stdout, agentLineStart := "", true;
    }

    method Out(text: string)
      modifies this`stdout
      ensures stdout == old(stdout) + text
    {
      stdout := stdout + text;
    }

    method EnsureAgentLineEnded()
      modifies this
      ensures View() == EndLine(old(View()))
    {
      if !agentLineStart {
        Out("\n");
        agentLineStart := true;
      }
    }

    method WriteTaskLine(message: string)
      modifies this
      ensures View() == Next(old(View()), Task(message))
    {
      EnsureAgentLineEnded();
      Out("\n" + TASK_PREFIX + " " + message + "\n");
      assert EndLine(old(View())).out + ("\n" + TASK_PREFIX + " " + message + "\n")
          == EndLine(old(View())).out + "\n" + TASK_PREFIX + " " + message + "\n";
    }

    method WriteAgentMetaLine(prefix: string, message: string)
      modifies this
      ensures View() == Next(old(View()), Meta(prefix, message))
    {
      EnsureAgentLineEnded();
      Out(prefix + " " + message + "\n");
      agentLineStart := true;
      assert EndLine(old(View())).out + (prefix + " " + message + "\n")
          == EndLine(old(View())).out + prefix + " " + message + "\n";
    }

    method WriteThinking(text: string)
      modifies this
      ensures View() == Next(old(View()), Meta(THINKING_PREFIX, text))
    {
      WriteAgentMetaLine(THINKING_PREFIX, text);
    }

    method WriteAgentTextSegment(segment: string)
      requires '\n' !in segment
      modifies this
      ensures View() == PutAll(old(View()), segment)
    {
      if segment == "" { return; }
      ghost var before := View();
      if agentLineStart {
        Out(LINE_PREFIX);
        agentLineStart := false;
      }
      Out(segment);
      SegmentPut(before, segment);
    }

    /** Writes up to each newline in turn, then the rest. */
    method WriteAgentText(text: string)
      modifies this
      ensures View() == Next(old(View()), Text(text))
    {
      ghost var goal := PutAll(View(), text);
      var cursor := 0;
      while cursor < |text|
        invariant cursor <= |text|
        invariant PutAll(View(), text[cursor..]) == goal
      {
        var newline := NewlineFrom(text, cursor);
        PutConcat(View(), text[cursor..newline], text[newline..]);
        assert text[cursor..newline] + text[newline..] == text[cursor..];
        WriteAgentTextSegment(text[cursor..newline]);
        if newline == |text| {
          assert text[newline..] == "";
          return;
        }
        Out("\n");
        agentLineStart := true;
        cursor := newline + 1;
        assert text[newline..][1..] == text[cursor..];
      }
      assert text[cursor..] == "";
    }
  }

  lemma {:induction false} SegmentPut(s: State, segment: string)
    requires segment != "" && '\n' !in segment
    ensures PutAll(s, segment) == State(s.out + (if s.lineStart then LINE_PREFIX else "") + segment, false)
    decreases |segment|
  {
    var t := Put(s, segment[0]);
    var head := s.out + (if s.lineStart then LINE_PREFIX else "");
    if |segment| == 1 {
      assert segment == [segment[0]];
    } else {
      SegmentPut(t, segment[1..]);
      assert head + [segment[0]] + "" + segment[1..] == head + segment;
    }
  }

  lemma {:induction false} PutConcat(s: State, a: string, b: string)
    ensures PutAll(s, a + b) == PutAll(PutAll(s, a), b)
    decreases |a|
  {
    if a == "" {
      assert a + b == b;
    } else {
      PutConcat(Put(s, a[0]), a[1..], b);
      assert (a + b)[1..] == a[1..] + b;
    }
  }

  // ----- chunking

  function Texts(pieces: seq<string>): (r: seq<Write>)
    ensures |r| == |pieces|
  {
    seq(|pieces|, i requires 0 <= i < |pieces| => Text(pieces[i]))
  }

  lemma {:induction false} RunConcat(s: State, a: seq<Write>, b: seq<Write>)
    ensures Run(s, a + b) == Run(Run(s, a), b)
    decreases |a|
  {
    hide Next;
    if a == [] {
      assert a + b == b;
    } else {
      RunConcat(Next(s, a[0]), a[1..], b);
      assert (a + b)[1..] == a[1..] + b;
    }
  }

  lemma {:induction false} PiecesRun(s: State, pieces: seq<string>)
    ensures Run(s, Texts(pieces)) == PutAll(s, Concat(pieces))
    decreases |pieces|
  {
    if pieces != [] {
      PiecesRun(PutAll(s, pieces[0]), pieces[1..]);
      PutConcat(s, pieces[0], Concat(pieces[1..]));
      assert Texts(pieces)[1..] == Texts(pieces[1..]);
    }
  }

  /** In any history, agent text prints the same whole as in any pieces. */
  lemma ChunkIndependent(before: seq<Write>, pieces: seq<string>, after: seq<Write>)
    ensures Run(INIT, before + Texts(pieces) + after) == Run(INIT, before + [Text(Concat(pieces))] + after)
  {
    hide Texts, Concat;
    var one := [Text(Concat(pieces))];
    RunConcat(INIT, before + Texts(pieces), after);
    RunConcat(INIT, before, Texts(pieces));
    RunConcat(INIT, before + one, after);
    RunConcat(INIT, before, one);
    PiecesRun(Run(INIT, before), pieces);
    OneRun(Run(INIT, before), one[0]);
  }

  // ----- the field

  predicate AtLineStart(out: string) {
    out == "" || out[|out| - 1] == '\n'
  }

  predicate Inv(s: State) {
    s.lineStart <==> AtLineStart(s.out)
  }

  lemma {:induction false} PutInv(s: State, text: string)
    requires Inv(s)
    ensures Inv(PutAll(s, text))
    decreases |text|
  {
    if text != "" {
      PutInv(Put(s, text[0]), text[1..]);
    }
  }

  /** `agentLineStart` holds exactly when nothing was written or the last thing written was
      a newline, after every public write. */
  lemma {:induction false} LineStartOverRuns(s: State, writes: seq<Write>)
    requires Inv(s)
    ensures Inv(Run(s, writes))
    decreases |writes|
  {
    if writes != [] {
      if writes[0].Text? {
        PutInv(s, writes[0].text);
      }
      LineStartOverRuns(Next(s, writes[0]), writes[1..]);
    }
  }

  // ----- the prefix

  /** `text.split('\n')`. */
  function Lines(text: string): (r: seq<string>)
    ensures r != []
  {
    if text == "" then [""]
    else
      var rest := Lines(text[1..]);
      if text[0] == '\n' then [""] + rest else [[text[0]] + rest[0]] + rest[1..]
  }

  function Marked(line: string): string {
    if line == "" then "" else LINE_PREFIX + line
  }

  /** The lines of a text as they print; the first may continue a line already begun. */
  function MarkedLines(lines: seq<string>, lineStart: bool): (r: seq<string>)
    requires lines != []
    ensures |r| == |lines|
  {
    seq(|lines|, i requires 0 <= i < |lines| => if i == 0 && !lineStart then lines[0] else Marked(lines[i]))
  }

  lemma {:induction false} LinesGlue(head: string, text: string)
    requires '\n' !in head
    ensures Lines(head + text) == [head + Lines(text)[0]] + Lines(text)[1..]
    decreases |head|
  {
    if head == "" {
      assert head + text == text;
      assert "" + Lines(text)[0] == Lines(text)[0];
    } else {
      LinesGlue(head[1..], text);
      assert (head + text)[1..] == head[1..] + text;
      assert [head[0]] + (head[1..] + Lines(text)[0]) == head + Lines(text)[0];
    }
  }

  /** What a text adds to the output. */
  function Added(lineStart: bool, text: string): string
    decreases |text|
  {
    if text == "" then ""
    else if text[0] == '\n' then "\n" + Added(true, text[1..])
    else (if lineStart then LINE_PREFIX else "") + [text[0]] + Added(false, text[1..])
  }

  lemma {:induction false} PutAdds(s: State, text: string)
    ensures PutAll(s, text).out == s.out + Added(s.lineStart, text)
    decreases |text|
  {
    if text == "" {
      assert s.out + "" == s.out;
    } else {
      var t := Put(s, text[0]);
      PutAdds(t, text[1..]);
      var head := if text[0] == '\n' then "\n" else (if s.lineStart then LINE_PREFIX else "") + [text[0]];
      assert t.out == s.out + head;
      assert s.out + head + Added(t.lineStart, text[1..]) == s.out + (head + Added(t.lineStart, text[1..]));
    }
  }

  /** Every non-empty agent line carries the prefix exactly once, at its start; empty lines
      carry none, and nothing else is added or lost. */
  lemma {:induction false} PrefixOncePerLine(lineStart: bool, text: string)
    ensures Lines(Added(lineStart, text)) == MarkedLines(Lines(text), lineStart)
    decreases |text|
  {
    if text != "" {
      var rest := text[1..];
      if text[0] == '\n' {
        PrefixOncePerLine(true, rest);
        NewlineGlue(lineStart, text);
      } else {
        PrefixOncePerLine(false, rest);
        LetterGlue(lineStart, text);
      }
    }
  }

  lemma NewlineGlue(lineStart: bool, text: string)
    requires text != "" && text[0] == '\n'
    requires Lines(Added(true, text[1..])) == MarkedLines(Lines(text[1..]), true)
    ensures Lines(Added(lineStart, text)) == MarkedLines(Lines(text), lineStart)
  {
    var rest := text[1..];
    var added := Added(true, rest);
    assert Added(lineStart, text) == "\n" + added && ("\n" + added)[1..] == added;
    assert Lines(text) == [""] + Lines(rest);
    assert Lines("\n" + added) == [""] + Lines(added);
    hide Lines, Added, MarkedLines;
    MarkedBlank(lineStart, Lines(rest));
  }

  lemma MarkedBlank(lineStart: bool, lines: seq<string>)
    requires lines != []
    ensures MarkedLines([""] + lines, lineStart) == [""] + MarkedLines(lines, true)
  {
  }

  lemma LetterGlue(lineStart: bool, text: string)
    requires text != "" && text[0] != '\n'
    requires Lines(Added(false, text[1..])) == MarkedLines(Lines(text[1..]), false)
    ensures Lines(Added(lineStart, text)) == MarkedLines(Lines(text), lineStart)
  {
    var rest := text[1..];
    var head := (if lineStart then LINE_PREFIX else "") + [text[0]];
    assert '\n' !in head;
    assert Added(lineStart, text) == head + Added(false, rest);
    assert Lines(text) == [[text[0]] + Lines(rest)[0]] + Lines(rest)[1..];
    LinesGlue(head, Added(false, rest));
    hide Lines, Added, MarkedLines;
    MarkedGlue(lineStart, text[0], Lines(rest));
  }

  lemma MarkedGlue(lineStart: bool, c: char, lines: seq<string>)
    requires lines != []
    ensures var head := (if lineStart then LINE_PREFIX else "") + [c]; var m := MarkedLines(lines, false);
      [head + m[0]] + m[1..] == MarkedLines([[c] + lines[0]] + lines[1..], lineStart)
  {
    var head := (if lineStart then LINE_PREFIX else "") + [c];
    var first := [c] + lines[0];
    var m, n := MarkedLines(lines, false), MarkedLines([first] + lines[1..], lineStart);
    assert n[0] == if lineStart then LINE_PREFIX + first else first;
    assert head + lines[0] == n[0] by {
      assert (LINE_PREFIX + [c]) + lines[0] == LINE_PREFIX + first;
      assert "" + [c] == [c];
    }
    forall i | 0 < i < |n| ensures m[i] == n[i] {
      assert ([first] + lines[1..])[i] == lines[i];
    }
    hide *;
    assert [head + m[0]] + m[1..] == n;
  }

  /** A task line or a line about the agent starts on a line of its own, after a blank line if
      it is a task line, and ends that line. */
  lemma OtherLines(before: seq<Write>, prefix: string, message: string)
    ensures var out := Run(INIT, before).out; var line := if AtLineStart(out) then out else out + "\n";
      && Run(INIT, before + [Task(message)]).out == line + "\n[aamp/task] " + message + "\n"
      && Run(INIT, before + [Meta(prefix, message)]).out == line + prefix + " " + message + "\n"
      && Run(INIT, before + [Meta(THINKING_PREFIX, message)]).out == line + "[agent/thinking] " + message + "\n"
  {
    LineStartOverRuns(INIT, before);
    RunConcat(INIT, before, [Task(message)]);
    RunConcat(INIT, before, [Meta(prefix, message)]);
    RunConcat(INIT, before, [Meta(THINKING_PREFIX, message)]);
    OneRun(Run(INIT, before), Task(message));
    OneRun(Run(INIT, before), Meta(prefix, message));
    OneRun(Run(INIT, before), Meta(THINKING_PREFIX, message));
    hide Run;
    var line := EndLine(Run(INIT, before)).out;
    assert line + "\n" + "[aamp/task]" + " " == line + "\n[aamp/task] ";
    assert line + "[agent/thinking]" + " " == line + "[agent/thinking] ";
  }

  /** The mark at the start of an agent line. */
  lemma MarkIs(line: string)
    ensures Marked(line) == if line == "" then "" else "  | " + line
  {
  }

  /** After anything but agent text, a burst of agent text in any pieces prints as its lines,
      each marked. */
  lemma BurstLines(before: seq<Write>, pieces: seq<string>)
    requires before == [] || !before[|before| - 1].Text?
    ensures var start := Run(INIT, before); var end := Run(INIT, before + Texts(pieces));
      && start.out <= end.out
      && Lines(end.out[|start.out|..]) == MarkedLines(Lines(Concat(pieces)), true)
  {
    var start := Run(INIT, before);
    LastStartsLine(before);
    RunConcat(INIT, before, Texts(pieces));
    PiecesRun(start, pieces);
    PutAdds(start, Concat(pieces));
    PrefixOncePerLine(true, Concat(pieces));
    var added := Added(true, Concat(pieces));
    assert (start.out + added)[|start.out|..] == added;
  }

  lemma LastStartsLine(before: seq<Write>)
    requires before == [] || !before[|before| - 1].Text?
    ensures Run(INIT, before).lineStart
  {
    if before != [] {
      var n := |before| - 1;
      hide Run, EndLine, PutAll;
      OneMore(before, n);
      RunConcat(INIT, before[..n], [before[n]]);
      OneRun(Run(INIT, before[..n]), before[n]);
    }
  }

  lemma OneMore(writes: seq<Write>, n: nat)
    requires n == |writes| - 1
    ensures writes == writes[..n] + [writes[n]]
  {
  }

  lemma OneRun(s: State, w: Write)
    ensures Run(s, [w]) == Next(s, w)
  {
    hide Next;
    assert [w][1..] == [];
  }
}
