/** The shell command a sandboxed script runs as, against word splitting by a POSIX shell
    (POSIX.1-2017 Shell Command Language, sections 2.2.1 to 2.2.3 and 2.3). */
module ShellQuote {
  import opened JsText

  // ----- the printer

  /** `value.replaceAll` of each quote by a quote closed, one in double quotes, and one reopened. */
  function Spliced(value: string): string {
    if value == "" then ""
    else (if value[0] == '\'' then "'\"'\"'" else [value[0]]) + Spliced(value[1..])
  }

  function Quote(value: string): string {
    "'" + Spliced(value) + "'"
  }

  function Quoted(args: seq<string>): seq<string> {
    seq(|args|, i requires 0 <= i < |args| => Quote(args[i]))
  }

  function Command(args: seq<string>): string {
    Join(Quoted(args), " ")
  }

  // ----- the shell

  datatype Mode = Plain | Escaped | Single | Double | DoubleEscaped

  /** What the shell has read: finished words and the word in progress, or an unquoted
      character that it acts upon instead of keeping. */
  datatype Scan =
    | Scan(mode: Mode, word: string, inWord: bool, done: seq<string>)
    | Active

  datatype Outcome = Words(words: seq<string>) | Open | Acts

  /** Section 2.2: the characters that mean something unquoted, here or in some position. */
  predicate Special(c: char) {
    c in "|&;<>()$`*?[#~=%{}!\n"
  }

  function Put(st: Scan, mode: Mode, text: string): Scan
    requires st.Scan?
  {
    Scan(mode, st.word + text, true, st.done)
  }

  function Feed(st: Scan, c: char): Scan {
    if st.Active? then Active
    else
      (match st.mode
       case Plain =>
         if c == ' ' || c == '\t' then Scan(Plain, "", false, Ended(st))
         else if c == '\\' then st.(mode := Escaped)
         else if c == '\'' then Put(st, Single, "")
         else if c == '"' then Put(st, Double, "")
         else if Special(c) then Active
         else Put(st, Plain, [c])
       case Escaped => if c == '\n' then st.(mode := Plain) else Put(st, Plain, [c])
       case Single => if c == '\'' then st.(mode := Plain) else Put(st, Single, [c])
       case Double =>
         if c == '"' then st.(mode := Plain)
         else if c == '\\' then st.(mode := DoubleEscaped)
         else if c == '$' || c == '`' then Active
         else Put(st, Double, [c])
       case DoubleEscaped =>
         if c == '\n' then st.(mode := Double)
         else if c in "$`\"\\" then Put(st, Double, [c])
         else Put(st, Double, ['\\', c]))
  }

  function Ended(st: Scan): seq<string>
    requires st.Scan?
  {
    if st.inWord then st.done + [st.word] else st.done
  }

  function Run(st: Scan, text: string): Scan
    decreases |text|
  {
    if text == "" then st else Run(Feed(st, text[0]), text[1..])
  }

  const START: Scan := Scan(Plain, "", false, [])

  function Split(text: string): Outcome {
    var st := Run(START, text);
    if st.Active? then Acts
    else if st.mode != Plain then Open
    else Words(Ended(st))
  }

  // ----- the round trip

  lemma {:induction false} RunConcat(st: Scan, a: string, b: string)
    ensures Run(st, a + b) == Run(Run(st, a), b)
    decreases |a|
  {
    hide Feed;
    if a == "" {
      assert a + b == b;
    } else {
      RunConcat(Feed(st, a[0]), a[1..], b);
      assert (a + b)[1..] == a[1..] + b;
    }
  }

  /** Between its outer quotes a value is read letter by letter. */
  lemma {:induction false} SplicedRun(word: string, done: seq<string>, value: string)
    ensures Run(Scan(Single, word, true, done), Spliced(value)) == Scan(Single, word + value, true, done)
    decreases |value|
  {
    var st := Scan(Single, word, true, done);
    if value == "" {
      assert word + value == word;
    } else {
      var head := if value[0] == '\'' then "'\"'\"'" else [value[0]];
      HeadRun(word, done, value[0]);
      RunConcat(st, head, Spliced(value[1..]));
      SplicedRun(word + [value[0]], done, value[1..]);
      assert word + [value[0]] + value[1..] == word + value;
    }
  }

  lemma HeadRun(word: string, done: seq<string>, c: char)
    ensures Run(Scan(Single, word, true, done), if c == '\'' then "'\"'\"'" else [c])
         == Scan(Single, word + [c], true, done)
  {
    var st := Scan(Single, word, true, done);
    if c == '\'' {
      var a := Scan(Plain, word, true, done);
      var b := Scan(Double, word, true, done);
      var d := Scan(Double, word + [c], true, done);
      assert Feed(st, '\'') == a;
      assert Feed(a, '"') == b by { assert word + "" == word; }
      assert Feed(b, '\'') == d;
      assert Feed(d, '"') == Scan(Plain, word + [c], true, done);
      assert Feed(Scan(Plain, word + [c], true, done), '\'') == Scan(Single, word + [c], true, done)
        by { assert word + [c] + "" == word + [c]; }
      hide Feed;
      assert Run(d, "\"'") == Scan(Single, word + [c], true, done) by {
        assert "\"'"[1..] == "'";
        assert Run(Scan(Plain, word + [c], true, done), "'") == Run(Scan(Single, word + [c], true, done), "'"[1..]);
      }
      assert Run(a, "\"'\"'") == Run(d, "\"'") by {
        assert "\"'\"'"[1..] == "'\"'";
        assert "'\"'"[1..] == "\"'";
      }
      assert "'\"'\"'"[1..] == "\"'\"'";
    } else {
      assert Run(st, [c]) == Run(Feed(st, c), []);
    }
  }

  lemma QuoteRun(done: seq<string>, value: string)
    ensures Run(Scan(Plain, "", false, done), Quote(value)) == Scan(Plain, value, true, done)
  {
    var st := Scan(Plain, "", false, done);
    assert Feed(st, '\'') == Scan(Single, "", true, done);
    assert Quote(value) == "'" + (Spliced(value) + "'");
    RunConcat(st, "'", Spliced(value) + "'");
    RunConcat(Scan(Single, "", true, done), Spliced(value), "'");
    SplicedRun("", done, value);
    assert "" + value == value;
    assert Run(Scan(Single, value, true, done), "'") == Scan(Plain, value, true, done);
  }

  lemma {:induction false} CommandRun(done: seq<string>, args: seq<string>)
    requires args != []
    ensures Run(Scan(Plain, "", false, done), Command(args))
         == Scan(Plain, args[|args| - 1], true, done + args[..|args| - 1])
    decreases |args|
  {
    QuoteRun(done, args[0]);
    var rest := args[1..];
    if rest != [] {
      assert Quoted(args)[1..] == Quoted(rest);
      hide Quote, Run, Feed;
      assert Command(args) == Quote(args[0]) + (" " + Command(rest));
      RunConcat(Scan(Plain, "", false, done), Quote(args[0]), " " + Command(rest));
      RunConcat(Scan(Plain, args[0], true, done), " ", Command(rest));
      SpaceRun(args[0], done);
      CommandRun(done + [args[0]], rest);
      assert done + [args[0]] + rest[..|rest| - 1] == done + args[..|args| - 1];
    }
  }

  lemma SpaceRun(word: string, done: seq<string>)
    ensures Run(Scan(Plain, word, true, done), " ") == Scan(Plain, "", false, done + [word])
  {
  }

  /** The shell reads back exactly the arguments, with nothing left to expand or act upon. */
  lemma RoundTrip(args: seq<string>)
    ensures Split(Command(args)) == Words(args)
  {
    if args != [] {
      CommandRun([], args);
      assert [] + args[..|args| - 1] + [args[|args| - 1]] == args;
    }
  }

  /** Different argument lists never share a command. */
  lemma CommandInjective(a: seq<string>, b: seq<string>)
    ensures Command(a) == Command(b) <==> a == b
  {
    RoundTrip(a);
    RoundTrip(b);
  }
}
