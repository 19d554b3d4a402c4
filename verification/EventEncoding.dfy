/** Event-stream text as a server writes it (section 9.2 of the WHATWG HTML standard, with
    LF and CRLF line endings in any mixture), and the proof that the decoder reads it back. */
module EventEncoding {
  import opened JsText
  import opened EventStream

  /** A `data:` line, with any white space after the colon or none, or any other line
      (`event: …`, `id: …`, a comment), and how it ends. */
  datatype Line = Data(gap: string, text: string, crlf: bool) | Other(text: string, crlf: bool)

  /** One event, and the line ending of the blank line after it. */
  datatype Event = Event(lines: seq<Line>, crlf: bool)

  /** A line has no LF in it and does not end in CR; elsewhere a CR is a letter like others. */
  predicate Clear(s: string) {
    '\n' !in s && (s != "" ==> s[|s| - 1] != '\r')
  }

  function LineText(line: Line): string {
    match line
    case Data(gap, text, _) => "data:" + gap + text
    case Other(text, _) => text
  }

  predicate LineOk(line: Line) {
    && Clear(LineText(line))
    && match line
       case Data(gap, text, _) =>
         (forall c | c in gap :: IsSpace(c)) && (text == [] || !IsSpace(text[0]))
       case Other(text, _) => text != [] && !("data:" <= text)
  }

  predicate EventOk(e: Event) {
    e.lines != [] && forall k | 0 <= k < |e.lines| :: LineOk(e.lines[k])
  }

  function EolText(crlf: bool): string {
    if crlf then "\r\n" else "\n"
  }

  function LineTexts(lines: seq<Line>): (texts: seq<string>)
    ensures |texts| == |lines|
    ensures forall k | 0 <= k < |lines| :: texts[k] == LineText(lines[k])
  {
    if lines == [] then [] else [LineText(lines[0])] + LineTexts(lines[1..])
  }

  function EncodeLines(lines: seq<Line>): string {
    if lines == [] then "" else LineText(lines[0]) + EolText(lines[0].crlf) + EncodeLines(lines[1..])
  }

  /** The event's lines, each ended, and the blank line that ends the event. */
  function Encode(e: Event): string {
    EncodeLines(e.lines) + EolText(e.crlf)
  }

  function EncodeAll(events: seq<Event>): string {
    if events == [] then "" else Encode(events[0]) + EncodeAll(events[1..])
  }

  /** The event's data: its `data` texts on one line each. */
  function Value(e: Event): string {
    Join(Texts(e.lines), "\n")
  }

  function Texts(lines: seq<Line>): seq<string> {
    if lines == [] then []
    else (if lines[0].Data? then [lines[0].text] else []) + Texts(lines[1..])
  }

  /** What a client should see: the data of each event that has any. */
  function Values(events: seq<Event>): seq<string> {
    if events == [] then []
    else (if Value(events[0]) != "" then [Value(events[0])] else []) + Values(events[1..])
  }

  // ----- scanning one event

  predicate IsEol(e: string) {
    e == "\n" || e == "\r\n"
  }

  lemma {:induction false} ClearScan(s: string, rest: string)
    requires Clear(s)
    ensures FindBlank(s + rest) == |s| + FindBlank(rest)
  {
    if s == [] {
      assert s + rest == rest;
    } else {
      ClearScan(s[1..], rest);
      assert (s + rest)[1..] == s[1..] + rest;
      assert (s + rest)[0] == s[0] && s[0] in s;
    }
  }

  /** A line ending followed by an ordinary character is not a blank line. */
  lemma EolScan(eol: string, rest: string)
    requires IsEol(eol) && rest != [] && Eol(rest, 0) == 0 && rest[0] != '\n'
    ensures FindBlank(eol + rest) == |eol| + FindBlank(rest)
  {
    var s := eol + rest;
    if eol == "\n" {
      assert s[1..] == rest;
    } else {
      assert s[1..] == "\n" + rest;
      assert s[1..][1..] == rest;
    }
  }

  lemma EndScan(eol: string, blank: string, rest: string)
    requires IsEol(eol) && IsEol(blank)
    ensures FindBlank(eol + blank + rest) == 0 && Blank(eol + blank + rest) == |eol| + |blank|
  {
  }

  ghost predicate Written(lines: seq<Line>) {
    lines != [] && forall k | 0 <= k < |lines| :: LineText(lines[k]) != [] && Clear(LineText(lines[k]))
  }

  /** The lines without the ending of the last one. */
  function FrameText(lines: seq<Line>): string
    requires lines != []
  {
    if |lines| == 1 then LineText(lines[0])
    else LineText(lines[0]) + EolText(lines[0].crlf) + FrameText(lines[1..])
  }

  lemma {:induction false} FrameEnds(lines: seq<Line>)
    requires lines != []
    ensures EncodeLines(lines) == FrameText(lines) + EolText(lines[|lines| - 1].crlf)
  {
    hide LineText, EolText;
    var first, last := LineText(lines[0]) + EolText(lines[0].crlf), EolText(lines[|lines| - 1].crlf);
    if |lines| == 1 {
      assert lines[1..] == [] && EncodeLines([]) == "";
      assert first + "" == first;
    } else {
      FrameEnds(lines[1..]);
      assert lines[1..][|lines[1..]| - 1] == lines[|lines| - 1];
      Regroup(first, FrameText(lines[1..]), last);
    }
  }

  lemma Regroup<T>(a: seq<T>, b: seq<T>, c: seq<T>)
    ensures a + (b + c) == a + b + c
  {
  }

  /** The first blank line after an event's lines is the one written after them. */
  lemma {:induction false} FrameScan(lines: seq<Line>, eol: string, blank: string, rest: string)
    requires Written(lines) && IsEol(eol) && IsEol(blank)
    ensures FindBlank(FrameText(lines) + (eol + blank + rest)) == |FrameText(lines)|
    decreases |lines|
  {
    hide FindBlank, Blank, LineText;
    var end := eol + blank + rest;
    var first := LineText(lines[0]);
    if |lines| == 1 {
      ClearScan(first, end);
      EndScan(eol, blank, rest);
    } else {
      var tail := FrameText(lines[1..]) + end;
      var own := EolText(lines[0].crlf);
      FrameScan(lines[1..], eol, blank, rest);
      FrameHead(lines[1..]);
      EolScan(own, tail);
      ClearScan(first, own + tail);
      assert FrameText(lines) + end == first + (own + tail);
    }
  }

  lemma FrameHead(lines: seq<Line>)
    requires Written(lines)
    ensures FrameText(lines) != [] && FrameText(lines)[0] != '\n'
    ensures forall more :: Eol(FrameText(lines) + more, 0) == 0
  {
    var first := LineText(lines[0]);
    assert first[0] in first;
  }

  lemma {:induction false} LinesClear(s: string, eol: string, rest: string)
    requires Clear(s) && IsEol(eol)
    ensures Lines(s) == [s]
    ensures Lines(s + (eol + rest)) == [s] + Lines(rest)
  {
    var whole := s + (eol + rest);
    if s == [] {
      assert whole == eol + rest;
      assert whole[|eol|..] == rest && Eol(whole, 0) == |eol|;
    } else {
      LinesClear(s[1..], eol, rest);
      assert whole[1..] == s[1..] + (eol + rest) && whole[0] == s[0] && s[0] in s;
      assert Eol(whole, 0) == 0 && Eol(s, 0) == 0;
      FirstLine(s[0], s[1..], Lines(rest));
      FirstLine(s[0], s[1..], []);
      assert [s[0]] + s[1..] == s;
    }
  }

  /** What `Lines` puts in front of the lines of the rest. */
  lemma FirstLine(c: char, line: string, others: seq<string>)
    ensures ([line] + others)[0] == line && ([line] + others)[1..] == others && [line] + [] == [line]
    ensures [[c] + ([line] + others)[0]] + ([line] + others)[1..] == [[c] + line] + others
  {
  }

  /** Splitting a frame on line endings gives back the lines it was written from. */
  lemma {:induction false} LinesOfFrame(lines: seq<Line>)
    requires Written(lines)
    ensures Lines(FrameText(lines)) == LineTexts(lines)
    decreases |lines|
  {
    hide Lines, LineText;
    var first := LineText(lines[0]);
    if |lines| == 1 {
      LinesClear(first, "\n", "");
      assert LineTexts(lines) == [first];
    } else {
      var own := EolText(lines[0].crlf);
      LinesClear(first, own, FrameText(lines[1..]));
      LinesOfFrame(lines[1..]);
      assert FrameText(lines) == first + (own + FrameText(lines[1..]));
    }
  }

  lemma {:induction false} GapTrimmed(gap: string, text: string)
    requires forall c | c in gap :: IsSpace(c)
    requires text == [] || !IsSpace(text[0])
    ensures TrimStart(gap + text) == text
  {
    if gap == "" {
      assert gap + text == text;
    } else {
      assert gap[0] in gap && forall c | c in gap[1..] :: c in gap;
      GapTrimmed(gap[1..], text);
      assert (gap + text)[1..] == gap[1..] + text;
    }
  }

  lemma {:induction false} TextsRead(lines: seq<Line>)
    requires forall k | 0 <= k < |lines| :: LineOk(lines[k])
    ensures DataTexts(LineTexts(lines)) == Texts(lines)
  {
    hide TrimStart;
    if lines != [] {
      var texts := LineTexts(lines);
      assert texts[1..] == LineTexts(lines[1..]);
      TextsRead(lines[1..]);
      if lines[0].Data? {
        var gap, text := lines[0].gap, lines[0].text;
        assert texts[0] == "data:" + gap + text && texts[0][..5] == DATA;
        assert texts[0][5..] == gap + text;
        GapTrimmed(gap, text);
      }
    }
  }

  lemma WrittenLines(e: Event)
    requires EventOk(e)
    ensures Written(e.lines)
  {
    forall k | 0 <= k < |e.lines| ensures LineText(e.lines[k]) != [] && Clear(LineText(e.lines[k])) {
      assert LineOk(e.lines[k]);
    }
  }

  /** One event, with anything after it, is split off whole and read back. */
  lemma EventRead(e: Event, rest: string)
    requires EventOk(e)
    ensures var tail := SplitFrames(rest);
      SplitFrames(Encode(e) + rest) == Frames([FrameText(e.lines)] + tail.complete, tail.rest)
      && FrameData(FrameText(e.lines)) == Value(e)
  {
    var eol, blank := EolText(e.lines[|e.lines| - 1].crlf), EolText(e.crlf);
    var frame := FrameText(e.lines);
    WrittenLines(e);
    FrameEnds(e.lines);
    FrameScan(e.lines, eol, blank, rest);
    LinesOfFrame(e.lines);
    TextsRead(e.lines);
    EndScan(eol, blank, rest);
    hide *;
    assert Encode(e) == EncodeLines(e.lines) + blank by { EncodeIs(e); }
    Grouped(frame, eol, blank, rest);
    Cut(frame, eol + blank, rest);
    SplitAt(Encode(e) + rest, frame, |eol| + |blank|, rest);
  }

  lemma EncodeIs(e: Event)
    ensures Encode(e) == EncodeLines(e.lines) + EolText(e.crlf)
  {
  }

  lemma Grouped<T>(a: seq<T>, b: seq<T>, c: seq<T>, d: seq<T>)
    ensures a + b + c + d == a + (b + c + d)
  {
  }

  lemma SplitAt(whole: string, frame: string, n: nat, rest: string)
    requires FindBlank(whole) == |frame| && |frame| + n <= |whole| && Blank(whole[|frame|..]) == n > 0
    requires whole[..|frame|] == frame && whole[|frame| + n..] == rest
    ensures var tail := SplitFrames(rest);
      SplitFrames(whole) == Frames([frame] + tail.complete, tail.rest)
  {
    hide *;
    SplitStep(whole, |frame|, n);
  }

  lemma Cut<T>(a: seq<T>, b: seq<T>, c: seq<T>)
    ensures var whole := a + (b + c);
      whole[|a|..] == b + c && whole[..|a|] == a && whole[|a| + |b|..] == c
  {
  }

  /** Events written one after the other decode to their data, in order, leaving nothing. */
  lemma {:induction false} RoundTrip(events: seq<Event>)
    requires forall k | 0 <= k < |events| :: EventOk(events[k])
    ensures Decode(EncodeAll(events)) == Values(events)
    ensures SplitFrames(EncodeAll(events)).rest == ""
    decreases |events|
  {
    if events != [] {
      var e, rest := events[0], EncodeAll(events[1..]);
      EventRead(e, rest);
      RoundTrip(events[1..]);
      hide SplitFrames, FrameData, Value, Encode, FrameText;
      var frame := FrameText(e.lines);
      var tail := SplitFrames(rest);
      assert ([frame] + tail.complete)[0] == frame && ([frame] + tail.complete)[1..] == tail.complete;
    }
  }
}
