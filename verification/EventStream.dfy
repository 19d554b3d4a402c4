/** The incremental event-stream decoder of the A2A client
    (src/a2a/client-executor.ts, lines 414-447). */
module EventStream {
  import opened JsText
  import opened Options

  // ----- splitting

  predicate At(s: string, i: nat, c: char) {
    i < |s| && s[i] == c
  }

  /** Length of the `\r?\n` found at index `i` of `s`, or 0. */
  function Eol(s: string, i: nat): (n: nat)
    ensures n > 0 ==> i + n <= |s|
  {
    var cr := if At(s, i, '\r') then 1 else 0;
    if At(s, i + cr, '\n') then cr + 1 else 0
  }

  /** Length of the `\r?\n\r?\n` at the head of `s`, or 0. */
  function Blank(s: string): (n: nat)
    ensures n <= |s| && n <= 4 && n != 1
  {
    var first := Eol(s, 0);
    if first > 0 && Eol(s, first) > 0 then first + Eol(s, first) else 0
  }

  /** Index of the first blank line in `s`, or `|s|`. */
  function FindBlank(s: string): (k: nat)
    ensures k <= |s|
  {
    if s == [] || Blank(s) > 0 then 0 else 1 + FindBlank(s[1..])
  }

  datatype Frames = Frames(complete: seq<string>, rest: string)

  /** `s.split(/\r?\n\r?\n/)`, with the last piece popped off. */
  function SplitFrames(s: string): (f: Frames)
    decreases |s|
  {
    var k := FindBlank(s);
    var n := Blank(s[k..]);
    if n == 0 then Frames([], s)
    else
      var tail := SplitFrames(s[k + n..]);
      Frames([s[..k]] + tail.complete, tail.rest)
  }

  /** More text cannot turn the head of `s` into a separator once one fits inside `s`. */
  lemma BlankExtends(s: string, t: string, k: nat)
    requires k < |s| && Blank(s[k..]) > 0
    ensures Blank(s) > 0 || k > 0 ==> Blank(s + t) == Blank(s)
  {
    if Blank(s) == 0 && k > 0 {
      assert |s| >= 3 && (|s| == 3 ==> k == 1 && s[1] == '\n' && s[2] == '\n');
      assert forall i | 0 <= i < |s| :: (s + t)[i] == s[i];
    }
  }

  lemma {:induction false} FoundBlank(s: string)
    ensures Blank(s[FindBlank(s)..]) > 0 <==> FindBlank(s) < |s|
  {
    if s == [] || Blank(s) > 0 {
      assert s[0..] == s;
    } else {
      FoundBlank(s[1..]);
      assert s[1..][FindBlank(s[1..])..] == s[FindBlank(s)..];
    }
  }

  /** A separator that fits in `s` is found in `s + t` at the same place. */
  lemma {:induction false} FindBlankExtends(s: string, t: string)
    requires FindBlank(s) < |s|
    ensures FindBlank(s + t) == FindBlank(s)
  {
    FoundBlank(s);
    BlankExtends(s, t, FindBlank(s));
    if FindBlank(s) > 0 {
      hide Blank;
      FindBlankExtends(s[1..], t);
      assert (s + t)[1..] == s[1..] + t;
    }
  }

  lemma SplitStep(s: string, k: nat, n: nat)
    requires k == FindBlank(s) && n == Blank(s[k..]) > 0
    ensures var tail := SplitFrames(s[k + n..]);
      SplitFrames(s) == Frames([s[..k]] + tail.complete, tail.rest)
  {
    hide FindBlank, Blank;
  }

  lemma SplitNone(s: string)
    requires Blank(s[FindBlank(s)..]) == 0
    ensures SplitFrames(s) == Frames([], s)
  {
    hide FindBlank, Blank;
  }

  /** Adding text leaves the first separator found where it was. */
  lemma BlankStays(s: string, t: string)
    requires Blank(s[FindBlank(s)..]) > 0
    ensures FindBlank(s + t) == FindBlank(s)
    ensures Blank((s + t)[FindBlank(s)..]) == Blank(s[FindBlank(s)..])
  {
    var k := FindBlank(s);
    FoundBlank(s);
    FindBlankExtends(s, t);
    assert s[k..][0..] == s[k..] && (s + t)[k..] == s[k..] + t;
    BlankExtends(s[k..], t, 0);
  }

  /** Splitting what was kept, with more text added, continues the split of the whole. */
  lemma {:induction false} SplitContinues(s: string, t: string)
    ensures var first := SplitFrames(s);
      var second := SplitFrames(first.rest + t);
      SplitFrames(s + t) == Frames(first.complete + second.complete, second.rest)
    decreases |s|
  {
    hide SplitFrames, FindBlank, Blank;
    var k := FindBlank(s);
    var n := Blank(s[k..]);
    if n > 0 {
      var tail := SplitFrames(s[k + n..]);
      var second := SplitFrames(tail.rest + t);
      BlankStays(s, t);
      SplitStep(s, k, n);
      SplitStep(s + t, k, n);
      assert (s + t)[k + n..] == s[k + n..] + t && (s + t)[..k] == s[..k];
      SplitContinues(s[k + n..], t);
      assert [s[..k]] + (tail.complete + second.complete) == [s[..k]] + tail.complete + second.complete;
    } else {
      SplitNone(s);
      assert [] + SplitFrames(s + t).complete == SplitFrames(s + t).complete;
    }
  }

  // ----- one frame

  /** `frame.split(/\r?\n/)`. */
  function Lines(s: string): (lines: seq<string>)
    ensures lines != []
    decreases |s|
  {
    if s == [] then [""]
    else if Eol(s, 0) > 0 then [""] + Lines(s[Eol(s, 0)..])
    else
      var tail := Lines(s[1..]);
      [[s[0]] + tail[0]] + tail[1..]
  }

  const DATA := "data:"

  predicate IsData(line: string) {
    DATA <= line
  }

  /** Lines that start with `data:`, without that and without leading space. */
  function DataTexts(lines: seq<string>): seq<string> {
    if lines == [] then []
    else (if IsData(lines[0]) then [TrimStart(lines[0][5..])] else []) + DataTexts(lines[1..])
  }

  function FrameData(frame: string): string {
    Join(DataTexts(Lines(frame)), "\n")
  }

  /** The payloads of a list of frames; frames without data are skipped. */
  function Payloads(frames: seq<string>): seq<string> {
    if frames == [] then []
    else Payload(frames[0]) + Payloads(frames[1..])
  }

  /** A frame without data has no payload. */
  function Payload(frame: string): seq<string> {
    var data := FrameData(frame);
    if data != "" then [data] else []
  }

  lemma Assoc<T>(a: seq<T>, b: seq<T>, c: seq<T>)
    ensures a + (b + c) == (a + b) + c
  {
  }

  lemma Unfold<T>(f: seq<T>, g: seq<T>)
    requires f != []
    ensures f == [f[0]] + f[1..] && f + g == [f[0]] + (f[1..] + g)
  {
  }

  lemma PayloadsCons(frame: string, rest: seq<string>)
    ensures Payloads([frame] + rest) == Payload(frame) + Payloads(rest)
  {
    hide Payload;
    assert ([frame] + rest)[1..] == rest;
  }

  lemma {:induction false} PayloadsConcat(f: seq<string>, g: seq<string>)
    ensures Payloads(f + g) == Payloads(f) + Payloads(g)
  {
    if f == [] {
      assert f + g == g && Payloads(f) == [];
    } else {
      hide *;
      Unfold(f, g);
      PayloadsConcat(f[1..], g);
      PayloadsCons(f[0], f[1..]);
      PayloadsCons(f[0], f[1..] + g);
      Assoc(Payload(f[0]), Payloads(f[1..]), Payloads(g));
    }
  }

  /** What one split of the whole text yields. */
  function Decode(text: string): seq<string> {
    Payloads(SplitFrames(text).complete)
  }

  lemma {:induction false} ConcatBoth(p: seq<string>, q: seq<string>)
    ensures Concat(p + q) == Concat(p) + Concat(q)
  {
    if p == [] {
      assert p + q == q;
    } else {
      ConcatBoth(p[1..], q);
      assert (p + q)[0] == p[0] && (p + q)[1..] == p[1..] + q;
      assert Concat(p + q) == p[0] + Concat(p[1..] + q) && Concat(p) == p[0] + Concat(p[1..]);
      hide *;
      assert p[0] + (Concat(p[1..]) + Concat(q)) == p[0] + Concat(p[1..]) + Concat(q);
    }
  }

  lemma ConcatSnoc(parts: seq<string>, last: string)
    ensures Concat(parts + [last]) == Concat(parts) + last
  {
    ConcatBoth(parts, [last]);
    assert [last][1..] == [] && last + "" == last;
    assert Concat([last]) == last + Concat([]);
  }

  // ----- the reading loop

  /** What handling one payload does: go on, perhaps yielding an event; yield a last
      event and return; or throw. */
  datatype Handled<S, E> = Continue(state: S, event: Option<E>) | Stop(last: E) | Throw

  /** How the loop ends: still wanting chunks, returned, or thrown. */
  datatype Progress<S> = Reading(state: S) | Returned | Thrown

  datatype Trace<S, E> = Trace(events: seq<E>, end: Progress<S>)

  /** Handling a list of payloads in order, up to the first that ends the loop. */
  function Consume<S, E>(handle: (S, string) -> Handled<S, E>, state: S, payloads: seq<string>): Trace<S, E> {
    if payloads == [] then Trace([], Reading(state))
    else match handle(state, payloads[0])
      case Continue(next, event) =>
        var rest := Consume(handle, next, payloads[1..]);
        Trace(Yielded(event) + rest.events, rest.end)
      case Stop(last) => Trace([last], Returned)
      case Throw => Trace([], Thrown)
  }

  function Then<S, E>(handle: (S, string) -> Handled<S, E>, first: Trace<S, E>, payloads: seq<string>): Trace<S, E> {
    if first.end.Reading? then
      var rest := Consume(handle, first.end.state, payloads);
      Trace(first.events + rest.events, rest.end)
    else first
  }

  lemma {:induction false} ConsumeConcat<S, E>(handle: (S, string) -> Handled<S, E>, state: S, p: seq<string>,
                                               q: seq<string>)
    ensures Consume(handle, state, p + q) == Then(handle, Consume(handle, state, p), q)
  {
    if p == [] {
      assert p + q == q;
      assert [] + Consume(handle, state, q).events == Consume(handle, state, q).events;
    } else {
      assert (p + q)[0] == p[0] && (p + q)[1..] == p[1..] + q;
      var h := handle(state, p[0]);
      if h.Continue? {
        ConsumeConcat(handle, h.state, p[1..], q);
        var event := Yielded(h.event);
        var rest := Consume(handle, h.state, p[1..]);
        if rest.end.Reading? {
          var more := Consume(handle, rest.end.state, q);
          assert event + (rest.events + more.events) == event + rest.events + more.events;
        }
      }
    }
  }

  lemma ThenNothing<S, E>(handle: (S, string) -> Handled<S, E>, first: Trace<S, E>)
    ensures Then(handle, first, []) == first
  {
  }

  function Yielded<E>(event: Option<E>): seq<E> {
    if event.Some? then [event.value] else []
  }

  lemma ConsumeOne<S, E>(handle: (S, string) -> Handled<S, E>, state: S, payload: string)
    ensures Consume(handle, state, [payload]) ==
      match handle(state, payload)
      case Continue(next, event) => Trace(Yielded(event), Reading(next))
      case Stop(last) => Trace([last], Returned)
      case Throw => Trace([], Thrown)
  {
    assert [payload][0] == payload && [payload][1..] == [];
    var h := handle(state, payload);
    if h.Continue? {
      assert Consume(handle, h.state, []) == Trace([], Reading(h.state));
      assert Yielded(h.event) + [] == Yielded(h.event);
    }
  }

  /** Handling one more frame: skipped when it carries no data. */
  method HandleFrame<S, E>(handle: (S, string) -> Handled<S, E>, trace: Trace<S, E>, frame: string)
    returns (after: Trace<S, E>)
    requires trace.end.Reading?
    ensures after == Then(handle, trace, Payloads([frame]))
  {
    var data := FrameData(frame);
    assert Payloads([frame]) == if data != "" then [data] else [] by { assert [frame][1..] == []; }
    hide FrameData, Payloads;
    if data == "" {
      ThenNothing(handle, trace);
      return trace;
    }
    ConsumeOne(handle, trace.end.state, data);
    hide Consume;
    match handle(trace.end.state, data)
    case Continue(next, event) => after := Trace(trace.events + Yielded(event), Reading(next));
    case Stop(last) => after := Trace(trace.events + [last], Returned);
    case Throw =>
      assert trace.events + [] == trace.events;
      after := Trace(trace.events, Thrown);
  }

  /** Handling every frame a chunk completed, up to the one that ends the loop. */
  method HandleFrames<S, E>(handle: (S, string) -> Handled<S, E>, trace: Trace<S, E>, frames: seq<string>)
    returns (after: Trace<S, E>)
    ensures after == Then(handle, trace, Payloads(frames))
  {
    after := trace;
    var i := 0;
    ThenNothing(handle, trace);
    while i < |frames| && after.end.Reading?
      invariant i <= |frames|
      invariant after == Then(handle, trace, Payloads(frames[..i]))
    {
      var next := HandleFrame(handle, after, frames[i]);
      assert frames[..i + 1] == frames[..i] + [frames[i]];
      PayloadsConcat(frames[..i], [frames[i]]);
      ThenThen(handle, trace, Payloads(frames[..i]), Payloads([frames[i]]));
      after := next;
      i := i + 1;
    }
    assert frames[..i] + frames[i..] == frames;
    PayloadsConcat(frames[..i], frames[i..]);
    ThenThen(handle, trace, Payloads(frames[..i]), Payloads(frames[i..]));
    if i == |frames| {
      assert frames[..i] == frames;
    }
  }

  lemma ThenThen<S, E>(handle: (S, string) -> Handled<S, E>, first: Trace<S, E>, p: seq<string>, q: seq<string>)
    ensures Then(handle, Then(handle, first, p), q) == Then(handle, first, p + q)
  {
    if first.end.Reading? {
      var s := first.end.state;
      ConsumeConcat(handle, s, p, q);
      hide Consume;
      var mid := Consume(handle, s, p);
      if mid.end.Reading? {
        var more := Consume(handle, mid.end.state, q);
        assert first.events + (mid.events + more.events) == first.events + mid.events + more.events;
      }
    }
  }

  /** The `streamEvents` loop. However the text is cut into chunks, the events and the
      way the loop ends are those of decoding the whole text at once. */
  method StreamEvents<S, E>(handle: (S, string) -> Handled<S, E>, init: S, chunks: seq<string>)
    returns (trace: Trace<S, E>)
    ensures trace == Consume(handle, init, Decode(Concat(chunks)))
  {
    hide SplitFrames, Payloads, Consume, Then, FindBlank, Blank;
    var buffered := "";
    trace := Trace([], Reading(init));
    var i := 0;
    Untouched(handle, init);
    while i < |chunks| && trace.end.Reading?
      invariant i <= |chunks|
      invariant trace == Consume(handle, init, Decode(Concat(chunks[..i])))
      invariant trace.end.Reading? ==> buffered == SplitFrames(Concat(chunks[..i])).rest
    {
      var text := Concat(chunks[..i]);
      assert chunks[..i + 1] == chunks[..i] + [chunks[i]];
      ConcatSnoc(chunks[..i], chunks[i]);
      SplitContinues(text, chunks[i]);
      var split := SplitFrames(buffered + chunks[i]);
      buffered := split.rest;
      PayloadsConcat(SplitFrames(text).complete, split.complete);
      ConsumeConcat(handle, init, Decode(text), Payloads(split.complete));
      trace := HandleFrames(handle, trace, split.complete);
      i := i + 1;
    }
    if i < |chunks| {
      Stopped(handle, init, chunks, i);
    } else {
      assert chunks[..i] == chunks;
    }
  }

  lemma Untouched<S, E>(handle: (S, string) -> Handled<S, E>, init: S)
    ensures Consume(handle, init, Decode(Concat([]))) == Trace([], Reading(init))
    ensures SplitFrames(Concat([])).rest == ""
  {
  }

  /** Once the loop has ended, later chunks change nothing. */
  lemma Stopped<S, E>(handle: (S, string) -> Handled<S, E>, init: S, chunks: seq<string>, i: nat)
    requires i <= |chunks| && !Consume(handle, init, Decode(Concat(chunks[..i]))).end.Reading?
    ensures Consume(handle, init, Decode(Concat(chunks))) == Consume(handle, init, Decode(Concat(chunks[..i])))
  {
    hide SplitFrames, Payloads, Consume, FindBlank, Blank;
    var text, more := Concat(chunks[..i]), Concat(chunks[i..]);
    ConcatBoth(chunks[..i], chunks[i..]);
    assert chunks[..i] + chunks[i..] == chunks;
    SplitContinues(text, more);
    var split := SplitFrames(SplitFrames(text).rest + more);
    PayloadsConcat(SplitFrames(text).complete, split.complete);
    ConsumeConcat(handle, init, Decode(text), Payloads(split.complete));
  }
}
