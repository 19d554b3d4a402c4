/** What a client of an A2A stream sees: the text of a snapshot, the snapshot each frame
    yields, and the whole way from a server's frames to the snapshots shown
    (src/a2a/client-executor.ts, lines 191-243, 414-507). */
module StreamViews {
  import opened JsText
  import opened Options
  import opened StreamArtifacts
  import opened A2AStream
  import EventStream
  import EventEncoding

  // ----- the text of a snapshot

  /** Two texts on lines of their own, unless one is empty. */
  function Glued(a: string, b: string): string {
    if a == "" then b else if b == "" then a else a + "\n" + b
  }

  lemma {:induction false} JoinSnoc(texts: seq<string>, last: string)
    ensures Join(texts + [last], "\n") == if texts == [] then last else Join(texts, "\n") + "\n" + last
    decreases |texts|
  {
    if texts == [] {
      assert texts + [last] == [last];
    } else {
      var rest := texts[1..];
      JoinSnoc(rest, last);
      assert (texts + [last])[1..] == rest + [last] && (texts + [last])[0] == texts[0];
      if rest != [] {
        Regroup(texts[0] + "\n", Join(rest, "\n"), "\n" + last);
        Regroup(Join(rest, "\n"), "\n", last);
        Regroup(texts[0] + "\n" + Join(rest, "\n"), "\n", last);
      }
    }
  }

  lemma Regroup<T>(a: seq<T>, b: seq<T>, c: seq<T>)
    ensures (a + b) + c == a + (b + c)
  {
  }

  lemma {:induction false} NonEmptySnoc(texts: seq<string>, last: string)
    ensures NonEmpty(texts + [last]) == NonEmpty(texts) + if last != "" then [last] else []
    decreases |texts|
  {
    if texts == [] {
      assert texts + [last] == [last] && [last][1..] == [];
    } else {
      NonEmptySnoc(texts[1..], last);
      assert (texts + [last])[1..] == texts[1..] + [last];
      Regroup(if texts[0] != "" then [texts[0]] else [], NonEmpty(texts[1..]), if last != "" then [last] else []);
    }
  }

  lemma {:induction false} NonEmptyAre(texts: seq<string>)
    ensures forall i | 0 <= i < |NonEmpty(texts)| :: NonEmpty(texts)[i] != ""
  {
    if texts != [] {
      NonEmptyAre(texts[1..]);
    }
  }

  lemma JoinNothing(texts: seq<string>)
    requires forall i | 0 <= i < |texts| :: texts[i] != ""
    ensures Join(texts, "\n") == "" <==> texts == []
  {
  }

  lemma GlueLast(texts: seq<string>, last: string)
    ensures Join(NonEmpty(texts + [last]), "\n") == Glued(Join(NonEmpty(texts), "\n"), last)
  {
    NonEmptySnoc(texts, last);
    NonEmptyAre(texts);
    JoinNothing(NonEmpty(texts));
    hide Join, NonEmpty;
    if last == "" {
      assert NonEmpty(texts) + [] == NonEmpty(texts);
    } else {
      JoinSnoc(NonEmpty(texts), last);
    }
  }

  lemma {:induction false} ArtifactTextsSnoc(artifacts: seq<Artifact>, x: Artifact)
    ensures ArtifactTexts(artifacts + [x]) == ArtifactTexts(artifacts) + [TextFromParts(x.parts)]
    ensures References(artifacts + [x]) == References(artifacts) + FirstUri(x.parts)
    decreases |artifacts|
  {
    hide TextFromParts, FirstUri;
    if artifacts == [] {
      assert artifacts + [x] == [x] && [x][1..] == [];
      assert FirstUri(x.parts) + [] == [] + FirstUri(x.parts);
    } else {
      ArtifactTextsSnoc(artifacts[1..], x);
      assert (artifacts + [x])[1..] == artifacts[1..] + [x];
      Regroup([TextFromParts(artifacts[0].parts)], ArtifactTexts(artifacts[1..]), [TextFromParts(x.parts)]);
      Regroup(FirstUri(artifacts[0].parts), References(artifacts[1..]), FirstUri(x.parts));
    }
  }

  /** The output is the artifacts' texts in store order and then the status text, each on
      lines of its own and empty ones left out; a failed task has the status text, or a
      fixed one, as its error. */
  lemma OutputLaws(state: TaskState, text: Option<string>, artifacts: seq<Artifact>, x: Artifact)
    ensures SnapshotFromTask(state, None, []) ==
      Snapshot(state, "", if state == Failed then Some("Remote A2A task failed.") else None, [])
    ensures SnapshotFromTask(state, None, artifacts + [x]).output
      == Glued(SnapshotFromTask(state, None, artifacts).output, TextFromParts(x.parts))
    ensures text.Some? ==>
      SnapshotFromTask(state, text, artifacts).output
        == Glued(SnapshotFromTask(state, None, artifacts).output, text.value)
    ensures SnapshotFromTask(state, text, artifacts).state == state
    ensures SnapshotFromTask(state, text, artifacts).error ==
      if state != Failed then None
      else if text in {None, Some("")} then Some("Remote A2A task failed.") else text
    ensures SnapshotFromTask(state, text, artifacts + [x]).references
      == SnapshotFromTask(state, text, artifacts).references + FirstUri(x.parts)
  {
    ArtifactTextsSnoc(artifacts, x);
    assert ArtifactTexts([]) + [""] == [""] && [""][1..] == [];
    hide ArtifactTexts, TextFromParts, References, FirstUri, NonEmpty, Join;
    NoTexts();
    GlueLast(ArtifactTexts(artifacts), TextFromParts(x.parts));
    GlueLast(ArtifactTexts(artifacts) + [TextFromParts(x.parts)], "");
    GlueLast(ArtifactTexts(artifacts), "");
    if text.Some? {
      GlueLast(ArtifactTexts(artifacts), text.value);
    }
  }

  lemma NoTexts()
    ensures ArtifactTexts([]) == [] && References([]) == [] && Join(NonEmpty([""]), "\n") == ""
  {
    assert [""][1..] == [];
  }

  /** The text of parts is that of their text parts, joined by newlines, empty ones kept. */
  lemma PartsLaws(parts: seq<Part>, p: Part)
    ensures TextFromParts([]) == ""
    ensures p.text.None? ==> TextFromParts(parts + [p]) == TextFromParts(parts)
    ensures p.text.Some? ==>
      TextFromParts(parts + [p]) ==
        if exists i | 0 <= i < |parts| :: parts[i].text.Some? then TextFromParts(parts) + "\n" + p.text.value
        else p.text.value
  {
    TextsSnoc(parts, p);
    SomeText(parts);
    assert Texts([]) == [];
    hide Texts;
    if p.text.Some? {
      JoinSnoc(Texts(parts), p.text.value);
    } else {
      assert Texts(parts) + [] == Texts(parts);
    }
  }

  lemma {:induction false} TextsSnoc(parts: seq<Part>, p: Part)
    ensures Texts(parts + [p]) == Texts(parts) + if p.text.Some? then [p.text.value] else []
    ensures FileUris(parts + [p]) == FileUris(parts) +
      if p.text.None? && p.uri.Some? && p.uri.value != "" then [p.uri.value] else []
    decreases |parts|
  {
    if parts == [] {
      assert parts + [p] == [p] && [p][1..] == [] && [p][..1] == [p];
      assert FirstUri([p]) == if p.uri.Some? && p.uri.value != "" then [p.uri.value] else [];
      assert FileUris([p]) == (if p.text.None? then FirstUri([p][..1]) else []) + FileUris([p][1..]);
    } else {
      TextsSnoc(parts[1..], p);
      assert (parts + [p])[1..] == parts[1..] + [p] && (parts + [p])[..1] == parts[..1];
      hide FirstUri;
      Regroup(if parts[0].text.Some? then [parts[0].text.value] else [], Texts(parts[1..]),
              if p.text.Some? then [p.text.value] else []);
      Regroup(if parts[0].text.None? then FirstUri(parts[..1]) else [], FileUris(parts[1..]),
              if p.text.None? && p.uri.Some? && p.uri.value != "" then [p.uri.value] else []);
    }
  }

  lemma {:induction false} SomeText(parts: seq<Part>)
    ensures Texts(parts) != [] <==> exists i | 0 <= i < |parts| :: parts[i].text.Some?
  {
    if parts != [] {
      SomeText(parts[1..]);
      if i :| 0 <= i < |parts| && parts[i].text.Some? {
        assert i > 0 ==> parts[1..][i - 1].text.Some?;
      }
      if i :| 0 <= i < |parts[1..]| && parts[1..][i].text.Some? {
        assert parts[i + 1].text.Some?;
      }
    }
  }

  /** An artifact is referred to by its first part that has anything to refer to. */
  lemma {:induction false} FirstUriIs(parts: seq<Part>, i: nat)
    requires i <= |parts| && (i < |parts| ==> parts[i].uri.Some?)
    requires forall k | 0 <= k < i :: parts[k].uri.None?
    ensures FirstUri(parts) ==
      if i < |parts| && parts[i].uri.value != "" then [parts[i].uri.value] else []
    decreases i
  {
    if i > 0 {
      FirstUriIs(parts[1..], i - 1);
    }
  }

  /** A message is shown as completed, with its text and the references of its other parts. */
  lemma MessageLaws(parts: seq<Part>, p: Part)
    ensures SnapshotFromMessage(parts).state == Completed && SnapshotFromMessage(parts).error == None
    ensures SnapshotFromMessage(parts).output == TextFromParts(parts)
    ensures SnapshotFromMessage([]).references == []
    ensures SnapshotFromMessage(parts + [p]).references == SnapshotFromMessage(parts).references +
      if p.text.None? && p.uri.Some? && p.uri.value != "" then [p.uri.value] else []
  {
    TextsSnoc(parts, p);
  }

  // ----- the snapshot after each payload

  /** What the last of these payloads is shown as: a task frame by its own artifacts, an
      update by all the artifacts collected from the start, this update included. */
  function Shown(reference: Reference, requestId: string, parse: string -> Option<Payload>,
                 payloads: seq<string>): Option<Snapshot>
    requires payloads != []
  {
    var payload := parse(payloads[|payloads| - 1]);
    if payload.None? then None
    else
      match Judge(reference, requestId, payload.value)
      case Accepted(Reset(artifacts), state, text) => Some(SnapshotFromTask(state, text, artifacts))
      case Accepted(_, state, text) =>
        Some(SnapshotFromTask(state, text, Fold([], Effects(reference, requestId, parse, payloads))))
      case Direct(parts) => Some(SnapshotFromMessage(parts))
      case _ => None
  }

  /** The snapshots of these payloads, one after the other, `before` having come earlier. */
  function ShownFrom(reference: Reference, requestId: string, parse: string -> Option<Payload>,
                     before: seq<string>, payloads: seq<string>): seq<Snapshot>
    decreases |payloads|
  {
    if payloads == [] then []
    else
      var now := before + [payloads[0]];
      EventStream.Yielded(Shown(reference, requestId, parse, now))
      + ShownFrom(reference, requestId, parse, now, payloads[1..])
  }

  lemma {:induction false} EffectsSnoc(reference: Reference, requestId: string, parse: string -> Option<Payload>,
                                       payloads: seq<string>, last: string)
    ensures Effects(reference, requestId, parse, payloads + [last])
      == Effects(reference, requestId, parse, payloads) + Effects(reference, requestId, parse, [last])
    decreases |payloads|
  {
    hide Judge;
    if payloads == [] {
      assert payloads + [last] == [last];
      assert [] + Effects(reference, requestId, parse, [last]) == Effects(reference, requestId, parse, [last]);
    } else {
      EffectsSnoc(reference, requestId, parse, payloads[1..], last);
      assert (payloads + [last])[1..] == payloads[1..] + [last] && (payloads + [last])[0] == payloads[0];
      var first := Effects(reference, requestId, parse, payloads)[0];
      assert Effects(reference, requestId, parse, payloads + [last])
        == [first] + Effects(reference, requestId, parse, payloads[1..] + [last]);
      assert Effects(reference, requestId, parse, payloads)
        == [first] + Effects(reference, requestId, parse, payloads[1..]);
      hide Effects;
      Regroup([first], Effects(reference, requestId, parse, payloads[1..]),
              Effects(reference, requestId, parse, [last]));
    }
  }

  function ReferenceCount(shown: Option<Snapshot>): nat {
    if shown.Some? then |shown.value.references| else 0
  }

  /** Why the loop throws at a payload: it does not parse, it is refused, or one of the `n`
      references of what it shows, asked about after `asked` others, is not let pass. */
  ghost predicate Faulty(reference: Reference, requestId: string, answers: Answers, parse: string -> Option<Payload>,
                         asked: nat, n: nat, last: string) {
    || parse(last).None? || Judge(reference, requestId, parse(last).value).Refused?
    || exists k: nat | asked <= k < asked + n :: !answers(k)
  }

  /** One more payload, while the stream is open. */
  lemma HandleShows(reference: Reference, requestId: string, answers: Answers, parse: string -> Option<Payload>,
                    session: Session, payloads: seq<string>, last: string)
    requires session.store == Fold([], Effects(reference, requestId, parse, payloads))
    ensures var h := Handler(reference, requestId, answers, parse)(session, last);
      var shown := Shown(reference, requestId, parse, payloads + [last]);
      && (h.Continue? ==> h.event == shown)
      && (h.Continue? ==> h.state.store == Fold([], Effects(reference, requestId, parse, payloads + [last])))
      && (h.Stop? ==> shown == Some(h.last))
      && (h.Continue? ==> |h.state.granted| == |session.granted| + ReferenceCount(shown))
      && (h.Throw? <==>
            Faulty(reference, requestId, answers, parse, |session.granted|, ReferenceCount(shown), last))
  {
    var all := payloads + [last];
    var effect := Effects(reference, requestId, parse, [last])[0];
    EffectsSnoc(reference, requestId, parse, payloads, last);
    assert Effects(reference, requestId, parse, [last]) == [effect];
    assert all[|all| - 1] == last;
    EffectsLength(reference, requestId, parse, payloads);
    var log := Effects(reference, requestId, parse, payloads);
    assert Effects(reference, requestId, parse, all)[..|payloads|] == log;
    assert Fold([], Effects(reference, requestId, parse, all)) == Apply(session.store, effect);
    GrantsAre(answers, |session.granted|, ReferenceCount(Shown(reference, requestId, parse, all)));
    hide Fold, Apply, AllGranted, SnapshotFromTask, SnapshotFromMessage, EndsStream, JudgeFields;
    ApplyIs(session.store);
  }

  lemma GrantsAre(answers: Answers, from: nat, n: nat)
    ensures AllGranted(answers, from, n) <==> !exists k: nat | from <= k < from + n :: !answers(k)
  {
  }

  lemma ApplyIs(store: Store)
    ensures Apply(store, Keep) == store
  {
  }

  lemma {:induction false} EffectsLength(reference: Reference, requestId: string, parse: string -> Option<Payload>,
                                         payloads: seq<string>)
    ensures |Effects(reference, requestId, parse, payloads)| == |payloads|
  {
    hide Judge;
    if payloads != [] {
      EffectsLength(reference, requestId, parse, payloads[1..]);
    }
  }

  // ----- the whole stream

  /** The last of these payloads is what the loop threw at, having yielded these events. */
  ghost predicate ThrownAt(reference: Reference, requestId: string, answers: Answers, parse: string -> Option<Payload>,
                           asked: nat, events: seq<Snapshot>, payloads: seq<string>) {
    && payloads != []
    && Faulty(reference, requestId, answers, parse, asked + |AllReferences(events)|,
              ReferenceCount(Shown(reference, requestId, parse, payloads)), payloads[|payloads| - 1])
  }

  lemma ThrownLater(reference: Reference, requestId: string, answers: Answers, parse: string -> Option<Payload>,
                    asked: nat, event: Option<Snapshot>, events: seq<Snapshot>, payloads: seq<string>)
    requires ThrownAt(reference, requestId, answers, parse, asked + ReferenceCount(event), events, payloads)
    ensures ThrownAt(reference, requestId, answers, parse, asked, EventStream.Yielded(event) + events, payloads)
  {
    hide Faulty;
    YieldedReferences(event, events);
  }

  lemma ThrownNow(reference: Reference, requestId: string, answers: Answers, parse: string -> Option<Payload>,
                  session: Session, before: seq<string>, last: string)
    requires session.store == Fold([], Effects(reference, requestId, parse, before))
    requires Handler(reference, requestId, answers, parse)(session, last).Throw?
    ensures ThrownAt(reference, requestId, answers, parse, |session.granted|, [], before + [last])
  {
    HandleShows(reference, requestId, answers, parse, session, before, last);
    hide Faulty, Shown, Handler, Fold, Effects;
  }

  /** The stream shows what each of its payloads is to be shown as, up to the one at `k` that
      ends it: that one is shown too when the stream returns, and not when it throws. */
  lemma {:induction false} StreamShows(reference: Reference, requestId: string, answers: Answers,
                                       parse: string -> Option<Payload>, session: Session, before: seq<string>,
                                       payloads: seq<string>)
    returns (k: nat)
    requires session.store == Fold([], Effects(reference, requestId, parse, before))
    ensures k <= |payloads|
    ensures var t := EventStream.Consume(Handler(reference, requestId, answers, parse), session, payloads);
      && (t.end.Reading? <==> k == |payloads|)
      && (t.end.Returned? ==> Shown(reference, requestId, parse, before + payloads[..k + 1]).Some?)
      && t.events == ShownFrom(reference, requestId, parse, before, payloads[..k]) +
           (if t.end.Returned? then [Shown(reference, requestId, parse, before + payloads[..k + 1]).value] else [])
      && (t.end.Thrown? ==> ThrownAt(reference, requestId, answers, parse, |session.granted|, t.events,
                                     before + payloads[..k + 1]))
    decreases |payloads|
  {
    if payloads == [] {
      k := 0;
    } else {
      var handle := Handler(reference, requestId, answers, parse);
      var h := handle(session, payloads[0]);
      var now := before + [payloads[0]];
      HandleShows(reference, requestId, answers, parse, session, before, payloads[0]);
      hide Shown, Effects, Fold, Judge, AllGranted, Handler, Faulty, ThrownAt, ReferenceCount, AllReferences;
      assert payloads[..1] == [payloads[0]];
      match h
      case Continue(next, event) =>
        var n := StreamShows(reference, requestId, answers, parse, next, now, payloads[1..]);
        k := n + 1;
        NowThen(before, payloads, n);
        var rest := EventStream.Consume(handle, next, payloads[1..]);
        var end := if rest.end.Returned?
          then [Shown(reference, requestId, parse, now + payloads[1..][..n + 1]).value] else [];
        Regroup(EventStream.Yielded(event), ShownFrom(reference, requestId, parse, now, payloads[1..][..n]), end);
        if rest.end.Thrown? {
          ThrownLater(reference, requestId, answers, parse, |session.granted|, event, rest.events,
                      before + payloads[..k + 1]);
        }
      case Stop(_) =>
        k := 0;
      case Throw =>
        ThrownNow(reference, requestId, answers, parse, session, before, payloads[0]);
        k := 0;
    }
  }

  lemma YieldedReferences(event: Option<Snapshot>, events: seq<Snapshot>)
    ensures |AllReferences(EventStream.Yielded(event) + events)| == ReferenceCount(event) + |AllReferences(events)|
  {
    if event.Some? {
      Flattened(event.value, events);
    } else {
      assert [] + events == events;
    }
  }

  lemma NowThen(before: seq<string>, payloads: seq<string>, n: nat)
    requires n < |payloads|
    ensures payloads[..n + 1] != [] && payloads[..n + 1][0] == payloads[0]
    ensures payloads[..n + 1][1..] == payloads[1..][..n]
    ensures n + 1 < |payloads| ==>
      before + [payloads[0]] + payloads[1..][..n + 1] == before + payloads[..n + 2]
    ensures n + 1 < |payloads| ==> payloads[1..][n] == payloads[n + 1]
  {
  }

  // ----- from the server's frames to the snapshots shown

  /** What a server has to say about one task. */
  datatype ServerFrame =
    | TaskFrame(state: TaskState, text: Option<string>, artifacts: seq<Artifact>)
    | StatusFrame(state: TaskState, text: Option<string>)
    | ArtifactFrame(artifact: Artifact, append: bool)
    | MessageFrame(parts: seq<Part>)

  /** The frame as it is sent in answer to a request, for this task and context. */
  function Addressed(requestId: string, taskId: string, context: string, frame: ServerFrame): Payload {
    var task, at := Some(taskId), Some(context);
    Payload("2.0", requestId, false, Some(
      match frame
      case TaskFrame(state, text, artifacts) =>
        Fields(Some(Some(Task(taskId, context, state, text, artifacts))), None, None, None)
      case StatusFrame(state, text) => Fields(None, None, Some(StatusUpdate(task, at, Some((state, text)))), None)
      case ArtifactFrame(artifact, append) =>
        Fields(None, None, None, Some(ArtifactUpdate(task, at, Some(artifact), append)))
      case MessageFrame(parts) => Fields(None, Some(Message(task, at, Some(parts))), None, None)))
  }

  function EffectOf(frame: ServerFrame): Effect {
    match frame
    case TaskFrame(_, _, artifacts) => Reset(artifacts)
    case ArtifactFrame(artifact, append) => Update(artifact, append)
    case _ => Keep
  }

  function EffectsOf(frames: seq<ServerFrame>): (log: seq<Effect>)
    ensures |log| == |frames|
  {
    seq(|frames|, i requires 0 <= i < |frames| => EffectOf(frames[i]))
  }

  /** The task as it stands after these frames, by what the server said last. */
  function View(frames: seq<ServerFrame>): Snapshot
    requires frames != []
  {
    match frames[|frames| - 1]
    case TaskFrame(state, text, artifacts) => SnapshotFromTask(state, text, artifacts)
    case StatusFrame(state, text) => SnapshotFromTask(state, text, Fold([], EffectsOf(frames)))
    case ArtifactFrame(_, _) => SnapshotFromTask(Working, None, Fold([], EffectsOf(frames)))
    case MessageFrame(parts) => SnapshotFromMessage(parts)
  }

  function ViewAt(frames: seq<ServerFrame>, k: nat): Snapshot
    requires k < |frames|
  {
    View(frames[..k + 1])
  }

  ghost predicate Sent(reference: Reference, requestId: string, context: string, parse: string -> Option<Payload>,
                       frames: seq<ServerFrame>, payloads: seq<string>) {
    && |payloads| == |frames|
    && forall k | 0 <= k < |frames| ::
         parse(payloads[k]) == Some(Addressed(requestId, reference.remoteTaskId, context, frames[k]))
  }

  predicate InContext(reference: Reference, context: string) {
    reference.contextId in {None, Some(context)}
  }

  /** What the client is to take a frame for. */
  function Taken(frame: ServerFrame): Verdict {
    match frame
    case TaskFrame(state, text, artifacts) => Accepted(Reset(artifacts), state, text)
    case StatusFrame(state, text) => Accepted(Keep, state, text)
    case ArtifactFrame(artifact, append) => Accepted(Update(artifact, append), Working, None)
    case MessageFrame(parts) => Direct(parts)
  }

  /** A frame addressed to this task is taken for what it says. */
  lemma FrameJudged(reference: Reference, requestId: string, context: string, frame: ServerFrame)
    requires InContext(reference, context)
    ensures Judge(reference, requestId, Addressed(requestId, reference.remoteTaskId, context, frame)) == Taken(frame)
  {
  }

  lemma {:induction false} SentEffects(reference: Reference, requestId: string, context: string,
                                       parse: string -> Option<Payload>, frames: seq<ServerFrame>,
                                       payloads: seq<string>)
    requires InContext(reference, context) && Sent(reference, requestId, context, parse, frames, payloads)
    ensures Effects(reference, requestId, parse, payloads) == EffectsOf(frames)
    decreases |frames|
  {
    hide Judge, Addressed;
    if frames != [] {
      FrameJudged(reference, requestId, context, frames[0]);
      SentEffects(reference, requestId, context, parse, frames[1..], payloads[1..]);
      assert EffectsOf(frames) == [EffectOf(frames[0])] + EffectsOf(frames[1..]);
    }
  }

  /** Each frame is shown as the server's own view. */
  lemma SentShown(reference: Reference, requestId: string, context: string, parse: string -> Option<Payload>,
                  frames: seq<ServerFrame>, payloads: seq<string>)
    requires InContext(reference, context) && Sent(reference, requestId, context, parse, frames, payloads)
    requires frames != []
    ensures Shown(reference, requestId, parse, payloads) == Some(View(frames))
  {
    SentEffects(reference, requestId, context, parse, frames, payloads);
    FrameJudged(reference, requestId, context, frames[|frames| - 1]);
    hide Judge, Addressed, Fold, Effects, EffectsOf, SnapshotFromTask, SnapshotFromMessage;
  }

  lemma SentPrefix(reference: Reference, requestId: string, context: string, parse: string -> Option<Payload>,
                   frames: seq<ServerFrame>, payloads: seq<string>, k: nat)
    requires InContext(reference, context) && Sent(reference, requestId, context, parse, frames, payloads)
    requires k < |frames|
    ensures Shown(reference, requestId, parse, payloads[..k + 1]) == Some(ViewAt(frames, k))
  {
    hide Shown, Addressed, View;
    SentShown(reference, requestId, context, parse, frames[..k + 1], payloads[..k + 1]);
  }

  ghost predicate AreViews(shown: seq<Snapshot>, frames: seq<ServerFrame>, from: nat) {
    from + |shown| <= |frames| && forall k | 0 <= k < |shown| :: shown[k] == ViewAt(frames, from + k)
  }

  lemma MoveOver<T>(before: seq<T>, rest: seq<T>)
    requires rest != []
    ensures (before + [rest[0]]) + rest[1..] == before + rest
    ensures (before + rest)[..|before| + 1] == before + [rest[0]]
  {
  }

  lemma {:induction false} ShownViews(reference: Reference, requestId: string, context: string,
                                      parse: string -> Option<Payload>, frames: seq<ServerFrame>,
                                      payloads: seq<string>, before: seq<string>, rest: seq<string>)
    requires InContext(reference, context) && Sent(reference, requestId, context, parse, frames, payloads)
    requires payloads == before + rest
    ensures var shown := ShownFrom(reference, requestId, parse, before, rest);
      |shown| == |rest| && AreViews(shown, frames, |before|)
    decreases |rest|
  {
    if rest == [] {
      assert before + [] == before;
    } else {
      var n := |before|;
      SentPrefix(reference, requestId, context, parse, frames, payloads, n);
      MoveOver(before, rest);
      ShownStep(reference, requestId, parse, before, rest);
      ShownViews(reference, requestId, context, parse, frames, payloads, before + [rest[0]], rest[1..]);
      hide *;
      ViewsCons(ViewAt(frames, n), ShownFrom(reference, requestId, parse, before + [rest[0]], rest[1..]), frames, n);
    }
  }

  lemma ViewsCons(first: Snapshot, later: seq<Snapshot>, frames: seq<ServerFrame>, from: nat)
    requires from < |frames| && first == ViewAt(frames, from) && AreViews(later, frames, from + 1)
    ensures AreViews([first] + later, frames, from)
  {
    hide ViewAt;
    var shown := [first] + later;
    forall k | 0 <= k < |shown| ensures shown[k] == ViewAt(frames, from + k) {
      assert k > 0 ==> shown[k] == later[k - 1] == ViewAt(frames, from + 1 + (k - 1));
    }
  }

  lemma ShownStep(reference: Reference, requestId: string, parse: string -> Option<Payload>, before: seq<string>,
                  payloads: seq<string>)
    requires payloads != []
    ensures ShownFrom(reference, requestId, parse, before, payloads) ==
      EventStream.Yielded(Shown(reference, requestId, parse, before + [payloads[0]]))
      + ShownFrom(reference, requestId, parse, before + [payloads[0]], payloads[1..])
    ensures Shown(reference, requestId, parse, before + [payloads[0]]).Some? ==>
      EventStream.Yielded(Shown(reference, requestId, parse, before + [payloads[0]]))
        == [Shown(reference, requestId, parse, before + [payloads[0]]).value]
  {
    hide Shown;
  }

  predicate Stable(state: TaskState) {
    state in {Completed, Failed, Canceled, Rejected, InputRequired, AuthRequired}
  }

  lemma NothingFaulty(reference: Reference, requestId: string, context: string, answers: Answers,
                      parse: string -> Option<Payload>, frames: seq<ServerFrame>, payloads: seq<string>,
                      events: seq<Snapshot>, k: nat)
    requires InContext(reference, context) && Sent(reference, requestId, context, parse, frames, payloads)
    requires k < |payloads| && forall i: nat :: answers(i)
    ensures !ThrownAt(reference, requestId, answers, parse, 0, events, [] + payloads[..k + 1])
  {
    FrameJudged(reference, requestId, context, frames[k]);
    hide Judge, Addressed, Shown, AllReferences;
  }

  /** Whatever a server says about its task, the client shows after every frame the task as
      it then stands, and returns with the frame that makes it stable. */
  lemma ServerIsSeen(reference: Reference, requestId: string, context: string, answers: Answers,
                     parse: string -> Option<Payload>, frames: seq<ServerFrame>, payloads: seq<string>)
    requires InContext(reference, context) && Sent(reference, requestId, context, parse, frames, payloads)
    requires forall n :: answers(n)
    requires forall k | 0 <= k < |frames| - 1 :: !Stable(ViewAt(frames, k).state)
    ensures var t := EventStream.Consume(Handler(reference, requestId, answers, parse), Session([], []), payloads);
      && |t.events| == |frames| && (forall k | 0 <= k < |frames| :: t.events[k] == ViewAt(frames, k))
      && !t.end.Thrown?
      && (t.end.Returned? <==> frames != [] && Stable(View(frames).state))
  {
    var t := EventStream.Consume(Handler(reference, requestId, answers, parse), Session([], []), payloads);
    var k := StreamShows(reference, requestId, answers, parse, Session([], []), [], payloads);
    StopsAtStable(reference, requestId, answers, parse, Session([], []), payloads);
    if t.end.Thrown? {
      NothingFaulty(reference, requestId, context, answers, parse, frames, payloads, t.events, k);
    }
    ShownViews(reference, requestId, context, parse, frames[..k], payloads[..k], [], payloads[..k]);
    LastView(frames);
    PrefixViews(frames, k);
    hide Handler, Shown, ShownFrom, View, ViewAt, ThrownAt, AllReferences, EndsWell;
    if t.end.Returned? {
      SentPrefix(reference, requestId, context, parse, frames, payloads, k);
      assert [] + payloads[..k + 1] == payloads[..k + 1];
      assert t.events[k] == ViewAt(frames, k);
      assert k == |frames| - 1;
    }
  }

  lemma PrefixViews(frames: seq<ServerFrame>, k: nat)
    requires k <= |frames|
    ensures forall j | 0 <= j < k :: ViewAt(frames[..k], j) == ViewAt(frames, j)
  {
    forall j | 0 <= j < k ensures ViewAt(frames[..k], j) == ViewAt(frames, j) {
      assert frames[..k][..j + 1] == frames[..j + 1];
    }
  }

  lemma LastView(frames: seq<ServerFrame>)
    ensures frames != [] ==> View(frames) == ViewAt(frames, |frames| - 1)
  {
    assert frames[..|frames|] == frames;
  }

  /** The same from the bytes on: the server's frames, written as events in any of the ways
      events may be written, and cut into chunks anywhere. */
  lemma BytesAreSeen(reference: Reference, requestId: string, context: string, answers: Answers,
                     parse: string -> Option<Payload>, frames: seq<ServerFrame>,
                     events: seq<EventEncoding.Event>, chunks: seq<string>)
    requires forall k | 0 <= k < |events| :: EventEncoding.EventOk(events[k])
    requires Concat(chunks) == EventEncoding.EncodeAll(events)
    requires InContext(reference, context)
    requires Sent(reference, requestId, context, parse, frames, EventEncoding.Values(events))
    requires forall n :: answers(n)
    requires forall k | 0 <= k < |frames| - 1 :: !Stable(ViewAt(frames, k).state)
    ensures var t := EventStream.Consume(Handler(reference, requestId, answers, parse), Session([], []),
                                         EventStream.Decode(Concat(chunks)));
      && |t.events| == |frames| && (forall k | 0 <= k < |frames| :: t.events[k] == ViewAt(frames, k))
      && !t.end.Thrown?
      && (t.end.Returned? <==> frames != [] && Stable(View(frames).state))
  {
    EventEncoding.RoundTrip(events);
    hide *;
    ServerIsSeen(reference, requestId, context, answers, parse, frames, EventEncoding.Values(events));
  }
}
