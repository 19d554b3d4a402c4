/** One task's event stream: scope checks, artifact merging and snapshots, on top of the
    chunked decoder (src/a2a/client-executor.ts, lines 191-261, 414-539). */
module A2AStream {
  import opened JsText
  import opened Options
  import opened StreamArtifacts
  import EventStream

  datatype TaskState =
    | Unspecified | Submitted | Working | Completed | Failed | Canceled | InputRequired | Rejected | AuthRequired

  /** Results of the schema parsers. An absent field is `None`; so are the contents of a
      field whose parser threw. */
  datatype Task = Task(
    id: string, contextId: string, state: TaskState, statusText: Option<string>, artifacts: seq<Artifact>)
  datatype Message = Message(taskId: Option<string>, contextId: Option<string>, parts: Option<seq<Part>>)
  datatype StatusUpdate = StatusUpdate(
    taskId: Option<string>, contextId: Option<string>, parsed: Option<(TaskState, Option<string>)>)
  datatype ArtifactUpdate = ArtifactUpdate(
    taskId: Option<string>, contextId: Option<string>, artifact: Option<Artifact>, append: bool)

  datatype Fields = Fields(
    task: Option<Option<Task>>, message: Option<Message>,
    statusUpdate: Option<StatusUpdate>, artifactUpdate: Option<ArtifactUpdate>)

  /** A decoded frame; `result` is absent when it is not an object. */
  datatype Payload = NotRecord | Payload(version: string, id: string, error: bool, result: Option<Fields>)

  datatype Reference = Reference(remoteTaskId: string, contextId: Option<string>)

  datatype Snapshot = Snapshot(state: TaskState, output: string, error: Option<string>, references: seq<string>)

  // ----- snapshots

  function Texts(parts: seq<Part>): seq<string> {
    if parts == [] then []
    else (if parts[0].text.Some? then [parts[0].text.value] else []) + Texts(parts[1..])
  }

  function TextFromParts(parts: seq<Part>): string {
    Join(Texts(parts), "\n")
  }

  function NonEmpty(texts: seq<string>): seq<string> {
    if texts == [] then [] else (if texts[0] != "" then [texts[0]] else []) + NonEmpty(texts[1..])
  }

  function ArtifactTexts(artifacts: seq<Artifact>): seq<string> {
    if artifacts == [] then [] else [TextFromParts(artifacts[0].parts)] + ArtifactTexts(artifacts[1..])
  }

  /** The first part that refers to something, unless its reference is empty. */
  function FirstUri(parts: seq<Part>): seq<string> {
    if parts == [] then []
    else if parts[0].uri.None? then FirstUri(parts[1..])
    else if parts[0].uri.value != "" then [parts[0].uri.value]
    else []
  }

  function References(artifacts: seq<Artifact>): seq<string> {
    if artifacts == [] then [] else FirstUri(artifacts[0].parts) + References(artifacts[1..])
  }

  function SnapshotFromTask(state: TaskState, statusText: Option<string>, artifacts: seq<Artifact>): Snapshot {
    var text := if statusText.Some? then statusText.value else "";
    Snapshot(state,
             Join(NonEmpty(ArtifactTexts(artifacts) + [text]), "\n"),
             if state.Failed? then Some(if text != "" then text else "Remote A2A task failed.") else None,
             References(artifacts))
  }

  function FileUris(parts: seq<Part>): seq<string> {
    if parts == [] then []
    else (if parts[0].text.None? then FirstUri(parts[..1]) else []) + FileUris(parts[1..])
  }

  function SnapshotFromMessage(parts: seq<Part>): Snapshot {
    Snapshot(Completed, TextFromParts(parts), None, FileUris(parts))
  }

  // ----- one frame

  datatype Verdict =
    | Refused
    | Ignored
    | Accepted(effect: Effect, state: TaskState, statusText: Option<string>)
    | Direct(parts: seq<Part>)

  /** `assertTaskReference`: an absent context on either side is not compared. */
  predicate TaskInScope(task: Task, reference: Reference) {
    && task.id == reference.remoteTaskId
    && (reference.contextId.Some? && task.contextId != "" ==> task.contextId == reference.contextId.value)
  }

  /** `assertStreamTaskScope`: an update must name its task and a context. */
  predicate UpdateInScope(taskId: Option<string>, contextId: Option<string>, reference: Reference) {
    && taskId == Some(reference.remoteTaskId)
    && contextId.Some?
    && (reference.contextId.Some? ==> contextId == reference.contextId)
  }

  function Judge(reference: Reference, requestId: string, payload: Payload): Verdict {
    if payload.NotRecord? || payload.version != "2.0" || payload.id != requestId || payload.error then Refused
    else match payload.result
      case None => Ignored
      case Some(fields) => JudgeFields(reference, fields)
  }

  function JudgeFields(reference: Reference, fields: Fields): Verdict {
    if fields.task.Some? then
      match fields.task.value
      case None => Refused
      case Some(task) =>
        if TaskInScope(task, reference) then Accepted(Reset(task.artifacts), task.state, task.statusText) else Refused
    else if fields.message.Some? then
      var message := fields.message.value;
      if message.parts.None? then Refused
      else if message.taskId.Some? && message.taskId.value != reference.remoteTaskId then Refused
      else Direct(message.parts.value)
    else if fields.statusUpdate.Some? then
      var update := fields.statusUpdate.value;
      if UpdateInScope(update.taskId, update.contextId, reference) && update.parsed.Some?
      then Accepted(Keep, update.parsed.value.0, update.parsed.value.1)
      else Refused
    else if fields.artifactUpdate.Some? then
      var update := fields.artifactUpdate.value;
      if UpdateInScope(update.taskId, update.contextId, reference) && update.artifact.Some?
      then Accepted(Update(update.artifact.value, update.append), Working, None)
      else Refused
    else Ignored
  }

  /** The task a frame is about. */
  ghost predicate Names(payload: Payload, taskId: string) {
    payload.Payload? && payload.result.Some? &&
    var f := payload.result.value;
    if f.task.Some? then f.task.value.Some? && f.task.value.value.id == taskId
    else if f.message.Some? then f.message.value.taskId == Some(taskId)
    else if f.statusUpdate.Some? then f.statusUpdate.value.taskId == Some(taskId)
    else f.artifactUpdate.Some? && f.artifactUpdate.value.taskId == Some(taskId)
  }

  /** The context a frame says it belongs to; a task's `""` says nothing. */
  ghost predicate NamesContext(payload: Payload, contextId: string) {
    payload.Payload? && payload.result.Some? &&
    var f := payload.result.value;
    if f.task.Some? then f.task.value.Some? && contextId != "" && f.task.value.value.contextId == contextId
    else if f.message.Some? then f.message.value.contextId == Some(contextId)
    else if f.statusUpdate.Some? then f.statusUpdate.value.contextId == Some(contextId)
    else f.artifactUpdate.Some? && f.artifactUpdate.value.contextId == Some(contextId)
  }

  /** The frame carries a message and no task, and so counts as a message. */
  predicate IsMessage(payload: Payload) {
    payload.Payload? && payload.result.Some? && payload.result.value.task.None? && payload.result.value.message.Some?
  }

  /** A frame answering another request or naming another task is refused. */
  lemma ForeignFramesAreRefused(reference: Reference, requestId: string, payload: Payload, other: string)
    requires payload.Payload?
    requires payload.id != requestId || (Names(payload, other) && other != reference.remoteTaskId)
    ensures Judge(reference, requestId, payload) == Refused
  {
    if payload.id == requestId && payload.version == "2.0" && !payload.error {
      var f := payload.result.value;
      assert JudgeFields(reference, f) == Refused;
    }
  }

  /** A frame naming another context is refused exactly when it is not a message, or is one
      that fails to parse or also names another task: nobody compares a message's context. */
  lemma ForeignContext(reference: Reference, requestId: string, payload: Payload, other: string)
    requires payload.Payload? && payload.id == requestId && payload.version == "2.0" && !payload.error
    requires NamesContext(payload, other) && reference.contextId.Some? && other != reference.contextId.value
    ensures Judge(reference, requestId, payload) == Refused <==>
      || !IsMessage(payload)
      || payload.result.value.message.value.parts.None?
      || exists task :: Names(payload, task) && task != reference.remoteTaskId
  {
    var f := payload.result.value;
    assert Judge(reference, requestId, payload) == JudgeFields(reference, f);
    if IsMessage(payload) {
      var message := f.message.value;
      if message.taskId.Some? {
        assert Names(payload, message.taskId.value);
      }
    }
  }

  /** The parser of the field the frame is taken by threw. */
  predicate Unparsed(f: Fields) {
    if f.task.Some? then f.task.value.None?
    else if f.message.Some? then f.message.value.parts.None?
    else if f.statusUpdate.Some? then f.statusUpdate.value.parsed.None?
    else f.artifactUpdate.Some? && f.artifactUpdate.value.artifact.None?
  }

  predicate IsUpdate(f: Fields) {
    f.task.None? && f.message.None? && (f.statusUpdate.Some? || f.artifactUpdate.Some?)
  }

  /** A frame is refused exactly when it is no answer to this request, or carries an error, or
      does not parse, or names another task, or, unless it is a message, another context, or
      is an update that leaves its task or its context unnamed. */
  lemma RefusedExactly(reference: Reference, requestId: string, payload: Payload)
    ensures Judge(reference, requestId, payload) == Refused <==>
      || payload.NotRecord? || payload.version != "2.0" || payload.id != requestId || payload.error
      || (payload.result.Some? && Unparsed(payload.result.value))
      || (exists task :: Names(payload, task) && task != reference.remoteTaskId)
      || (!IsMessage(payload) && reference.contextId.Some?
          && exists context :: NamesContext(payload, context) && context != reference.contextId.value)
      || (payload.result.Some? && IsUpdate(payload.result.value)
          && ((forall task :: !Names(payload, task)) || (forall context :: !NamesContext(payload, context))))
  {
    if payload.Payload? && payload.result.Some? {
      var f := payload.result.value;
      if f.task.Some? {
        if f.task.value.Some? {
          assert Names(payload, f.task.value.value.id);
          assert f.task.value.value.contextId != "" ==> NamesContext(payload, f.task.value.value.contextId);
        }
      } else if f.message.Some? {
        assert f.message.value.taskId.Some? ==> Names(payload, f.message.value.taskId.value);
      } else if f.statusUpdate.Some? {
        Named(payload, f.statusUpdate.value.taskId, f.statusUpdate.value.contextId);
      } else if f.artifactUpdate.Some? {
        Named(payload, f.artifactUpdate.value.taskId, f.artifactUpdate.value.contextId);
      }
    }
  }

  lemma Named(payload: Payload, taskId: Option<string>, contextId: Option<string>)
    requires payload.Payload? && payload.result.Some? && IsUpdate(payload.result.value)
    requires var f := payload.result.value;
      if f.statusUpdate.Some?
      then taskId == f.statusUpdate.value.taskId && contextId == f.statusUpdate.value.contextId
      else taskId == f.artifactUpdate.value.taskId && contextId == f.artifactUpdate.value.contextId
    ensures taskId.Some? ==> Names(payload, taskId.value)
    ensures contextId.Some? ==> NamesContext(payload, contextId.value)
  {
  }

  predicate EndsStream(state: TaskState) {
    || state.Completed? || state.Failed? || state.Canceled? || state.Rejected?
    || state.InputRequired? || state.AuthRequired?
  }

  /** What the loop carries along: the artifacts, and the references that
      `authorizeArtifact` was asked about so far, all of which it let pass. */
  datatype Session = Session(store: Store, granted: seq<string>)

  /** Each authorization is an await of its own, so the n-th one has its own answer, whatever
      reference it is about. */
  type Answers = nat -> bool

  predicate AllGranted(answers: Answers, from: nat, n: nat) {
    forall k: nat | from <= k < from + n :: answers(k)
  }

  /** `authorizeArtifacts` asks about the references one after the other. */
  function Deliver(session: Session, after: Store, snapshot: Snapshot, answers: Answers)
    : EventStream.Handled<Session, Snapshot>
  {
    if !AllGranted(answers, |session.granted|, |snapshot.references|) then EventStream.Throw
    else if EndsStream(snapshot.state) then EventStream.Stop(snapshot)
    else EventStream.Continue(Session(after, session.granted + snapshot.references), Some(snapshot))
  }

  /** `snapshotFromStreamPayload` and the rest of the loop body. */
  function Handle(reference: Reference, requestId: string, answers: Answers,
                  session: Session, payload: Payload): EventStream.Handled<Session, Snapshot> {
    match Judge(reference, requestId, payload)
    case Refused => EventStream.Throw
    case Ignored => EventStream.Continue(session, None)
    case Direct(parts) => Deliver(session, session.store, SnapshotFromMessage(parts), answers)
    case Accepted(effect, state, statusText) =>
      var after := Apply(session.store, effect);
      var shown := if effect.Reset? then effect.artifacts else after;
      Deliver(session, after, SnapshotFromTask(state, statusText, shown), answers)
  }

  /** `parse` is `JSON.parse` followed by the schema parsers; it throws on bad JSON. */
  function Handler(reference: Reference, requestId: string, answers: Answers,
                   parse: string -> Option<Payload>): (Session, string) -> EventStream.Handled<Session, Snapshot> {
    (session, data) =>
      match parse(data)
      case None => EventStream.Throw
      case Some(payload) => Handle(reference, requestId, answers, session, payload)
  }

  /** What the payloads of a stream do to the store, one effect each. */
  function Effects(reference: Reference, requestId: string, parse: string -> Option<Payload>,
                   payloads: seq<string>): seq<Effect> {
    if payloads == [] then []
    else
      [match parse(payloads[0])
       case None => Keep
       case Some(payload) =>
         (match Judge(reference, requestId, payload)
          case Accepted(effect, _, _) => effect
          case _ => Keep)]
      + Effects(reference, requestId, parse, payloads[1..])
  }

  /** While the stream is being read, the collected artifacts are the fold of all frames
      so far, so `StoreMeaning` and `Segmentation` speak about every open stream. */
  lemma {:induction false} StreamStore(reference: Reference, requestId: string, answers: Answers,
                                       parse: string -> Option<Payload>, session: Session, payloads: seq<string>)
    requires EventStream.Consume(Handler(reference, requestId, answers, parse), session, payloads).end.Reading?
    ensures EventStream.Consume(Handler(reference, requestId, answers, parse), session, payloads).end.state.store
      == Fold(session.store, Effects(reference, requestId, parse, payloads))
    ensures forall k | 0 <= k < |payloads| ::
      parse(payloads[k]).Some? && !Judge(reference, requestId, parse(payloads[k]).value).Refused?
    decreases |payloads|
  {
    if payloads != [] {
      var handle := Handler(reference, requestId, answers, parse);
      var h := handle(session, payloads[0]);
      var store := session.store;
      var effects := Effects(reference, requestId, parse, payloads);
      assert h.Continue?;
      DeliverKeeps(reference, requestId, answers, parse, session, payloads[0]);
      hide Handle, Judge, Apply;
      var rest := Effects(reference, requestId, parse, payloads[1..]);
      assert effects == [effects[0]] + effects[1..] && effects[1..] == rest;
      StreamStore(reference, requestId, answers, parse, h.state, payloads[1..]);
      FoldConcat(store, [effects[0]], effects[1..]);
      assert [effects[0]][..0] == [] && Fold(store, [effects[0]]) == Apply(store, effects[0]);
    }
  }

  lemma DeliverKeeps(reference: Reference, requestId: string, answers: Answers,
                     parse: string -> Option<Payload>, session: Session, data: string)
    requires Handler(reference, requestId, answers, parse)(session, data).Continue?
    ensures parse(data).Some? && !Judge(reference, requestId, parse(data).value).Refused?
    ensures Handler(reference, requestId, answers, parse)(session, data).state.store
      == Apply(session.store, Effects(reference, requestId, parse, [data])[0])
  {
  }

  /** The references of a list of snapshots, in the order they are yielded. */
  function AllReferences(events: seq<Snapshot>): seq<string> {
    if events == [] then [] else events[0].references + AllReferences(events[1..])
  }

  /** Every reference of every event got an answer of its own, in order, and passed; only
      the last event is stable, if the stream returned. */
  predicate EndsWell(events: seq<Snapshot>, returned: bool, answers: Answers, from: nat) {
    && (returned <==> events != [] && EndsStream(events[|events| - 1].state))
    && (forall i | 0 <= i < |events| - 1 :: !EndsStream(events[i].state))
    && AllGranted(answers, from, |AllReferences(events)|)
  }

  lemma Flattened(event: Snapshot, events: seq<Snapshot>)
    ensures AllReferences([event] + events) == event.references + AllReferences(events)
  {
    assert ([event] + events)[1..] == events;
  }

  lemma OneMore(event: Snapshot, events: seq<Snapshot>, returned: bool, answers: Answers, from: nat)
    requires EndsWell(events, returned, answers, from + |event.references|)
    requires !EndsStream(event.state) && AllGranted(answers, from, |event.references|)
    ensures EndsWell([event] + events, returned, answers, from)
    ensures AllReferences([event] + events) == event.references + AllReferences(events)
  {
    hide EndsStream;
    var all := [event] + events;
    assert forall i | 0 < i < |all| :: all[i] == events[i - 1];
    hide AllReferences;
    assert AllReferences(all) == event.references + AllReferences(events) by { Flattened(event, events); }
  }

  /** The stream yields a snapshot only after every one of its references was let pass, by
      an await for each, and returns at the first one in a stable state: none before it is
      stable, and none is stable unless it returns. */
  lemma {:induction false} StopsAtStable(reference: Reference, requestId: string, answers: Answers,
                                         parse: string -> Option<Payload>, session: Session, payloads: seq<string>)
    ensures var t := EventStream.Consume(Handler(reference, requestId, answers, parse), session, payloads);
      && EndsWell(t.events, t.end.Returned?, answers, |session.granted|)
      && (t.end.Reading? ==> t.end.state.granted == session.granted + AllReferences(t.events))
    ensures var t := EventStream.Consume(Handler(reference, requestId, answers, parse), session, payloads);
      forall i | 0 <= i < |t.events| :: t.events[i].state in
        if t.end.Returned? && i == |t.events| - 1
        then {Completed, Failed, Canceled, Rejected, InputRequired, AuthRequired}
        else {Unspecified, Submitted, Working}
    ensures var t := EventStream.Consume(Handler(reference, requestId, answers, parse), session, payloads);
      forall k: nat | |session.granted| <= k < |session.granted| + |AllReferences(t.events)| :: answers(k)
    decreases |payloads|
  {
    hide Judge, Apply, SnapshotFromTask, SnapshotFromMessage, AllGranted, EndsStream, EndsWell;
    StableStates(EventStream.Consume(Handler(reference, requestId, answers, parse), session, payloads), answers,
                 |session.granted|);
    if payloads == [] {
      NothingYielded(answers, |session.granted|);
      assert session.granted + [] == session.granted;
    } else {
      hide AllReferences;
      var handle := Handler(reference, requestId, answers, parse);
      var h := handle(session, payloads[0]);
      match h
      case Continue(next, event) =>
        StopsAtStable(reference, requestId, answers, parse, next, payloads[1..]);
        var rest := EventStream.Consume(handle, next, payloads[1..]);
        if event.Some? {
          assert next.granted == session.granted + event.value.references;
          OneMore(event.value, rest.events, rest.end.Returned?, answers, |session.granted|);
          assert session.granted + event.value.references + AllReferences(rest.events)
            == session.granted + (event.value.references + AllReferences(rest.events));
        } else {
          assert [] + rest.events == rest.events;
        }
      case Stop(last) => LastYielded(last, answers, |session.granted|);
      case Throw => NothingYielded(answers, |session.granted|);
    }
  }

  lemma StableStates(t: EventStream.Trace<Session, Snapshot>, answers: Answers, from: nat)
    ensures EndsWell(t.events, t.end.Returned?, answers, from) ==>
      forall i | 0 <= i < |t.events| :: t.events[i].state in
        if t.end.Returned? && i == |t.events| - 1
        then {Completed, Failed, Canceled, Rejected, InputRequired, AuthRequired}
        else {Unspecified, Submitted, Working}
    ensures EndsWell(t.events, t.end.Returned?, answers, from) ==>
      forall k: nat | from <= k < from + |AllReferences(t.events)| :: answers(k)
  {
  }

  lemma NothingYielded(answers: Answers, from: nat)
    ensures EndsWell([], false, answers, from)
  {
  }

  lemma LastYielded(last: Snapshot, answers: Answers, from: nat)
    requires EndsStream(last.state) && AllGranted(answers, from, |last.references|)
    ensures EndsWell([last], true, answers, from)
  {
    assert AllReferences([last][1..]) == [] && last.references + [] == last.references;
  }

  /** The stream as the client runs it: the snapshots yielded and the way it ends do not
      depend on how the response body was cut into chunks. */
  method StreamTask(reference: Reference, requestId: string, answers: Answers,
                    parse: string -> Option<Payload>, chunks: seq<string>)
    returns (trace: EventStream.Trace<Session, Snapshot>)
    ensures trace == EventStream.Consume(Handler(reference, requestId, answers, parse), Session([], []),
                                         EventStream.Decode(Concat(chunks)))
    ensures trace.end.Reading? ==>
      trace.end.state.store == Fold([], Effects(reference, requestId, parse, EventStream.Decode(Concat(chunks))))
  {
    trace := EventStream.StreamEvents(Handler(reference, requestId, answers, parse), Session([], []), chunks);
    if trace.end.Reading? {
      StreamStore(reference, requestId, answers, parse, Session([], []), EventStream.Decode(Concat(chunks)));
    }
  }

  /** A message for another conversation is taken for this one: it is shown and ends the
      stream as completed. */
  lemma ForeignMessageEndsStream(requestId: string, answers: Answers, parse: string -> Option<Payload>, data: string)
    requires parse(data) == Some(Payload("2.0", requestId, false, Some(Fields(
      None, Some(Message(None, Some("other"), Some([Part(Some("x"), None)]))), None, None))))
    ensures var reference := Reference("1", Some("ctx"));
      && NamesContext(parse(data).value, "other")
      && Judge(reference, requestId, parse(data).value) == Direct([Part(Some("x"), None)])
      && EventStream.Consume(Handler(reference, requestId, answers, parse), Session([], []), [data])
           == EventStream.Trace([Snapshot(Completed, "x", None, [])], EventStream.Returned)
  {
    var reference := Reference("1", Some("ctx"));
    var parts := [Part(Some("x"), None)];
    assert Judge(reference, requestId, parse(data).value) == Direct(parts);
    assert parts[1..] == [] && parts[..1] == parts;
    assert Texts(parts) == ["x"] && FileUris(parts) == [];
    EventStream.ConsumeOne(Handler(reference, requestId, answers, parse), Session([], []), data);
  }

  /** The `artifacts` map of one stream, changed in place. */
  class ArtifactMap {
    var artifacts: Store

    constructor ()
      ensures artifacts == []
    {
      artifacts := [];
    }

    method MergeStreamArtifact(artifact: Artifact, append: bool)
      modifies this
      ensures artifacts == Merge(old(artifacts), artifact, append)
    {
      var current := Find(artifacts, artifact.id);
      if append && current.Some? {
        artifacts := Set(artifacts, Extend(current.value, artifact));
      } else {
        artifacts := Set(artifacts, artifact);
      }
    }

    /** `artifacts.clear()` and the loop that stores a snapshot's artifacts. */
    method ResetTo(list: seq<Artifact>)
      modifies this
      ensures artifacts == SetAll([], list)
    {
      artifacts := [];
      var i := 0;
      while i < |list|
        invariant i <= |list|
        invariant SetAll(artifacts, list[i..]) == SetAll([], list)
      {
        assert list[i..][1..] == list[i + 1..];
        artifacts := Set(artifacts, list[i]);
        i := i + 1;
      }
    }

    method ApplyEffect(effect: Effect)
      modifies this
      ensures artifacts == Apply(old(artifacts), effect)
    {
      match effect
      case Reset(list) => ResetTo(list);
      case Update(artifact, append) => MergeStreamArtifact(artifact, append);
      case Keep =>
    }
  }
}
