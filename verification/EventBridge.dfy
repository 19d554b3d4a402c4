/** The bridge that forwards one daemon run's events to the terminal
    (src/kodax_cli.ts, lines 627-665). Forwarding is a chain of promises, so its order and
    its ends are those of `PromiseChain`. */
module EventBridge {
  import opened Options
  import PromiseChain

  datatype Event = Event(runId: Option<string>, body: string)

  /** `queue` holds the event of each task of the chain. */
  datatype State = State(
    isOpen: bool,
    activeRunId: Option<string>,
    buffered: seq<Event>,
    queue: seq<Event>,
    chain: PromiseChain.State)

  datatype Step =
    | Arrive(event: Event)
    | SetRunId(runId: string)
    | Start(i: nat)
    | Settle(i: nat, threw: bool)
    | Close
    | CloseReturns(d: nat)

  const INIT: State := State(true, None, [], [], PromiseChain.INIT)

  /** The step of the chain behind a step of the bridge that is not an arrival. */
  function ChainStep(step: Step): PromiseChain.Step {
    match step
    case Start(i) => PromiseChain.Enter(i, false)
    case Settle(i, threw) => PromiseChain.Finish(i, threw)
    case Close => PromiseChain.Await
    case CloseReturns(d) => PromiseChain.Pass(d)
    case _ => PromiseChain.Join
  }

  predicate Enabled(s: State, step: Step) {
    match step
    case Arrive(_) => s.isOpen
    case SetRunId(_) => true
    case _ => PromiseChain.Enabled(s.chain, ChainStep(step))
  }

  function Enqueue(s: State, e: Event): State {
    s.(queue := s.queue + [e], chain := PromiseChain.Next(s.chain, PromiseChain.Join))
  }

  function Flush(s: State, events: seq<Event>, runId: string): State
    decreases |events|
  {
    if events == [] then s
    else Flush(if events[0].runId == Some(runId) then Enqueue(s, events[0]) else s, events[1..], runId)
  }

  function Next(s: State, step: Step): State
    requires Enabled(s, step)
  {
    match step
    case Arrive(e) =>
      if s.activeRunId.None? then s.(buffered := s.buffered + [e])
      else if e.runId == s.activeRunId then Enqueue(s, e)
      else s
    case SetRunId(runId) => Flush(s.(activeRunId := Some(runId), buffered := []), s.buffered, runId)
    case Close => s.(isOpen := false, chain := PromiseChain.Next(s.chain, ChainStep(step)))
    case _ => s.(chain := PromiseChain.Next(s.chain, ChainStep(step)))
  }

  predicate Runs(s: State, steps: seq<Step>, t: State)
    decreases |steps|
  {
    if steps == [] then s == t
    else Enabled(s, steps[0]) && Runs(Next(s, steps[0]), steps[1..], t)
  }

  // ----- the bridge object

  class Bridge {
    var isOpen: bool
    var activeRunId: Option<string>
    var buffered: seq<Event>
    var eventChain: Option<nat>
    var tasks: seq<PromiseChain.Task>
    var closers: seq<PromiseChain.Watch>
    var queue: seq<Event>
    ghost var entered: seq<nat>

    ghost function View(): State
      reads this
    {
      State(isOpen, activeRunId, buffered, queue, PromiseChain.State(eventChain, tasks, entered, closers))
    }

    constructor ()
      ensures View() == INIT
    {
      isOpen, activeRunId, buffered, queue := true, None, [], [];
      eventChain, tasks, closers, entered := None, [], [], [];
    }

    /** `eventChain = eventChain.then(forward).catch(report)`. */
    method Forward(e: Event)
      modifies this`eventChain, this`tasks, this`queue
      ensures View() == Enqueue(old(View()), e)
    {
      tasks := tasks + [PromiseChain.Task(eventChain, PromiseChain.Queued, 0)];
      eventChain := Some(|tasks| - 1);
      queue := queue + [e];
    }

    /** The subscription's listener. */
    method OnEvent(e: Event)
      requires isOpen
      modifies this
      ensures View() == Next(old(View()), Arrive(e))
    {
      if activeRunId == None {
        buffered := buffered + [e];
      } else if e.runId == activeRunId {
        Forward(e);
      }
    }

    method SetRun(runId: string)
      modifies this
      ensures View() == Next(old(View()), SetRunId(runId))
    {
      activeRunId := Some(runId);
      var events := buffered;
      buffered := [];
      ghost var goal := Flush(View(), events, runId);
      for i := 0 to |events|
        invariant Flush(View(), events[i..], runId) == goal
      {
        assert events[i..][0] == events[i] && events[i..][1..] == events[i + 1..];
        if events[i].runId == Some(runId) {
          Forward(events[i]);
        }
      }
      assert events[|events|..] == [];
    }

    /** A handler that throws is reported and the chain goes on. */
    method HandlerStarts(i: nat)
      requires Enabled(View(), Start(i))
      modifies this`tasks, this`entered
      ensures View() == Next(old(View()), Start(i))
    {
      entered := entered + [i];
      tasks := tasks[i := tasks[i].(phase := PromiseChain.Inside)];
    }

    method HandlerSettles(i: nat, threw: bool)
      requires Enabled(View(), Step.Settle(i, threw))
      modifies this`tasks
      ensures View() == Next(old(View()), Step.Settle(i, threw))
    {
      var outcome := if threw then PromiseChain.Threw else PromiseChain.Returned;
      tasks := tasks[i := PromiseChain.Task(tasks[i].waitFor, PromiseChain.Done(outcome), tasks[i].resolved + 1)];
    }

    /** `close` up to `await eventChain`. */
    method CloseUp()
      modifies this
      ensures View() == Next(old(View()), Close)
    {
      isOpen := false;
      closers := closers + [PromiseChain.Watch(eventChain, |tasks|, false)];
    }
  }

  // ----- what is forwarded

  function Only(events: seq<Event>, runId: string): seq<Event> {
    if events == [] then []
    else (if events[0].runId == Some(runId) then [events[0]] else []) + Only(events[1..], runId)
  }

  function Arrivals(steps: seq<Step>): seq<Event> {
    if steps == [] then []
    else (if steps[0].Arrive? then [steps[0].event] else []) + Arrivals(steps[1..])
  }

  predicate Sets(steps: seq<Step>) {
    exists i | 0 <= i < |steps| :: steps[i].SetRunId?
  }

  /** Every `setRunId` in the history names this run. */
  predicate OnlySets(steps: seq<Step>, runId: string) {
    forall i | 0 <= i < |steps| :: steps[i].SetRunId? ==> steps[i].runId == runId
  }

  lemma {:induction false} OnlyConcat(a: seq<Event>, b: seq<Event>, runId: string)
    ensures Only(a + b, runId) == Only(a, runId) + Only(b, runId)
  {
    if a == [] {
      assert a + b == b;
    } else {
      OnlyConcat(a[1..], b, runId);
      var first := if a[0].runId == Some(runId) then [a[0]] else [];
      assert (a + b)[0] == a[0] && (a + b)[1..] == a[1..] + b;
      assert Only(a + b, runId) == first + Only(a[1..] + b, runId);
      assert Only(a, runId) == first + Only(a[1..], runId);
      hide Only;
      assert first + (Only(a[1..], runId) + Only(b, runId)) == (first + Only(a[1..], runId)) + Only(b, runId);
    }
  }

  /** Flushing enqueues the run's events, in order. */
  lemma {:induction false} FlushQueue(s: State, events: seq<Event>, runId: string)
    ensures Flush(s, events, runId).queue == s.queue + Only(events, runId)
    decreases |events|
  {
    hide PromiseChain.Next;
    if events != [] {
      var u := if events[0].runId == Some(runId) then Enqueue(s, events[0]) else s;
      FlushQueue(u, events[1..], runId);
    }
  }

  lemma {:induction false} FlushRest(s: State, events: seq<Event>, runId: string)
    ensures var t := Flush(s, events, runId);
      t.activeRunId == s.activeRunId && t.buffered == s.buffered && t.isOpen == s.isOpen
    decreases |events|
  {
    if events != [] {
      FlushRest(if events[0].runId == Some(runId) then Enqueue(s, events[0]) else s, events[1..], runId);
    }
  }

  /** The chain is well formed and has one task per forwarded event; nothing is buffered
      once a run is active. */
  predicate Inv(s: State) {
    && PromiseChain.Inv(s.chain) && |s.queue| == |s.chain.tasks|
    && (s.activeRunId.Some? ==> s.buffered == [])
  }

  lemma EnqueueInv(s: State, e: Event)
    requires Inv(s)
    ensures Inv(Enqueue(s, e))
  {
    PromiseChain.InvStep(s.chain, PromiseChain.Join);
    hide PromiseChain.Inv;
  }

  lemma {:induction false} FlushInv(s: State, events: seq<Event>, runId: string)
    requires Inv(s)
    ensures Inv(Flush(s, events, runId))
    decreases |events|
  {
    hide Inv, Enqueue;
    if events != [] {
      EnqueueInv(s, events[0]);
      FlushInv(if events[0].runId == Some(runId) then Enqueue(s, events[0]) else s, events[1..], runId);
    }
  }

  lemma InvStep(s: State, step: Step)
    requires Inv(s) && Enabled(s, step)
    ensures Inv(Next(s, step))
  {
    hide PromiseChain.Inv;
    match step
    case Arrive(e) => EnqueueInv(s, e);
    case SetRunId(runId) => FlushInv(s.(activeRunId := Some(runId), buffered := []), s.buffered, runId);
    case _ => PromiseChain.InvStep(s.chain, ChainStep(step));
  }

  lemma {:induction false} InvOverRuns(s: State, steps: seq<Step>, t: State)
    requires Inv(s) && Runs(s, steps, t)
    ensures Inv(t)
    decreases |steps|
  {
    hide Inv, Enabled, Next;
    if steps != [] {
      InvStep(s, steps[0]);
      InvOverRuns(Next(s, steps[0]), steps[1..], t);
    }
  }

  /** What a step does to the events: `r` is the run that is or will be set. */
  lemma QueueStep(s: State, step: Step, r: string)
    requires Inv(s) && Enabled(s, step)
    requires s.activeRunId.None? || s.activeRunId == Some(r)
    requires step.SetRunId? ==> step.runId == r
    ensures var t := Next(s, step);
      && (s.activeRunId.None? && !step.SetRunId? ==>
            && t.activeRunId.None? && t.queue == s.queue
            && t.buffered == s.buffered + Arrivals([step]))
      && (s.activeRunId.Some? || step.SetRunId? ==>
            && t.activeRunId == Some(r) && t.buffered == []
            && t.queue == s.queue + Only(s.buffered + Arrivals([step]), r))
  {
    hide PromiseChain.Inv, PromiseChain.Next, PromiseChain.Enabled;
    assert Arrivals([step]) == if step.Arrive? then [step.event] else [] by {
      assert [step][1..] == [];
    }
    assert s.buffered + [] == s.buffered;
    match step
    case Arrive(e) =>
      assert Only([e], r) == if e.runId == Some(r) then [e] else [] by { assert [e][1..] == []; }
      assert [] + [e] == [e];
    case SetRunId(_) =>
      var u := s.(activeRunId := Some(r), buffered := []);
      FlushQueue(u, s.buffered, r);
      FlushRest(u, s.buffered, r);
    case _ =>
  }

  /** How the queue of `t` comes from `s`: `arrivals` came between, and `set` says whether
      the run id was set by then. */
  predicate Delivered(s: State, arrivals: seq<Event>, set_: bool, t: State, r: string) {
    if set_ then t.queue == s.queue + Only(s.buffered + arrivals, r)
    else t.queue == s.queue && t.buffered == s.buffered + arrivals
  }

  lemma {:induction false} QueueOverRuns(s: State, steps: seq<Step>, t: State, r: string)
    requires Inv(s) && Runs(s, steps, t) && OnlySets(steps, r)
    requires s.activeRunId.None? || s.activeRunId == Some(r)
    ensures Delivered(s, Arrivals(steps), s.activeRunId.Some? || Sets(steps), t, r)
    decreases |steps|
  {
    hide Inv, Enabled, Next;
    if steps == [] {
      assert s.buffered + [] == s.buffered;
      if s.activeRunId.Some? {
        NothingBuffered(s);
      }
    } else {
      var u := Next(s, steps[0]);
      assert steps[0].SetRunId? ==> steps[0].runId == r;
      InvStep(s, steps[0]);
      QueueStep(s, steps[0], r);
      SetsCons(steps, r);
      QueueOverRuns(u, steps[1..], t, r);
      ArrivalsCons(steps);
      hide Runs, Arrivals, Sets, OnlySets;
      var now := s.activeRunId.Some? || steps[0].SetRunId?;
      DeliveredCons(s, u, t, Arrivals([steps[0]]), Arrivals(steps[1..]), now, Sets(steps[1..]), r);
    }
  }

  lemma DeliveredCons(s: State, u: State, t: State, first: seq<Event>, rest: seq<Event>, now: bool, later: bool,
                      r: string)
    requires now ==> u.buffered == [] && u.queue == s.queue + Only(s.buffered + first, r)
    requires !now ==> u.queue == s.queue && u.buffered == s.buffered + first
    requires Delivered(u, rest, now || later, t, r)
    ensures Delivered(s, first + rest, now || later, t, r)
  {
    hide Only;
    OnlyConcat(s.buffered + first, rest, r);
    assert s.buffered + (first + rest) == (s.buffered + first) + rest && [] + rest == rest;
    assert s.queue + (Only(s.buffered + first, r) + Only(rest, r))
        == (s.queue + Only(s.buffered + first, r)) + Only(rest, r);
  }

  lemma ArrivalsCons(steps: seq<Step>)
    requires steps != []
    ensures Arrivals(steps) == Arrivals([steps[0]]) + Arrivals(steps[1..])
  {
    assert Arrivals([]) == [] && [steps[0]][1..] == [];
  }

  lemma SetsCons(steps: seq<Step>, r: string)
    requires steps != []
    ensures Sets(steps) <==> steps[0].SetRunId? || Sets(steps[1..])
    ensures OnlySets(steps, r) ==> OnlySets(steps[1..], r)
  {
    if Sets(steps[1..]) {
      var i :| 0 <= i < |steps[1..]| && steps[1..][i].SetRunId?;
      assert steps[i + 1].SetRunId?;
    }
    if Sets(steps) && !steps[0].SetRunId? {
      var i :| 0 <= i < |steps| && steps[i].SetRunId?;
      assert steps[1..][i - 1].SetRunId?;
    }
  }

  lemma NothingBuffered(s: State)
    requires Inv(s) && s.activeRunId.Some?
    ensures s.buffered == []
  {
  }

  // ----- main results

  /** The events whose handlers have started, in the order they started. */
  function Handled(s: State): seq<Event>
    requires Inv(s)
  {
    PromiseChain.InvInOrder(s.chain);
    seq(|s.chain.entered|, i requires 0 <= i < |s.chain.entered| => s.queue[s.chain.entered[i]])
  }

  function Pending(s: State): seq<Event>
    requires Inv(s)
  {
    PromiseChain.InvInOrder(s.chain);
    s.queue[|s.chain.entered|..]
  }

  /** Over any interleaving with a run id set once, what was handled and what is still
      queued is the arrivals of that run, in arrival order, none lost and none repeated. */
  lemma ExactlyOneRun(steps: seq<Step>, t: State, r: string)
    requires Runs(INIT, steps, t) && OnlySets(steps, r)
    ensures Inv(t)
    ensures Handled(t) + Pending(t) == if Sets(steps) then Only(Arrivals(steps), r) else []
  {
    InvOverRuns(INIT, steps, t);
    QueueOverRuns(INIT, steps, t, r);
    PromiseChain.InvInOrder(t.chain);
    assert [] + Arrivals(steps) == Arrivals(steps);
    assert Handled(t) + Pending(t) == t.queue;
  }

  /** The arrivals that are forwarded while a run is set: those of the run set last. */
  function Live(runId: string, steps: seq<Step>): seq<Event>
    decreases |steps|
  {
    if steps == [] then []
    else match steps[0]
      case Arrive(e) => (if e.runId == Some(runId) then [e] else []) + Live(runId, steps[1..])
      case SetRunId(next) => Live(next, steps[1..])
      case _ => Live(runId, steps[1..])
  }

  lemma {:induction false} LiveOverRuns(s: State, steps: seq<Step>, t: State, runId: string)
    requires Inv(s) && s.activeRunId == Some(runId) && Runs(s, steps, t)
    ensures t.queue == s.queue + Live(runId, steps)
    decreases |steps|
  {
    if steps == [] {
      assert s.queue + [] == s.queue;
    } else {
      var step, u := steps[0], Next(s, steps[0]);
      InvStep(s, step);
      LiveStep(s, step, runId);
      var next := if step.SetRunId? then step.runId else runId;
      var now := if step.Arrive? && step.event.runId == Some(runId) then [step.event] else [];
      hide Inv, Enabled, Next;
      LiveOverRuns(u, steps[1..], t, next);
      assert s.queue + now + Live(next, steps[1..]) == s.queue + (now + Live(next, steps[1..]));
      assert [] + Live(next, steps[1..]) == Live(next, steps[1..]);
    }
  }

  lemma LiveStep(s: State, step: Step, runId: string)
    requires Inv(s) && s.activeRunId == Some(runId) && Enabled(s, step)
    ensures var t := Next(s, step);
      && t.queue == s.queue + (if step.Arrive? && step.event.runId == Some(runId) then [step.event] else [])
      && t.activeRunId == Some(if step.SetRunId? then step.runId else runId)
  {
    hide PromiseChain.Inv, PromiseChain.Next, PromiseChain.Enabled;
    assert s.queue + [] == s.queue;
  }

  /** Over any interleaving with any run ids set: of what arrived before the first is set the
      events of that run are forwarded, and from then on those of the run set last; all of
      them, in arrival order, each once. */
  lemma RunSetLast(before: seq<Step>, s: State, runId: string, after: seq<Step>, t: State)
    requires Runs(INIT, before, s) && !Sets(before)
    requires Runs(Next(s, SetRunId(runId)), after, t)
    ensures Inv(t) && s.queue == []
    ensures Handled(t) + Pending(t) == Only(Arrivals(before), runId) + Live(runId, after)
  {
    var u := Next(s, SetRunId(runId));
    FirstSet(before, s, runId);
    InvOverRuns(u, after, t);
    LiveOverRuns(u, after, t, runId);
    PromiseChain.InvInOrder(t.chain);
    hide Runs, Sets, Only, Live, Next;
    assert Handled(t) + Pending(t) == t.queue;
  }

  lemma FirstSet(before: seq<Step>, s: State, runId: string)
    requires Runs(INIT, before, s) && !Sets(before)
    ensures Inv(s) && s.queue == []
    ensures var u := Next(s, SetRunId(runId));
      Inv(u) && u.activeRunId == Some(runId) && u.queue == Only(Arrivals(before), runId)
  {
    InvOverRuns(INIT, before, s);
    QueueOverRuns(INIT, before, s, runId);
    ActiveOverRuns(INIT, before, s, runId);
    QueueStep(s, SetRunId(runId), runId);
    InvStep(s, SetRunId(runId));
    hide Runs, Sets, OnlySets, Only, Next, Inv;
    assert Arrivals([SetRunId(runId)]) == [] by { assert [SetRunId(runId)][1..] == []; }
    assert [] + Arrivals(before) == Arrivals(before) && s.buffered + [] == s.buffered;
    assert [] + Only(Arrivals(before), runId) == Only(Arrivals(before), runId);
  }

  /** One handler runs at a time, each starts once and in queue order, and a throw stops
      nothing behind it. */
  lemma OneHandler(steps: seq<Step>, t: State)
    requires Runs(INIT, steps, t)
    ensures Inv(t) && PromiseChain.InOrder(t.chain)
  {
    InvOverRuns(INIT, steps, t);
    PromiseChain.InvInOrder(t.chain);
  }

  // ----- delivery

  /** No handler can start or settle and no `close` can return. */
  predicate Quiescent(s: State) {
    && (forall i | 0 <= i < |s.chain.tasks| :: !Enabled(s, Start(i)))
    && (forall i | 0 <= i < |s.chain.tasks| :: !Enabled(s, Step.Settle(i, false)))
    && (forall d | 0 <= d < |s.chain.watches| :: !Enabled(s, CloseReturns(d)))
  }

  /** No deadlock: some handler can start or settle or some `close` can return, until every
      handler has settled and every `close` has returned. */
  lemma Progress(steps: seq<Step>, t: State)
    requires Runs(INIT, steps, t)
    ensures Quiescent(t) <==> PromiseChain.Settled(t.chain)
  {
    InvOverRuns(INIT, steps, t);
    PromiseChain.ProgressFrom(t.chain);
    hide PromiseChain.Enabled, PromiseChain.Settled;
    assert forall i :: Enabled(t, Start(i)) <==> PromiseChain.Enabled(t.chain, PromiseChain.Enter(i, false));
    assert forall i ::
      Enabled(t, Step.Settle(i, false)) <==> PromiseChain.Enabled(t.chain, PromiseChain.Finish(i, false));
    assert forall d :: Enabled(t, CloseReturns(d)) <==> PromiseChain.Enabled(t.chain, PromiseChain.Pass(d));
  }

  /** Once nothing can move every event of the run was handled, none is pending, and every
      `close` has returned. */
  lemma Delivers(steps: seq<Step>, t: State, r: string)
    requires Runs(INIT, steps, t) && OnlySets(steps, r) && Quiescent(t)
    ensures Inv(t) && Pending(t) == []
    ensures Handled(t) == if Sets(steps) then Only(Arrivals(steps), r) else []
    ensures forall i | 0 <= i < |t.chain.tasks| :: t.chain.tasks[i].phase.Done?
    ensures forall d | 0 <= d < |t.chain.watches| :: t.chain.watches[d].passed
  {
    ExactlyOneRun(steps, t, r);
    Progress(steps, t);
    hide Runs, OnlySets, Sets, Only, Arrivals, Quiescent;
    AllEntered(t.chain);
    assert Pending(t) == [];
    assert Handled(t) + [] == Handled(t);
  }

  /** What is still to be done: two steps for each event that waits or may yet be queued,
      one for each handler inside and for each `close`. */
  function Work(s: State): nat {
    PromiseChain.TaskWork(s.chain.tasks) + PromiseChain.WatchWork(s.chain.watches) + 2 * |s.buffered|
  }

  function Charge(step: Step): nat {
    match step
    case Arrive(_) => 3
    case Close => 2
    case SetRunId(_) => 1
    case _ => 0
  }

  function Charges(steps: seq<Step>): nat {
    if steps == [] then 0 else Charge(steps[0]) + Charges(steps[1..])
  }

  lemma EnqueueWork(s: State, e: Event)
    ensures Work(Enqueue(s, e)) == Work(s) + 2
  {
    var t := Enqueue(s, e);
    assert t.chain.tasks[..|s.chain.tasks|] == s.chain.tasks;
  }

  lemma {:induction false} FlushWork(s: State, events: seq<Event>, runId: string)
    ensures Work(Flush(s, events, runId)) <= Work(s) + 2 * |events|
    decreases |events|
  {
    hide Enqueue, Work;
    if events != [] {
      EnqueueWork(s, events[0]);
      FlushWork(if events[0].runId == Some(runId) then Enqueue(s, events[0]) else s, events[1..], runId);
    }
  }

  lemma WorkStep(s: State, step: Step)
    requires Enabled(s, step)
    ensures Work(Next(s, step)) + 1 <= Work(s) + Charge(step)
  {
    match step
    case Arrive(e) => EnqueueWork(s, e);
    case SetRunId(runId) => FlushWork(s.(activeRunId := Some(runId), buffered := []), s.buffered, runId);
    case _ => PromiseChain.WorkStep(s.chain, ChainStep(step));
  }

  /** Every history is finite: at most three steps an event, two a `close` and one a
      `setRunId`, so delivery cannot be put off for ever. */
  lemma {:induction false} RunsTerminate(s: State, steps: seq<Step>, t: State)
    requires Runs(s, steps, t)
    ensures |steps| + Work(t) <= Work(s) + Charges(steps)
    decreases |steps|
  {
    hide Enabled, Next, Work, Charge;
    if steps != [] {
      WorkStep(s, steps[0]);
      RunsTerminate(Next(s, steps[0]), steps[1..], t);
    }
  }

  // ----- closing

  /** `close` returns only after every event queued when it was called was handled. */
  lemma CloseWaits(steps: seq<Step>, t: State, d: nat, i: nat)
    requires Runs(INIT, steps, t) && d < |t.chain.watches| && t.chain.watches[d].passed
    requires i < t.chain.watches[d].before
    ensures i < |t.queue| && i < |t.chain.tasks| && t.chain.tasks[i].phase.Done?
  {
    InvOverRuns(INIT, steps, t);
    assert PromiseChain.WatchOk(t.chain, t.chain.watches[d]);
  }

  /** A watch in place stays in place; only passing changes it. */
  lemma {:induction false} WatchKept(s: State, steps: seq<Step>, t: State, d: nat)
    requires Inv(s) && Runs(s, steps, t) && d < |s.chain.watches|
    ensures d < |t.chain.watches| && t.chain.watches[d].before == s.chain.watches[d].before
    decreases |steps|
  {
    hide Inv, Enabled, Next;
    if steps != [] {
      InvStep(s, steps[0]);
      WatchStep(s, steps[0], d);
      WatchKept(Next(s, steps[0]), steps[1..], t, d);
    }
  }

  lemma WatchStep(s: State, step: Step, d: nat)
    requires Enabled(s, step) && d < |s.chain.watches|
    ensures var t := Next(s, step);
      d < |t.chain.watches| && t.chain.watches[d].before == s.chain.watches[d].before
  {
    if step.SetRunId? {
      FlushWatches(s.(activeRunId := Some(step.runId), buffered := []), s.buffered, step.runId);
    }
  }

  lemma {:induction false} FlushWatches(s: State, events: seq<Event>, runId: string)
    ensures Flush(s, events, runId).chain.watches == s.chain.watches
    decreases |events|
  {
    if events != [] {
      FlushWatches(if events[0].runId == Some(runId) then Enqueue(s, events[0]) else s, events[1..], runId);
    }
  }

  /** A closed subscription delivers nothing more. */
  lemma {:induction false} NoMoreArrivals(s: State, steps: seq<Step>, t: State)
    requires !s.isOpen && Runs(s, steps, t)
    ensures Arrivals(steps) == []
    decreases |steps|
  {
    if steps != [] {
      if steps[0].SetRunId? {
        FlushRest(s.(activeRunId := Some(steps[0].runId), buffered := []), s.buffered, steps[0].runId);
      }
      hide PromiseChain.Next, PromiseChain.Enabled;
      NoMoreArrivals(Next(s, steps[0]), steps[1..], t);
    }
  }

  /** A bridge closed after its run id was set returns from `close` only when every event of
      the run was handled: nothing is pending then, or ever after. */
  lemma ClosedMeansHandled(before: seq<Step>, s: State, after: seq<Step>, t: State, r: string)
    requires Runs(INIT, before, s) && OnlySets(before, r) && Sets(before)
    requires Runs(Next(s, Close), after, t) && OnlySets(after, r)
    requires |s.chain.watches| < |t.chain.watches| && t.chain.watches[|s.chain.watches|].passed
    ensures Inv(t) && Pending(t) == [] && Handled(t) == Only(Arrivals(before), r)
    ensures forall i | 0 <= i < |t.chain.tasks| :: t.chain.tasks[i].phase.Done?
  {
    var d := |s.chain.watches|;
    var u := Next(s, Close);
    InvOverRuns(INIT, before, s);
    InvStep(s, Close);
    InvOverRuns(u, after, t);
    ClosedQueue(before, s, after, t, r);
    WatchKept(u, after, t, d);
    hide Runs, OnlySets, Sets, Only, Arrivals;
    assert PromiseChain.WatchOk(t.chain, t.chain.watches[d]);
    PromiseChain.InvInOrder(t.chain);
    AllEntered(t.chain);
    assert Handled(t) + Pending(t) == t.queue;
  }

  lemma ClosedQueue(before: seq<Step>, s: State, after: seq<Step>, t: State, r: string)
    requires Runs(INIT, before, s) && OnlySets(before, r) && Sets(before)
    requires Runs(Next(s, Close), after, t) && OnlySets(after, r)
    ensures t.queue == s.queue == Only(Arrivals(before), r)
  {
    var u := Next(s, Close);
    InvOverRuns(INIT, before, s);
    QueueOverRuns(INIT, before, s, r);
    ActiveOverRuns(INIT, before, s, r);
    assert [] + Arrivals(before) == Arrivals(before);
    InvStep(s, Close);
    NothingBuffered(u);
    NoMoreArrivals(u, after, t);
    QueueOverRuns(u, after, t, r);
    hide Runs, OnlySets, Sets, Inv;
    assert Only([] + [], r) == [];
  }

  lemma AllEntered(c: PromiseChain.State)
    requires PromiseChain.Inv(c) && forall i | 0 <= i < |c.tasks| :: c.tasks[i].phase.Done?
    ensures |c.entered| == |c.tasks|
  {
    if |c.entered| < |c.tasks| {
      NextIsQueued(c);
    }
  }

  lemma NextIsQueued(c: PromiseChain.State)
    requires PromiseChain.Inv(c) && |c.entered| < |c.tasks|
    ensures c.tasks[|c.entered|].phase.Queued?
  {
    assert PromiseChain.TaskOk(c, |c.entered|);
  }

  lemma {:induction false} ActiveOverRuns(s: State, steps: seq<Step>, t: State, r: string)
    requires Inv(s) && Runs(s, steps, t) && OnlySets(steps, r)
    requires s.activeRunId.None? || s.activeRunId == Some(r)
    ensures t.activeRunId == if s.activeRunId.Some? || Sets(steps) then Some(r) else None
    decreases |steps|
  {
    hide Inv, Enabled, Next;
    if steps != [] {
      assert steps[0].SetRunId? ==> steps[0].runId == r;
      InvStep(s, steps[0]);
      QueueStep(s, steps[0], r);
      SetsCons(steps, r);
      ActiveOverRuns(Next(s, steps[0]), steps[1..], t, r);
    }
  }

  /** What is queued after `close`: nothing, unless the run id was set only then, and in
      that case the run's events that arrived before. */
  lemma LateForwarding(before: seq<Step>, s: State, after: seq<Step>, t: State, r: string)
    requires Runs(INIT, before, s) && OnlySets(before, r)
    requires Runs(Next(s, Close), after, t) && OnlySets(after, r)
    ensures t.queue == s.queue + if !Sets(before) && Sets(after) then Only(Arrivals(before), r) else []
    ensures t.queue != s.queue <==> !Sets(before) && Sets(after) && Only(Arrivals(before), r) != []
  {
    if Sets(before) {
      ClosedQueue(before, s, after, t, r);
    } else {
      UnsetQueue(before, s, after, t, r);
    }
    hide *;
  }

  lemma UnsetQueue(before: seq<Step>, s: State, after: seq<Step>, t: State, r: string)
    requires Runs(INIT, before, s) && OnlySets(before, r) && !Sets(before)
    requires Runs(Next(s, Close), after, t) && OnlySets(after, r)
    ensures s.queue == [] && t.queue == if Sets(after) then Only(Arrivals(before), r) else []
  {
    var u := Next(s, Close);
    InvOverRuns(INIT, before, s);
    QueueOverRuns(INIT, before, s, r);
    ActiveOverRuns(INIT, before, s, r);
    InvStep(s, Close);
    NoMoreArrivals(u, after, t);
    QueueOverRuns(u, after, t, r);
    hide Runs, OnlySets, Sets, Inv, Only;
    assert [] + Arrivals(before) == Arrivals(before) && Arrivals(before) + [] == Arrivals(before);
    assert [] + Only(Arrivals(before), r) == Only(Arrivals(before), r);
  }

  /** A bridge closed before its run id is set returns at once, and a later `setRunId` still
      queues what was buffered. */
  lemma CloseBeforeRunId(e: Event)
    requires e.runId.Some?
    ensures exists steps, t ::
      (Runs(INIT, steps, t) && Inv(t) && |t.chain.watches| == 1 && t.chain.watches[0].passed && Pending(t) == [e])
  {
    var s1 := Next(INIT, Arrive(e));
    var s2 := Next(s1, Close);
    var s3 := Next(s2, CloseReturns(0));
    var set_ := SetRunId(e.runId.value);
    var t := Next(s3, set_);
    var tail := [CloseReturns(0), set_];
    var steps := [Arrive(e)] + ([Close] + tail);
    assert s2 == State(false, None, [e], [], PromiseChain.State(None, [], [], [PromiseChain.Watch(None, 0, false)]));
    assert s3 == s2.(chain := PromiseChain.State(None, [], [], [PromiseChain.Watch(None, 0, true)]));
    assert Enabled(s2, CloseReturns(0));
    FlushOne(s3.(activeRunId := e.runId, buffered := []), e);
    hide Next;
    assert Runs(INIT, steps, t) by {
      assert Runs(t, [], t);
      assert [set_][1..] == [] && tail[1..] == [set_] && ([Close] + tail)[1..] == tail && steps[1..] == [Close] + tail;
      assert Enabled(INIT, Arrive(e)) && Enabled(s1, Close) && Enabled(s3, set_);
      assert Runs(s2, tail, t);
    }
    InvOverRuns(INIT, steps, t);
    assert t.queue == [e] && t.chain.entered == [];
  }

  lemma FlushOne(u: State, e: Event)
    requires e.runId.Some?
    ensures Flush(u, [e], e.runId.value) == Enqueue(u, e)
  {
    assert [e][1..] == [];
    assert Flush(Enqueue(u, e), [], e.runId.value) == Enqueue(u, e);
  }
}
