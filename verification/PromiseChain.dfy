/** Work put one after another on a tail promise: each task awaits the promise of its
    predecessor and then resolves its own. Script runs (src/sandbox-runtime.ts, lines 471-527)
    and forwarded events (src/kodax_cli.ts, lines 634-646) are chained this way. The steps
    of the machine are the code between two awaits. */
module PromiseChain {
  import opened Options

  /** `Queued` awaits the predecessor's promise; `Inside` is past it and at work. */
  datatype Phase = Queued | Inside | Done(outcome: Outcome)
  datatype Outcome = Aborted | Returned | Threw

  /** A task and the promise it made, named by its position: `resolved` counts how often
      the promise's resolver was called. */
  datatype Task = Task(waitFor: Option<nat>, phase: Phase, resolved: nat)

  /** Somebody awaiting the tail, as it was when `before` tasks had joined. */
  datatype Watch = Watch(waitFor: Option<nat>, before: nat, passed: bool)

  /** `entered` lists tasks in the order they got past their await. */
  datatype State = State(tail: Option<nat>, tasks: seq<Task>, entered: seq<nat>, watches: seq<Watch>)

  datatype Step =
    | Join
    | Enter(i: nat, aborted: bool)
    | Finish(i: nat, threw: bool)
    | Await
    | Pass(d: nat)

  const INIT: State := State(None, [], [], [])

  predicate Resolved(tasks: seq<Task>, tail: Option<nat>) {
    tail.Some? ==> tail.value < |tasks| && tasks[tail.value].resolved > 0
  }

  predicate Enabled(s: State, step: Step) {
    match step
    case Join => true
    case Enter(i, _) => i < |s.tasks| && s.tasks[i].phase.Queued? && Resolved(s.tasks, s.tasks[i].waitFor)
    case Finish(i, _) => i < |s.tasks| && s.tasks[i].phase.Inside?
    case Await => true
    case Pass(d) => d < |s.watches| && !s.watches[d].passed && Resolved(s.tasks, s.watches[d].waitFor)
  }

  function Settle(r: Task, outcome: Outcome): Task {
    r.(phase := Done(outcome), resolved := r.resolved + 1)
  }

  function Next(s: State, step: Step): State
    requires Enabled(s, step)
  {
    match step
    case Join =>
      s.(tasks := s.tasks + [Task(s.tail, Queued, 0)], tail := Some(|s.tasks|))
    case Enter(i, aborted) =>
      var r := s.tasks[i];
      s.(tasks := s.tasks[i := if aborted then Settle(r, Aborted) else r.(phase := Inside)],
         entered := s.entered + [i])
    case Finish(i, threw) =>
      s.(tasks := s.tasks[i := Settle(s.tasks[i], if threw then Threw else Returned)])
    case Await =>
      s.(watches := s.watches + [Watch(s.tail, |s.tasks|, false)])
    case Pass(d) =>
      s.(watches := s.watches[d := s.watches[d].(passed := true)])
  }

  /** `steps` is a run of the machine from `s` to `t`. */
  predicate Runs(s: State, steps: seq<Step>, t: State)
    decreases |steps|
  {
    if steps == [] then s == t
    else Enabled(s, steps[0]) && Runs(Next(s, steps[0]), steps[1..], t)
  }

  // ----- what every step keeps

  function Before(n: nat): Option<nat> {
    if n == 0 then None else Some(n - 1)
  }

  /** Tasks before the last one entered are done, tasks after it are queued. */
  predicate TaskOk(s: State, i: nat)
    requires i < |s.tasks|
  {
    var r := s.tasks[i];
    && r.waitFor == Before(i)
    && r.resolved == (if r.phase.Done? then 1 else 0)
    && (r.phase.Queued? <==> i >= |s.entered|)
    && (i + 1 < |s.entered| ==> r.phase.Done?)
  }

  predicate WatchOk(s: State, d: Watch) {
    && d.before <= |s.tasks| && d.waitFor == Before(d.before)
    && (d.passed ==> forall i | 0 <= i < d.before :: s.tasks[i].phase.Done?)
  }

  predicate Inv(s: State) {
    && s.tail == Before(|s.tasks|)
    && |s.entered| <= |s.tasks|
    && (forall i | 0 <= i < |s.entered| :: s.entered[i] == i)
    && (forall i | 0 <= i < |s.tasks| :: TaskOk(s, i))
    && (forall d | 0 <= d < |s.watches| :: WatchOk(s, s.watches[d]))
  }

  /** The promise a task or a watch awaits resolves only when all earlier tasks are done. */
  lemma ResolvedMeansDone(s: State, n: nat)
    requires Inv(s) && n <= |s.tasks| && Resolved(s.tasks, Before(n))
    ensures n <= |s.entered| && forall i | 0 <= i < n :: s.tasks[i].phase.Done?
  {
    forall i | 0 <= i < n ensures s.tasks[i].phase.Done? {
      assert TaskOk(s, i) && TaskOk(s, n - 1);
    }
    if n > 0 {
      assert TaskOk(s, n - 1);
    }
  }

  lemma EnterOk(s: State, i: nat, aborted: bool)
    requires Inv(s) && Enabled(s, Step.Enter(i, aborted))
    ensures Inv(Next(s, Step.Enter(i, aborted)))
  {
    var t := Next(s, Step.Enter(i, aborted));
    assert TaskOk(s, i);
    ResolvedMeansDone(s, i);
    assert i == |s.entered|;
    forall j | 0 <= j < |t.tasks| ensures TaskOk(t, j) {
      assert TaskOk(s, j);
    }
    forall d | 0 <= d < |t.watches| ensures WatchOk(t, t.watches[d]) {
      assert WatchOk(s, s.watches[d]);
    }
  }

  lemma FinishOk(s: State, i: nat, threw: bool)
    requires Inv(s) && Enabled(s, Step.Finish(i, threw))
    ensures Inv(Next(s, Step.Finish(i, threw)))
  {
    var t := Next(s, Step.Finish(i, threw));
    forall j | 0 <= j < |t.tasks| ensures TaskOk(t, j) {
      assert TaskOk(s, j);
    }
    forall d | 0 <= d < |t.watches| ensures WatchOk(t, t.watches[d]) {
      assert WatchOk(s, s.watches[d]);
    }
  }

  lemma JoinOk(s: State)
    requires Inv(s)
    ensures Inv(Next(s, Step.Join))
  {
    var t := Next(s, Step.Join);
    forall j | 0 <= j < |t.tasks| ensures TaskOk(t, j) {
      assert j < |s.tasks| ==> TaskOk(s, j);
    }
    forall d | 0 <= d < |t.watches| ensures WatchOk(t, t.watches[d]) {
      assert WatchOk(s, s.watches[d]);
    }
  }

  lemma AwaitOk(s: State, step: Step)
    requires Inv(s) && Enabled(s, step) && (step.Await? || step.Pass?)
    ensures Inv(Next(s, step))
  {
    var t := Next(s, step);
    forall j | 0 <= j < |t.tasks| ensures TaskOk(t, j) {
      assert TaskOk(s, j);
    }
    forall d | 0 <= d < |t.watches| ensures WatchOk(t, t.watches[d]) {
      assert d < |s.watches| ==> WatchOk(s, s.watches[d]);
      if step == Step.Pass(d) {
        ResolvedMeansDone(s, s.watches[d].before);
      }
    }
  }

  lemma InvStep(s: State, step: Step)
    requires Inv(s) && Enabled(s, step)
    ensures Inv(Next(s, step))
  {
    match step
    case Join => JoinOk(s);
    case Enter(i, aborted) => EnterOk(s, i, aborted);
    case Finish(i, threw) => FinishOk(s, i, threw);
    case _ => AwaitOk(s, step);
  }

  lemma {:induction false} InvOverRuns(s: State, steps: seq<Step>, t: State)
    requires Inv(s) && Runs(s, steps, t)
    ensures Inv(t)
    decreases |steps|
  {
    hide Inv, Enabled, Next;
    if steps != [] {
      InvStep(s, steps[0]);
      InvOverRuns(Next(s, steps[0]), steps[1..], t);
    }
  }

  // ----- whole histories

  /** One task is inside at a time, tasks enter in the order they joined, and each has
      resolved its promise exactly once if it is done, however it ended, and never before. */
  predicate InOrder(t: State) {
    && (forall i, j | 0 <= i < j < |t.tasks| :: !(t.tasks[i].phase.Inside? && t.tasks[j].phase.Inside?))
    && (forall i | 0 <= i < |t.entered| :: t.entered[i] == i)
    && (forall i | 0 <= i < |t.tasks| :: !t.tasks[i].phase.Queued? <==> i in t.entered)
    && (forall i | 0 <= i < |t.tasks| :: t.tasks[i].resolved == if t.tasks[i].phase.Done? then 1 else 0)
  }

  lemma InvInOrder(t: State)
    requires Inv(t)
    ensures InOrder(t) && |t.entered| <= |t.tasks|
  {
    forall i | 0 <= i < |t.tasks| ensures !t.tasks[i].phase.Queued? <==> i in t.entered {
      assert TaskOk(t, i);
      assert i < |t.entered| ==> t.entered[i] == i;
    }
    forall i, j | 0 <= i < j < |t.tasks| ensures !(t.tasks[i].phase.Inside? && t.tasks[j].phase.Inside?) {
      assert TaskOk(t, i) && TaskOk(t, j);
    }
    forall i | 0 <= i < |t.tasks| ensures t.tasks[i].resolved == if t.tasks[i].phase.Done? then 1 else 0 {
      assert TaskOk(t, i);
    }
  }

  lemma Serialised(steps: seq<Step>, t: State)
    requires Runs(INIT, steps, t)
    ensures InOrder(t)
  {
    InvOverRuns(INIT, steps, t);
    InvInOrder(t);
  }

  /** A watch passes only after every task that joined before it is done: a task found
      unfinished afterwards joined later. */
  lemma WatchWaits(steps: seq<Step>, t: State, d: nat, i: nat)
    requires Runs(INIT, steps, t) && d < |t.watches| && t.watches[d].passed && i < |t.tasks|
    ensures i < t.watches[d].before ==> t.tasks[i].phase.Done?
    ensures !t.tasks[i].phase.Done? ==> i >= t.watches[d].before
  {
    InvOverRuns(INIT, steps, t);
    assert WatchOk(t, t.watches[d]);
  }

  // ----- what a history records

  function EndingIn(step: Step, i: nat): seq<Outcome> {
    match step
    case Enter(j, aborted) => if j == i && aborted then [Aborted] else []
    case Finish(j, threw) => if j == i then [if threw then Threw else Returned] else []
    case _ => []
  }

  /** How task `i` ended, once for each time it did. */
  function Endings(steps: seq<Step>, i: nat): seq<Outcome> {
    if steps == [] then [] else EndingIn(steps[0], i) + Endings(steps[1..], i)
  }

  function EntryIn(step: Step): seq<nat> {
    if step.Enter? then [step.i] else []
  }

  /** The tasks that got past their await, in that order. */
  function Entries(steps: seq<Step>): seq<nat> {
    if steps == [] then [] else EntryIn(steps[0]) + Entries(steps[1..])
  }

  function Joins(steps: seq<Step>): nat {
    if steps == [] then 0 else (if steps[0].Join? then 1 else 0) + Joins(steps[1..])
  }

  function PassedIn(step: Step, d: nat): nat {
    if step == Pass(d) then 1 else 0
  }

  function Passes(steps: seq<Step>, d: nat): nat {
    if steps == [] then 0 else PassedIn(steps[0], d) + Passes(steps[1..], d)
  }

  /** For each wait for the tail, how many tasks had joined before it; `joined` had before. */
  function Waits(steps: seq<Step>, joined: nat): seq<nat> {
    if steps == [] then []
    else
      (if steps[0].Await? then [joined] else [])
      + Waits(steps[1..], if steps[0].Join? then joined + 1 else joined)
  }

  function Ended(s: State, i: nat): seq<Outcome> {
    if i < |s.tasks| && s.tasks[i].phase.Done? then [s.tasks[i].phase.outcome] else []
  }

  function Passed(s: State, d: nat): nat {
    if d < |s.watches| && s.watches[d].passed then 1 else 0
  }

  function Befores(s: State): seq<nat> {
    seq(|s.watches|, d requires 0 <= d < |s.watches| => s.watches[d].before)
  }

  lemma StepRecords(s: State, step: Step, i: nat)
    requires Enabled(s, step)
    ensures var t := Next(s, step);
      && Ended(t, i) == Ended(s, i) + EndingIn(step, i)
      && t.entered == s.entered + EntryIn(step)
      && |t.tasks| == |s.tasks| + (if step.Join? then 1 else 0)
  {
    assert Ended(s, i) + [] == Ended(s, i) && s.entered + [] == s.entered;
  }

  lemma StepWatches(s: State, step: Step, d: nat)
    requires Enabled(s, step)
    ensures var t := Next(s, step);
      && Passed(t, d) == Passed(s, d) + PassedIn(step, d)
      && Befores(t) == Befores(s) + if step.Await? then [|s.tasks|] else []
  {
  }

  lemma Assoc<T>(a: seq<T>, b: seq<T>, c: seq<T>)
    ensures (a + b) + c == a + (b + c) && a + [] == a
  {
  }

  lemma {:induction false} RunRecords(s: State, steps: seq<Step>, t: State, i: nat, d: nat)
    requires Runs(s, steps, t)
    ensures Ended(t, i) == Ended(s, i) + Endings(steps, i)
    ensures t.entered == s.entered + Entries(steps)
    ensures |t.tasks| == |s.tasks| + Joins(steps)
    ensures Passed(t, d) == Passed(s, d) + Passes(steps, d)
    ensures Befores(t) == Befores(s) + Waits(steps, |s.tasks|)
    decreases |steps|
  {
    if steps == [] {
      Assoc(Ended(s, i), [], []);
      Assoc(s.entered, [], []);
      Assoc(Befores(s), [], []);
    } else {
      var u := Next(s, steps[0]);
      StepRecords(s, steps[0], i);
      StepWatches(s, steps[0], d);
      hide Enabled, Next, Ended, Passed, Befores, EndingIn, EntryIn, PassedIn;
      RunRecords(u, steps[1..], t, i, d);
      Assoc(Ended(s, i), EndingIn(steps[0], i), Endings(steps[1..], i));
      Assoc(s.entered, EntryIn(steps[0]), Entries(steps[1..]));
      Assoc(Befores(s), if steps[0].Await? then [|s.tasks|] else [], Waits(steps[1..], |u.tasks|));
    }
  }

  /** Every task that joined is there, entered as the history says, and ends once, the way it
      was aborted, returned or threw; every wait is for the tasks that had joined by then, and
      has passed exactly when the history let it. */
  lemma TaskHistory(steps: seq<Step>, t: State, i: nat, d: nat)
    requires Runs(INIT, steps, t)
    ensures |t.tasks| == Joins(steps) && t.entered == Entries(steps)
    ensures i < |t.tasks| ==>
      Endings(steps, i) == if t.tasks[i].phase.Done? then [t.tasks[i].phase.outcome] else []
    ensures |t.watches| == |Waits(steps, 0)|
    ensures d < |t.watches| ==>
      t.watches[d].before == Waits(steps, 0)[d] && Passes(steps, d) == if t.watches[d].passed then 1 else 0
  {
    RunRecords(INIT, steps, t, i, d);
    hide Runs;
    assert [] + Endings(steps, i) == Endings(steps, i);
    assert [] + Entries(steps) == Entries(steps) && [] + Waits(steps, 0) == Waits(steps, 0);
    assert Befores(INIT) == [];
    assert d < |t.watches| ==> Befores(t)[d] == t.watches[d].before;
  }

  // ----- progress and termination

  predicate Settled(s: State) {
    && (forall i | 0 <= i < |s.tasks| :: s.tasks[i].phase.Done?)
    && (forall d | 0 <= d < |s.watches| :: s.watches[d].passed)
  }

  predicate CanStep(s: State) {
    || (exists i | 0 <= i < |s.tasks| :: Enabled(s, Step.Enter(i, false)))
    || (exists i | 0 <= i < |s.tasks| :: Enabled(s, Step.Finish(i, false)))
    || (exists d | 0 <= d < |s.watches| :: Enabled(s, Step.Pass(d)))
  }

  /** Until everything is done, some task can enter or finish, or some watch can pass. */
  lemma ProgressFrom(t: State)
    requires Inv(t)
    ensures Settled(t) <==> !CanStep(t)
  {
    var k := |t.entered|;
    assert forall i | 0 <= i < |t.tasks| :: TaskOk(t, i);
    if k > 0 && t.tasks[k - 1].phase.Inside? {
      assert Enabled(t, Step.Finish(k - 1, false));
    } else if k < |t.tasks| {
      NextCanEnter(t);
    } else {
      forall d | 0 <= d < |t.watches| && !t.watches[d].passed ensures Enabled(t, Step.Pass(d)) {
        assert WatchOk(t, t.watches[d]);
        var n := t.watches[d].before;
        assert n > 0 ==> TaskOk(t, n - 1);
      }
      forall i | 0 <= i < |t.tasks| ensures t.tasks[i].phase.Done? {
        assert TaskOk(t, i);
      }
    }
  }

  /** When nobody is inside, the task next in line can enter. */
  lemma NextCanEnter(t: State)
    requires Inv(t) && |t.entered| < |t.tasks|
    requires |t.entered| > 0 ==> !t.tasks[|t.entered| - 1].phase.Inside?
    ensures Enabled(t, Step.Enter(|t.entered|, false))
  {
    var k := |t.entered|;
    assert TaskOk(t, k);
    assert k > 0 ==> TaskOk(t, k - 1);
  }

  /** Nobody waits for ever. */
  lemma Progress(steps: seq<Step>, t: State)
    requires Runs(INIT, steps, t)
    ensures Settled(t) <==> !CanStep(t)
  {
    InvOverRuns(INIT, steps, t);
    ProgressFrom(t);
  }

  function Rank(phase: Phase): nat {
    match phase
    case Queued => 2
    case Inside => 1
    case Done(_) => 0
  }

  function TaskWork(tasks: seq<Task>): nat {
    if tasks == [] then 0 else TaskWork(tasks[..|tasks| - 1]) + Rank(tasks[|tasks| - 1].phase)
  }

  function WatchWork(watches: seq<Watch>): nat {
    if watches == [] then 0
    else WatchWork(watches[..|watches| - 1]) + if watches[|watches| - 1].passed then 0 else 1
  }

  lemma {:induction false} TaskWorkDrops(tasks: seq<Task>, i: nat, r: Task)
    requires i < |tasks|
    ensures TaskWork(tasks[i := r]) == TaskWork(tasks) - Rank(tasks[i].phase) + Rank(r.phase)
  {
    var n := |tasks| - 1;
    if i < n {
      TaskWorkDrops(tasks[..n], i, r);
      assert tasks[i := r][..n] == tasks[..n][i := r];
    } else {
      assert tasks[i := r][..n] == tasks[..n];
    }
  }

  lemma {:induction false} WatchWorkDrops(watches: seq<Watch>, d: nat)
    requires d < |watches| && !watches[d].passed
    ensures WatchWork(watches[d := watches[d].(passed := true)]) == WatchWork(watches) - 1
  {
    var n := |watches| - 1;
    var x := watches[d].(passed := true);
    if d < n {
      WatchWorkDrops(watches[..n], d);
      assert watches[d := x][..n] == watches[..n][d := x];
    } else {
      assert watches[d := x][..n] == watches[..n];
    }
  }

  function Calls(steps: seq<Step>): nat {
    if steps == [] then 0
    else (if steps[0].Join? then 3 else if steps[0].Await? then 2 else 0) + Calls(steps[1..])
  }

  lemma WorkStep(s: State, step: Step)
    requires Enabled(s, step)
    ensures TaskWork(Next(s, step).tasks) + WatchWork(Next(s, step).watches) + 1
      <= TaskWork(s.tasks) + WatchWork(s.watches) + (if step.Join? then 3 else if step.Await? then 2 else 0)
  {
    var t := Next(s, step);
    match step
    case Join => assert t.tasks[..|s.tasks|] == s.tasks;
    case Enter(i, _) => TaskWorkDrops(s.tasks, i, t.tasks[i]);
    case Finish(i, _) => TaskWorkDrops(s.tasks, i, t.tasks[i]);
    case Await => assert t.watches[..|s.watches|] == s.watches;
    case Pass(d) => WatchWorkDrops(s.watches, d);
  }

  /** Every history is finite: at most three steps a task and two a watch. */
  lemma {:induction false} RunsTerminate(s: State, steps: seq<Step>, t: State)
    requires Runs(s, steps, t)
    ensures |steps| + TaskWork(t.tasks) + WatchWork(t.watches)
      <= TaskWork(s.tasks) + WatchWork(s.watches) + Calls(steps)
    decreases |steps|
  {
    hide Enabled, Next, TaskWork, WatchWork;
    if steps != [] {
      WorkStep(s, steps[0]);
      RunsTerminate(Next(s, steps[0]), steps[1..], t);
    }
  }
}
