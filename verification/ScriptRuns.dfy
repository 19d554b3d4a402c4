/** Sandboxed script runs (src/sandbox-runtime.ts, lines 471-527): a run joins the promise
    chain, `dispose` watches it. */
module ScriptRuns {
  import opened Options
  import opened PromiseChain

  class Runner {
    var previousRun: Option<nat>
    var runs: seq<Task>
    var disposals: seq<Watch>
    ghost var entered: seq<nat>

    ghost function View(): State
      reads this
    {
      State(previousRun, runs, entered, disposals)
    }

    constructor ()
      ensures View() == INIT
    {
      previousRun, runs, disposals, entered := None, [], [], [];
    }

    /** `run` up to `await waitForPrevious`. */
    method Submit() returns (id: nat)
      modifies this
      ensures id == |old(runs)| && View() == Next(old(View()), Step.Join)
    {
      id := |runs|;
      var waitForPrevious := previousRun;
      previousRun := Some(id);
      runs := runs + [Task(waitForPrevious, Queued, 0)];
    }

    method Release(id: nat, outcome: Outcome)
      requires id < |runs|
      modifies this`runs
      ensures runs == old(runs)[id := Settle(old(runs)[id], outcome)]
    {
      runs := runs[id := Task(runs[id].waitFor, Done(outcome), runs[id].resolved + 1)];
    }

    /** Past the await: a run whose signal was aborted releases its slot and throws. */
    method Enter(id: nat, aborted: bool)
      requires Enabled(View(), Step.Enter(id, aborted))
      modifies this
      ensures View() == Next(old(View()), Step.Enter(id, aborted))
    {
      entered := entered + [id];
      if aborted {
        Release(id, Aborted);
      } else {
        runs := runs[id := runs[id].(phase := Inside)];
      }
    }

    /** The outer `finally`, reached whether the body returned or threw. */
    method Finish(id: nat, threw: bool)
      requires Enabled(View(), Step.Finish(id, threw))
      modifies this
      ensures View() == Next(old(View()), Step.Finish(id, threw))
    {
      Release(id, if threw then Threw else Returned);
    }

    /** `dispose` up to `await previousRun`. */
    method Dispose()
      modifies this
      ensures View() == Next(old(View()), Step.Await)
    {
      disposals := disposals + [Watch(previousRun, |runs|, false)];
    }

    method Delete(d: nat)
      requires Enabled(View(), Step.Pass(d))
      modifies this
      ensures View() == Next(old(View()), Step.Pass(d))
    {
      disposals := disposals[d := disposals[d].(passed := true)];
    }
  }

  // ----- runs inside when the root is deleted

  /** No run is submitted and no disposal begun. */
  predicate Quiet(steps: seq<Step>) {
    forall i | 0 <= i < |steps| :: !steps[i].Join? && !steps[i].Await?
  }

  /** Disposal `d` can delete the root while some run is inside. */
  predicate Overlaps(t: State, d: nat) {
    Enabled(t, Step.Pass(d)) && exists i | 0 <= i < |t.tasks| :: t.tasks[i].phase.Inside?
  }

  /** Some run submitted after disposal `d` began is not done. */
  predicate LateRun(t: State, d: nat)
    requires d < |t.watches|
  {
    exists i | t.watches[d].before <= i < |t.tasks| :: !t.tasks[i].phase.Done?
  }

  lemma QuietStep(s: State, step: Step)
    requires Enabled(s, step) && !step.Join? && !step.Await?
    ensures var t := Next(s, step);
      && |t.tasks| == |s.tasks| && |t.watches| == |s.watches|
      && (forall i | 0 <= i < |s.tasks| && s.tasks[i].phase.Done? :: t.tasks[i].phase.Done?)
      && (forall d | 0 <= d < |s.watches| :: t.watches[d].before == s.watches[d].before)
  {
  }

  /** With no new submission, what is done stays done and disposals await what they awaited. */
  lemma {:induction false} QuietKeeps(s: State, steps: seq<Step>, t: State)
    requires Quiet(steps) && Runs(s, steps, t)
    ensures |t.tasks| == |s.tasks| && |t.watches| == |s.watches|
    ensures forall i | 0 <= i < |s.tasks| && s.tasks[i].phase.Done? :: t.tasks[i].phase.Done?
    ensures forall d | 0 <= d < |s.watches| :: t.watches[d].before == s.watches[d].before
    decreases |steps|
  {
    if steps != [] {
      QuietStep(s, steps[0]);
      hide Enabled, Next;
      QuietKeeps(Next(s, steps[0]), steps[1..], t);
    }
  }

  /** A run inside when the root can go was submitted after the disposal began. */
  lemma OverlapIsLate(t: State, d: nat)
    requires Inv(t) && Overlaps(t, d)
    ensures LateRun(t, d)
  {
    assert WatchOk(t, t.watches[d]);
    ResolvedMeansDone(t, t.watches[d].before);
  }

  /** The earlier runs end one by one until a late one is inside and the disposal may go on. */
  lemma {:induction false} LetLateRunIn(s: State, d: nat, i: nat) returns (more: seq<Step>, u: State)
    requires Inv(s) && d < |s.watches| && !s.watches[d].passed
    requires s.watches[d].before <= i < |s.tasks| && !s.tasks[i].phase.Done?
    ensures Quiet(more) && Runs(s, more, u) && Overlaps(u, d)
    decreases TaskWork(s.tasks) + WatchWork(s.watches)
  {
    var k := |s.entered|;
    assert TaskOk(s, i);
    if k > s.watches[d].before && s.tasks[k - 1].phase.Inside? {
      InsideLate(s, d);
      more, u := [], s;
    } else {
      var step := if k > 0 && s.tasks[k - 1].phase.Inside? then Step.Finish(k - 1, false) else Step.Enter(k, false);
      NextStep(s, i);
      InvStep(s, step);
      WorkStep(s, step);
      hide TaskWork, WatchWork, Inv;
      var rest;
      rest, u := LetLateRunIn(Next(s, step), d, i);
      more := [step] + rest;
      assert more[1..] == rest;
    }
  }

  lemma InsideLate(s: State, d: nat)
    requires Inv(s) && d < |s.watches| && !s.watches[d].passed
    requires |s.entered| > s.watches[d].before && s.tasks[|s.entered| - 1].phase.Inside?
    ensures Overlaps(s, d)
  {
    var n := s.watches[d].before;
    assert WatchOk(s, s.watches[d]);
    assert n > 0 ==> TaskOk(s, n - 1);
  }

  lemma NextStep(s: State, i: nat)
    requires Inv(s) && i < |s.tasks| && !s.tasks[i].phase.Done?
    ensures |s.entered| > 0 && s.tasks[|s.entered| - 1].phase.Inside? ==>
      Enabled(s, Step.Finish(|s.entered| - 1, false))
    ensures !(|s.entered| > 0 && s.tasks[|s.entered| - 1].phase.Inside?) ==>
      |s.entered| <= i && Enabled(s, Step.Enter(|s.entered|, false))
  {
    assert TaskOk(s, i);
    if !(|s.entered| > 0 && s.tasks[|s.entered| - 1].phase.Inside?) {
      NextCanEnter(s);
    }
  }

  /** The root can still go while a run is inside, with nothing more submitted, exactly when
      a run submitted since the disposal began is not done. */
  lemma DeleteOverlaps(steps: seq<Step>, t: State, d: nat)
    requires Runs(INIT, steps, t) && d < |t.watches| && !t.watches[d].passed
    ensures (exists more, u :: Quiet(more) && Runs(t, more, u) && Overlaps(u, d)) <==> LateRun(t, d)
  {
    InvOverRuns(INIT, steps, t);
    hide Inv, Enabled, Next;
    if more, u :| Quiet(more) && Runs(t, more, u) && Overlaps(u, d) {
      InvOverRuns(t, more, u);
      QuietKeeps(t, more, u);
      OverlapIsLate(u, d);
    }
    if i: nat :| t.watches[d].before <= i < |t.tasks| && !t.tasks[i].phase.Done? {
      var more, u := LetLateRunIn(t, d, i);
    }
  }

  /** Nothing holds a submission back, so until the root goes one more can always bring this
      about. */
  lemma SubmissionCanOverlap(steps: seq<Step>, t: State, d: nat)
    requires Runs(INIT, steps, t) && d < |t.watches| && !t.watches[d].passed
    ensures exists more, u :: Quiet(more) && Runs(Next(t, Step.Join), more, u) && Overlaps(u, d)
  {
    InvOverRuns(INIT, steps, t);
    assert WatchOk(t, t.watches[d]);
    JoinOk(t);
    var more, u := LetLateRunIn(Next(t, Step.Join), d, |t.tasks|);
  }

  /** A run submitted after `dispose` is inside when the root goes. */
  lemma LateRunOverlapsDelete()
    ensures exists steps, t ::
      (Runs(INIT, steps, t) && |t.tasks| == 1 && t.tasks[0].phase.Inside?
       && |t.watches| == 1 && t.watches[0].passed)
  {
    var s1 := Next(INIT, Step.Await);
    var s2 := Next(s1, Step.Join);
    var s3 := Next(s2, Step.Enter(0, false));
    var t := Next(s3, Step.Pass(0));
    assert Runs(t, [], t);
    assert Runs(s3, [Step.Pass(0)], t);
    assert Runs(s2, [Step.Enter(0, false), Step.Pass(0)], t) by {
      assert [Step.Enter(0, false), Step.Pass(0)][1..] == [Step.Pass(0)];
    }
    var rest := [Step.Join, Step.Enter(0, false), Step.Pass(0)];
    assert Runs(s1, rest, t) by { assert rest[1..] == [Step.Enter(0, false), Step.Pass(0)]; }
    assert Runs(INIT, [Step.Await] + rest, t) by { assert ([Step.Await] + rest)[1..] == rest; }
  }
}
