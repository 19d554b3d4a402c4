/** What a run of the provider gate records, told by the list of its steps: who arrived, who
    asked in which order, and how each provider call ended
    (benchmark/harness/harness.ts, lines 49-85). */
module GateHistory {
  import opened Options
  import opened EvalPolicy
  import opened ProviderGate

  // ----- reading a list of steps

  function Arrival<R>(step: Step<R>): seq<Policy> {
    if step.Arrive? then [step.policy] else []
  }

  /** The policies of the calls, in the order the calls arrived. */
  function Arrived<R>(steps: seq<Step<R>>): seq<Policy> {
    if steps == [] then [] else Arrival(steps[0]) + Arrived(steps[1..])
  }

  function EndingIn<R>(step: Step<R>, i: nat): seq<bool> {
    if step.Finish? && step.id == i then [step.threw] else []
  }

  /** How the provider call of call `i` ended, once for each time it did. */
  function Endings<R>(steps: seq<Step<R>>, i: nat): seq<bool> {
    if steps == [] then [] else EndingIn(steps[0], i) + Endings(steps[1..], i)
  }

  function EntryIn<R>(step: Step<R>, i: nat): nat {
    if step.Enter? && step.id == i then 1 else 0
  }

  function Entries<R>(steps: seq<Step<R>>, i: nat): nat {
    if steps == [] then 0 else EntryIn(steps[0], i) + Entries(steps[1..], i)
  }

  function ReleaseIn<R>(step: Step<R>, i: nat): nat {
    if step.Release? && step.id == i then 1 else 0
  }

  function Releases<R>(steps: seq<Step<R>>, i: nat): nat {
    if steps == [] then 0 else ReleaseIn(steps[0], i) + Releases(steps[1..], i)
  }

  function AskingIn<R>(step: Step<R>, calls: seq<Call<R>>, p: string): seq<nat> {
    if step.Enter? && step.id < |calls| && calls[step.id].policy.provider == p then [step.id] else []
  }

  /** The calls of provider `p` in the order they passed their lane. */
  function Asking<R>(steps: seq<Step<R>>, calls: seq<Call<R>>, p: string): seq<nat> {
    if steps == [] then [] else AskingIn(steps[0], calls, p) + Asking(steps[1..], calls, p)
  }

  // ----- what a state says about one call

  function Policies<R>(s: State<R>): seq<Policy> {
    seq(|s.calls|, i requires 0 <= i < |s.calls| => s.calls[i].policy)
  }

  function Ended<R>(c: Call<R>): seq<bool> {
    if c.phase.Unwinding? || c.phase.Settled? then [c.phase.threw] else []
  }

  function Entered<R>(c: Call<R>): nat {
    if c.phase.AtLane? then 0 else 1
  }

  function Released<R>(c: Call<R>): nat {
    if c.phase.Settled? then 1 else 0
  }

  // ----- one step

  /** What a step does to call `k`. */
  ghost predicate Moved<R>(before: Call<R>, step: Step<R>, k: nat, after: Call<R>) {
    && after.policy == before.policy
    && match step
       case Enter(i, _) =>
         if k == i then before.phase.AtLane? && (after.phase.AtPermit? || after.phase.Running?)
         else after.phase == before.phase
       case Resume(i) =>
         if k == i then before.phase.Woken? && after.phase.Running? else after.phase == before.phase
       case Finish(i, threw) =>
         if k == i then before.phase.Running? && after.phase == Unwinding(threw)
         else after.phase == before.phase || (before.phase.AtPermit? && after.phase.Woken?)
       case Release(i) =>
         if k == i then before.phase.Unwinding? && after.phase == Settled(before.phase.threw)
         else after.phase == before.phase
       case Arrive(_) => after.phase == before.phase
  }

  lemma StepMoves<R>(s: State<R>, step: Step<R>, table: set<Policy>)
    requires PermitInv(s, table) && Enabled(s, step, table)
    ensures var t := Next(s, step, table);
      && |t.calls| == |s.calls| + (if step.Arrive? then 1 else 0)
      && (forall k | 0 <= k < |s.calls| :: Moved(s.calls[k], step, k, t.calls[k]))
      && (step.Arrive? ==> t.calls[|s.calls|].policy == step.policy && t.calls[|s.calls|].phase.AtLane?)
  {
    hide PermitInv, Resolved, Counted;
    if step.Finish? {
      FinishFacts(s, step.id, table);
    }
  }

  lemma StepArrives<R>(s: State<R>, step: Step<R>, table: set<Policy>)
    requires PermitInv(s, table) && Enabled(s, step, table)
    ensures Policies(Next(s, step, table)) == Policies(s) + Arrival(step)
  {
    StepMoves(s, step, table);
    hide PermitInv, Enabled, Next;
  }

  lemma MoveRecords<R>(before: Call<R>, step: Step<R>, i: nat, after: Call<R>)
    requires Moved(before, step, i, after)
    ensures Ended(after) == Ended(before) + EndingIn(step, i)
    ensures Entered(after) == Entered(before) + EntryIn(step, i)
    ensures Released(after) == Released(before) + ReleaseIn(step, i)
  {
  }

  lemma StepAsks<R>(s: State<R>, step: Step<R>, table: set<Policy>, p: string)
    requires PermitInv(s, table) && Enabled(s, step, table)
    ensures Log(Next(s, step, table).asked, p) == Log(s.asked, p) + AskingIn(step, s.calls, p)
  {
    hide PermitInv, Resolved;
    assert Log(s.asked, p) + [] == Log(s.asked, p);
  }

  // ----- whole runs

  lemma Assoc<T>(a: seq<T>, b: seq<T>, c: seq<T>)
    ensures (a + b) + c == a + (b + c)
  {
  }

  lemma {:induction false} RunArrives<R>(s: State<R>, steps: seq<Step<R>>, t: State<R>, table: set<Policy>)
    requires Consistent(table) && Inv(s, table) && Runs(s, steps, t, table)
    ensures Policies(t) == Policies(s) + Arrived(steps)
    decreases |steps|
  {
    if steps == [] {
      assert Policies(s) + [] == Policies(s);
    } else {
      InvStep(s, steps[0], table);
      StepArrives(s, steps[0], table) by { hide Next, Enabled; }
      hide Inv, Consistent, Enabled, Next, Policies;
      RunArrives(Next(s, steps[0], table), steps[1..], t, table);
      Assoc(Policies(s), Arrival(steps[0]), Arrived(steps[1..]));
    }
  }

  /** From a state in which call `i` has arrived. */
  lemma {:induction false} RunRecords<R>(s: State<R>, steps: seq<Step<R>>, t: State<R>, table: set<Policy>, i: nat)
    requires Consistent(table) && Inv(s, table) && Runs(s, steps, t, table) && i < |s.calls|
    ensures i < |t.calls|
    ensures Ended(t.calls[i]) == Ended(s.calls[i]) + Endings(steps, i)
    ensures Entered(t.calls[i]) == Entered(s.calls[i]) + Entries(steps, i)
    ensures Released(t.calls[i]) == Released(s.calls[i]) + Releases(steps, i)
    decreases |steps|
  {
    if steps == [] {
      assert Ended(s.calls[i]) + [] == Ended(s.calls[i]);
    } else {
      var u := Next(s, steps[0], table);
      InvStep(s, steps[0], table);
      StepMoves(s, steps[0], table) by { hide Next, Enabled; }
      hide Inv, Consistent, Enabled, Next;
      MoveRecords(s.calls[i], steps[0], i, u.calls[i]);
      hide Moved, Ended, Entered, Released, EndingIn;
      RunRecords(u, steps[1..], t, table, i);
      Assoc(Ended(s.calls[i]), EndingIn(steps[0], i), Endings(steps[1..], i));
    }
  }

  /** Nothing happens to a call before it arrives. */
  lemma {:induction false} CallRecords<R>(s: State<R>, steps: seq<Step<R>>, t: State<R>, table: set<Policy>, i: nat)
    requires Consistent(table) && Inv(s, table) && Runs(s, steps, t, table) && |s.calls| <= i < |t.calls|
    ensures Ended(t.calls[i]) == Endings(steps, i)
    ensures Entered(t.calls[i]) == Entries(steps, i) && Released(t.calls[i]) == Releases(steps, i)
    decreases |steps|
  {
    if steps != [] {
      var u := Next(s, steps[0], table);
      InvStep(s, steps[0], table);
      StepMoves(s, steps[0], table) by { hide Next, Enabled; }
      NotYet(s, steps[0], table, i);
      hide Inv, Consistent, Enabled, Next, Moved, Ended, Entered, Released, EndingIn, EntryIn, ReleaseIn;
      assert [] + Endings(steps[1..], i) == Endings(steps[1..], i);
      if i < |u.calls| {
        JustArrived(u.calls[i]);
        RunRecords(u, steps[1..], t, table, i);
      } else {
        CallRecords(u, steps[1..], t, table, i);
      }
    }
  }

  lemma JustArrived<R>(c: Call<R>)
    requires c.phase.AtLane?
    ensures Ended(c) == [] && Entered(c) == 0 && Released(c) == 0
  {
  }

  lemma NotYet<R>(s: State<R>, step: Step<R>, table: set<Policy>, i: nat)
    requires Enabled(s, step, table) && |s.calls| <= i
    ensures EndingIn(step, i) == [] && EntryIn(step, i) == 0 && ReleaseIn(step, i) == 0
  {
  }

  lemma AskingFirst<R>(s: State<R>, step: Step<R>, calls: seq<Call<R>>, table: set<Policy>, p: string)
    requires Enabled(s, step, table) && |s.calls| <= |calls|
    requires forall k | 0 <= k < |s.calls| :: s.calls[k].policy == calls[k].policy
    ensures AskingIn(step, calls, p) == AskingIn(step, s.calls, p)
  {
    hide Resolved;
  }

  lemma PoliciesKept<R>(s: State<R>, t: State<R>, more: seq<Policy>)
    requires Policies(t) == Policies(s) + more
    ensures |s.calls| <= |t.calls|
    ensures forall k | 0 <= k < |s.calls| :: s.calls[k].policy == t.calls[k].policy
  {
    assert |Policies(t)| == |Policies(s)| + |more|;
    forall k | 0 <= k < |s.calls| ensures s.calls[k].policy == t.calls[k].policy {
      assert Policies(t)[k] == Policies(s)[k];
    }
  }

  lemma {:induction false} RunAsks<R>(s: State<R>, steps: seq<Step<R>>, t: State<R>, table: set<Policy>, p: string)
    requires Consistent(table) && Inv(s, table) && Runs(s, steps, t, table)
    ensures Log(t.asked, p) == Log(s.asked, p) + Asking(steps, t.calls, p)
    decreases |steps|
  {
    if steps == [] {
      assert Log(s.asked, p) + [] == Log(s.asked, p);
    } else {
      var u := Next(s, steps[0], table);
      RunArrives(s, steps, t, table);
      PoliciesKept(s, t, Arrived(steps));
      InvStep(s, steps[0], table);
      StepAsks(s, steps[0], table, p) by { hide Next, Enabled; }
      AskingFirst(s, steps[0], t.calls, table, p);
      hide Inv, Consistent, Enabled, Next, AskingIn, Log;
      RunAsks(u, steps[1..], t, table, p);
      Assoc(Log(s.asked, p), AskingIn(steps[0], s.calls, p), Asking(steps[1..], t.calls, p));
    }
  }

  // ----- main results

  /** Every call runs once, with the policy it arrived with, and ends the way its provider
      call ended: whether that threw is what the two `finally` blocks pass on. */
  lemma CallHistory<R>(steps: seq<Step<R>>, t: State<R>, table: set<Policy>, i: nat)
    requires Consistent(table) && Runs(Init<R>(), steps, t, table) && i < |t.calls|
    ensures |Arrived(steps)| == |t.calls| && t.calls[i].policy == Arrived(steps)[i]
    ensures Endings(steps, i) ==
      if t.calls[i].phase.Unwinding? || t.calls[i].phase.Settled? then [t.calls[i].phase.threw] else []
    ensures Entries(steps, i) == if t.calls[i].phase.AtLane? then 0 else 1
    ensures Releases(steps, i) == if t.calls[i].phase.Settled? then 1 else 0
  {
    RunArrives(Init<R>(), steps, t, table);
    CallRecords(Init<R>(), steps, t, table, i);
    hide Runs, Consistent;
    assert Policies(Init<R>()) == [] && [] + Arrived(steps) == Arrived(steps);
    assert Policies(t)[i] == t.calls[i].policy;
  }

  /** The permits of a provider were asked for in the order its calls passed their lanes. */
  lemma AskedInOrder<R>(steps: seq<Step<R>>, t: State<R>, table: set<Policy>, p: string)
    requires Consistent(table) && Runs(Init<R>(), steps, t, table)
    ensures Log(t.asked, p) == Asking(steps, t.calls, p)
  {
    RunAsks(Init<R>(), steps, t, table, p);
    hide Runs, Consistent;
    assert [] + Asking(steps, t.calls, p) == Asking(steps, t.calls, p);
  }

  /** A call may pass its lane's gate exactly when it waits there and every earlier call of
      its lane has settled; other lanes and permits have no say. */
  lemma LaneOpens<R>(steps: seq<Step<R>>, t: State<R>, table: set<Policy>, i: nat, spare: R)
    requires Consistent(table) && Runs(Init<R>(), steps, t, table) && i < |t.calls| && spare !in t.cells
    ensures Enabled(t, Enter(i, spare), table) <==>
      t.calls[i].phase.AtLane? && forall k | 0 <= k < i && SameLane(t, k, i) :: t.calls[k].phase.Settled?
  {
    ReachableInv(steps, t, table);
    hide Runs, PermitInv, Consistent, Fifo;
    if Resolved(t, t.calls[i].prev) {
      ResolvedSettles(t, i);
    }
    if forall k | 0 <= k < i && SameLane(t, k, i) :: t.calls[k].phase.Settled? {
      FirstResolved(t, t.calls[i].prev, i);
    }
  }
}
