/** The provider gate as the harness runs it: two shared maps, permit records changed in
    place, and one method per stretch of code between two awaits. Each method is one step
    of the machine in `ProviderGate`. */
module HarnessGate {
  import opened Options
  import opened EvalPolicy
  import opened ProviderGate

  /** The record `{ active, waiters }`, shared by every closure that captured it. */
  class PermitState {
    var active: nat
    var waiters: seq<nat>

    constructor ()
      ensures active == 0 && waiters == []
    {
      active, waiters := 0, [];
    }

    /** Hands the permit to the longest-waiting call, or returns it when none waits. */
    method GiveBack() returns (next: Option<nat>)
      requires active > 0
      modifies this
      ensures if old(waiters) == [] then next == None && active == old(active) - 1 && waiters == []
        else next == Some(old(waiters)[0]) && active == old(active) && waiters == old(waiters)[1..]
    {
      if |waiters| > 0 {
        next := Some(waiters[0]);
        waiters := waiters[1..];
      } else {
        next := None;
        active := active - 1;
      }
    }
  }

  class Gate {
    var providerCallTails: map<string, nat>
    var providerPermits: map<string, PermitState>
    var calls: seq<Call<PermitState>>
    ghost var made: set<PermitState>
    ghost var asked: map<string, seq<nat>>
    ghost var granted: map<string, seq<nat>>

    ghost function View(): State<PermitState>
      reads this, made
    {
      State(providerCallTails, providerPermits, map o | o in made :: Permit(o.active, o.waiters),
            calls, asked, granted)
    }

    constructor ()
      ensures View() == Init()
    {
      providerCallTails, providerPermits, calls := map[], map[], [];
      made, asked, granted := {}, map[], map[];
    }

    /** `withProviderCallSlot` up to `await previous`. */
    method Arrive(policy: Policy)
      modifies this
      ensures View() == ArriveNext(old(View()), policy) && made == old(made)
    {
      var previous := if policy.lane in providerCallTails then Some(providerCallTails[policy.lane]) else None;
      providerCallTails := providerCallTails[policy.lane := |calls|];
      calls := calls + [Call(policy, previous, AtLane)];
    }

    /** The provider's record, created and stored when the map has none. */
    method Record(p: string) returns (state: PermitState)
      requires p in providerPermits ==> providerPermits[p] in made
      modifies this`providerPermits, this`made
      ensures p in old(providerPermits) ==> state == old(providerPermits[p]) && made == old(made)
      ensures p !in old(providerPermits) ==>
        fresh(state) && made == old(made) + {state} && state.active == 0 && state.waiters == []
      ensures providerPermits == old(providerPermits)[p := state]
    {
      if p in providerPermits {
        state := providerPermits[p];
      } else {
        state := new PermitState();
        made := made + {state};
      }
      providerPermits := providerPermits[p := state];
    }

    /** After `await previous`: `withProviderPermit` up to its own await, or into the call.
        The record used is the stored one, and a new one only when none was stored. */
    method Enter(i: nat)
      requires i < |calls| && calls[i].phase.AtLane?
      requires calls[i].policy.provider in providerPermits ==> providerPermits[calls[i].policy.provider] in made
      modifies this, made
      ensures var p := old(calls[i].policy.provider);
        && p in providerPermits
        && (p !in old(providerPermits) ==> fresh(providerPermits[p]))
        && View() == EnterNext(old(View()), i, providerPermits[p])
      ensures fresh(made - old(made))
    {
      hide Log;
      var p := calls[i].policy.provider;
      var state := Record(p);
      Seat(i, state);
      assert View().cells == old(View()).cells[state := Permit(state.active, state.waiters)];
    }

    /** `active++` and into the call, or onto the waiters when `limit` permits are out. */
    method Seat(i: nat, state: PermitState)
      requires i < |calls|
      modifies this`calls, this`asked, this`granted, state
      ensures var call := old(calls[i]); var p := call.policy.provider;
        && asked == old(asked)[p := Log(old(asked), p) + [i]]
        && (if old(state.active) >= call.policy.limit then
              && state.waiters == old(state.waiters) + [i] && state.active == old(state.active)
              && calls == old(calls)[i := call.(phase := AtPermit(state))]
              && granted == old(granted)
            else
              && state.waiters == old(state.waiters) && state.active == old(state.active) + 1
              && calls == old(calls)[i := call.(phase := Running(state))]
              && granted == old(granted)[p := Log(old(granted), p) + [i]])
    {
      var p := calls[i].policy.provider;
      asked := asked[p := Log(asked, p) + [i]];
      if state.active >= calls[i].policy.limit {
        state.waiters := state.waiters + [i];
        calls := calls[i := calls[i].(phase := AtPermit(state))];
      } else {
        state.active := state.active + 1;
        calls := calls[i := calls[i].(phase := Running(state))];
        granted := granted[p := Log(granted, p) + [i]];
      }
    }

    /** A woken waiter's continuation runs and starts the provider call. */
    method Resume(i: nat)
      requires i < |calls| && calls[i].phase.Woken?
      modifies this`calls
      ensures View() == old(View()).(calls := SetPhase(old(View()), i, Running(old(calls[i].phase.cell))))
    {
      calls := calls[i := calls[i].(phase := Running(calls[i].phase.cell))];
    }

    /** The provider call returned or threw: `withProviderPermit`'s finally block. */
    method Finish(i: nat, threw: bool)
      requires i < |calls| && calls[i].phase.Running? && calls[i].phase.cell in made
      requires var state := calls[i].phase.cell;
        state.active > 0 && (state.waiters != [] ==> state.waiters[0] < |calls|)
      modifies this, made
      ensures View() == FinishNext(old(View()), i, threw) && made == old(made)
    {
      hide Log;
      var p := calls[i].policy.provider;
      var state := calls[i].phase.cell;
      calls := calls[i := calls[i].(phase := Unwinding(threw))];
      var next := state.GiveBack();
      if next.Some? {
        calls := calls[next.value := calls[next.value].(phase := Woken(state))];
        granted := granted[p := Log(granted, p) + [next.value]];
      }
      if state.active == 0 && |state.waiters| == 0 {
        providerPermits := providerPermits - {p};
      }
      assert View().cells == old(View()).cells[state := Permit(state.active, state.waiters)];
    }

    /** `withProviderCallSlot`'s finally block. */
    method Release(i: nat)
      requires i < |calls| && calls[i].phase.Unwinding?
      modifies this
      ensures View() == ReleaseNext(old(View()), i) && made == old(made)
    {
      var lane := calls[i].policy.lane;
      if lane in providerCallTails && providerCallTails[lane] == i {
        providerCallTails := providerCallTails - {lane};
      }
      calls := calls[i := calls[i].(phase := Settled(calls[i].phase.threw))];
    }
  }

  /** A stored record is used as it is, whatever record is offered as new: `Enter` above is
      the machine's step in either case. */
  lemma StoredRecordUsed(s: State<PermitState>, i: nat, spare: PermitState, other: PermitState)
    requires i < |s.calls| && s.calls[i].policy.provider in s.permits
    ensures EnterNext(s, i, spare) == EnterNext(s, i, other)
  {
  }

  /** Reachable states meet what the methods above ask of their callers. */
  lemma ReadyToRun(s: State<PermitState>, i: nat, table: set<Policy>)
    requires Inv(s, table) && i < |s.calls|
    ensures s.calls[i].policy.provider in s.permits ==> s.permits[s.calls[i].policy.provider] in s.cells
    ensures s.calls[i].phase.Running? ==>
      && s.calls[i].phase.cell in s.cells
      && var c := s.cells[s.calls[i].phase.cell];
         c.active > 0 && (c.waiters != [] ==> c.waiters[0] < |s.calls|)
  {
    hide LaneInv, Fifo, InTable;
    if s.calls[i].phase.Running? {
      FinishFacts(s, i, table);
    }
  }
}
