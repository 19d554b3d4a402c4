/** The per-lane promise chain nested around the per-provider counting semaphore
    (benchmark/harness/harness.ts, lines 46-85), as a machine whose steps are the
    stretches of code between two awaits. Any number of calls interleave. */
module ProviderGate {
  import opened Options
  import opened EvalPolicy

  /** The mutable record kept per provider. Waiters are named by their call. */
  datatype Permit = Permit(active: nat, waiters: seq<nat>)

  /** Where a call is suspended. `cell` is the permit record its closure captured. */
  datatype Phase<R> =
    | AtLane              // awaiting the previous tail of its lane
    | AtPermit(cell: R)   // queued in `waiters`
    | Woken(cell: R)      // handed a permit, continuation not yet run
    | Running(cell: R)    // inside the provider call
    | Unwinding(threw: bool)  // permit returned, lane not yet released
    | Settled(threw: bool)

  datatype Call<R> = Call(policy: Policy, prev: Option<nat>, phase: Phase<R>)

  /** Calls are numbered in arrival order, and a lane's tail promise is named by the
      call that created it. `cells` holds every permit record ever allocated; `asked`
      and `granted` record, per provider, in which order permits were requested and
      given out. */
  datatype State<R> = State(
    tails: map<string, nat>,
    permits: map<string, R>,
    cells: map<R, Permit>,
    calls: seq<Call<R>>,
    asked: map<string, seq<nat>>,
    granted: map<string, seq<nat>>)

  datatype Step<R> =
    | Arrive(policy: Policy)
    | Enter(id: nat, spare: R)
    | Resume(id: nat)
    | Finish(id: nat, threw: bool)
    | Release(id: nat)

  function Log(logs: map<string, seq<nat>>, p: string): seq<nat> {
    if p in logs then logs[p] else []
  }

  function Init<R>(): State<R> {
    State(map[], map[], map[], [], map[], map[])
  }

  /** A tail resolves once its own call has released and the tail before it resolved. */
  ghost predicate Resolved<R>(s: State<R>, tail: Option<nat>)
    decreases if tail.Some? then tail.value + 1 else 0
  {
    tail.Some? ==>
      && tail.value < |s.calls|
      && s.calls[tail.value].phase.Settled?
      && var before := s.calls[tail.value].prev;
         (before.Some? ==> before.value < tail.value) && Resolved(s, before)
  }

  ghost predicate Enabled<R>(s: State<R>, step: Step<R>, table: set<Policy>) {
    match step
    case Arrive(policy) => policy in table
    case Enter(i, spare) =>
      && i < |s.calls| && s.calls[i].phase.AtLane? && Resolved(s, s.calls[i].prev)
      && spare !in s.cells
    case Resume(i) => i < |s.calls| && s.calls[i].phase.Woken?
    case Finish(i, _) => i < |s.calls| && s.calls[i].phase.Running?
    case Release(i) => i < |s.calls| && s.calls[i].phase.Unwinding?
  }

  ghost function SetPhase<R>(s: State<R>, i: nat, phase: Phase<R>): seq<Call<R>>
    requires i < |s.calls|
  {
    s.calls[i := s.calls[i].(phase := phase)]
  }

  ghost function ArriveNext<R>(s: State<R>, policy: Policy): State<R> {
    var prev := if policy.lane in s.tails then Some(s.tails[policy.lane]) else None;
    s.(calls := s.calls + [Call(policy, prev, AtLane)],
       tails := s.tails[policy.lane := |s.calls|])
  }

  ghost function EnterNext<R>(s: State<R>, i: nat, spare: R): State<R>
    requires i < |s.calls|
  {
    var p := s.calls[i].policy.provider;
    var cell := if p in s.permits then s.permits[p] else spare;
    var permit := if p in s.permits && cell in s.cells then s.cells[cell] else Permit(0, []);
    var asked := s.asked[p := Log(s.asked, p) + [i]];
    if permit.active >= s.calls[i].policy.limit then
      s.(permits := s.permits[p := cell],
         cells := s.cells[cell := permit.(waiters := permit.waiters + [i])],
         calls := SetPhase(s, i, AtPermit(cell)),
         asked := asked)
    else
      s.(permits := s.permits[p := cell],
         cells := s.cells[cell := permit.(active := permit.active + 1)],
         calls := SetPhase(s, i, Running(cell)),
         asked := asked,
         granted := s.granted[p := Log(s.granted, p) + [i]])
  }

  ghost function FinishNext<R>(s: State<R>, i: nat, threw: bool): State<R>
    requires i < |s.calls| && s.calls[i].phase.Running?
  {
    var p := s.calls[i].policy.provider;
    var cell := s.calls[i].phase.cell;
    var permit := if cell in s.cells then s.cells[cell] else Permit(0, []);
    var returned := SetPhase(s, i, Unwinding(threw));
    if permit.waiters != [] then
      var next := permit.waiters[0];
      var after := permit.(waiters := permit.waiters[1..]);
      var calls := if next < |s.calls| then returned[next := returned[next].(phase := Woken(cell))] else returned;
      s.(cells := s.cells[cell := after],
         permits := if after.active == 0 && after.waiters == [] then s.permits - {p} else s.permits,
         calls := calls,
         granted := s.granted[p := Log(s.granted, p) + [next]])
    else
      var after := permit.(active := if permit.active > 0 then permit.active - 1 else 0);
      s.(cells := s.cells[cell := after],
         permits := if after.active == 0 then s.permits - {p} else s.permits,
         calls := returned)
  }

  ghost function ReleaseNext<R>(s: State<R>, i: nat): State<R>
    requires i < |s.calls| && s.calls[i].phase.Unwinding?
  {
    var lane := s.calls[i].policy.lane;
    s.(calls := SetPhase(s, i, Settled(s.calls[i].phase.threw)),
       tails := if lane in s.tails && s.tails[lane] == i then s.tails - {lane} else s.tails)
  }

  ghost function Next<R>(s: State<R>, step: Step<R>, table: set<Policy>): State<R>
    requires Enabled(s, step, table)
  {
    match step
    case Arrive(policy) => ArriveNext(s, policy)
    case Enter(i, spare) => EnterNext(s, i, spare)
    case Resume(i) => s.(calls := SetPhase(s, i, Running(s.calls[i].phase.cell)))
    case Finish(i, threw) => FinishNext(s, i, threw)
    case Release(i) => ReleaseNext(s, i)
  }

  // ----- what holds in every reachable state

  predicate SameLane<R>(s: State<R>, i: nat, j: nat)
    requires i < |s.calls| && j < |s.calls|
  {
    s.calls[i].policy.lane == s.calls[j].policy.lane
  }

  /** Earlier calls of a lane have settled before a later one passes the gate. */
  ghost predicate LaneOrder<R>(s: State<R>) {
    forall i, j | 0 <= i < j < |s.calls| && SameLane(s, i, j) && !s.calls[j].phase.AtLane? ::
      s.calls[i].phase.Settled?
  }

  /** Each tail links to the call just before it in its lane, or to nothing when
      everything before it had settled. */
  ghost predicate LaneLinks<R>(s: State<R>) {
    forall i, j | 0 <= i < j < |s.calls| && SameLane(s, i, j) ::
      match s.calls[j].prev
      case None => s.calls[i].phase.Settled?
      case Some(k) => i <= k
  }

  ghost predicate LaneLinksBack<R>(s: State<R>) {
    forall j | 0 <= j < |s.calls| && s.calls[j].prev.Some? ::
      s.calls[j].prev.value < j && SameLane(s, s.calls[j].prev.value, j)
  }

  /** The lane map has an entry, naming the last arrival, exactly while some call of
      the lane is unfinished. */
  ghost predicate LaneMap<R>(s: State<R>) {
    && (forall i | 0 <= i < |s.calls| && !s.calls[i].phase.Settled? :: s.calls[i].policy.lane in s.tails)
    && (forall lane | lane in s.tails ::
          && s.tails[lane] < |s.calls|
          && s.calls[s.tails[lane]].policy.lane == lane
          && !s.calls[s.tails[lane]].phase.Settled?
          && forall i | 0 <= i < |s.calls| && s.calls[i].policy.lane == lane :: i <= s.tails[lane])
  }

  ghost predicate LaneInv<R>(s: State<R>) {
    LaneOrder(s) && LaneLinks(s) && LaneLinksBack(s) && LaneMap(s)
  }

  predicate Holds<R>(c: Call<R>, p: string) {
    c.policy.provider == p && (c.phase.Woken? || c.phase.Running?)
  }

  predicate Waits<R>(c: Call<R>, p: string) {
    c.policy.provider == p && c.phase.AtPermit?
  }

  predicate Captures<R>(c: Call<R>) {
    c.phase.AtPermit? || c.phase.Woken? || c.phase.Running?
  }

  /** Calls between grant and release, including those woken but not yet resumed. */
  ghost function Holders<R>(s: State<R>, p: string): set<nat> {
    set i: nat | i < |s.calls| && Holds(s.calls[i], p)
  }

  ghost function Waiters<R>(s: State<R>, p: string): seq<nat> {
    if p in s.permits && s.permits[p] in s.cells then s.cells[s.permits[p]].waiters else []
  }

  /** A captured record is always the one the map still holds: collecting an entry
      never strands a holder or a waiter. */
  ghost predicate CellsLive<R>(s: State<R>) {
    && (forall p | p in s.permits :: s.permits[p] in s.cells)
    && (forall p, q | p in s.permits && q in s.permits && p != q :: s.permits[p] != s.permits[q])
    && (forall i | 0 <= i < |s.calls| && Captures(s.calls[i]) ::
          s.calls[i].policy.provider in s.permits
          && s.permits[s.calls[i].policy.provider] == s.calls[i].phase.cell)
  }

  ghost predicate Counted<R>(s: State<R>, p: string, table: set<Policy>)
    requires p in s.permits && s.permits[p] in s.cells
  {
    var c := s.cells[s.permits[p]];
    && c.active == |Holders(s, p)|
    && c.active > 0
    && (forall policy | policy in table && policy.provider == p ::
          c.active <= policy.limit && (c.waiters != [] ==> c.active == policy.limit))
    && (forall i | 0 <= i < |s.calls| && Waits(s.calls[i], p) :: i in c.waiters)
    && (forall k | 0 <= k < |c.waiters| :: c.waiters[k] < |s.calls| && Waits(s.calls[c.waiters[k]], p))
    && (forall k, l | 0 <= k < l < |c.waiters| :: c.waiters[k] != c.waiters[l])
  }

  ghost predicate PermitInv<R>(s: State<R>, table: set<Policy>) {
    && CellsLive(s)
    && forall p | p in s.permits :: Counted(s, p, table)
  }

  /** Permits are given out in exactly the order they were asked for. */
  ghost predicate Fifo<R>(s: State<R>) {
    forall p :: Log(s.asked, p) == Log(s.granted, p) + Waiters(s, p)
  }

  ghost predicate InTable<R>(s: State<R>, table: set<Policy>) {
    forall i | 0 <= i < |s.calls| :: s.calls[i].policy in table
  }

  ghost predicate Inv<R>(s: State<R>, table: set<Policy>) {
    InTable(s, table) && LaneInv(s) && PermitInv(s, table) && Fifo(s)
  }

  // ----- preservation

  lemma {:induction false} ResolvedSettles<R>(s: State<R>, j: nat)
    requires LaneInv(s) && j < |s.calls| && Resolved(s, s.calls[j].prev)
    ensures forall i | 0 <= i < j && SameLane(s, i, j) :: s.calls[i].phase.Settled?
  {
    var prev := s.calls[j].prev;
    if prev.Some? {
      ResolvedSettles(s, prev.value);
    }
  }

  /** A step that settles no call and moves at most `i` past its gate keeps the lanes. */
  lemma LaneMove<R>(s: State<R>, t: State<R>, i: nat)
    requires LaneInv(s) && t.tails == s.tails && |t.calls| == |s.calls| && i < |s.calls|
    requires forall k | 0 <= k < |s.calls| ::
      && t.calls[k].policy == s.calls[k].policy && t.calls[k].prev == s.calls[k].prev
      && (t.calls[k].phase.Settled? <==> s.calls[k].phase.Settled?)
      && (k != i && s.calls[k].phase.AtLane? ==> t.calls[k].phase.AtLane?)
    requires forall k | 0 <= k < i && SameLane(s, k, i) :: s.calls[k].phase.Settled?
    ensures LaneInv(t)
  {
    forall k, j | 0 <= k < j < |t.calls| && SameLane(t, k, j) && !t.calls[j].phase.AtLane?
      ensures t.calls[k].phase.Settled?
    {
      assert SameLane(s, k, j);
    }
    forall k, j | 0 <= k < j < |t.calls| && SameLane(t, k, j)
      ensures match t.calls[j].prev case None => t.calls[k].phase.Settled? case Some(m) => k <= m
    {
      assert SameLane(s, k, j);
    }
  }

  lemma LaneArrive<R>(s: State<R>, policy: Policy)
    requires LaneInv(s)
    ensures LaneInv(ArriveNext(s, policy))
  {
    var t := ArriveNext(s, policy);
    forall k, j | 0 <= k < j < |t.calls| && SameLane(t, k, j)
      ensures match t.calls[j].prev case None => t.calls[k].phase.Settled? case Some(m) => k <= m
      ensures !t.calls[j].phase.AtLane? ==> t.calls[k].phase.Settled?
    {
      assert j < |s.calls| ==> SameLane(s, k, j);
    }
  }

  lemma LaneRelease<R>(s: State<R>, i: nat)
    requires LaneInv(s) && i < |s.calls| && s.calls[i].phase.Unwinding?
    ensures LaneInv(ReleaseNext(s, i))
  {
    var t := ReleaseNext(s, i);
    forall k, j | 0 <= k < j < |t.calls| && SameLane(t, k, j)
      ensures match t.calls[j].prev case None => t.calls[k].phase.Settled? case Some(m) => k <= m
      ensures !t.calls[j].phase.AtLane? ==> t.calls[k].phase.Settled?
    {
      assert SameLane(s, k, j);
    }
    forall k | 0 <= k < |t.calls| && !t.calls[k].phase.Settled?
      ensures t.calls[k].policy.lane in t.tails
    {
      if k < i && SameLane(s, k, i) {
        assert false;
      }
    }
  }

  lemma LaneFinish<R>(s: State<R>, i: nat, threw: bool)
    requires LaneInv(s) && i < |s.calls| && s.calls[i].phase.Running?
    requires s.calls[i].phase.cell in s.cells
    requires var w := s.cells[s.calls[i].phase.cell].waiters;
      w != [] ==> w[0] < |s.calls| && s.calls[w[0]].phase.AtPermit?
    ensures LaneInv(FinishNext(s, i, threw))
  {
    var t := FinishNext(s, i, threw);
    forall k | 0 <= k < i && SameLane(s, k, i) ensures s.calls[k].phase.Settled? {}
    hide LaneInv;
    LaneMove(s, t, i);
  }

  lemma LaneEnter<R>(s: State<R>, i: nat, spare: R)
    requires LaneInv(s) && i < |s.calls| && s.calls[i].phase.AtLane? && Resolved(s, s.calls[i].prev)
    ensures LaneInv(EnterNext(s, i, spare))
  {
    ResolvedSettles(s, i);
    hide LaneInv;
    LaneMove(s, EnterNext(s, i, spare), i);
  }

  lemma LaneResume<R>(s: State<R>, i: nat)
    requires LaneInv(s) && i < |s.calls| && s.calls[i].phase.Woken?
    ensures LaneInv(s.(calls := SetPhase(s, i, Running(s.calls[i].phase.cell))))
  {
    forall k | 0 <= k < i && SameLane(s, k, i) ensures s.calls[k].phase.Settled? {}
    hide LaneInv;
    LaneMove(s, s.(calls := SetPhase(s, i, Running(s.calls[i].phase.cell))), i);
  }

  lemma LaneStep<R>(s: State<R>, step: Step<R>, table: set<Policy>)
    requires LaneInv(s) && PermitInv(s, table) && Enabled(s, step, table)
    ensures LaneInv(Next(s, step, table))
  {
    hide LaneInv, PermitInv, Counted, Resolved, ArriveNext, EnterNext, FinishNext, ReleaseNext;
    match step
    case Arrive(policy) => LaneArrive(s, policy);
    case Enter(i, spare) => LaneEnter(s, i, spare);
    case Resume(i) => LaneResume(s, i);
    case Finish(i, threw) => FinishFacts(s, i, table); LaneFinish(s, i, threw);
    case Release(i) => LaneRelease(s, i);
  }

  lemma HoldersAdd<R>(s: State<R>, t: State<R>, p: string, i: nat)
    requires |s.calls| == |t.calls| && i < |s.calls|
    requires forall k | 0 <= k < |s.calls| && k != i :: Holds(s.calls[k], p) == Holds(t.calls[k], p)
    requires !Holds(s.calls[i], p) && Holds(t.calls[i], p)
    ensures |Holders(t, p)| == |Holders(s, p)| + 1
  {
    assert Holders(t, p) == Holders(s, p) + {i};
  }

  /** A provider whose record and calls are untouched stays counted. */
  lemma CountedFrame<R>(s: State<R>, t: State<R>, p: string, table: set<Policy>)
    requires p in s.permits && s.permits[p] in s.cells && Counted(s, p, table)
    requires p in t.permits && t.permits[p] in t.cells && t.cells[t.permits[p]] == s.cells[s.permits[p]]
    requires |s.calls| <= |t.calls|
    requires forall k | 0 <= k < |s.calls| ::
      Holds(s.calls[k], p) == Holds(t.calls[k], p) && Waits(s.calls[k], p) == Waits(t.calls[k], p)
    requires forall k | |s.calls| <= k < |t.calls| :: t.calls[k].phase.AtLane?
    ensures Counted(t, p, table)
  {
    assert Holders(t, p) == Holders(s, p);
  }

  lemma PermitArrive<R>(s: State<R>, policy: Policy, table: set<Policy>)
    requires PermitInv(s, table)
    ensures PermitInv(ArriveNext(s, policy), table)
  {
    var t := ArriveNext(s, policy);
    forall p | p in t.permits ensures Counted(t, p, table) {
      CountedFrame(s, t, p, table);
    }
  }

  /** Calls whose permit status does not change: resuming and releasing. */
  lemma PermitIdle<R>(s: State<R>, t: State<R>, i: nat, table: set<Policy>)
    requires PermitInv(s, table) && i < |s.calls| && t.permits == s.permits && t.cells == s.cells
    requires |t.calls| == |s.calls| && t.calls[i].policy == s.calls[i].policy
    requires forall k | 0 <= k < |s.calls| && k != i :: t.calls[k] == s.calls[k]
    requires if s.calls[i].phase.Woken? then t.calls[i].phase == Running(s.calls[i].phase.cell)
      else s.calls[i].phase.Unwinding? && t.calls[i].phase.Settled?
    ensures PermitInv(t, table)
  {
    hide Counted;
    IdleCells(s, t, i);
    forall p | p in t.permits ensures Counted(t, p, table) {
      CountedFrame(s, t, p, table);
    }
  }

  lemma IdleCells<R>(s: State<R>, t: State<R>, i: nat)
    requires CellsLive(s) && i < |s.calls| && t.permits == s.permits && t.cells == s.cells
    requires |t.calls| == |s.calls| && t.calls[i].policy == s.calls[i].policy
    requires forall k | 0 <= k < |s.calls| && k != i :: t.calls[k] == s.calls[k]
    requires if s.calls[i].phase.Woken? then t.calls[i].phase == Running(s.calls[i].phase.cell)
      else t.calls[i].phase.Settled?
    ensures CellsLive(t)
  {
    forall k | 0 <= k < |t.calls| && Captures(t.calls[k])
      ensures t.calls[k].policy.provider in t.permits
        && t.permits[t.calls[k].policy.provider] == t.calls[k].phase.cell
    {
      assert Captures(s.calls[k]);
    }
  }

  /** A provider without a record has neither holders nor waiters. */
  lemma Unrecorded<R>(s: State<R>, p: string)
    requires CellsLive(s) && p !in s.permits
    ensures Holders(s, p) == {}
    ensures forall k | 0 <= k < |s.calls| :: !Holds(s.calls[k], p) && !Waits(s.calls[k], p)
  {
    forall k | 0 <= k < |s.calls| ensures !Holds(s.calls[k], p) && !Waits(s.calls[k], p) {
      assert Captures(s.calls[k]) ==> s.calls[k].policy.provider in s.permits;
    }
  }

  /** A step of provider `p` leaves every other provider's record and calls alone. */
  ghost predicate Elsewhere<R>(s: State<R>, t: State<R>, p: string) {
    && |t.calls| == |s.calls|
    && (forall k | 0 <= k < |s.calls| ::
          t.calls[k].policy == s.calls[k].policy
          && (s.calls[k].policy.provider != p ==> t.calls[k] == s.calls[k]))
    && (forall q | q != p :: q in t.permits <==> q in s.permits)
    && forall q | q in s.permits && q != p ::
         t.permits[q] == s.permits[q] && s.permits[q] in s.cells && t.permits[q] in t.cells
         && t.cells[t.permits[q]] == s.cells[s.permits[q]]
  }

  lemma OthersCounted<R>(s: State<R>, t: State<R>, p: string, table: set<Policy>)
    requires PermitInv(s, table) && Elsewhere(s, t, p)
    ensures forall q | q in t.permits && q != p :: t.permits[q] in t.cells && Counted(t, q, table)
  {
    hide Counted, CellsLive;
    forall q | q in t.permits && q != p ensures t.permits[q] in t.cells && Counted(t, q, table) {
      CountedFrame(s, t, q, table);
    }
  }

  /** Asking for a permit while all are out: the call joins the end of the queue. */
  ghost predicate QueuedUp<R>(s: State<R>, t: State<R>, i: nat, p: string) {
    && i < |s.calls| == |t.calls| && s.calls[i].phase.AtLane? && s.calls[i].policy.provider == p
    && p in s.permits && s.permits[p] in s.cells
    && var cell := s.permits[p]; var c := s.cells[cell];
    && t.permits == s.permits[p := cell]
    && c.active >= s.calls[i].policy.limit
    && t.cells == s.cells[cell := Permit(c.active, c.waiters + [i])]
    && t.calls[i] == s.calls[i].(phase := AtPermit(cell))
    && forall k | 0 <= k < |s.calls| && k != i :: t.calls[k] == s.calls[k]
  }

  /** Asking for a permit while one is free: the call starts at once. */
  ghost predicate Granted<R>(s: State<R>, t: State<R>, i: nat, p: string) {
    && i < |s.calls| == |t.calls| && s.calls[i].phase.AtLane? && s.calls[i].policy.provider == p
    && p in t.permits
    && var cell := t.permits[p];
    && t.permits == s.permits[p := cell]
    && (if p in s.permits then cell in s.cells else cell !in s.cells)
    && var active := if p in s.permits then s.cells[cell].active else 0;
    && active < s.calls[i].policy.limit
    && (p in s.permits ==> s.permits[p] == cell && s.cells[cell].waiters == [])
    && t.cells == s.cells[cell := Permit(active + 1, [])]
    && t.calls[i] == s.calls[i].(phase := Running(cell))
    && forall k | 0 <= k < |s.calls| && k != i :: t.calls[k] == s.calls[k]
  }

  /** What an entering call finds in its provider's permit record. */
  ghost predicate EnterReady<R>(s: State<R>, i: nat, spare: R) {
    && i < |s.calls| && s.calls[i].phase.AtLane? && spare !in s.cells
    && var p := s.calls[i].policy.provider; var limit := s.calls[i].policy.limit;
    && limit >= 1
    && (p in s.permits ==>
          s.permits[p] in s.cells
          && (s.cells[s.permits[p]].waiters != [] ==> s.cells[s.permits[p]].active == limit))
  }

  lemma EnterFacts<R>(s: State<R>, i: nat, spare: R, table: set<Policy>)
    requires PermitInv(s, table) && Consistent(table) && InTable(s, table)
    requires i < |s.calls| && s.calls[i].phase.AtLane? && spare !in s.cells
    ensures EnterReady(s, i, spare) && s.calls[i].policy in table
  {
    var p := s.calls[i].policy.provider;
    assert s.calls[i].policy in table;
    if p in s.permits {
      assert Counted(s, p, table);
    }
  }

  lemma EnterIs<R>(s: State<R>, i: nat, spare: R)
    requires EnterReady(s, i, spare)
    ensures var t := EnterNext(s, i, spare); var p := s.calls[i].policy.provider;
      if t.calls[i].phase.AtPermit? then QueuedUp(s, t, i, p) else Granted(s, t, i, p)
  {
  }

  lemma CountedGrant<R>(s: State<R>, t: State<R>, i: nat, p: string, table: set<Policy>)
    requires Granted(s, t, i, p) && Consistent(table) && s.calls[i].policy in table
    requires if p in s.permits then Counted(s, p, table)
      else Holders(s, p) == {} && forall k | 0 <= k < |s.calls| :: !Waits(s.calls[k], p)
    ensures Counted(t, p, table)
  {
    HoldersAdd(s, t, p, i);
    hide Holders;
  }

  lemma CountedQueue<R>(s: State<R>, t: State<R>, i: nat, p: string, table: set<Policy>)
    requires QueuedUp(s, t, i, p) && Consistent(table) && s.calls[i].policy in table && Counted(s, p, table)
    ensures t.permits[p] in t.cells && Counted(t, p, table)
  {
    assert Holders(t, p) == Holders(s, p);
    hide Holders, Consistent;
    var w := s.cells[s.permits[p]].waiters;
    assert forall k | 0 <= k < |w| :: Waits(s.calls[w[k]], p) && w[k] != i;
  }

  lemma CellsQueue<R>(s: State<R>, t: State<R>, i: nat, p: string)
    requires CellsLive(s) && QueuedUp(s, t, i, p)
    ensures CellsLive(t) && Elsewhere(s, t, p)
  {
    forall k | 0 <= k < |t.calls| && Captures(t.calls[k])
      ensures t.calls[k].policy.provider in t.permits
      ensures t.permits[t.calls[k].policy.provider] == t.calls[k].phase.cell
    {
      assert k != i ==> Captures(s.calls[k]);
    }
  }

  lemma CellsGrant<R>(s: State<R>, t: State<R>, i: nat, p: string)
    requires CellsLive(s) && Granted(s, t, i, p)
    ensures CellsLive(t) && Elsewhere(s, t, p)
  {
    forall k | 0 <= k < |t.calls| && Captures(t.calls[k])
      ensures t.calls[k].policy.provider in t.permits
      ensures t.permits[t.calls[k].policy.provider] == t.calls[k].phase.cell
    {
      assert k != i ==> Captures(s.calls[k]);
    }
  }

  lemma PermitQueue<R>(s: State<R>, t: State<R>, i: nat, p: string, table: set<Policy>)
    requires PermitInv(s, table) && Consistent(table) && QueuedUp(s, t, i, p) && s.calls[i].policy in table
    ensures PermitInv(t, table) && Elsewhere(s, t, p)
  {
    CellsQueue(s, t, i, p);
    hide CellsLive, Consistent;
    OthersCounted(s, t, p, table);
    hide Counted, Elsewhere;
    CountedQueue(s, t, i, p, table);
  }

  lemma PermitGrant<R>(s: State<R>, t: State<R>, i: nat, p: string, table: set<Policy>)
    requires PermitInv(s, table) && Consistent(table) && Granted(s, t, i, p) && s.calls[i].policy in table
    ensures PermitInv(t, table) && Elsewhere(s, t, p)
  {
    CellsGrant(s, t, i, p);
    if p !in s.permits {
      Unrecorded(s, p);
    }
    hide CellsLive, Consistent;
    OthersCounted(s, t, p, table);
    hide Counted, Elsewhere;
    CountedGrant(s, t, i, p, table);
  }

  lemma PermitEnter<R>(s: State<R>, i: nat, spare: R, table: set<Policy>)
    requires PermitInv(s, table) && Consistent(table) && InTable(s, table)
    requires i < |s.calls| && s.calls[i].phase.AtLane? && spare !in s.cells
    ensures PermitInv(EnterNext(s, i, spare), table)
    ensures Elsewhere(s, EnterNext(s, i, spare), s.calls[i].policy.provider)
  {
    var t := EnterNext(s, i, spare);
    var p := s.calls[i].policy.provider;
    EnterFacts(s, i, spare, table);
    EnterIs(s, i, spare);
    hide EnterReady, EnterNext, InTable, Consistent, Counted, Elsewhere, QueuedUp, Granted;
    if t.calls[i].phase.AtPermit? {
      PermitQueue(s, t, i, p, table);
    } else {
      PermitGrant(s, t, i, p, table);
    }
  }

  lemma HoldersSwap<R>(s: State<R>, t: State<R>, p: string, i: nat, next: nat)
    requires |s.calls| == |t.calls| && i < |s.calls| && next < |s.calls|
    requires Holds(s.calls[i], p) && !Holds(t.calls[i], p)
    requires !Holds(s.calls[next], p) && Holds(t.calls[next], p)
    requires forall k | 0 <= k < |s.calls| && k != i && k != next :: t.calls[k] == s.calls[k]
    ensures |Holders(t, p)| == |Holders(s, p)| >= 1
  {
    assert Holders(t, p) == (Holders(s, p) - {i}) + {next};
  }

  lemma HoldersRemove<R>(s: State<R>, t: State<R>, p: string, i: nat)
    requires |s.calls| == |t.calls| && i < |s.calls| && Holds(s.calls[i], p) && !Holds(t.calls[i], p)
    requires forall k | 0 <= k < |s.calls| && k != i :: t.calls[k] == s.calls[k]
    ensures |Holders(t, p)| == |Holders(s, p)| - 1
    ensures Holders(t, p) == Holders(s, p) - {i}
  {
    assert Holders(t, p) == Holders(s, p) - {i};
  }

  /** Finishing with waiters present: the permit moves to the head of the queue. */
  ghost predicate HandedOff<R>(s: State<R>, t: State<R>, i: nat, p: string) {
    && i < |s.calls| == |t.calls| && Holds(s.calls[i], p) && t.calls[i].phase.Unwinding?
    && p in s.permits && s.permits[p] in s.cells
    && var cell := s.permits[p]; var w := s.cells[cell].waiters;
    && w != [] && w[0] < |s.calls| && w[0] != i && Waits(s.calls[w[0]], p)
    && t.permits == s.permits
    && t.cells == s.cells[cell := s.cells[cell].(waiters := w[1..])]
    && t.calls[i].policy == s.calls[i].policy
    && t.calls[w[0]] == s.calls[w[0]].(phase := Woken(cell))
    && forall k | 0 <= k < |s.calls| && k != i && k != w[0] :: t.calls[k] == s.calls[k]
  }

  /** Finishing with nobody queued: the permit is returned, and a record nobody uses goes. */
  ghost predicate HandedBack<R>(s: State<R>, t: State<R>, i: nat, p: string) {
    && i < |s.calls| == |t.calls| && Holds(s.calls[i], p) && t.calls[i].phase.Unwinding?
    && p in s.permits && s.permits[p] in s.cells
    && var cell := s.permits[p]; var c := s.cells[cell];
    && c.active >= 1 && c.waiters == []
    && t.permits == (if c.active == 1 then s.permits - {p} else s.permits)
    && t.cells == s.cells[cell := Permit(c.active - 1, [])]
    && t.calls[i].policy == s.calls[i].policy
    && forall k | 0 <= k < |s.calls| && k != i :: t.calls[k] == s.calls[k]
  }

  /** What a finishing call finds in its provider's permit record. */
  ghost predicate FinishReady<R>(s: State<R>, i: nat) {
    && i < |s.calls| && s.calls[i].phase.Running?
    && var p := s.calls[i].policy.provider; var cell := s.calls[i].phase.cell;
    && p in s.permits && s.permits[p] == cell && cell in s.cells && s.cells[cell].active >= 1
    && var w := s.cells[cell].waiters;
       w != [] ==> w[0] < |s.calls| && w[0] != i && Waits(s.calls[w[0]], p) && s.calls[w[0]].phase.cell == cell
  }

  lemma FinishFacts<R>(s: State<R>, i: nat, table: set<Policy>)
    requires PermitInv(s, table) && i < |s.calls| && s.calls[i].phase.Running?
    ensures FinishReady(s, i) && Counted(s, s.calls[i].policy.provider, table)
  {
    var p := s.calls[i].policy.provider;
    assert Captures(s.calls[i]) && Counted(s, p, table);
    var w := s.cells[s.calls[i].phase.cell].waiters;
    if w != [] {
      assert Waits(s.calls[w[0]], p) && Captures(s.calls[w[0]]);
    }
  }

  lemma FinishIs<R>(s: State<R>, i: nat, threw: bool)
    requires FinishReady(s, i)
    ensures var p := s.calls[i].policy.provider; var t := FinishNext(s, i, threw);
      if Waiters(s, p) != [] then HandedOff(s, t, i, p) else HandedBack(s, t, i, p)
  {
  }

  lemma CountedHandOff<R>(s: State<R>, t: State<R>, i: nat, p: string, table: set<Policy>)
    requires HandedOff(s, t, i, p) && Counted(s, p, table)
    ensures t.permits[p] in t.cells && Counted(t, p, table)
  {
    var w := s.cells[s.permits[p]].waiters;
    HoldersSwap(s, t, p, i, w[0]);
    hide Holders;
    assert forall k | 0 <= k < |w| :: Waits(s.calls[w[k]], p);
  }

  lemma CellsHandOff<R>(s: State<R>, t: State<R>, i: nat, p: string)
    requires CellsLive(s) && HandedOff(s, t, i, p)
    ensures CellsLive(t) && Elsewhere(s, t, p)
  {
    assert Captures(s.calls[i]) && Captures(s.calls[s.cells[s.permits[p]].waiters[0]]);
    forall k | 0 <= k < |t.calls| && Captures(t.calls[k])
      ensures t.calls[k].policy.provider in t.permits
      ensures t.permits[t.calls[k].policy.provider] == t.calls[k].phase.cell
    {
      assert Captures(s.calls[k]);
    }
  }

  lemma PermitHandOff<R>(s: State<R>, t: State<R>, i: nat, p: string, table: set<Policy>)
    requires PermitInv(s, table) && HandedOff(s, t, i, p)
    ensures PermitInv(t, table) && Elsewhere(s, t, p)
  {
    CellsHandOff(s, t, i, p);
    CountedHandOff(s, t, i, p, table);
    hide Counted, CellsLive;
    OthersCounted(s, t, p, table);
  }

  lemma CountedHandBack<R>(s: State<R>, t: State<R>, i: nat, p: string, table: set<Policy>)
    requires HandedBack(s, t, i, p) && Counted(s, p, table)
    ensures p in t.permits ==> t.permits[p] in t.cells && Counted(t, p, table)
    ensures p !in t.permits ==>
      forall k | 0 <= k < |t.calls| :: !Holds(t.calls[k], p) && !Waits(t.calls[k], p)
  {
    HoldersRemove(s, t, p, i);
    if p !in t.permits {
      assert |Holders(t, p)| == 0;
      forall k | 0 <= k < |t.calls| ensures !Holds(t.calls[k], p) && !Waits(t.calls[k], p) {
        assert k !in Holders(t, p);
      }
    }
  }

  lemma CellsHandBack<R>(s: State<R>, t: State<R>, i: nat, p: string)
    requires CellsLive(s) && HandedBack(s, t, i, p)
    requires p !in t.permits ==>
      forall k | 0 <= k < |t.calls| :: !Holds(t.calls[k], p) && !Waits(t.calls[k], p)
    ensures CellsLive(t) && Elsewhere(s, t, p)
  {
    forall k | 0 <= k < |t.calls| && Captures(t.calls[k])
      ensures t.calls[k].policy.provider in t.permits
      ensures t.permits[t.calls[k].policy.provider] == t.calls[k].phase.cell
    {
      assert Captures(s.calls[k]);
      assert t.calls[k].policy.provider == p ==> Holds(t.calls[k], p) || Waits(t.calls[k], p);
    }
  }

  lemma PermitHandBack<R>(s: State<R>, t: State<R>, i: nat, p: string, table: set<Policy>)
    requires PermitInv(s, table) && HandedBack(s, t, i, p)
    ensures PermitInv(t, table) && Elsewhere(s, t, p)
  {
    CountedHandBack(s, t, i, p, table);
    CellsHandBack(s, t, i, p);
    hide Counted, CellsLive;
    OthersCounted(s, t, p, table);
  }

  lemma PermitFinish<R>(s: State<R>, i: nat, threw: bool, table: set<Policy>)
    requires PermitInv(s, table) && i < |s.calls| && s.calls[i].phase.Running?
    ensures PermitInv(FinishNext(s, i, threw), table)
    ensures Elsewhere(s, FinishNext(s, i, threw), s.calls[i].policy.provider)
  {
    var p := s.calls[i].policy.provider;
    var t := FinishNext(s, i, threw);
    FinishFacts(s, i, table);
    FinishIs(s, i, threw);
    hide FinishNext, Counted, Elsewhere, HandedOff, HandedBack;
    if Waiters(s, p) != [] {
      PermitHandOff(s, t, i, p, table);
    } else {
      PermitHandBack(s, t, i, p, table);
    }
  }

  lemma PermitStep<R>(s: State<R>, step: Step<R>, table: set<Policy>)
    requires PermitInv(s, table) && Consistent(table) && InTable(s, table) && Enabled(s, step, table)
    ensures PermitInv(Next(s, step, table), table)
  {
    hide PermitInv, Consistent, InTable, Resolved, ArriveNext, EnterNext, FinishNext;
    match step
    case Arrive(policy) => PermitArrive(s, policy, table);
    case Enter(i, spare) => PermitEnter(s, i, spare, table);
    case Resume(i) => PermitIdle(s, Next(s, step, table), i, table);
    case Finish(i, threw) =>
      PermitFinish(s, i, threw, table);
    case Release(i) => PermitIdle(s, Next(s, step, table), i, table);
  }

  lemma EnterLogs<R>(s: State<R>, i: nat, spare: R)
    requires EnterReady(s, i, spare)
    ensures var p := s.calls[i].policy.provider; var t := EnterNext(s, i, spare);
      && Log(t.asked, p) == Log(s.asked, p) + [i]
      && Log(t.granted, p) + Waiters(t, p) == Log(s.granted, p) + Waiters(s, p) + [i]
      && forall q | q != p :: Log(t.granted, q) == Log(s.granted, q) && Log(t.asked, q) == Log(s.asked, q)
  {
  }

  lemma FinishQueue<R>(s: State<R>, i: nat, threw: bool)
    requires FinishReady(s, i)
    ensures var p := s.calls[i].policy.provider; var t := FinishNext(s, i, threw); var w := Waiters(s, p);
      && Waiters(t, p) == (if w == [] then [] else w[1..])
      && t.asked == s.asked
      && t.granted == if w == [] then s.granted else s.granted[p := Log(s.granted, p) + [w[0]]]
  {
  }

  lemma FinishLogs<R>(s: State<R>, i: nat, threw: bool)
    requires FinishReady(s, i)
    ensures var p := s.calls[i].policy.provider; var t := FinishNext(s, i, threw);
      && t.asked == s.asked
      && Log(t.granted, p) + Waiters(t, p) == Log(s.granted, p) + Waiters(s, p)
      && forall q | q != p :: Log(t.granted, q) == Log(s.granted, q)
  {
    FinishQueue(s, i, threw);
    hide FinishNext, FinishReady, Waiters;
    var p := s.calls[i].policy.provider;
    var w := Waiters(s, p);
    if w != [] {
      assert Log(s.granted, p) + [w[0]] + w[1..] == Log(s.granted, p) + w;
    }
  }

  lemma FifoElsewhere<R>(s: State<R>, t: State<R>, p: string, i: nat)
    requires Fifo(s) && Elsewhere(s, t, p)
    requires forall q | q != p :: Log(t.granted, q) == Log(s.granted, q) && Log(t.asked, q) == Log(s.asked, q)
    requires Log(t.asked, p) == Log(t.granted, p) + Waiters(t, p)
    ensures Fifo(t)
  {
    forall q ensures Log(t.asked, q) == Log(t.granted, q) + Waiters(t, q) {
      assert Log(s.asked, q) == Log(s.granted, q) + Waiters(s, q);
    }
  }

  lemma FifoStep<R>(s: State<R>, step: Step<R>, table: set<Policy>)
    requires PermitInv(s, table) && InTable(s, table) && Consistent(table) && Fifo(s)
    requires Enabled(s, step, table)
    ensures Fifo(Next(s, step, table))
  {
    var t := Next(s, step, table);
    hide PermitInv, Consistent, InTable, Resolved, EnterNext, FinishNext, Counted, EnterReady, FinishReady;
    if step.Enter? || step.Finish? {
      var p := s.calls[step.id].policy.provider;
      assert Log(s.asked, p) == Log(s.granted, p) + Waiters(s, p);
      hide Fifo;
      if step.Enter? {
        EnterFacts(s, step.id, step.spare, table);
        EnterLogs(s, step.id, step.spare);
        PermitEnter(s, step.id, step.spare, table);
      } else {
        FinishFacts(s, step.id, table);
        FinishLogs(s, step.id, step.threw);
        PermitFinish(s, step.id, step.threw, table);
      }
      FifoElsewhere(s, t, p, step.id);
    } else {
      hide Fifo;
      FifoSame(s, t);
    }
  }

  lemma FifoSame<R>(s: State<R>, t: State<R>)
    requires Fifo(s) && t.asked == s.asked && t.granted == s.granted && t.permits == s.permits && t.cells == s.cells
    ensures Fifo(t)
  {
    forall q ensures Log(t.asked, q) == Log(t.granted, q) + Waiters(t, q) {
      assert Log(s.asked, q) == Log(s.granted, q) + Waiters(s, q);
    }
  }

  lemma InTableStep<R>(s: State<R>, step: Step<R>, table: set<Policy>)
    requires PermitInv(s, table) && InTable(s, table) && Enabled(s, step, table)
    ensures InTable(Next(s, step, table), table)
  {
    hide PermitInv, Resolved;
    if step.Finish? {
      PermitFinish(s, step.id, step.threw, table);
      hide FinishNext;
    }
  }

  lemma InvStep<R>(s: State<R>, step: Step<R>, table: set<Policy>)
    requires Inv(s, table) && Consistent(table) && Enabled(s, step, table)
    ensures Inv(Next(s, step, table), table)
  {
    hide LaneInv, PermitInv, Fifo, InTable, Consistent, Enabled, Next;
    InTableStep(s, step, table);
    LaneStep(s, step, table);
    PermitStep(s, step, table);
    FifoStep(s, step, table);
  }

  // ----- whole runs

  ghost predicate Runs<R>(s: State<R>, steps: seq<Step<R>>, t: State<R>, table: set<Policy>)
    decreases |steps|
  {
    if steps == [] then s == t
    else Enabled(s, steps[0], table) && Runs(Next(s, steps[0], table), steps[1..], t, table)
  }

  /** Every interleaving keeps the lane and permit invariants. */
  lemma {:induction false} InvOverRuns<R>(s: State<R>, steps: seq<Step<R>>, t: State<R>, table: set<Policy>)
    requires Consistent(table) && Inv(s, table) && Runs(s, steps, t, table)
    ensures Inv(t, table)
    decreases |steps|
  {
    hide Inv, Consistent, Enabled, Next;
    if steps != [] {
      InvStep(s, steps[0], table);
      InvOverRuns(Next(s, steps[0], table), steps[1..], t, table);
    }
  }

  lemma ReachableInv<R>(steps: seq<Step<R>>, t: State<R>, table: set<Policy>)
    requires Consistent(table) && Runs(Init<R>(), steps, t, table)
    ensures Inv(t, table)
  {
    hide Runs, Consistent;
    InvOverRuns(Init<R>(), steps, t, table);
  }

  /** A call past its lane's gate and not yet released. */
  predicate InLane<R>(c: Call<R>) {
    !c.phase.AtLane? && !c.phase.Settled?
  }

  /** In every reachable state: at most `limit` permits are out per provider, the record
      counts exactly the calls holding one, and a call waits only when all are out. */
  lemma PermitSafety<R>(steps: seq<Step<R>>, t: State<R>, table: set<Policy>, policy: Policy)
    requires Consistent(table) && Runs(Init<R>(), steps, t, table) && policy in table
    ensures |Holders(t, policy.provider)| <= policy.limit
    ensures policy.provider in t.permits && t.permits[policy.provider] in t.cells ==>
      t.cells[t.permits[policy.provider]].active == |Holders(t, policy.provider)|
    ensures (exists i | 0 <= i < |t.calls| :: Waits(t.calls[i], policy.provider)) ==>
      |Holders(t, policy.provider)| == policy.limit
    ensures policy.provider in t.permits <==>
      exists i | 0 <= i < |t.calls| :: Captures(t.calls[i]) && t.calls[i].policy.provider == policy.provider
  {
    ReachableInv(steps, t, table);
    hide Runs, LaneInv, Fifo;
    var p := policy.provider;
    if p in t.permits {
      assert Counted(t, p, table);
      var i :| i in Holders(t, p);
      assert Captures(t.calls[i]) && t.calls[i].policy.provider == p;
    } else {
      Unrecorded(t, p);
    }
  }

  /** In every reachable state: permits were given out in the order they were asked
      for, and those still waiting are exactly the ungranted requests, in order. */
  lemma PermitFifo<R>(steps: seq<Step<R>>, t: State<R>, table: set<Policy>, p: string)
    requires Consistent(table) && Runs(Init<R>(), steps, t, table)
    ensures Log(t.granted, p) <= Log(t.asked, p)
    ensures Log(t.asked, p)[|Log(t.granted, p)|..] == Waiters(t, p)
  {
    ReachableInv(steps, t, table);
    hide Runs, LaneInv, PermitInv, InTable;
    assert Log(t.asked, p) == Log(t.granted, p) + Waiters(t, p);
  }

  /** In every reachable state: one call per lane is past the gate, everything that
      arrived before it has settled, and everything after it still waits; the lane map
      has an entry exactly while the lane has an unfinished call. */
  lemma LaneSafety<R>(steps: seq<Step<R>>, t: State<R>, table: set<Policy>, j: nat)
    requires Consistent(table) && Runs(Init<R>(), steps, t, table) && j < |t.calls|
    ensures InLane(t.calls[j]) ==> forall i | 0 <= i < |t.calls| && i != j && SameLane(t, i, j) ::
      if i < j then t.calls[i].phase.Settled? else t.calls[i].phase.AtLane?
    ensures t.calls[j].policy.lane in t.tails <==>
      exists i | 0 <= i < |t.calls| :: SameLane(t, i, j) && !t.calls[i].phase.Settled?
  {
    ReachableInv(steps, t, table);
    hide Runs, PermitInv, Fifo, InTable;
    forall i | 0 <= i < |t.calls| && i != j && SameLane(t, i, j) && InLane(t.calls[j])
      ensures if i < j then t.calls[i].phase.Settled? else t.calls[i].phase.AtLane?
    {
      assert SameLane(t, j, i);
    }
    if t.calls[j].policy.lane in t.tails {
      assert SameLane(t, t.tails[t.calls[j].policy.lane], j);
    }
  }

  // ----- progress and termination

  /** Some step other than a new arrival can run; `spare` is an unused record name. */
  ghost predicate CanStep<R>(s: State<R>, spare: R, table: set<Policy>) {
    exists i: nat ::
      Enabled(s, Enter(i, spare), table) || Enabled(s, Resume(i), table)
      || Enabled(s, Finish(i, false), table) || Enabled(s, Release(i), table)
  }

  /** The first unfinished call of a lane finds its tail resolved. */
  lemma {:induction false} FirstResolved<R>(s: State<R>, tail: Option<nat>, j: nat)
    requires LaneInv(s) && j < |s.calls|
    requires forall i | 0 <= i < j && SameLane(s, i, j) :: s.calls[i].phase.Settled?
    requires tail.Some? ==> tail.value < j && SameLane(s, tail.value, j)
    ensures Resolved(s, tail)
    decreases if tail.Some? then tail.value + 1 else 0
  {
    if tail.Some? {
      FirstResolved(s, s.calls[tail.value].prev, j);
    }
  }

  /** A call waits for a permit only while another holds one and can move. */
  lemma WaitersAreServed<R>(s: State<R>, table: set<Policy>, i: nat, spare: R)
    requires PermitInv(s, table) && i < |s.calls| && s.calls[i].phase.AtPermit?
    ensures CanStep(s, spare, table)
  {
    var p := s.calls[i].policy.provider;
    assert Captures(s.calls[i]) && Counted(s, p, table);
    var h :| h in Holders(s, p);
    hide PermitInv, Counted;
    assert Enabled(s, Resume(h), table) || Enabled(s, Finish(h, false), table);
  }

  /** No deadlock: while a call is unfinished some call can move. */
  lemma {:induction false} Progress<R>(s: State<R>, table: set<Policy>, i: nat, spare: R)
    requires LaneInv(s) && PermitInv(s, table) && spare !in s.cells
    requires i < |s.calls| && !s.calls[i].phase.Settled?
    ensures CanStep(s, spare, table)
    decreases i
  {
    hide PermitInv;
    match s.calls[i].phase
    case AtLane =>
      if k: nat :| k < i && SameLane(s, k, i) && !s.calls[k].phase.Settled? {
        Progress(s, table, k, spare);
      } else {
        FirstResolved(s, s.calls[i].prev, i);
        assert Enabled(s, Enter(i, spare), table);
      }
    case AtPermit(_) => WaitersAreServed(s, table, i, spare);
    case Woken(_) => assert Enabled(s, Resume(i), table);
    case Running(_) => assert Enabled(s, Finish(i, false), table);
    case Unwinding(_) => assert Enabled(s, Release(i), table);
  }

  /** When only new arrivals could move the machine, everything has been cleaned up. */
  lemma QuiescentIsClean<R>(steps: seq<Step<R>>, t: State<R>, table: set<Policy>, spare: R)
    requires Consistent(table) && Runs(Init<R>(), steps, t, table) && spare !in t.cells
    requires !CanStep(t, spare, table)
    ensures forall i | 0 <= i < |t.calls| :: t.calls[i].phase.Settled?
    ensures t.tails == map[] && t.permits == map[]
    ensures forall p :: Log(t.granted, p) == Log(t.asked, p)
  {
    ReachableInv(steps, t, table);
    hide Runs;
    forall i | 0 <= i < |t.calls| ensures t.calls[i].phase.Settled? {
      hide LaneInv, PermitInv, Fifo, InTable, Consistent;
      if !t.calls[i].phase.Settled? {
        Progress(t, table, i, spare);
      }
    }
    hide CanStep;
    forall p ensures p !in t.permits {}
    forall lane ensures lane !in t.tails {}
    forall p ensures Log(t.granted, p) == Log(t.asked, p) {
      assert Log(t.asked, p) == Log(t.granted, p) + Waiters(t, p);
    }
  }

  function Rank<R>(phase: Phase<R>): nat {
    match phase
    case AtLane => 5
    case AtPermit(_) => 4
    case Woken(_) => 3
    case Running(_) => 2
    case Unwinding(_) => 1
    case Settled(_) => 0
  }

  ghost function Work<R>(calls: seq<Call<R>>): nat {
    if calls == [] then 0 else Work(calls[..|calls| - 1]) + Rank(calls[|calls| - 1].phase)
  }

  lemma {:induction false} WorkUpdate<R>(calls: seq<Call<R>>, i: nat, c: Call<R>)
    requires i < |calls|
    ensures Work(calls[i := c]) + Rank(calls[i].phase) == Work(calls) + Rank(c.phase)
  {
    var n := |calls| - 1;
    if i < n {
      WorkUpdate(calls[..n], i, c);
      assert calls[i := c][..n] == calls[..n][i := c];
    } else {
      assert calls[i := c][..n] == calls[..n];
    }
  }

  lemma WorkHandOff<R>(s: State<R>, t: State<R>, i: nat, p: string)
    requires HandedOff(s, t, i, p)
    ensures Work(t.calls) == Work(s.calls) - Rank(s.calls[i].phase)
  {
    var next := s.cells[s.permits[p]].waiters[0];
    var mid := s.calls[i := t.calls[i]];
    WorkUpdate(s.calls, i, t.calls[i]);
    WorkUpdate(mid, next, t.calls[next]);
    assert t.calls == mid[next := t.calls[next]];
  }

  lemma WorkFinish<R>(s: State<R>, i: nat, threw: bool, table: set<Policy>)
    requires PermitInv(s, table) && i < |s.calls| && s.calls[i].phase.Running?
    ensures Work(FinishNext(s, i, threw).calls) < Work(s.calls)
  {
    var p := s.calls[i].policy.provider;
    var t := FinishNext(s, i, threw);
    FinishFacts(s, i, table);
    hide PermitInv, Counted;
    FinishIs(s, i, threw);
    hide FinishNext;
    if Waiters(s, p) != [] {
      hide HandedOff;
      WorkHandOff(s, t, i, p);
    } else {
      WorkUpdate(s.calls, i, t.calls[i]);
      assert t.calls == s.calls[i := t.calls[i]];
    }
  }

  lemma WorkStep<R>(s: State<R>, step: Step<R>, table: set<Policy>)
    requires PermitInv(s, table) && Enabled(s, step, table)
    ensures var t := Next(s, step, table);
      if step.Arrive? then Work(t.calls) == Work(s.calls) + 5 else Work(t.calls) < Work(s.calls)
  {
    hide PermitInv, Resolved, FinishNext;
    var t := Next(s, step, table);
    match step
    case Arrive(policy) => assert t.calls[..|t.calls| - 1] == s.calls;
    case Enter(i, spare) => WorkUpdate(s.calls, i, t.calls[i]);
    case Resume(i) => WorkUpdate(s.calls, i, t.calls[i]);
    case Finish(i, threw) => WorkFinish(s, i, threw, table);
    case Release(i) => WorkUpdate(s.calls, i, t.calls[i]);
  }

  function Arrivals<R>(steps: seq<Step<R>>): nat {
    if steps == [] then 0 else (if steps[0].Arrive? then 1 else 0) + Arrivals(steps[1..])
  }

  /** Every run over finitely many calls is finite: at most six steps per call. */
  lemma {:induction false} RunsTerminate<R>(s: State<R>, steps: seq<Step<R>>, t: State<R>, table: set<Policy>)
    requires Consistent(table) && Inv(s, table) && Runs(s, steps, t, table)
    ensures |steps| + Work(t.calls) <= Work(s.calls) + 6 * Arrivals(steps)
    decreases |steps|
  {
    if steps != [] {
      var u := Next(s, steps[0], table);
      InvStep(s, steps[0], table);
      WorkStep(s, steps[0], table) by { hide Next, Enabled; }
      hide Inv, Consistent, Enabled, Next;
      RunsTerminate(u, steps[1..], t, table);
    }
  }
}
