/** `runWithProviderConcurrency` (benchmark/harness/harness.ts, lines 511-540): jobs are
    grouped into one queue per lane, and per provider a bounded number of workers drains
    the queues. A step is what runs when the job a worker awaits settles. */
module WorkerPool {
  import opened Options
  import opened EvalPolicy

  /** What a job's promise settles with. */
  datatype Outcome<+T> = Value(v: T) | Undefined | Throws

  /** Awaiting item `at` of a queue; finished; or rejected by that item. */
  datatype Worker = Busy(queue: nat, at: nat) | Idle | Dead(queue: nat, at: nat)

  /** One provider's queues, the shared queue counter and its workers. `begun` and
      `ended` record how many items of each queue were started and have returned. */
  datatype Pool = Pool(
    limit: nat, queues: seq<seq<nat>>, next: nat, workers: seq<Worker>,
    begun: seq<nat>, ended: seq<nat>)

  datatype State<T> = State(
    pools: seq<Pool>, results: map<nat, Outcome<T>>, started: seq<nat>, settled: seq<nat>)

  /** Where a job was queued: provider group, lane queue, position. */
  datatype Place = Place(pool: nat, queue: nat, at: nat)

  datatype Group = Group(provider: string, limit: nat, lanes: seq<string>, queues: seq<seq<nat>>)

  // ----- grouping

  predicate IsPlace(queues: seq<seq<seq<nat>>>, at: Place) {
    at.pool < |queues| && at.queue < |queues[at.pool]| && at.at < |queues[at.pool][at.queue]|
  }

  ghost function QueuesOf(groups: seq<Group>): (r: seq<seq<seq<nat>>>)
    ensures |r| == |groups|
  {
    seq(|groups|, g requires 0 <= g < |groups| => groups[g].queues)
  }

  /** The queues list every job exactly once: `home` is the inverse of the queues. */
  ghost predicate Layout(queues: seq<seq<seq<nat>>>, home: seq<Place>) {
    && (forall j | 0 <= j < |home| ::
          IsPlace(queues, home[j]) && queues[home[j].pool][home[j].queue][home[j].at] == j)
    && (forall p, q, k | 0 <= p < |queues| && 0 <= q < |queues[p]| && 0 <= k < |queues[p][q]| ::
          queues[p][q][k] < |home| && home[queues[p][q][k]] == Place(p, q, k))
  }

  ghost predicate GroupShape(g: Group) {
    && |g.lanes| == |g.queues|
    && (forall q | 0 <= q < |g.queues| :: g.queues[q] != [])
    && (forall q, r | 0 <= q < r < |g.lanes| :: g.lanes[q] != g.lanes[r])
    && (forall q, k, l | 0 <= q < |g.queues| && 0 <= k < l < |g.queues[q]| :: g.queues[q][k] < g.queues[q][l])
  }

  ghost predicate GroupsDistinct(groups: seq<Group>) {
    && (forall g | 0 <= g < |groups| :: GroupShape(groups[g]))
    && (forall g, h | 0 <= g < h < |groups| :: groups[g].provider != groups[h].provider)
  }

  /** Every job sits in its own provider's group and its own lane's queue. */
  ghost predicate Housed(policies: seq<Policy>, groups: seq<Group>, home: seq<Place>) {
    |home| == |policies|
    && forall j | 0 <= j < |policies| ::
         && home[j].pool < |groups| && home[j].queue < |groups[home[j].pool].lanes|
         && policies[j].provider == groups[home[j].pool].provider
         && policies[j].lane == groups[home[j].pool].lanes[home[j].queue]
  }

  /** A group's limit is that of its first job. */
  ghost predicate LimitsFromJobs(policies: seq<Policy>, groups: seq<Group>) {
    forall g | 0 <= g < |groups| :: LimitFromJob(policies, groups[g])
  }

  ghost predicate LimitFromJob(policies: seq<Policy>, group: Group) {
    && group.queues != [] && group.queues[0] != [] && group.queues[0][0] < |policies|
    && var first := policies[group.queues[0][0]];
       first.provider == group.provider && first.limit == group.limit
  }

  /** Providers, and the lanes of each, stand in the order of their first jobs. */
  ghost predicate InJobOrder(groups: seq<Group>) {
    && (forall g | 0 <= g < |groups| :: HeadsAscend(groups[g].queues))
    && (forall g, h | 0 <= g < h < |groups| && groups[g].queues != [] && groups[h].queues != [] ::
          HeadBefore(groups[g].queues[0], groups[h].queues[0]))
  }

  ghost predicate HeadsAscend(queues: seq<seq<nat>>) {
    forall q, r | 0 <= q < r < |queues| :: HeadBefore(queues[q], queues[r])
  }

  ghost predicate HeadBefore(a: seq<nat>, b: seq<nat>) {
    a != [] && b != [] && a[0] < b[0]
  }

  /** One group per provider and one queue per lane, each in input order. */
  ghost predicate Grouped(policies: seq<Policy>, groups: seq<Group>, home: seq<Place>) {
    && Layout(QueuesOf(groups), home)
    && GroupsDistinct(groups)
    && Housed(policies, groups, home)
    && LimitsFromJobs(policies, groups)
    && InJobOrder(groups)
  }

  method FindProvider(groups: seq<Group>, provider: string) returns (g: nat)
    ensures g <= |groups|
    ensures g < |groups| ==> groups[g].provider == provider
    ensures forall h | 0 <= h < g :: groups[h].provider != provider
  {
    g := 0;
    while g < |groups| && groups[g].provider != provider
      invariant g <= |groups|
      invariant forall h | 0 <= h < g :: groups[h].provider != provider
    {
      g := g + 1;
    }
  }

  method FindLane(lanes: seq<string>, lane: string) returns (q: nat)
    ensures q <= |lanes|
    ensures q < |lanes| ==> lanes[q] == lane
    ensures forall r | 0 <= r < q :: lanes[r] != lane
  {
    q := 0;
    while q < |lanes| && lanes[q] != lane
      invariant q <= |lanes|
      invariant forall r | 0 <= r < q :: lanes[r] != lane
    {
      q := q + 1;
    }
  }

  /** What `Map.get` finds for the job's provider, or the empty group made for it. */
  function GroupAt(groups: seq<Group>, policy: Policy, g: nat): Group {
    if g < |groups| then groups[g] else Group(policy.provider, policy.limit, [], [])
  }

  /** `g` and `q` locate the job's provider and lane, or the ends where they are added. */
  ghost predicate Located(groups: seq<Group>, policy: Policy, g: nat, q: nat) {
    var group := GroupAt(groups, policy, g);
    && g <= |groups| && group.provider == policy.provider
    && (forall h | 0 <= h < g :: groups[h].provider != policy.provider)
    && |group.queues| == |group.lanes| && q <= |group.lanes|
    && (q < |group.lanes| ==> group.lanes[q] == policy.lane)
    && (forall r | 0 <= r < q :: group.lanes[r] != policy.lane)
  }

  function AddJob(groups: seq<Group>, policy: Policy, g: nat, q: nat, job: nat): seq<Group> {
    var group := GroupAt(groups, policy, g);
    var after :=
      if q < |group.queues| then group.(queues := group.queues[q := group.queues[q] + [job]])
      else group.(lanes := group.lanes + [policy.lane], queues := group.queues + [[job]]);
    if g < |groups| then groups[g := after] else groups + [after]
  }

  ghost function NewPlace(groups: seq<Group>, policy: Policy, g: nat, q: nat): Place {
    var group := GroupAt(groups, policy, g);
    Place(g, q, if q < |group.queues| then |group.queues[q]| else 0)
  }

  lemma AddJobLayout(groups: seq<Group>, home: seq<Place>, policy: Policy, g: nat, q: nat)
    requires Layout(QueuesOf(groups), home) && Located(groups, policy, g, q)
    ensures Layout(QueuesOf(AddJob(groups, policy, g, q, |home|)), home + [NewPlace(groups, policy, g, q)])
  {
    var queues, queues' := QueuesOf(groups), QueuesOf(AddJob(groups, policy, g, q, |home|));
    var place := NewPlace(groups, policy, g, q);
    var home' := home + [place];
    forall j | 0 <= j < |home'|
      ensures IsPlace(queues', home'[j]) && queues'[home'[j].pool][home'[j].queue][home'[j].at] == j
    {
      if j < |home| {
        assert IsPlace(queues, home[j]) && queues[home[j].pool][home[j].queue][home[j].at] == j;
      }
    }
    forall p, r, k | 0 <= p < |queues'| && 0 <= r < |queues'[p]| && 0 <= k < |queues'[p][r]|
      ensures queues'[p][r][k] < |home'| && home'[queues'[p][r][k]] == Place(p, r, k)
    {
      if Place(p, r, k) != place {
        assert IsPlace(queues, Place(p, r, k)) && queues[p][r][k] == queues'[p][r][k];
      }
    }
  }

  lemma AddJobDistinct(groups: seq<Group>, home: seq<Place>, policy: Policy, g: nat, q: nat)
    requires Layout(QueuesOf(groups), home) && GroupsDistinct(groups) && Located(groups, policy, g, q)
    ensures GroupsDistinct(AddJob(groups, policy, g, q, |home|))
  {
    var group := GroupAt(groups, policy, g);
    var after := AddJob(groups, policy, g, q, |home|)[g];
    if g < |groups| && q < |group.queues| {
      forall k | 0 <= k < |group.queues[q]| ensures group.queues[q][k] < |home| {
        assert QueuesOf(groups)[g][q][k] < |home|;
      }
    }
    hide Layout;
    assert g < |groups| ==> GroupShape(groups[g]);
    hide GroupsDistinct;
    forall r, k, l | 0 <= r < |after.queues| && 0 <= k < l < |after.queues[r]|
      ensures after.queues[r][k] < after.queues[r][l]
    {
      assert r < |group.queues| && l < |group.queues[r]| ==> group.queues[r][k] < group.queues[r][l];
    }
    assert GroupShape(after);
  }

  lemma AddJobHoused(policies: seq<Policy>, groups: seq<Group>, home: seq<Place>, policy: Policy, g: nat, q: nat)
    requires Housed(policies, groups, home) && Located(groups, policy, g, q)
    ensures Housed(policies + [policy], AddJob(groups, policy, g, q, |home|),
                   home + [NewPlace(groups, policy, g, q)])
  {
  }

  lemma AddJobLimits(policies: seq<Policy>, groups: seq<Group>, policy: Policy, g: nat, q: nat)
    requires LimitsFromJobs(policies, groups) && Located(groups, policy, g, q)
    ensures LimitsFromJobs(policies + [policy], AddJob(groups, policy, g, q, |policies|))
  {
    var groups' := AddJob(groups, policy, g, q, |policies|);
    forall h | 0 <= h < |groups'| ensures LimitFromJob(policies + [policy], groups'[h]) {
      assert h < |groups| ==> LimitFromJob(policies, groups[h]);
    }
  }

  lemma AddJobOrdered(policies: seq<Policy>, groups: seq<Group>, policy: Policy, g: nat, q: nat)
    requires LimitsFromJobs(policies, groups) && Located(groups, policy, g, q) && InJobOrder(groups)
    requires forall h, r | 0 <= h < |groups| && 0 <= r < |groups[h].queues| ::
      groups[h].queues[r] != [] && groups[h].queues[r][0] < |policies|
    ensures InJobOrder(AddJob(groups, policy, g, q, |policies|))
  {
    var groups' := AddJob(groups, policy, g, q, |policies|);
    forall h | 0 <= h < |groups'| ensures HeadsAscend(groups'[h].queues) {
      assert h < |groups| ==> HeadsAscend(groups[h].queues) && LimitFromJob(policies, groups[h]);
    }
    forall h, i | 0 <= h < i < |groups'| && groups'[h].queues != [] && groups'[i].queues != []
      ensures HeadBefore(groups'[h].queues[0], groups'[i].queues[0])
    {
      assert LimitFromJob(policies, groups[h]);
      assert i < |groups| ==> LimitFromJob(policies, groups[i]);
      assert i < |groups| ==> HeadBefore(groups[h].queues[0], groups[i].queues[0]);
    }
  }

  lemma HeadsAreJobs(groups: seq<Group>, home: seq<Place>)
    requires Layout(QueuesOf(groups), home) && GroupsDistinct(groups)
    ensures forall h, r | 0 <= h < |groups| && 0 <= r < |groups[h].queues| ::
      groups[h].queues[r] != [] && groups[h].queues[r][0] < |home|
  {
    forall h, r | 0 <= h < |groups| && 0 <= r < |groups[h].queues|
      ensures groups[h].queues[r] != [] && groups[h].queues[r][0] < |home|
    {
      assert GroupShape(groups[h]);
      assert QueuesOf(groups)[h][r][0] < |home|;
    }
  }

  lemma AddJobGrouped(policies: seq<Policy>, groups: seq<Group>, home: seq<Place>, policy: Policy, g: nat, q: nat)
    requires Grouped(policies, groups, home) && Located(groups, policy, g, q)
    ensures Grouped(policies + [policy], AddJob(groups, policy, g, q, |policies|),
                    home + [NewPlace(groups, policy, g, q)])
  {
    assert |home| == |policies|;
    hide Layout, GroupsDistinct, Housed, LimitsFromJobs, InJobOrder, Located, AddJob;
    HeadsAreJobs(groups, home);
    AddJobOrdered(policies, groups, policy, g, q);
    AddJobLayout(groups, home, policy, g, q);
    AddJobDistinct(groups, home, policy, g, q);
    AddJobHoused(policies, groups, home, policy, g, q);
    AddJobLimits(policies, groups, policy, g, q);
  }

  lemma NothingGrouped()
    ensures Grouped([], [], [])
  {
  }

  method Locate(groups: seq<Group>, policy: Policy) returns (g: nat, q: nat)
    requires GroupsDistinct(groups)
    ensures Located(groups, policy, g, q)
  {
    g := FindProvider(groups, policy.provider);
    assert g < |groups| ==> GroupShape(groups[g]);
    q := FindLane(GroupAt(groups, policy, g).lanes, policy.lane);
  }

  /** Every job has one place in the queues, and each place holds one job. */
  ghost predicate IsGrouping(policies: seq<Policy>, groups: seq<Group>) {
    exists home :: Grouped(policies, groups, home)
  }

  /** The `jobs.forEach` loop. */
  method GroupJobs(policies: seq<Policy>) returns (groups: seq<Group>)
    ensures IsGrouping(policies, groups)
  {
    hide Layout, GroupsDistinct, Housed, LimitsFromJobs, InJobOrder, Located, AddJob;
    groups := [];
    ghost var home: seq<Place> := [];
    NothingGrouped();
    var i := 0;
    while i < |policies|
      invariant i <= |policies|
      invariant Grouped(policies[..i], groups, home)
    {
      var policy := policies[i];
      var g, q := Locate(groups, policy);
      AddJobGrouped(policies[..i], groups, home, policy, g, q);
      assert policies[..i + 1] == policies[..i] + [policy];
      home := home + [NewPlace(groups, policy, g, q)];
      groups := AddJob(groups, policy, g, q, i);
      i := i + 1;
    }
    assert policies[..i] == policies;
  }

  // ----- draining

  datatype Step = Launch(pool: nat) | Settle(pool: nat, worker: nat)

  predicate HasQueue(w: Worker) {
    !w.Idle?
  }

  function WorkerCount(pool: Pool): nat {
    if pool.limit < |pool.queues| then pool.limit else |pool.queues|
  }

  function Fresh(g: Group): Pool {
    Pool(g.limit, g.queues, 0, [], seq(|g.queues|, _ => 0), seq(|g.queues|, _ => 0))
  }

  function Start<T>(groups: seq<Group>): State<T> {
    State(seq(|groups|, g requires 0 <= g < |groups| => Fresh(groups[g])), map[], [], [])
  }

  /** Worker `w` runs item `k` of queue `q`. */
  ghost function Begin<T>(s: State<T>, p: nat, w: nat, q: nat, k: nat): State<T>
    requires p < |s.pools| && w < |s.pools[p].workers| && PoolShape(s.pools[p])
    requires q < |s.pools[p].queues| && k < |s.pools[p].queues[q]|
  {
    var pool := s.pools[p];
    s.(pools := s.pools[p := pool.(next := if q < pool.next then pool.next else q + 1,
                                   workers := pool.workers[w := Busy(q, k)],
                                   begun := pool.begun[q := k + 1])],
       started := s.started + [pool.queues[q][k]])
  }

  /** Where worker `w` goes on: the next item of its queue, the next queue, or nowhere. */
  ghost function GoOn<T>(s: State<T>, p: nat, w: nat, rest: Option<(nat, nat)>): State<T>
    requires p < |s.pools| && w < |s.pools[p].workers| && PoolShape(s.pools[p])
    requires rest.Some? ==>
      rest.value.0 < |s.pools[p].queues| && rest.value.1 < |s.pools[p].queues[rest.value.0]|
  {
    if rest.Some? then Begin(s, p, w, rest.value.0, rest.value.1)
    else if s.pools[p].next < |s.pools[p].queues| then Begin(s, p, w, s.pools[p].next, 0)
    else s
  }

  /** The awaited job settled: its result is stored, or its worker rejected. */
  ghost function Store<T>(s: State<T>, p: nat, w: nat, outs: seq<Outcome<T>>): State<T>
    requires p < |s.pools| && PoolShape(s.pools[p]) && w < |s.pools[p].workers| && s.pools[p].workers[w].Busy?
    requires var worker := s.pools[p].workers[w]; var queues := s.pools[p].queues;
      worker.queue < |queues| && worker.at < |queues[worker.queue]| && queues[worker.queue][worker.at] < |outs|
  {
    var pool := s.pools[p];
    var q, k := pool.workers[w].queue, pool.workers[w].at;
    var job := pool.queues[q][k];
    if outs[job].Throws? then
      s.(pools := s.pools[p := pool.(workers := pool.workers[w := Dead(q, k)])],
         settled := s.settled + [job])
    else
      s.(pools := s.pools[p := pool.(workers := pool.workers[w := Idle], ended := pool.ended[q := k + 1])],
         results := s.results[job := outs[job]],
         settled := s.settled + [job])
  }

  ghost function Spawn<T>(s: State<T>, p: nat): State<T>
    requires p < |s.pools|
  {
    s.(pools := s.pools[p := s.pools[p].(workers := s.pools[p].workers + [Idle])])
  }

  // ----- what holds in every reachable state

  ghost predicate PoolShape(pool: Pool) {
    && |pool.begun| == |pool.queues| && |pool.ended| == |pool.queues|
    && (forall q | 0 <= q < |pool.queues| :: pool.queues[q] != [])
    && pool.next <= |pool.queues|
    && |pool.workers| <= WorkerCount(pool)
  }

  /** Workers own different queues, each started exactly up to its worker's item. */
  ghost predicate Owners(pool: Pool)
    requires PoolShape(pool)
  {
    && (forall w | 0 <= w < |pool.workers| && HasQueue(pool.workers[w]) ::
          var q, k := pool.workers[w].queue, pool.workers[w].at;
          q < pool.next && k < |pool.queues[q]| && pool.begun[q] == k + 1 && pool.ended[q] == k)
    && (forall w, v | 0 <= w < v < |pool.workers| && HasQueue(pool.workers[w]) && HasQueue(pool.workers[v]) ::
          pool.workers[w].queue != pool.workers[v].queue)
  }

  ghost predicate Owned(pool: Pool, q: nat) {
    exists w | 0 <= w < |pool.workers| :: HasQueue(pool.workers[w]) && pool.workers[w].queue == q
  }

  /** A queue is untouched, owned, or finished. */
  ghost predicate Progressed(pool: Pool)
    requires PoolShape(pool)
  {
    forall q | 0 <= q < |pool.queues| ::
      if q >= pool.next then pool.begun[q] == 0 && pool.ended[q] == 0
      else Owned(pool, q) || (pool.begun[q] == |pool.queues[q]| && pool.ended[q] == |pool.queues[q]|)
  }

  ghost predicate PoolInv(pool: Pool) {
    && PoolShape(pool) && Owners(pool) && Progressed(pool)
    && (Idle in pool.workers ==> pool.next == |pool.queues|)
  }

  ghost predicate Distinct(log: seq<nat>) {
    forall a, b | 0 <= a < b < |log| :: log[a] != log[b]
  }

  ghost function AllQueues<T>(s: State<T>): (r: seq<seq<seq<nat>>>)
    ensures |r| == |s.pools|
  {
    seq(|s.pools|, p requires 0 <= p < |s.pools| => s.pools[p].queues)
  }

  /** The logs and results agree with the queue counters. */
  ghost predicate Logs<T>(s: State<T>, home: seq<Place>, outs: seq<Outcome<T>>)
    requires |outs| == |home|
  {
    && (forall j :: j in s.started ==> j < |home|)
    && (forall j :: j in s.settled ==> j < |home|)
    && (forall j :: j in s.results ==> j < |home|)
    && Distinct(s.started) && Distinct(s.settled)
    && forall j | 0 <= j < |home| && home[j].pool < |s.pools|
         && home[j].queue < |s.pools[home[j].pool].begun| && home[j].queue < |s.pools[home[j].pool].ended| ::
         var pool := s.pools[home[j].pool];
         var q, k := home[j].queue, home[j].at;
         && (j in s.started <==> k < pool.begun[q])
         && (j in s.results <==> k < pool.ended[q])
         && (j in s.results ==> s.results[j] == outs[j] && !outs[j].Throws?)
         && (j in s.settled <==> k < pool.ended[q] || Dead(q, k) in pool.workers)
         && (Dead(q, k) in pool.workers ==> outs[j].Throws?)
  }

  ghost predicate Inv<T>(s: State<T>, home: seq<Place>, outs: seq<Outcome<T>>) {
    && |outs| == |home|
    && Layout(AllQueues(s), home)
    && (forall p | 0 <= p < |s.pools| :: PoolInv(s.pools[p]))
    && Logs(s, home, outs)
  }

  // ----- one step

  /** A pool with worker `w` between items; `rest` is the item it still has to run. */
  ghost predicate Between(pool: Pool, w: nat, rest: Option<(nat, nat)>) {
    && PoolShape(pool) && Owners(pool)
    && w < |pool.workers| && pool.workers[w].Idle?
    && (forall v | 0 <= v < |pool.workers| && v != w && pool.workers[v].Idle? :: pool.next == |pool.queues|)
    && (rest.Some? ==> var q, k := rest.value.0, rest.value.1;
          q < pool.next && !Owned(pool, q) && k < |pool.queues[q]| && pool.begun[q] == k && pool.ended[q] == k)
    && forall q | 0 <= q < |pool.queues| && (rest.Some? ==> rest.value.0 != q) ::
         if q >= pool.next then pool.begun[q] == 0 && pool.ended[q] == 0
         else Owned(pool, q) || (pool.begun[q] == |pool.queues[q]| && pool.ended[q] == |pool.queues[q]|)
  }

  lemma GoOnKeeps<T>(s: State<T>, p: nat, w: nat, rest: Option<(nat, nat)>)
    requires p < |s.pools| && Between(s.pools[p], w, rest)
    ensures PoolInv(GoOn(s, p, w, rest).pools[p])
  {
    var pool := s.pools[p];
    if rest.None? && pool.next == |pool.queues| {
      assert PoolInv(pool);
    } else {
      var q, k := if rest.Some? then rest.value.0 else pool.next, if rest.Some? then rest.value.1 else 0;
      assert !Owned(pool, q);
      BegunPool(pool, w, q, k);
    }
  }

  lemma IdleOwned(pool: Pool, after: Pool, w: nat)
    requires w < |pool.workers| == |after.workers| && pool.workers[w].Idle?
    requires forall v | 0 <= v < |pool.workers| && v != w :: after.workers[v] == pool.workers[v]
    ensures forall r | Owned(pool, r) :: Owned(after, r)
  {
    forall r | Owned(pool, r) ensures Owned(after, r) {
      var v :| 0 <= v < |pool.workers| && HasQueue(pool.workers[v]) && pool.workers[v].queue == r;
      assert after.workers[v] == pool.workers[v];
    }
  }

  /** An idle worker takes the next item of a queue that no worker owns. */
  lemma BegunPool(pool: Pool, w: nat, q: nat, k: nat)
    requires PoolShape(pool) && Owners(pool) && w < |pool.workers| && pool.workers[w].Idle?
    requires forall v | 0 <= v < |pool.workers| && v != w && pool.workers[v].Idle? :: pool.next == |pool.queues|
    requires q <= pool.next && q < |pool.queues| && !Owned(pool, q)
    requires k < |pool.queues[q]| && pool.begun[q] == k && pool.ended[q] == k
    requires forall r | 0 <= r < |pool.queues| && r != q ::
      if r >= pool.next then pool.begun[r] == 0 && pool.ended[r] == 0
      else Owned(pool, r) || (pool.begun[r] == |pool.queues[r]| && pool.ended[r] == |pool.queues[r]|)
    ensures PoolInv(pool.(next := if q < pool.next then pool.next else q + 1,
                          workers := pool.workers[w := Busy(q, k)], begun := pool.begun[q := k + 1]))
  {
    var after := pool.(next := if q < pool.next then pool.next else q + 1,
                       workers := pool.workers[w := Busy(q, k)], begun := pool.begun[q := k + 1]);
    assert Owned(after, q) by { assert HasQueue(after.workers[w]) && after.workers[w].queue == q; }
    IdleOwned(pool, after, w);
    forall v | 0 <= v < |pool.workers| && HasQueue(pool.workers[v]) ensures pool.workers[v].queue != q {
      assert Owned(pool, pool.workers[v].queue);
    }
    hide Owned;
    assert Owners(after);
  }

  function After(pool: Pool, q: nat, k: nat): Option<(nat, nat)>
    requires q < |pool.queues|
  {
    if k + 1 < |pool.queues[q]| then Some((q, k + 1)) else None
  }

  lemma OwnedElsewhere(pool: Pool, after: Pool, w: nat, q: nat)
    requires w < |pool.workers| == |after.workers| && HasQueue(pool.workers[w]) && pool.workers[w].queue == q
    requires forall v | 0 <= v < |pool.workers| && v != w :: after.workers[v] == pool.workers[v]
    ensures forall r | r != q && Owned(pool, r) :: Owned(after, r)
  {
    forall r | r != q && Owned(pool, r) ensures Owned(after, r) {
      var v :| 0 <= v < |pool.workers| && HasQueue(pool.workers[v]) && pool.workers[v].queue == r;
      assert after.workers[v] == pool.workers[v];
    }
  }

  lemma StoreRejects(pool: Pool, w: nat)
    requires PoolInv(pool) && w < |pool.workers| && pool.workers[w].Busy?
    ensures PoolInv(pool.(workers := pool.workers[w := Dead(pool.workers[w].queue, pool.workers[w].at)]))
  {
    var q := pool.workers[w].queue;
    var after := pool.(workers := pool.workers[w := Dead(q, pool.workers[w].at)]);
    assert forall v | 0 <= v < |pool.workers| && v != w :: after.workers[v] == pool.workers[v];
    OwnedElsewhere(pool, after, w, q);
    assert Owned(after, q) by { assert HasQueue(after.workers[w]); }
    assert Idle in after.workers ==> Idle in pool.workers;
  }

  lemma StoreReturns(pool: Pool, w: nat)
    requires PoolInv(pool) && w < |pool.workers| && pool.workers[w].Busy?
    ensures var q, k := pool.workers[w].queue, pool.workers[w].at;
      Between(pool.(workers := pool.workers[w := Idle], ended := pool.ended[q := k + 1]), w, After(pool, q, k))
  {
    var q, k := pool.workers[w].queue, pool.workers[w].at;
    var after := pool.(workers := pool.workers[w := Idle], ended := pool.ended[q := k + 1]);
    assert forall v | 0 <= v < |pool.workers| && v != w :: after.workers[v] == pool.workers[v];
    OwnedElsewhere(pool, after, w, q);
    ReturnOwners(pool, w);
    assert pool.begun[q] == k + 1 && q < pool.next;
    hide Owners, Owned;
  }

  lemma ReturnOwners(pool: Pool, w: nat)
    requires PoolInv(pool) && w < |pool.workers| && pool.workers[w].Busy?
    ensures var q, k := pool.workers[w].queue, pool.workers[w].at;
      var after := pool.(workers := pool.workers[w := Idle], ended := pool.ended[q := k + 1]);
      PoolShape(after) && Owners(after) && !Owned(after, q)
  {
    hide Progressed;
  }

  lemma StoreKeeps<T>(s: State<T>, p: nat, w: nat, outs: seq<Outcome<T>>)
    requires p < |s.pools| && PoolInv(s.pools[p]) && w < |s.pools[p].workers| && s.pools[p].workers[w].Busy?
    requires s.pools[p].queues[s.pools[p].workers[w].queue][s.pools[p].workers[w].at] < |outs|
    ensures var pool := s.pools[p]; var after := Store(s, p, w, outs).pools[p];
      var q, k := pool.workers[w].queue, pool.workers[w].at;
      if outs[pool.queues[q][k]].Throws? then PoolInv(after) else Between(after, w, After(pool, q, k))
  {
    StoreRejects(s.pools[p], w);
    StoreReturns(s.pools[p], w);
    hide Owners, Progressed, Between;
  }

  lemma SpawnKeeps<T>(s: State<T>, p: nat)
    requires p < |s.pools| && PoolInv(s.pools[p]) && |s.pools[p].workers| < WorkerCount(s.pools[p])
    ensures Between(Spawn(s, p).pools[p], |s.pools[p].workers|, None)
  {
    var pool, after := s.pools[p], Spawn(s, p).pools[p];
    assert forall v | 0 <= v < |pool.workers| :: after.workers[v] == pool.workers[v];
    forall r | 0 <= r < |pool.queues| && Owned(pool, r) ensures Owned(after, r) {
      var v :| 0 <= v < |pool.workers| && HasQueue(pool.workers[v]) && pool.workers[v].queue == r;
      assert after.workers[v] == pool.workers[v];
    }
  }

  lemma BeginLogs<T>(s: State<T>, p: nat, w: nat, q: nat, home: seq<Place>, outs: seq<Outcome<T>>)
    requires |outs| == |home| && Layout(AllQueues(s), home) && Logs(s, home, outs)
    requires p < |s.pools| && w < |s.pools[p].workers| && s.pools[p].workers[w].Idle? && PoolShape(s.pools[p])
    requires q < |s.pools[p].queues| && s.pools[p].begun[q] < |s.pools[p].queues[q]|
    ensures Logs(Begin(s, p, w, q, s.pools[p].begun[q]), home, outs)
  {
    var k := s.pools[p].begun[q];
    var t := Begin(s, p, w, q, k);
    var job := AllQueues(s)[p][q][k];
    assert job < |home| && home[job] == Place(p, q, k);
    assert job !in s.started;
    forall j | 0 <= j < |home| && home[j] == Place(p, q, k) ensures j == job {
      assert IsPlace(AllQueues(s), home[j]) && AllQueues(s)[home[j].pool][home[j].queue][home[j].at] == j;
    }
    assert forall v | 0 <= v < |s.pools[p].workers| && v != w :: t.pools[p].workers[v] == s.pools[p].workers[v];
    assert forall d: Worker | d.Dead? :: d in t.pools[p].workers <==> d in s.pools[p].workers;
    hide Layout, PoolShape;
  }

  /** A job about to settle is at its queue's front, unsettled, and nowhere else. */
  lemma Settling<T>(s: State<T>, p: nat, w: nat, home: seq<Place>, outs: seq<Outcome<T>>)
    requires Inv(s, home, outs) && p < |s.pools| && w < |s.pools[p].workers| && s.pools[p].workers[w].Busy?
    ensures var pool := s.pools[p]; var q, k := pool.workers[w].queue, pool.workers[w].at;
      && PoolShape(pool) && q < |pool.queues| && k < |pool.queues[q]| && pool.ended[q] == k
      && pool.queues[q][k] < |home| && home[pool.queues[q][k]] == Place(p, q, k)
      && Dead(q, k) !in pool.workers && pool.queues[q][k] !in s.settled
      && forall j | 0 <= j < |home| && home[j] == Place(p, q, k) :: j == pool.queues[q][k]
  {
    var pool := s.pools[p];
    var q, k := pool.workers[w].queue, pool.workers[w].at;
    assert PoolInv(pool);
    var job := AllQueues(s)[p][q][k];
    assert job < |home| && home[job] == Place(p, q, k);
    forall j | 0 <= j < |home| && home[j] == Place(p, q, k) ensures j == job {
      assert IsPlace(AllQueues(s), home[j]) && AllQueues(s)[home[j].pool][home[j].queue][home[j].at] == j;
    }
  }

  lemma StoreLogs<T>(s: State<T>, p: nat, w: nat, home: seq<Place>, outs: seq<Outcome<T>>)
    requires |outs| == |home| && Logs(s, home, outs)
    requires p < |s.pools| && w < |s.pools[p].workers| && s.pools[p].workers[w].Busy? && PoolShape(s.pools[p])
    requires var pool := s.pools[p]; var q, k := pool.workers[w].queue, pool.workers[w].at;
      && q < |pool.queues| && k < |pool.queues[q]| && pool.ended[q] == k
      && pool.queues[q][k] < |home| && home[pool.queues[q][k]] == Place(p, q, k)
      && Dead(q, k) !in pool.workers && pool.queues[q][k] !in s.settled
      && forall j | 0 <= j < |home| && home[j] == Place(p, q, k) :: j == pool.queues[q][k]
    ensures Logs(Store(s, p, w, outs), home, outs)
  {
    var t := Store(s, p, w, outs);
    var pool, after := s.pools[p], t.pools[p];
    var q, k := pool.workers[w].queue, pool.workers[w].at;
    assert after.workers[w] == if outs[pool.queues[q][k]].Throws? then Dead(q, k) else Idle;
    assert forall v | 0 <= v < |pool.workers| && v != w :: after.workers[v] == pool.workers[v];
    assert forall d: Worker | d.Dead? && d != Dead(q, k) :: d in after.workers <==> d in pool.workers;
    hide PoolShape;
    assert forall j :: j in t.settled <==> j in s.settled || j == pool.queues[q][k];
  }

  /** A pool can still launch a worker, or a worker's awaited job can settle. The bounds
      are what the code needs not to fall off its queues. */
  ghost predicate Enabled<T>(s: State<T>, step: Step, outs: seq<Outcome<T>>) {
    && step.pool < |s.pools| && PoolShape(s.pools[step.pool])
    && var pool := s.pools[step.pool];
    match step
    case Launch(_) => |pool.workers| < WorkerCount(pool)
    case Settle(_, w) =>
      && w < |pool.workers| && pool.workers[w].Busy?
      && pool.workers[w].queue < |pool.queues| && pool.workers[w].at < |pool.queues[pool.workers[w].queue]|
      && pool.queues[pool.workers[w].queue][pool.workers[w].at] < |outs|
  }

  ghost function Next<T>(s: State<T>, step: Step, outs: seq<Outcome<T>>): (t: State<T>)
    requires Enabled(s, step, outs)
  {
    match step
    case Launch(p) => GoOn(Spawn(s, p), p, |s.pools[p].workers|, None)
    case Settle(p, w) =>
      var q, k := s.pools[p].workers[w].queue, s.pools[p].workers[w].at;
      if outs[s.pools[p].queues[q][k]].Throws? then Store(s, p, w, outs)
      else GoOn(Store(s, p, w, outs), p, w, After(s.pools[p], q, k))
  }

  lemma GoOnLogs<T>(s: State<T>, p: nat, w: nat, rest: Option<(nat, nat)>, home: seq<Place>, outs: seq<Outcome<T>>)
    requires |outs| == |home| && Layout(AllQueues(s), home) && Logs(s, home, outs)
    requires p < |s.pools| && Between(s.pools[p], w, rest)
    ensures Logs(GoOn(s, p, w, rest), home, outs)
  {
    hide Layout, Logs;
    if rest.Some? {
      BeginLogs(s, p, w, rest.value.0, home, outs);
    } else if s.pools[p].next < |s.pools[p].queues| {
      BeginLogs(s, p, w, s.pools[p].next, home, outs);
    }
  }

  lemma GoOnInv<T>(s: State<T>, p: nat, w: nat, rest: Option<(nat, nat)>, home: seq<Place>, outs: seq<Outcome<T>>)
    requires |outs| == |home| && Layout(AllQueues(s), home) && Logs(s, home, outs)
    requires forall r | 0 <= r < |s.pools| && r != p :: PoolInv(s.pools[r])
    requires p < |s.pools| && Between(s.pools[p], w, rest)
    ensures Inv(GoOn(s, p, w, rest), home, outs)
  {
    GoOnKeeps(s, p, w, rest);
    GoOnLogs(s, p, w, rest, home, outs);
    hide Logs, Layout, PoolInv;
    assert AllQueues(GoOn(s, p, w, rest)) == AllQueues(s);
  }

  lemma LaunchInv<T>(s: State<T>, p: nat, home: seq<Place>, outs: seq<Outcome<T>>)
    requires Inv(s, home, outs) && Enabled(s, Launch(p), outs)
    ensures Inv(Next(s, Launch(p), outs), home, outs)
  {
    var mid := Spawn(s, p);
    SpawnKeeps(s, p);
    assert AllQueues(mid) == AllQueues(s);
    assert Logs(mid, home, outs) by {
      assert forall d: Worker | d.Dead? :: d in mid.pools[p].workers <==> d in s.pools[p].workers;
      hide Layout;
    }
    hide Logs, Layout, PoolInv, Between, Inv;
    GoOnInv(mid, p, |s.pools[p].workers|, None, home, outs);
  }

  lemma StoreMid<T>(s: State<T>, p: nat, w: nat, home: seq<Place>, outs: seq<Outcome<T>>)
    requires Inv(s, home, outs) && Enabled(s, Settle(p, w), outs)
    ensures var mid := Store(s, p, w, outs); var pool := s.pools[p];
      var q, k := pool.workers[w].queue, pool.workers[w].at;
      && |mid.pools| == |s.pools| && |outs| == |home| && Layout(AllQueues(mid), home) && Logs(mid, home, outs)
      && (forall r | 0 <= r < |s.pools| && r != p :: PoolInv(mid.pools[r]))
      && if outs[pool.queues[q][k]].Throws? then PoolInv(mid.pools[p]) else Between(mid.pools[p], w, After(pool, q, k))
  {
    Settling(s, p, w, home, outs);
    hide Logs, Layout, PoolInv, Between, PoolShape;
    StoreLogs(s, p, w, home, outs);
    StoreKeeps(s, p, w, outs);
    assert AllQueues(Store(s, p, w, outs)) == AllQueues(s);
  }

  lemma SettleInv<T>(s: State<T>, p: nat, w: nat, home: seq<Place>, outs: seq<Outcome<T>>)
    requires Inv(s, home, outs) && Enabled(s, Settle(p, w), outs)
    ensures Inv(Next(s, Settle(p, w), outs), home, outs)
  {
    StoreMid(s, p, w, home, outs);
    hide Inv, Logs, Layout, PoolInv, Store, Between, GoOn, PoolShape;
    var q, k := s.pools[p].workers[w].queue, s.pools[p].workers[w].at;
    if !outs[s.pools[p].queues[q][k]].Throws? {
      GoOnInv(Store(s, p, w, outs), p, w, After(s.pools[p], q, k), home, outs);
    } else {
      AllInv(Store(s, p, w, outs), home, outs);
    }
  }

  lemma AllInv<T>(s: State<T>, home: seq<Place>, outs: seq<Outcome<T>>)
    requires |outs| == |home| && Layout(AllQueues(s), home) && Logs(s, home, outs)
    requires forall p | 0 <= p < |s.pools| :: PoolInv(s.pools[p])
    ensures Inv(s, home, outs)
  {
    hide Layout, Logs, PoolInv;
  }

  lemma InvStep<T>(s: State<T>, step: Step, home: seq<Place>, outs: seq<Outcome<T>>)
    requires Inv(s, home, outs) && Enabled(s, step, outs)
    ensures Inv(Next(s, step, outs), home, outs)
  {
    hide Inv, Enabled, Next;
    match step
    case Launch(p) => LaunchInv(s, p, home, outs);
    case Settle(p, w) => SettleInv(s, p, w, home, outs);
  }

  // ----- whole runs

  ghost predicate Runs<T>(s: State<T>, steps: seq<Step>, t: State<T>, outs: seq<Outcome<T>>)
    decreases |steps|
  {
    if steps == [] then s == t
    else Enabled(s, steps[0], outs) && Runs(Next(s, steps[0], outs), steps[1..], t, outs)
  }

  lemma {:induction false} InvOverRuns<T>(s: State<T>, steps: seq<Step>, t: State<T>, home: seq<Place>,
                                          outs: seq<Outcome<T>>)
    requires Inv(s, home, outs) && Runs(s, steps, t, outs)
    ensures Inv(t, home, outs)
    ensures |t.settled| + Launches(t) == |s.settled| + Launches(s) + |steps|
    ensures |t.pools| == |s.pools|
    ensures forall p | 0 <= p < |t.pools| ::
      t.pools[p].limit == s.pools[p].limit && t.pools[p].queues == s.pools[p].queues
    decreases |steps|
  {
    if steps != [] {
      InvStep(s, steps[0], home, outs);
      StepCounts(s, steps[0], outs);
      hide Inv, Next, Enabled;
      InvOverRuns(Next(s, steps[0], outs), steps[1..], t, home, outs);
    }
  }

  /** Workers launched so far, over all providers. */
  ghost function Launches<T>(s: State<T>): nat {
    LaunchedIn(s.pools)
  }

  ghost function LaunchedIn(pools: seq<Pool>): nat {
    if pools == [] then 0 else LaunchedIn(pools[..|pools| - 1]) + |pools[|pools| - 1].workers|
  }

  lemma {:induction false} LaunchedUpdate(pools: seq<Pool>, p: nat, pool: Pool)
    requires p < |pools|
    ensures LaunchedIn(pools[p := pool]) == LaunchedIn(pools) - |pools[p].workers| + |pool.workers|
  {
    var n := |pools| - 1;
    if p < n {
      LaunchedUpdate(pools[..n], p, pool);
      assert pools[p := pool][..n] == pools[..n][p := pool];
    } else {
      assert pools[p := pool][..n] == pools[..n];
    }
  }

  lemma StepCounts<T>(s: State<T>, step: Step, outs: seq<Outcome<T>>)
    requires Enabled(s, step, outs)
    ensures var t := Next(s, step, outs);
      && |t.settled| + Launches(t) == |s.settled| + Launches(s) + 1
      && |t.pools| == |s.pools|
      && forall p | 0 <= p < |t.pools| :: t.pools[p].limit == s.pools[p].limit && t.pools[p].queues == s.pools[p].queues
  {
    var t := Next(s, step, outs);
    LaunchedUpdate(s.pools, step.pool, t.pools[step.pool]);
    assert t.pools == s.pools[step.pool := t.pools[step.pool]];
  }

  // ----- main results

  lemma FreshInv(g: Group)
    requires GroupShape(g)
    ensures PoolInv(Fresh(g))
  {
  }

  lemma StartInv<T>(policies: seq<Policy>, groups: seq<Group>, home: seq<Place>, outs: seq<Outcome<T>>)
    requires Grouped(policies, groups, home) && |outs| == |policies|
    ensures Inv(Start(groups), home, outs)
  {
    hide PoolInv, GroupShape;
    forall g | 0 <= g < |groups| ensures PoolInv(Fresh(groups[g])) {
      FreshInv(groups[g]);
    }
    assert |home| == |policies|;
    hide GroupsDistinct, GroupShape, Housed, LimitsFromJobs, Layout, PoolInv;
    assert AllQueues(Start<T>(groups)) == QueuesOf(groups);
  }

  lemma StartShape<T>(groups: seq<Group>)
    ensures |Start<T>(groups).pools| == |groups| && Start<T>(groups).settled == []
    ensures forall g | 0 <= g < |groups| ::
      var pool := Start<T>(groups).pools[g];
      pool.limit == groups[g].limit && pool.queues == groups[g].queues && pool.workers == []
  {
  }

  /** Every reachable state satisfies the invariant, over the queues `GroupJobs` built. */
  lemma ReachableInv<T>(policies: seq<Policy>, groups: seq<Group>, home: seq<Place>,
                        outs: seq<Outcome<T>>, steps: seq<Step>, t: State<T>)
    requires Grouped(policies, groups, home) && |outs| == |policies| && Runs(Start(groups), steps, t, outs)
    ensures Inv(t, home, outs) && |home| == |policies|
    ensures AllQueues(t) == QueuesOf(groups) && |t.pools| == |groups|
    ensures forall g | 0 <= g < |groups| :: t.pools[g].limit == groups[g].limit && t.pools[g].queues == groups[g].queues
  {
    StartInv(policies, groups, home, outs);
    StartShape<T>(groups);
    assert |home| == |policies|;
    hide Inv, Runs, Grouped, Start;
    InvOverRuns(Start(groups), steps, t, home, outs);
  }

  /** No run is longer than one settlement per job plus one launch per worker. */
  lemma RunLength<T>(policies: seq<Policy>, groups: seq<Group>, home: seq<Place>,
                     outs: seq<Outcome<T>>, steps: seq<Step>, t: State<T>)
    requires Grouped(policies, groups, home) && |outs| == |policies| && Runs(Start(groups), steps, t, outs)
    ensures |steps| <= |policies| + Capacity(t.pools)
  {
    StartInv(policies, groups, home, outs);
    StartShape<T>(groups);
    assert |home| == |policies|;
    hide Inv, Runs, Grouped, Start;
    InvOverRuns(Start(groups), steps, t, home, outs);
    NoneLaunched(Start<T>(groups).pools);
    SettledBound(t, home, outs);
    LaunchedBound(t, home, outs);
  }

  ghost function Capacity(pools: seq<Pool>): nat {
    if pools == [] then 0 else Capacity(pools[..|pools| - 1]) + WorkerCount(pools[|pools| - 1])
  }

  lemma {:induction false} NoneLaunched(pools: seq<Pool>)
    requires forall p | 0 <= p < |pools| :: pools[p].workers == []
    ensures LaunchedIn(pools) == 0
  {
    if pools != [] {
      NoneLaunched(pools[..|pools| - 1]);
    }
  }

  lemma {:induction false} LaunchedWithin(pools: seq<Pool>)
    requires forall p | 0 <= p < |pools| :: |pools[p].workers| <= WorkerCount(pools[p])
    ensures LaunchedIn(pools) <= Capacity(pools)
  {
    if pools != [] {
      LaunchedWithin(pools[..|pools| - 1]);
    }
  }

  lemma LaunchedBound<T>(s: State<T>, home: seq<Place>, outs: seq<Outcome<T>>)
    requires Inv(s, home, outs)
    ensures Launches(s) <= Capacity(s.pools)
  {
    LaunchedWithin(s.pools);
  }

  lemma {:induction false} DistinctBound(log: seq<nat>, n: nat)
    requires Distinct(log) && forall j :: j in log ==> j < n
    ensures |log| <= n
    decreases n
  {
    if log != [] {
      assert log[0] in log;
      if n - 1 in log {
        var a :| 0 <= a < |log| && log[a] == n - 1;
        var rest := log[..a] + log[a + 1..];
        forall b | 0 <= b < |rest| ensures rest[b] < n - 1 {
          var c := if b < a then b else b + 1;
          assert rest[b] == log[c] && log[c] in log && c != a;
        }
        DistinctBound(rest, n - 1);
      } else {
        DistinctBound(log, n - 1);
      }
    }
  }

  lemma SettledBound<T>(s: State<T>, home: seq<Place>, outs: seq<Outcome<T>>)
    requires Inv(s, home, outs)
    ensures |s.settled| <= |home|
  {
    DistinctBound(s.settled, |home|);
  }

  /** Every job runs at most once, and before a job of a lane starts every earlier job of
      that lane has returned and its result is stored. */
  lemma LanesInOrder<T>(policies: seq<Policy>, groups: seq<Group>, home: seq<Place>,
                        outs: seq<Outcome<T>>, steps: seq<Step>, t: State<T>, i: nat, j: nat)
    requires Grouped(policies, groups, home) && |outs| == |policies| && Runs(Start(groups), steps, t, outs)
    requires i < j < |policies| && policies[i].lane == policies[j].lane && policies[i].provider == policies[j].provider
    ensures Distinct(t.started)
    ensures j in t.started ==> i in t.results && t.results[i] == outs[i] && !outs[i].Throws?
  {
    ReachableInv(policies, groups, home, outs, steps, t);
    hide Runs;
    SamePlace(policies, groups, home, i, j);
    var p, q := home[i].pool, home[i].queue;
    assert PoolInv(t.pools[p]);
    hide Grouped, Layout;
    CountersClose(t.pools[p], q);
  }

  /** At most one item of a queue is between its start and its return. */
  lemma CountersClose(pool: Pool, q: nat)
    requires PoolInv(pool) && q < |pool.queues|
    ensures pool.ended[q] <= pool.begun[q] <= pool.ended[q] + 1 && pool.begun[q] <= |pool.queues[q]|
  {
    if q < pool.next && Owned(pool, q) {
      var w :| 0 <= w < |pool.workers| && HasQueue(pool.workers[w]) && pool.workers[w].queue == q;
    }
  }

  lemma SamePlace(policies: seq<Policy>, groups: seq<Group>, home: seq<Place>, i: nat, j: nat)
    requires Grouped(policies, groups, home)
    requires i < j < |policies| && policies[i].lane == policies[j].lane && policies[i].provider == policies[j].provider
    ensures j < |home| && home[i].pool == home[j].pool && home[i].queue == home[j].queue && home[i].at < home[j].at
    ensures home[i].pool < |groups| && home[i].queue < |groups[home[i].pool].queues|
  {
    var p, q := home[i].pool, home[i].queue;
    assert GroupShape(groups[p]) && home[j].pool == p && home[j].queue == q;
    hide LimitsFromJobs, Housed;
    assert IsPlace(QueuesOf(groups), home[i]) && IsPlace(QueuesOf(groups), home[j]);
    assert groups[p].queues[q][home[i].at] == i && groups[p].queues[q][home[j].at] == j;
    InOrder(groups[p].queues[q], home[i].at, home[j].at);
  }

  lemma InOrder(queue: seq<nat>, a: nat, b: nat)
    requires forall k, l | 0 <= k < l < |queue| :: queue[k] < queue[l]
    requires a < |queue| && b < |queue| && queue[a] < queue[b]
    ensures a < b
  {
  }

  /** Jobs of provider group `p` started and not yet settled. */
  ghost function InFlight<T>(t: State<T>, home: seq<Place>, p: nat): set<nat> {
    set j: nat | j < |home| && home[j].pool == p && j in t.started && j !in t.settled
  }

  ghost function WorkerOf(pool: Pool, q: nat): (w: nat)
    requires Owned(pool, q)
    ensures w < |pool.workers| && HasQueue(pool.workers[w]) && pool.workers[w].queue == q
  {
    var w: nat :| w < |pool.workers| && HasQueue(pool.workers[w]) && pool.workers[w].queue == q;
    w
  }

  lemma {:induction false} Injected(jobs: set<nat>, f: map<nat, nat>, m: nat)
    requires jobs <= f.Keys
    requires forall j | j in jobs :: f[j] < m
    requires forall i, j | i in jobs && j in jobs && i != j :: f[i] != f[j]
    ensures |jobs| <= m
    decreases m
  {
    if jobs != {} {
      var some :| some in jobs;
      if j :| j in jobs && f[j] == m - 1 {
        Injected(jobs - {j}, f, m - 1);
      } else {
        assert f[some] < m - 1;
        Injected(jobs, f, m - 1);
      }
    }
  }

  lemma InFlightOwned<T>(t: State<T>, home: seq<Place>, outs: seq<Outcome<T>>, j: nat)
    requires Inv(t, home, outs) && j < |home| && j in t.started && j !in t.settled
    ensures home[j].pool < |t.pools|
    ensures var pool := t.pools[home[j].pool]; var q := home[j].queue;
      q < |pool.queues| && PoolInv(pool) && pool.begun[q] == home[j].at + 1 && Owned(pool, q)
  {
    assert IsPlace(AllQueues(t), home[j]);
    var pool := t.pools[home[j].pool];
    assert PoolInv(pool);
    hide Layout;
    CountersClose(pool, home[j].queue);
  }

  /** Different jobs of a provider in flight sit in different queues. */
  lemma InFlightApart<T>(t: State<T>, home: seq<Place>, outs: seq<Outcome<T>>, p: nat, i: nat, j: nat)
    requires Inv(t, home, outs) && i in InFlight(t, home, p) && j in InFlight(t, home, p) && i != j
    ensures home[i].queue != home[j].queue
  {
    InFlightOwned(t, home, outs, i);
    InFlightOwned(t, home, outs, j);
    assert IsPlace(AllQueues(t), home[i]) && IsPlace(AllQueues(t), home[j]);
    hide Logs, PoolInv, Owned;
  }

  lemma InFlightWithin<T>(t: State<T>, home: seq<Place>, outs: seq<Outcome<T>>, p: nat)
    requires Inv(t, home, outs) && p < |t.pools|
    ensures |InFlight(t, home, p)| <= |t.pools[p].workers|
  {
    hide Inv;
    var pool := t.pools[p];
    var jobs := InFlight(t, home, p);
    forall j | j in jobs ensures Owned(pool, home[j].queue) {
      InFlightOwned(t, home, outs, j);
    }
    var f := map j | j in jobs :: WorkerOf(pool, home[j].queue);
    forall i, j | i in jobs && j in jobs && i != j ensures f[i] != f[j] {
      InFlightApart(t, home, outs, p, i, j);
    }
    hide InFlight, Owned;
    Injected(jobs, f, |pool.workers|);
  }

  /** Never more jobs of one provider in flight than its limit, nor than it has lanes. */
  lemma ConcurrencyBound<T>(policies: seq<Policy>, groups: seq<Group>, home: seq<Place>,
                            outs: seq<Outcome<T>>, steps: seq<Step>, t: State<T>, p: nat)
    requires Grouped(policies, groups, home) && |outs| == |policies| && Runs(Start(groups), steps, t, outs)
    requires p < |groups|
    ensures |InFlight(t, home, p)| <= groups[p].limit && |InFlight(t, home, p)| <= |groups[p].lanes|
  {
    ReachableInv(policies, groups, home, outs, steps, t);
    assert GroupShape(groups[p]);
    assert PoolInv(t.pools[p]);
    hide Runs, Grouped, Inv, InFlight, Owners, Progressed;
    InFlightWithin(t, home, outs, p);
  }

  // ----- the result

  /** Every worker launched and none still awaiting: `Promise.all` has settled. */
  ghost predicate Done<T>(t: State<T>) {
    forall p | 0 <= p < |t.pools| ::
      |t.pools[p].workers| >= WorkerCount(t.pools[p])
      && forall w | 0 <= w < |t.pools[p].workers| :: !t.pools[p].workers[w].Busy?
  }

  /** Until everything has settled, some step can run. */
  lemma PoolProgress<T>(t: State<T>, home: seq<Place>, outs: seq<Outcome<T>>)
    requires Inv(t, home, outs) && !Done(t)
    ensures exists step :: Enabled(t, step, outs)
  {
    var p :| 0 <= p < |t.pools| && !(|t.pools[p].workers| >= WorkerCount(t.pools[p])
      && forall w | 0 <= w < |t.pools[p].workers| :: !t.pools[p].workers[w].Busy?);
    assert PoolInv(t.pools[p]);
    if |t.pools[p].workers| < WorkerCount(t.pools[p]) {
      assert Enabled(t, Launch(p), outs);
    } else {
      var w :| 0 <= w < |t.pools[p].workers| && t.pools[p].workers[w].Busy?;
      Settling(t, p, w, home, outs);
      hide Inv;
      assert Enabled(t, Settle(p, w), outs);
    }
  }

  /** Each provider gets as many workers as its limit allows and it has lanes for: no more are
      ever started, and all of them by the time no more can be. */
  lemma FullyStaffed<T>(policies: seq<Policy>, groups: seq<Group>, home: seq<Place>,
                        outs: seq<Outcome<T>>, steps: seq<Step>, t: State<T>, p: nat)
    requires Grouped(policies, groups, home) && |outs| == |policies| && Runs(Start(groups), steps, t, outs)
    requires p < |groups|
    ensures p < |t.pools| && |t.pools[p].workers| <= groups[p].limit && |t.pools[p].workers| <= |groups[p].lanes|
    ensures !Enabled(t, Launch(p), outs) || Done(t) ==>
      |t.pools[p].workers| == groups[p].limit || |t.pools[p].workers| == |groups[p].lanes|
  {
    ReachableInv(policies, groups, home, outs, steps, t);
    assert GroupShape(groups[p]);
    assert PoolInv(t.pools[p]);
    hide Runs, Grouped, Inv, Owners, Progressed;
  }

  /** No worker rests while a lane of its provider has not begun. */
  lemma WorkConserving<T>(policies: seq<Policy>, groups: seq<Group>, home: seq<Place>,
                          outs: seq<Outcome<T>>, steps: seq<Step>, t: State<T>, p: nat, q: nat)
    requires Grouped(policies, groups, home) && |outs| == |policies| && Runs(Start(groups), steps, t, outs)
    requires p < |groups| && q < |groups[p].queues| && groups[p].queues[q] != []
    requires groups[p].queues[q][0] !in t.started
    ensures p < |t.pools| && forall w | 0 <= w < |t.pools[p].workers| :: !t.pools[p].workers[w].Idle?
  {
    ReachableInv(policies, groups, home, outs, steps, t);
    var pool := t.pools[p];
    var job := AllQueues(t)[p][q][0];
    assert PoolInv(pool) && job < |home| && home[job] == Place(p, q, 0);
    hide Runs, Grouped, Layout;
    assert pool.begun[q] == 0;
    CountersClose(pool, q);
    NotBegun(pool, q);
  }

  lemma NotBegun(pool: Pool, q: nat)
    requires PoolInv(pool) && q < |pool.queues| && pool.begun[q] == 0
    ensures forall w | 0 <= w < |pool.workers| :: !pool.workers[w].Idle?
  {
    assert forall w | 0 <= w < |pool.workers| && HasQueue(pool.workers[w]) :: pool.workers[w].queue != q;
    assert forall w | 0 <= w < |pool.workers| && pool.workers[w].Idle? :: pool.workers[w] in pool.workers;
  }

  /** `jobs.map((_, index) => …)`: the results in job order, or the first job without one. */
  function Collect<T>(results: map<nat, Outcome<T>>, n: nat): (r: Result<seq<T>, nat>)
    ensures r.Ok? <==> forall j | 0 <= j < n :: j in results && results[j].Value?
    ensures r.Ok? ==> |r.value| == n && forall j | 0 <= j < n :: results[j] == Value(r.value[j])
    ensures r.Err? ==> r.error < n && (r.error in results ==> !results[r.error].Value?)
  {
    if n == 0 then Ok([])
    else match Collect(results, n - 1)
      case Err(e) => Err(e)
      case Ok(values) =>
        if n - 1 in results && results[n - 1].Value? then Ok(values + [results[n - 1].v]) else Err(n - 1)
  }

  /** Some worker rejected, so the awaited `Promise.all` did. */
  ghost predicate Rejected<T>(t: State<T>) {
    exists p, w | 0 <= p < |t.pools| && 0 <= w < |t.pools[p].workers| :: t.pools[p].workers[w].Dead?
  }

  lemma DeadThrew<T>(t: State<T>, home: seq<Place>, outs: seq<Outcome<T>>, p: nat, w: nat)
    requires Inv(t, home, outs) && p < |t.pools| && w < |t.pools[p].workers| && t.pools[p].workers[w].Dead?
    ensures exists j | 0 <= j < |outs| :: outs[j].Throws?
  {
    var pool := t.pools[p];
    assert PoolInv(pool) && pool.workers[w] in pool.workers;
    var job := AllQueues(t)[p][pool.workers[w].queue][pool.workers[w].at];
    assert job < |home| && outs[job].Throws?;
  }

  /** In a settled pool without rejection every queue was drained. */
  lemma Drained(pool: Pool, q: nat)
    requires PoolInv(pool) && q < |pool.queues| && pool.limit >= 1
    requires |pool.workers| >= WorkerCount(pool)
    requires forall w | 0 <= w < |pool.workers| :: pool.workers[w].Idle?
    ensures pool.begun[q] == |pool.queues[q]| && pool.ended[q] == |pool.queues[q]|
  {
    assert pool.workers[0] in pool.workers;
  }

  lemma JobReturned<T>(t: State<T>, home: seq<Place>, outs: seq<Outcome<T>>, j: nat)
    requires Inv(t, home, outs) && Done(t) && !Rejected(t) && j < |home|
    requires forall p | 0 <= p < |t.pools| :: t.pools[p].limit >= 1
    ensures j in t.started && j in t.results && t.results[j] == outs[j] && !outs[j].Throws?
  {
    var p := home[j].pool;
    assert IsPlace(AllQueues(t), home[j]) && PoolInv(t.pools[p]);
    hide Layout;
    Drained(t.pools[p], home[j].queue);
  }

  /** Once settled, the pool was rejected exactly when some job threw; otherwise every
      job ran exactly once and its own result is stored. */
  lemma SettledPool<T>(policies: seq<Policy>, groups: seq<Group>, home: seq<Place>,
                       outs: seq<Outcome<T>>, steps: seq<Step>, t: State<T>)
    requires Grouped(policies, groups, home) && |outs| == |policies| && Runs(Start(groups), steps, t, outs)
    requires forall j | 0 <= j < |policies| :: policies[j].limit >= 1
    requires Done(t)
    ensures Distinct(t.started)
    ensures Rejected(t) <==> exists j | 0 <= j < |outs| :: outs[j].Throws?
    ensures !Rejected(t) ==> forall j | 0 <= j < |outs| :: j in t.started && j in t.results && t.results[j] == outs[j]
  {
    ReachableInv(policies, groups, home, outs, steps, t);
    assert Distinct(t.started);
    forall g | 0 <= g < |groups| ensures t.pools[g].limit >= 1 {
      assert LimitFromJob(policies, groups[g]);
    }
    hide Runs, Grouped, Inv, Distinct;
    if Rejected(t) {
      var p, w :| 0 <= p < |t.pools| && 0 <= w < |t.pools[p].workers| && t.pools[p].workers[w].Dead?;
      DeadThrew(t, home, outs, p, w);
    } else {
      hide Done, Rejected;
      forall j | 0 <= j < |outs|
        ensures j in t.started && j in t.results && t.results[j] == outs[j] && !outs[j].Throws?
      {
        JobReturned(t, home, outs, j);
      }
    }
  }

  /** The pool refines a plain map: unless a job threw, the collected results are the
      jobs' results in input order, and collecting fails exactly when some job gave none. */
  lemma PoolRefinesMap<T>(policies: seq<Policy>, groups: seq<Group>, home: seq<Place>,
                          outs: seq<Outcome<T>>, steps: seq<Step>, t: State<T>)
    requires Grouped(policies, groups, home) && |outs| == |policies| && Runs(Start(groups), steps, t, outs)
    requires forall j | 0 <= j < |policies| :: policies[j].limit >= 1
    requires Done(t) && !Rejected(t)
    ensures Collect(t.results, |policies|).Ok? <==> forall j | 0 <= j < |outs| :: outs[j].Value?
    ensures Collect(t.results, |policies|).Ok? ==>
      forall j | 0 <= j < |outs| :: outs[j] == Value(Collect(t.results, |policies|).value[j])
  {
    SettledPool(policies, groups, home, outs, steps, t);
    hide Runs, Grouped, Rejected, Done, Distinct;
  }
}
