/** The worker pool as the harness runs it: the shared queue counter, the workers and the
    results map changed in place, one method per stretch of code between two awaits. */
module HarnessPool {
  import opened Options
  import opened WorkerPool

  class Runner<T(!new)> {
    const outs: seq<Outcome<T>>
    var pools: seq<Pool>
    var results: map<nat, Outcome<T>>
    ghost var started: seq<nat>
    ghost var settled: seq<nat>

    ghost function View(): State<T>
      reads this
    {
      State(pools, results, started, settled)
    }

    constructor (groups: seq<Group>, outs: seq<Outcome<T>>)
      ensures View() == Start(groups) && this.outs == outs
    {
      this.outs := outs;
      pools := seq(|groups|, g requires 0 <= g < |groups| => Fresh(groups[g]));
      results := map[];
      started, settled := [], [];
    }

    /** `item.job.run()` is called, and the worker awaits it. */
    method RunItem(p: nat, w: nat, q: nat, k: nat)
      requires p < |pools| && w < |pools[p].workers| && PoolShape(pools[p])
      requires q < |pools[p].queues| && k < |pools[p].queues[q]|
      modifies this
      ensures View() == Begin(old(View()), p, w, q, k)
    {
      var pool := pools[p];
      started := started + [pool.queues[q][k]];
      var next := if q < pool.next then pool.next else q + 1;
      pools := pools[p := Pool(pool.limit, pool.queues, next, pool.workers[w := Busy(q, k)],
                               pool.begun[q := k + 1], pool.ended)];
    }

    /** The rest of the worker's queue, or `queues[nextQueue++]` while there is one. */
    method Advance(p: nat, w: nat, rest: Option<(nat, nat)>)
      requires p < |pools| && w < |pools[p].workers| && PoolShape(pools[p])
      requires rest.Some? ==> rest.value.0 < |pools[p].queues| && rest.value.1 < |pools[p].queues[rest.value.0]|
      modifies this
      ensures View() == GoOn(old(View()), p, w, rest)
    {
      if rest.Some? {
        RunItem(p, w, rest.value.0, rest.value.1);
      } else if pools[p].next < |pools[p].queues| {
        RunItem(p, w, pools[p].next, 0);
      }
    }

    /** `Array.from(..., worker)` starts one more worker. */
    method LaunchWorker(p: nat)
      requires Enabled(View(), Launch(p), outs)
      modifies this
      ensures View() == Next(old(View()), Launch(p), outs)
    {
      var pool := pools[p];
      pools := pools[p := Pool(pool.limit, pool.queues, pool.next, pool.workers + [Idle], pool.begun, pool.ended)];
      Advance(p, |pool.workers|, None);
    }

    /** The awaited job settles: `results.set` and on, or the worker rejects. */
    method JobSettles(p: nat, w: nat)
      requires Enabled(View(), Settle(p, w), outs)
      modifies this
      ensures View() == Next(old(View()), Settle(p, w), outs)
    {
      var pool := pools[p];
      var q, k := pool.workers[w].queue, pool.workers[w].at;
      var job := pool.queues[q][k];
      settled := settled + [job];
      if outs[job].Throws? {
        pools := pools[p := Pool(pool.limit, pool.queues, pool.next, pool.workers[w := Dead(q, k)],
                                 pool.begun, pool.ended)];
      } else {
        results := results[job := outs[job]];
        pools := pools[p := Pool(pool.limit, pool.queues, pool.next, pool.workers[w := Idle],
                                 pool.begun, pool.ended[q := k + 1])];
        Advance(p, w, After(pool, q, k));
      }
    }
  }

  /** The closing `jobs.map`: the first job without a defined result throws. */
  method CollectResults<T>(results: map<nat, Outcome<T>>, n: nat) returns (r: Result<seq<T>, nat>)
    ensures r == Collect(results, n)
  {
    var values: seq<T> := [];
    for i := 0 to n
      invariant Collect(results, i) == Ok(values)
    {
      if i !in results || !results[i].Value? {
        FirstMissing(results, i, n);
        return Err(i);
      }
      values := values + [results[i].v];
    }
    return Ok(values);
  }

  lemma {:induction false} FirstMissing<T>(results: map<nat, Outcome<T>>, i: nat, n: nat)
    requires i < n && Collect(results, i).Ok? && (i !in results || !results[i].Value?)
    ensures Collect(results, n) == Err(i)
    decreases n
  {
    if n > i + 1 {
      FirstMissing(results, i, n - 1);
    }
  }
}
