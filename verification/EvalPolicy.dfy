/** The concurrency policy of one evaluation call (benchmark/harness/aliases.ts). */
module EvalPolicy {
  /** What `resolveEvalConcurrency` says about one call. */
  datatype Policy = Policy(provider: string, lane: string, limit: nat)

  /** One limit per provider, one provider per lane, and every limit positive. */
  ghost predicate Consistent(table: set<Policy>) {
    forall a, b | a in table && b in table ::
      && a.limit >= 1
      && (a.lane == b.lane ==> a.provider == b.provider)
      && (a.provider == b.provider ==> a.limit == b.limit)
  }
}
