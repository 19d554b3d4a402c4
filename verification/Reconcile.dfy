/** Reconciliation of outbound A2A Agents with the Runtime's registrations
    (src/a2a/runtime-config.ts, lines 107-140). */
module Reconcile {
  import opened Options

  datatype Executor = A2A | Other(name: string)

  /** `revision` stands for everything discovery finds out about an agent. */
  datatype Registration = Registration(executor: Executor, revision: string)

  type Registry = map<string, Registration>

  /** One document with what came of it: the agents it names, and those whose discovery
      and upsert both succeeded. */
  datatype Round = Round(names: seq<string>, found: map<string, string>)

  const PREFIX: string := "external:"

  function AgentId(name: string): (id: string)
    ensures PREFIX <= id && id[|PREFIX|..] == name
  {
    PREFIX + name
  }

  lemma AgentIdInjective(a: string, b: string)
    ensures AgentId(a) == AgentId(b) <==> a == b
  {
    assert AgentId(a)[|PREFIX|..] == a && AgentId(b)[|PREFIX|..] == b;
  }

  predicate IsA2A(registry: Registry, id: string) {
    id in registry && registry[id].executor.A2A?
  }

  function At(registry: Registry, id: string): Option<Registration> {
    if id in registry then Some(registry[id]) else None
  }

  /** The document names the agent, and it was refreshed. */
  predicate Refreshed(round: Round, name: string) {
    name in round.names && name in round.found
  }

  /** What one round makes of one registration id. */
  function NextAt(before: Option<Registration>, round: Round, id: string): Option<Registration> {
    if PREFIX <= id && Refreshed(round, id[|PREFIX|..]) then Some(Registration(A2A, round.found[id[|PREFIX|..]]))
    else if before.Some? && before.value.executor.A2A? && !(PREFIX <= id && id[|PREFIX|..] in round.names) then None
    else before
  }

  ghost predicate Reconciled(before: Registry, round: Round, after: Registry) {
    forall id :: At(after, id) == NextAt(At(before, id), round, id)
  }

  /** A round that ended in a throw: its refreshes are in, and some of the agents it was to
      remove are still there. A failed `list` is such a round that refreshed nothing. */
  ghost predicate Aborted(before: Registry, round: Round, after: Registry) {
    forall id ::
      || At(after, id) == NextAt(At(before, id), round, id)
      || (NextAt(At(before, id), round, id) == None && At(after, id) == At(before, id))
  }

  ghost predicate Ended(before: Registry, round: Round, ok: bool, after: Registry) {
    if ok then Reconciled(before, round, after) else Aborted(before, round, after)
  }

  class Runtime {
    var registrations: Registry

    method Upsert(id: string, r: Registration)
      modifies this
      ensures registrations == old(registrations)[id := r]
    {
      registrations := registrations[id := r];
    }

    /** `stuck` are the registrations whose removal throws. */
    method Reconcile(round: Round, stuck: set<string>) returns (ok: bool)
      modifies this
      ensures Ended(old(registrations), round, ok, registrations)
    {
      ghost var before := registrations;
      var activeNames := set id | id in registrations && registrations[id].executor.A2A?;
      for i := 0 to |round.names|
        invariant forall id :: id in activeNames <==> IsA2A(before, id) && !Named(round.names[..i], id)
        invariant forall id :: At(registrations, id) == Upserted(before, round, i, id)
      {
        var agentId := AgentId(round.names[i]);
        NamedStep(round.names, i);
        ghost var mid := registrations;
        if round.names[i] in round.found {
          Upsert(agentId, Registration(A2A, round.found[round.names[i]]));
        }
        activeNames := activeNames - {agentId};
        forall id ensures At(registrations, id) == Upserted(before, round, i + 1, id) {
          UpsertedStep(before, round, i, id);
          assert At(mid, id) == Upserted(before, round, i, id);
        }
      }
      assert round.names[..|round.names|] == round.names;
      while activeNames != {}
        invariant forall id | id in activeNames :: NextAt(At(before, id), round, id) == None
        invariant forall id :: id !in activeNames ==> At(registrations, id) == NextAt(At(before, id), round, id)
        invariant forall id | id in activeNames :: At(registrations, id) == At(before, id)
      {
        var id :| id in activeNames;
        if id in stuck { return false; }
        registrations := registrations - {id};
        activeNames := activeNames - {id};
      }
      return true;
    }
  }

  predicate Named(names: seq<string>, id: string) {
    PREFIX <= id && id[|PREFIX|..] in names
  }

  lemma NamedStep(names: seq<string>, i: nat)
    requires i < |names|
    ensures forall id :: Named(names[..i + 1], id) <==> Named(names[..i], id) || id == AgentId(names[i])
  {
    assert names[..i + 1] == names[..i] + [names[i]];
    forall id ensures Named(names[..i + 1], id) <==> Named(names[..i], id) || id == AgentId(names[i]) {
      if PREFIX <= id {
        assert id == PREFIX + id[|PREFIX|..];
        AgentIdInjective(id[|PREFIX|..], names[i]);
      }
    }
  }

  /** The state of one id after the first `i` agents of the document. */
  function Upserted(before: Registry, round: Round, i: nat, id: string): Option<Registration>
    requires i <= |round.names|
  {
    if Named(round.names[..i], id) && id[|PREFIX|..] in round.found
    then Some(Registration(A2A, round.found[id[|PREFIX|..]]))
    else At(before, id)
  }

  lemma UpsertedStep(before: Registry, round: Round, i: nat, id: string)
    requires i < |round.names|
    ensures id == AgentId(round.names[i]) && round.names[i] in round.found ==>
      Upserted(before, round, i + 1, id) == Some(Registration(A2A, round.found[round.names[i]]))
    ensures !(id == AgentId(round.names[i]) && round.names[i] in round.found) ==>
      Upserted(before, round, i + 1, id) == Upserted(before, round, i, id)
  {
    var names := round.names;
    NamedStep(names, i);
    assert Named(names[..i + 1], id) <==> Named(names[..i], id) || id == AgentId(names[i]);
    if id == AgentId(names[i]) {
      assert id[|PREFIX|..] == names[i];
    }
  }

  // ----- one round

  /** Afterwards the A2A registrations are exactly the document's agents that were refreshed
      now or were registered already; each of the latter keeps its value. */
  lemma ExactlyTheDocument(before: Registry, round: Round, after: Registry, id: string)
    requires Reconciled(before, round, after)
    ensures IsA2A(after, id) <==>
      exists name | name in round.names :: id == "external:" + name && (name in round.found || IsA2A(before, id))
    ensures forall name | name in round.names && id == "external:" + name ::
      At(after, id) == if name in round.found then Some(Registration(A2A, round.found[name])) else At(before, id)
  {
    assert At(after, id) == NextAt(At(before, id), round, id);
    if IsA2A(after, id) {
      assert PREFIX <= id && id == AgentId(id[|PREFIX|..]);
    }
  }

  /** A refreshed agent whose id another executor holds. */
  predicate Collides(before: Registry, round: Round, id: string) {
    id in before && before[id].executor.Other? && PREFIX <= id && Refreshed(round, id[|PREFIX|..])
  }

  /** Another executor's registration is untouched unless a refreshed agent takes its id,
      which overwrites it. */
  lemma OthersUntouched(before: Registry, round: Round, after: Registry, id: string)
    requires Reconciled(before, round, after) && id in before && before[id].executor.Other?
    ensures At(after, id) == At(before, id) <==> !Collides(before, round, id)
  {
    assert At(after, id) == NextAt(At(before, id), round, id);
  }

  // ----- any sequence of documents

  /** `states` are the registries before and after each round, `oks` whether it completed. */
  ghost predicate History(states: seq<Registry>, rounds: seq<Round>, oks: seq<bool>) {
    && |states| == |rounds| + 1 && |oks| == |rounds|
    && forall i | 0 <= i < |rounds| :: Ended(states[i], rounds[i], oks[i], states[i + 1])
  }

  predicate RefreshedAt(round: Round, id: string) {
    PREFIX <= id && Refreshed(round, id[|PREFIX|..])
  }

  lemma StepAt(states: seq<Registry>, rounds: seq<Round>, oks: seq<bool>, id: string, i: nat)
    requires History(states, rounds, oks) && i < |rounds|
    ensures var next := NextAt(At(states[i], id), rounds[i], id);
      At(states[i + 1], id) == next || (!oks[i] && next == None && At(states[i + 1], id) == At(states[i], id))
  {
    assert Ended(states[i], rounds[i], oks[i], states[i + 1]);
  }

  /** Last known good: the agent is registered as its latest refresh left it, for as long as
      every document since then names it, however many refreshes or whole rounds fail. */
  lemma {:induction false} LastKnownGood(states: seq<Registry>, rounds: seq<Round>, oks: seq<bool>, name: string,
                                         k: nat, n: nat)
    requires History(states, rounds, oks) && k < n <= |rounds|
    requires Refreshed(rounds[k], name)
    requires forall i | k < i < n :: name in rounds[i].names && name !in rounds[i].found
    ensures At(states[n], "external:" + name) == Some(Registration(A2A, rounds[k].found[name]))
    decreases n
  {
    assert AgentId(name) == "external:" + name;
    StepAt(states, rounds, oks, AgentId(name), n - 1);
    if k < n - 1 {
      LastKnownGood(states, rounds, oks, name, k, n - 1);
    }
  }

  /** Since round `k` nothing refreshed the id, and every document names it unless its round
      failed. */
  predicate HeldSince(rounds: seq<Round>, oks: seq<bool>, id: string, k: int, n: nat)
    requires n <= |rounds| == |oks|
  {
    forall i | 0 <= i < n && k < i :: !RefreshedAt(rounds[i], id) && (Named(rounds[i].names, id) || !oks[i])
  }

  /** An A2A registration after some rounds has such a refresh behind it, or stood there
      before the first round; since then every document named it, but for failed rounds. */
  lemma {:induction false} Provenance(states: seq<Registry>, rounds: seq<Round>, oks: seq<bool>, id: string, n: nat)
    returns (k: int)
    requires History(states, rounds, oks) && n <= |rounds| && IsA2A(states[n], id)
    ensures -1 <= k < n && HeldSince(rounds, oks, id, k, n)
    ensures k >= 0 ==> RefreshedAt(rounds[k], id) && states[n][id].revision == rounds[k].found[id[|PREFIX|..]]
    ensures k == -1 ==> At(states[n], id) == At(states[0], id)
    decreases n
  {
    if n == 0 {
      k := -1;
    } else {
      StepAt(states, rounds, oks, id, n - 1);
      if RefreshedAt(rounds[n - 1], id) {
        k := n - 1;
      } else {
        k := Provenance(states, rounds, oks, id, n - 1);
      }
    }
  }

  /** Over a whole history another executor keeps its registration exactly when no round
      refreshes an agent of that id. */
  lemma {:induction false} OthersOverHistory(states: seq<Registry>, rounds: seq<Round>, oks: seq<bool>, id: string,
                                             n: nat)
    requires History(states, rounds, oks) && n <= |rounds| && id in states[0] && states[0][id].executor.Other?
    ensures At(states[n], id) == At(states[0], id) || IsA2A(states[n], id) || id !in states[n]
    ensures At(states[n], id) == At(states[0], id) <==> forall i | 0 <= i < n :: !RefreshedAt(rounds[i], id)
    decreases n
  {
    if n > 0 {
      OthersOverHistory(states, rounds, oks, id, n - 1);
      StepAt(states, rounds, oks, id, n - 1);
    }
  }

  /** Reconciling the same document twice, with the same discoveries, changes nothing the
      second time. */
  lemma RoundTwice(before: Registry, round: Round, after: Registry, again: Registry)
    requires Reconciled(before, round, after) && Reconciled(after, round, again)
    ensures again == after
  {
    forall id ensures At(again, id) == At(after, id) {
      assert At(after, id) == NextAt(At(before, id), round, id);
      assert At(again, id) == NextAt(At(after, id), round, id);
    }
    assert forall id :: id in again <==> At(again, id).Some?;
    assert forall id :: id in after <==> At(after, id).Some?;
    forall id | id in again ensures id in after && again[id] == after[id] {
      assert At(again, id) == At(after, id);
    }
    assert again.Keys == after.Keys by {
      forall id ensures id in again <==> id in after {
        assert At(again, id) == At(after, id);
      }
    }
  }
}
