/** The two indexes of the Runtime Agent binding service and the resources they hold
    (src/runtime-agent-binding.ts, lines 630-698 and 712-904), for operations that run one
    after another. What awaits and validators do is a parameter of each operation. */
module AgentBindings {

  /** A Markdown Agent scope or a skill script runner, named by the bind attempt that made it. */
  datatype Resource = Scope(attempt: nat) | Runner(attempt: nat)

  /** A stored binding, keyed by its attempt: the owner and which resources it holds. */
  datatype Binding = Binding(owner: nat, scope: bool, runner: bool)

  /** `owners` holds each session's set in insertion order. `created` and `disposed` log
      every resource made and every call of its `dispose`. */
  datatype State = State(
    owners: map<nat, seq<nat>>,
    bindings: map<nat, Binding>,
    sessions: nat,
    attempts: nat,
    created: seq<Resource>,
    disposed: seq<Resource>)

  const INIT: State := State(map[], map[], 0, 0, [], [])

  datatype Load =
    | NotLoaded     // the scope itself fails to load
    | NotFound      // no such user agent
    | Unreadable    // reading the agent file for its revision fails
    | SkillsFail    // resolving its skills fails
    | Loaded

  datatype RunnerPlan = NotNeeded | Unavailable | CreateThrows | Created

  datatype Op =
    | Open
    | ResolveLocal(load: Load)
    | BindDefault(owner: nat, inputsOk: bool, runner: RunnerPlan, revisionOk: bool)
    | BindLocal(owner: nat, inputsOk: bool, load: Load, configurationOk: bool, surfaceOk: bool,
                runner: RunnerPlan, agentOk: bool)
    | Release(owner: nat, id: nat)
    | Close(owner: nat)

  datatype Reply = Done(id: nat) | Threw

  // ----- single actions

  function Make(s: State, r: Resource): State {
    s.(created := s.created + [r])
  }

  function Call(s: State, r: Resource): State {
    s.(disposed := s.disposed + [r])
  }

  function Without(ids: seq<nat>, id: nat): (r: seq<nat>)
    ensures forall x :: x in r <==> x in ids && x != id
  {
    if ids == [] then []
    else if ids[0] == id then Without(ids[1..], id)
    else [ids[0]] + Without(ids[1..], id)
  }

  function Attempt(s: State): State {
    s.(attempts := s.attempts + 1)
  }

  function Store(s: State, id: nat, b: Binding): State
    requires b.owner in s.owners
  {
    s.(bindings := s.bindings[id := b], owners := s.owners[b.owner := s.owners[b.owner] + [id]])
  }

  /** Both indexes forget the binding. */
  function Forget(s: State, id: nat): State
    requires id in s.bindings && s.bindings[id].owner in s.owners
  {
    var o := s.bindings[id].owner;
    s.(bindings := s.bindings - {id}, owners := s.owners[o := Without(s.owners[o], id)])
  }

  // ----- operations

  function ReleaseNext(s: State, id: nat, faulty: set<Resource>): State
    requires id in s.bindings && s.bindings[id].owner in s.owners
  {
    Dispose(Forget(s, id), id, s.bindings[id], faulty)
  }

  /** `scope?.dispose()`, then the runner's unless the scope's threw. */
  function Dispose(s: State, id: nat, b: Binding, faulty: set<Resource>): State {
    var t := if b.scope then Call(s, Scope(id)) else s;
    if b.runner && !(b.scope && Scope(id) in faulty) then Call(t, Runner(id)) else t
  }

  predicate Fails(id: nat, b: Binding, faulty: set<Resource>) {
    (b.scope && Scope(id) in faulty) || (b.runner && Runner(id) in faulty)
  }

  function Loading(s: State, load: Load): State {
    var k := s.attempts;
    match load
    case NotLoaded => Attempt(s)
    case NotFound | SkillsFail => Call(Make(Attempt(s), Scope(k)), Scope(k))
    case Unreadable | Loaded => Make(Attempt(s), Scope(k))
  }

  function ResolveLocalNext(s: State, load: Load): (State, Reply) {
    var t := Loading(s, load);
    if load.Loaded? then (Call(t, Scope(s.attempts)), Done(s.attempts)) else (t, Threw)
  }

  function BindDefaultNext(s: State, op: Op): (State, Reply)
    requires op.BindDefault?
  {
    var k := s.attempts;
    var t := Attempt(s);
    if op.owner !in s.owners || !op.inputsOk || op.runner.Unavailable? || op.runner.CreateThrows? then (t, Threw)
    else
      var made := if op.runner.Created? then Make(t, Runner(k)) else t;
      if !op.revisionOk then (if op.runner.Created? then Call(made, Runner(k)) else made, Threw)
      else (Store(made, k, Binding(op.owner, false, op.runner.Created?)), Done(k))
  }

  /** Giving up after the runner was made: its dispose comes first and may throw. */
  function Abandon(s: State, k: nat, runner: bool, faulty: set<Resource>): State {
    var t := if runner then Call(s, Runner(k)) else s;
    if runner && Runner(k) in faulty then t else Call(t, Scope(k))
  }

  function BindLocalNext(s: State, op: Op, faulty: set<Resource>): (State, Reply)
    requires op.BindLocal?
  {
    var k := s.attempts;
    if op.owner !in s.owners || !op.inputsOk then (Attempt(s), Threw)
    else
      var t := Loading(s, op.load);
      if !op.load.Loaded? then (t, Threw)
      else if !op.configurationOk then (Call(t, Scope(k)), Threw)
      else if !op.surfaceOk || op.runner.CreateThrows? then (t, Threw)
      else if op.runner.Unavailable? then (Call(t, Scope(k)), Threw)
      else
        var made := if op.runner.Created? then Make(t, Runner(k)) else t;
        if !op.agentOk then (Abandon(made, k, op.runner.Created?, faulty), Threw)
        else (Store(made, k, Binding(op.owner, true, op.runner.Created?)), Done(k))
  }

  predicate Owned(s: State, owner: nat, id: nat) {
    id in s.bindings && s.bindings[id].owner == owner
  }

  /** The loop of `closeOwnerSession` over a copy of the owner's set. */
  function CloseLoop(s: State, owner: nat, ids: seq<nat>, faulty: set<Resource>): (State, bool)
    requires owner in s.owners
    decreases |ids|
  {
    if ids == [] then (s, true)
    else if !Owned(s, owner, ids[0]) then (s, false)
    else
      var t := ReleaseNext(s, ids[0], faulty);
      if Fails(ids[0], s.bindings[ids[0]], faulty) then (t, false)
      else CloseLoop(t, owner, ids[1..], faulty)
  }

  function CloseNext(s: State, owner: nat, faulty: set<Resource>): (State, Reply) {
    if owner !in s.owners then (s, Threw)
    else
      var (t, ok) := CloseLoop(s, owner, s.owners[owner], faulty);
      if ok then (t.(owners := t.owners - {owner}), Done(owner)) else (t, Threw)
  }

  /** One operation; `faulty` are the resources whose `dispose` throws. */
  function Perform(s: State, op: Op, faulty: set<Resource>): (State, Reply) {
    match op
    case Open => (s.(owners := s.owners[s.sessions := []], sessions := s.sessions + 1), Done(s.sessions))
    case ResolveLocal(load) => ResolveLocalNext(s, load)
    case BindDefault(_, _, _, _) => BindDefaultNext(s, op)
    case BindLocal(_, _, _, _, _, _, _) => BindLocalNext(s, op, faulty)
    case Release(owner, id) =>
      if owner !in s.owners || !Owned(s, owner, id) then (s, Threw)
      else (ReleaseNext(s, id, faulty), if Fails(id, s.bindings[id], faulty) then Threw else Done(id))
    case Close(owner) => CloseNext(s, owner, faulty)
  }

  function History(s: State, ops: seq<Op>, faulty: set<Resource>): State
    decreases |ops|
  {
    if ops == [] then s else History(Perform(s, ops[0], faulty).0, ops[1..], faulty)
  }

  // ----- the service

  class Service {
    const faulty: set<Resource>
    var owners: map<nat, seq<nat>>
    var bindings: map<nat, Binding>
    var sessions: nat
    var attempts: nat
    ghost var created: seq<Resource>
    ghost var disposed: seq<Resource>

    ghost function View(): State
      reads this
    {
      State(owners, bindings, sessions, attempts, created, disposed)
    }

    constructor (faulty: set<Resource>)
      ensures View() == INIT && this.faulty == faulty
    {
      this.faulty := faulty;
      owners, bindings, sessions, attempts := map[], map[], 0, 0;
      created, disposed := [], [];
    }

    method OpenOwnerSession() returns (reply: Reply)
      modifies this
      ensures (View(), reply) == Perform(old(View()), Open, faulty)
    {
      reply := Done(sessions);
      owners := owners[sessions := []];
      sessions := sessions + 1;
    }

    /** A `dispose` call, and whether it returned. */
    method DisposeOf(r: Resource) returns (ok: bool)
      modifies this`disposed
      ensures disposed == old(disposed) + [r] && ok == (r !in faulty)
    {
      disposed := disposed + [r];
      ok := r !in faulty;
    }

    method Remember(id: nat, b: Binding)
      requires b.owner in owners
      modifies this`owners, this`bindings
      ensures View() == Store(old(View()), id, b)
    {
      bindings := bindings[id := b];
      owners := owners[b.owner := owners[b.owner] + [id]];
    }

    method BindDefault(op: Op) returns (reply: Reply)
      requires op.BindDefault?
      modifies this
      ensures (View(), reply) == Perform(old(View()), op, faulty)
    {
      var id := attempts;
      attempts := attempts + 1;
      reply := Threw;
      if op.owner !in owners || !op.inputsOk { return; }
      if op.runner.CreateThrows? || op.runner.Unavailable? { return; }
      if op.runner.Created? { created := created + [Runner(id)]; }
      if !op.revisionOk {
        if op.runner.Created? { var _ := DisposeOf(Runner(id)); }
        return;
      }
      Remember(id, Binding(op.owner, false, op.runner.Created?));
      reply := Done(id);
    }

    method BindLocal(op: Op) returns (reply: Reply)
      requires op.BindLocal?
      modifies this
      ensures (View(), reply) == Perform(old(View()), op, faulty)
    {
      var id := attempts;
      attempts := attempts + 1;
      reply := Threw;
      if op.owner !in owners || !op.inputsOk { return; }
      var loaded := LoadLocal(id, op.load);
      if !loaded { return; }
      if !op.configurationOk {
        var _ := DisposeOf(Scope(id));
        return;
      }
      if !op.surfaceOk || op.runner.CreateThrows? { return; }
      if op.runner.Unavailable? {
        var _ := DisposeOf(Scope(id));
        return;
      }
      if op.runner.Created? { created := created + [Runner(id)]; }
      if !op.agentOk {
        var ok := true;
        if op.runner.Created? { ok := DisposeOf(Runner(id)); }
        if ok { var _ := DisposeOf(Scope(id)); }
        return;
      }
      Remember(id, Binding(op.owner, true, op.runner.Created?));
      reply := Done(id);
    }

    method LoadLocal(id: nat, load: Load) returns (ok: bool)
      requires attempts == id + 1
      modifies this`created, this`disposed
      ensures ok == load.Loaded? && View() == Loading(old(View()).(attempts := id), load)
    {
      ok := false;
      if load.NotLoaded? { return; }
      created := created + [Scope(id)];
      if load.NotFound? || load.SkillsFail? {
        var _ := DisposeOf(Scope(id));
      }
      ok := load.Loaded?;
    }

    method ResolveLocal(load: Load) returns (reply: Reply)
      modifies this
      ensures (View(), reply) == Perform(old(View()), Op.ResolveLocal(load), faulty)
    {
      var id := attempts;
      attempts := attempts + 1;
      var loaded := LoadLocal(id, load);
      if !loaded { return Threw; }
      var _ := DisposeOf(Scope(id));
      reply := Done(id);
    }

    /** `release`: both maps first, then the scope, then the runner. */
    method ReleaseOne(id: nat) returns (ok: bool)
      requires id in bindings && bindings[id].owner in owners
      modifies this
      ensures View() == ReleaseNext(old(View()), id, faulty)
      ensures ok == !Fails(id, old(bindings[id]), faulty)
    {
      var binding := bindings[id];
      bindings := bindings - {id};
      owners := owners[binding.owner := Without(owners[binding.owner], id)];
      ok := true;
      if binding.scope { ok := DisposeOf(Scope(id)); }
      if ok && binding.runner { ok := DisposeOf(Runner(id)); }
    }

    method ReleaseBinding(owner: nat, id: nat) returns (reply: Reply)
      modifies this
      ensures (View(), reply) == Perform(old(View()), Release(owner, id), faulty)
    {
      if owner !in owners || id !in bindings || bindings[id].owner != owner { return Threw; }
      var ok := ReleaseOne(id);
      reply := if ok then Done(id) else Threw;
    }

    method CloseOwnerSession(owner: nat) returns (reply: Reply)
      modifies this
      ensures (View(), reply) == Perform(old(View()), Close(owner), faulty)
    {
      if owner !in owners { return Threw; }
      var ids := owners[owner];
      var i := 0;
      ghost var goal := CloseLoop(View(), owner, ids, faulty);
      while i < |ids|
        invariant i <= |ids| && owner in owners
        invariant CloseLoop(View(), owner, ids[i..], faulty) == goal
      {
        assert ids[i..][0] == ids[i] && ids[i..][1..] == ids[i + 1..];
        if ids[i] !in bindings || bindings[ids[i]].owner != owner { return Threw; }
        var ok := ReleaseOne(ids[i]);
        if !ok { return Threw; }
        i := i + 1;
      }
      owners := owners - {owner};
      reply := Done(owner);
    }
  }

  // ----- the invariant

  predicate Unique<T(==)>(s: seq<T>) {
    forall i, j | 0 <= i < j < |s| :: s[i] != s[j]
  }

  /** A binding is in an owner's set exactly when it is stored under that owner. */
  predicate Indexed(s: State) {
    && (forall o | o in s.owners :: o < s.sessions && Unique(s.owners[o]))
    && (forall o, id | o in s.owners && id in s.owners[o] :: Owned(s, o, id))
    && (forall id | id in s.bindings ::
          s.bindings[id].owner in s.owners && id in s.owners[s.bindings[id].owner])
  }

  predicate Held(s: State, r: Resource) {
    r.attempt in s.bindings && if r.Scope? then s.bindings[r.attempt].scope else s.bindings[r.attempt].runner
  }

  /** Created and neither held by a binding nor ever disposed. */
  predicate Lost(s: State, r: Resource) {
    r in s.created && !Held(s, r) && r !in s.disposed
  }

  /** No resource is made twice or disposed twice, none is disposed while a binding holds it. */
  ghost predicate Accounted(s: State) {
    && Unique(s.created) && Unique(s.disposed)
    && (forall id | id in s.bindings :: id < s.attempts)
    && (forall r | r in s.created :: r.attempt < s.attempts)
    && (forall r | r in s.disposed :: r in s.created)
    && (forall r :: Held(s, r) ==> r in s.created && r !in s.disposed)
  }

  ghost predicate Inv(s: State) {
    Indexed(s) && Accounted(s)
  }

  // ----- every operation keeps it

  lemma {:induction false} WithoutUnique(ids: seq<nat>, id: nat)
    requires Unique(ids)
    ensures Unique(Without(ids, id))
    ensures ids != [] && ids[0] == id ==> Without(ids, id) == ids[1..]
  {
    if ids != [] {
      WithoutUnique(ids[1..], id);
      assert ids[0] !in ids[1..];
      if ids[0] == id {
        WithoutAbsent(ids[1..], id);
      } else {
        assert ids[0] !in Without(ids[1..], id);
      }
    }
  }

  lemma {:induction false} WithoutAbsent(ids: seq<nat>, id: nat)
    requires id !in ids
    ensures Without(ids, id) == ids
  {
    if ids != [] {
      WithoutAbsent(ids[1..], id);
    }
  }

  lemma MakeAccounted(s: State, r: Resource)
    requires Accounted(s) && r !in s.created && r.attempt < s.attempts
    ensures Accounted(Make(s, r))
  {
  }

  lemma CallAccounted(s: State, r: Resource)
    requires Accounted(s) && r in s.created && r !in s.disposed && !Held(s, r)
    ensures Accounted(Call(s, r))
  {
  }

  lemma ForgetInv(s: State, id: nat)
    requires Inv(s) && id in s.bindings
    ensures s.bindings[id].owner in s.owners && Inv(Forget(s, id))
    ensures !Held(Forget(s, id), Scope(id)) && !Held(Forget(s, id), Runner(id))
  {
    WithoutUnique(s.owners[s.bindings[id].owner], id);
  }

  lemma DisposeInv(s: State, id: nat, b: Binding, faulty: set<Resource>)
    requires Inv(s) && id !in s.bindings
    requires b.scope ==> Scope(id) in s.created && Scope(id) !in s.disposed
    requires b.runner ==> Runner(id) in s.created && Runner(id) !in s.disposed
    ensures Inv(Dispose(s, id, b, faulty))
  {
    hide Accounted;
    if b.scope {
      CallAccounted(s, Scope(id));
    }
    var t := if b.scope then Call(s, Scope(id)) else s;
    if b.runner {
      CallAccounted(t, Runner(id));
    }
  }

  lemma ReleaseInv(s: State, id: nat, faulty: set<Resource>)
    requires Inv(s) && id in s.bindings
    ensures s.bindings[id].owner in s.owners && Inv(ReleaseNext(s, id, faulty))
  {
    ForgetInv(s, id);
    assert s.bindings[id].scope ==> Held(s, Scope(id));
    assert s.bindings[id].runner ==> Held(s, Runner(id));
    DisposeInv(Forget(s, id), id, s.bindings[id], faulty);
  }

  lemma AttemptInv(s: State)
    requires Inv(s)
    ensures Inv(Attempt(s)) && s.attempts !in s.bindings
    ensures Scope(s.attempts) !in s.created && Runner(s.attempts) !in s.created
  {
  }

  lemma StoreInv(s: State, id: nat, b: Binding)
    requires Inv(s) && b.owner in s.owners && id !in s.bindings && id < s.attempts
    requires b.scope ==> Scope(id) in s.created && Scope(id) !in s.disposed
    requires b.runner ==> Runner(id) in s.created && Runner(id) !in s.disposed
    ensures Inv(Store(s, id, b))
  {
    var t := Store(s, id, b);
    assert id !in s.owners[b.owner];
    forall r | Held(t, r) ensures r in t.created && r !in t.disposed {
      assert r.attempt != id ==> Held(s, r);
    }
  }

  lemma LoadingInv(s: State, load: Load)
    requires Inv(s)
    ensures var t := Loading(s, load);
      && Inv(t) && t.bindings == s.bindings && t.owners == s.owners && t.attempts == s.attempts + 1
      && Runner(s.attempts) !in t.created
      && (load.Loaded? || load.Unreadable? ==> Scope(s.attempts) in t.created && Scope(s.attempts) !in t.disposed)
  {
    AttemptInv(s);
    if !load.NotLoaded? {
      MakeAccounted(Attempt(s), Scope(s.attempts));
      if load.NotFound? || load.SkillsFail? {
        CallAccounted(Make(Attempt(s), Scope(s.attempts)), Scope(s.attempts));
      }
    }
  }

  lemma BindDefaultInv(s: State, op: Op)
    requires Inv(s) && op.BindDefault?
    ensures Inv(BindDefaultNext(s, op).0)
  {
    hide Accounted;
    var k := s.attempts;
    AttemptInv(s);
    if op.runner.Created? {
      MakeAccounted(Attempt(s), Runner(k));
      NotDisposed(Attempt(s), Runner(k));
      if !op.revisionOk {
        CallAccounted(Make(Attempt(s), Runner(k)), Runner(k));
      }
    }
    var made := if op.runner.Created? then Make(Attempt(s), Runner(k)) else Attempt(s);
    if op.owner in s.owners {
      StoreInv(made, k, Binding(op.owner, false, op.runner.Created?));
    }
  }

  lemma NotDisposed(s: State, r: Resource)
    requires Accounted(s) && r !in s.created
    ensures r !in s.disposed
  {
  }

  lemma BindLocalInv(s: State, op: Op, faulty: set<Resource>)
    requires Inv(s) && op.BindLocal?
    ensures Inv(BindLocalNext(s, op, faulty).0)
  {
    hide Accounted;
    var k := s.attempts;
    AttemptInv(s);
    LoadingInv(s, op.load);
    var t := Loading(s, op.load);
    if op.load.Loaded? && op.owner in s.owners {
      NotDisposed(t, Runner(k));
      CallAccounted(t, Scope(k));
      MakeAccounted(t, Runner(k));
      var made := if op.runner.Created? then Make(t, Runner(k)) else t;
      StoreInv(made, k, Binding(op.owner, true, op.runner.Created?));
      AbandonInv(made, k, op.runner.Created?, faulty);
    }
  }

  lemma AbandonInv(s: State, k: nat, runner: bool, faulty: set<Resource>)
    requires Inv(s) && k !in s.bindings
    requires Scope(k) in s.created && Scope(k) !in s.disposed
    requires runner ==> Runner(k) in s.created && Runner(k) !in s.disposed
    ensures Inv(Abandon(s, k, runner, faulty))
  {
    hide Accounted;
    if runner {
      CallAccounted(s, Runner(k));
    }
    CallAccounted(if runner then Call(s, Runner(k)) else s, Scope(k));
  }

  // ----- closing a session

  /** How many releases the loop makes: up to and including the first that throws. */
  function Reached(bindings: map<nat, Binding>, ids: seq<nat>, faulty: set<Resource>): (n: nat)
    requires forall id | id in ids :: id in bindings
    ensures n <= |ids|
  {
    if ids == [] then 0
    else if Fails(ids[0], bindings[ids[0]], faulty) then 1
    else 1 + Reached(bindings, ids[1..], faulty)
  }

  /** The dispose calls of a list of releases: a runner's is never reached when its scope's throws. */
  function DisposeCalls(bindings: map<nat, Binding>, ids: seq<nat>, faulty: set<Resource>): seq<Resource>
    requires forall id | id in ids :: id in bindings
  {
    if ids == [] then []
    else
      var b := bindings[ids[0]];
      (if b.scope then [Scope(ids[0])] else []) +
      (if b.runner && !(b.scope && Scope(ids[0]) in faulty) then [Runner(ids[0])] else []) +
      DisposeCalls(bindings, ids[1..], faulty)
  }

  function Set(ids: seq<nat>): set<nat> {
    set id | id in ids
  }

  lemma ReleaseEffect(s: State, id: nat, faulty: set<Resource>)
    requires Inv(s) && id in s.bindings
    ensures s.bindings[id].owner in s.owners
    ensures var t := ReleaseNext(s, id, faulty); var o := s.bindings[id].owner;
      && t.bindings == s.bindings - {id}
      && t.owners == s.owners[o := Without(s.owners[o], id)]
      && t.disposed == s.disposed + DisposeCalls(s.bindings, [id], faulty)
      && t.created == s.created && t.attempts == s.attempts && t.sessions == s.sessions
  {
    assert DisposeCalls(s.bindings, [id][1..], faulty) == [];
  }

  lemma DisposeCallsCons(all: map<nat, Binding>, ids: seq<nat>, faulty: set<Resource>)
    requires ids != [] && forall id | id in ids :: id in all
    ensures DisposeCalls(all, ids, faulty) == DisposeCalls(all, [ids[0]], faulty) + DisposeCalls(all, ids[1..], faulty)
  {
    assert [ids[0]][1..] == [];
    assert DisposeCalls(all, [], faulty) == [];
  }

  predicate Within(ids: seq<nat>, all: map<nat, Binding>) {
    forall id | id in ids :: id in all
  }

  /** From `s` the loop over `ids` released the first of them up to the first that throws. */
  predicate Closed(s: State, t: State, ok: bool, owner: nat, ids: seq<nat>, all: map<nat, Binding>,
                   faulty: set<Resource>)
    requires Within(ids, all)
  {
    var n := Reached(all, ids, faulty);
    && (ok <==> forall id | id in ids :: !Fails(id, all[id], faulty))
    && (ok ==> n == |ids|)
    && t.bindings == s.bindings - Set(ids[..n])
    && t.owners == s.owners[owner := ids[n..]]
    && t.disposed == s.disposed + DisposeCalls(all, ids[..n], faulty)
    && t.created == s.created
  }

  lemma ClosedNone(s: State, owner: nat, all: map<nat, Binding>, faulty: set<Resource>)
    requires owner in s.owners && s.owners[owner] == []
    ensures Closed(s, s, true, owner, [], all, faulty)
  {
    assert s.owners[owner := []] == s.owners;
    assert s.bindings - Set([]) == s.bindings;
  }

  lemma ClosedFirst(s: State, u: State, owner: nat, ids: seq<nat>, all: map<nat, Binding>, faulty: set<Resource>)
    requires ids != [] && Within(ids, all) && Released(s, u, owner, ids, all, faulty)
    requires Fails(ids[0], all[ids[0]], faulty)
    ensures Closed(s, u, false, owner, ids, all, faulty)
  {
    assert ids[..1] == [ids[0]] && Set([ids[0]]) == {ids[0]};
  }

  predicate Released(s: State, u: State, owner: nat, ids: seq<nat>, all: map<nat, Binding>, faulty: set<Resource>)
    requires ids != [] && Within(ids, all)
  {
    && u.bindings == s.bindings - {ids[0]}
    && u.owners == s.owners[owner := ids[1..]]
    && u.disposed == s.disposed + DisposeCalls(all, [ids[0]], faulty)
    && u.created == s.created
  }

  lemma ClosedMore(s: State, u: State, t: State, ok: bool, owner: nat, ids: seq<nat>, all: map<nat, Binding>,
                   faulty: set<Resource>)
    requires ids != [] && Within(ids, all) && Within(ids[1..], all) && Released(s, u, owner, ids, all, faulty)
    requires !Fails(ids[0], all[ids[0]], faulty) && Closed(u, t, ok, owner, ids[1..], all, faulty)
    ensures Closed(s, t, ok, owner, ids, all, faulty)
  {
    var id, rest, n := ids[0], ids[1..], Reached(all, ids, faulty);
    NoneFails(ids, all, faulty);
    ReachedMore(ids, all, faulty);
    hide Fails, Within, DisposeCalls, Reached;
    SetCons(id, rest[..n - 1]);
    hide Set;
    MinusTwice(s.bindings, {id}, Set(rest[..n - 1]));
    UpdateTwice(s.owners, owner, rest, ids[n..]);
  }

  lemma UpdateTwice(m: map<nat, seq<nat>>, k: nat, a: seq<nat>, b: seq<nat>)
    ensures m[k := a][k := b] == m[k := b]
  {
  }

  lemma ReachedMore(ids: seq<nat>, all: map<nat, Binding>, faulty: set<Resource>)
    requires ids != [] && Within(ids, all) && !Fails(ids[0], all[ids[0]], faulty)
    ensures var n := Reached(all, ids, faulty);
      && n == 1 + Reached(all, ids[1..], faulty)
      && ids[..n] == [ids[0]] + ids[1..][..n - 1] && ids[n..] == ids[1..][n - 1..]
      && Within(ids[..n], all) && Within(ids[1..][..n - 1], all)
      && DisposeCalls(all, ids[..n], faulty) ==
           DisposeCalls(all, [ids[0]], faulty) + DisposeCalls(all, ids[1..][..n - 1], faulty)
  {
    var n := Reached(all, ids, faulty);
    assert n == 1 + Reached(all, ids[1..], faulty);
    hide Fails, Reached;
    DisposeCallsCons(all, ids[..n], faulty);
    hide DisposeCalls;
    assert ids[..n][1..] == ids[1..][..n - 1];
  }

  lemma NoneFails(ids: seq<nat>, all: map<nat, Binding>, faulty: set<Resource>)
    requires ids != [] && Within(ids, all) && !Fails(ids[0], all[ids[0]], faulty)
    ensures (forall x | x in ids :: !Fails(x, all[x], faulty)) <==>
      (forall x | x in ids[1..] :: !Fails(x, all[x], faulty))
  {
    assert forall x :: x in ids <==> x == ids[0] || x in ids[1..];
  }

  lemma SetCons(id: nat, ids: seq<nat>)
    ensures Set([id] + ids) == {id} + Set(ids)
  {
  }

  lemma MinusTwice(m: map<nat, Binding>, a: set<nat>, b: set<nat>)
    ensures m - a - b == m - (a + b)
  {
  }

  lemma ReleasedFirst(s: State, owner: nat, all: map<nat, Binding>, faulty: set<Resource>)
    requires Inv(s) && owner in s.owners && s.owners[owner] != [] && Agrees(s, owner, all)
    ensures var ids := s.owners[owner]; var id := ids[0];
      && id in s.bindings && s.bindings[id] == all[id] && all[id].owner == owner && Within(ids, all)
      && var u := ReleaseNext(s, id, faulty);
         Inv(u) && Released(s, u, owner, ids, all, faulty) && Agrees(u, owner, all)
  {
    var ids := s.owners[owner];
    var id := ids[0];
    assert Owned(s, owner, id);
    ReleaseInv(s, id, faulty);
    ReleaseEffect(s, id, faulty);
    hide Accounted;
    WithoutUnique(ids, id);
    hide ReleaseNext;
    assert DisposeCalls(s.bindings, [id], faulty) == DisposeCalls(all, [id], faulty);
    assert id !in ids[1..];
  }

  /** `all` has the owner's bindings as they are stored. */
  predicate Agrees(s: State, owner: nat, all: map<nat, Binding>) {
    owner in s.owners && forall id | id in s.owners[owner] :: id in all && id in s.bindings && all[id] == s.bindings[id]
  }

  /** Closing walks the owner's set in order, and stops where a dispose throws. */
  lemma {:induction false} CloseLoopMeaning(s: State, owner: nat, ids: seq<nat>, all: map<nat, Binding>,
                                            faulty: set<Resource>)
    requires Inv(s) && Agrees(s, owner, all) && ids == s.owners[owner]
    ensures Within(ids, all) && var (t, ok) := CloseLoop(s, owner, ids, faulty);
      Inv(t) && Closed(s, t, ok, owner, ids, all, faulty)
    decreases |ids|
  {
    hide Inv, Closed, Released, Fails, ReleaseNext;
    if ids == [] {
      ClosedNone(s, owner, all, faulty);
    } else {
      ReleasedFirst(s, owner, all, faulty);
      var u := ReleaseNext(s, ids[0], faulty);
      assert u.owners[owner] == ids[1..] by { ReleasedOwners(s, u, owner, ids, all, faulty); }
      if Fails(ids[0], all[ids[0]], faulty) {
        ClosedFirst(s, u, owner, ids, all, faulty);
      } else {
        CloseLoopMeaning(u, owner, ids[1..], all, faulty);
        var (t, ok) := CloseLoop(u, owner, ids[1..], faulty);
        ClosedMore(s, u, t, ok, owner, ids, all, faulty);
      }
    }
  }

  lemma ReleasedOwners(s: State, u: State, owner: nat, ids: seq<nat>, all: map<nat, Binding>, faulty: set<Resource>)
    requires ids != [] && Within(ids, all) && Released(s, u, owner, ids, all, faulty)
    ensures owner in u.owners && u.owners[owner] == ids[1..]
  {
  }

  lemma CloseInv(s: State, owner: nat, faulty: set<Resource>)
    requires Inv(s)
    ensures Inv(CloseNext(s, owner, faulty).0)
  {
    if owner in s.owners {
      var ids := s.owners[owner];
      CloseLoopMeaning(s, owner, ids, s.bindings, faulty);
      var (t, ok) := CloseLoop(s, owner, ids, faulty);
      if ok {
        assert t.owners[owner] == [];
        DropOwner(t, owner);
      }
    }
  }

  lemma DropOwner(s: State, owner: nat)
    requires Inv(s) && owner in s.owners && s.owners[owner] == []
    ensures Inv(s.(owners := s.owners - {owner}))
  {
  }

  lemma PerformInv(s: State, op: Op, faulty: set<Resource>)
    requires Inv(s)
    ensures Inv(Perform(s, op, faulty).0)
  {
    hide Accounted;
    match op
    case Open =>
      OpenInv(s);
    case ResolveLocal(load) =>
      LoadingInv(s, load);
      AttemptInv(s);
      if load.Loaded? {
        CallAccounted(Loading(s, load), Scope(s.attempts));
      }
    case BindDefault(_, _, _, _) => BindDefaultInv(s, op);
    case BindLocal(_, _, _, _, _, _, _) => BindLocalInv(s, op, faulty);
    case Release(owner, id) =>
      if owner in s.owners && Owned(s, owner, id) {
        ReleaseInv(s, id, faulty);
      }
    case Close(owner) => CloseInv(s, owner, faulty);
  }

  lemma OpenInv(s: State)
    requires Inv(s)
    ensures Inv(Perform(s, Open, {}).0)
  {
  }

  lemma {:induction false} HistoryInv(s: State, ops: seq<Op>, faulty: set<Resource>)
    requires Inv(s)
    ensures Inv(History(s, ops, faulty))
    decreases |ops|
  {
    hide Inv, Perform;
    if ops != [] {
      PerformInv(s, ops[0], faulty);
      HistoryInv(Perform(s, ops[0], faulty).0, ops[1..], faulty);
    }
  }

  // ----- main results

  /** After any history the two indexes agree, in both directions, and no resource was
      disposed twice or while a binding still held it. */
  lemma IndexesAgree(ops: seq<Op>, faulty: set<Resource>)
    ensures var t := History(INIT, ops, faulty);
      && (forall o, id :: o in t.owners && id in t.owners[o] <==> id in t.bindings && t.bindings[id].owner == o)
      && Unique(t.disposed)
      && (forall r :: Held(t, r) ==> r in t.created && r !in t.disposed)
  {
    HistoryInv(INIT, ops, faulty);
    assert forall o, id | o in History(INIT, ops, faulty).owners && id in History(INIT, ops, faulty).owners[o] ::
        Owned(History(INIT, ops, faulty), o, id);
  }

  /** Which resources a list of releases disposes. */
  lemma {:induction false} DisposeCallsAre(all: map<nat, Binding>, ids: seq<nat>, faulty: set<Resource>, r: Resource)
    requires Within(ids, all)
    ensures r in DisposeCalls(all, ids, faulty) <==>
      r.attempt in ids &&
      (if r.Scope? then all[r.attempt].scope
       else all[r.attempt].runner && !(all[r.attempt].scope && Scope(r.attempt) in faulty))
  {
    if ids != [] {
      DisposeCallsAre(all, ids[1..], faulty, r);
    }
  }

  /** Closing a session whose disposals succeed removes exactly that owner's bindings,
      disposing each of their resources; it fails exactly when one of those throws, and
      never touches another owner's bindings. */
  lemma CloseRemoves(s: State, owner: nat, faulty: set<Resource>)
    requires Inv(s) && owner in s.owners
    ensures var (t, reply) := Perform(s, Close(owner), faulty);
      && (reply.Done? <==>
          forall id | id in s.bindings && s.bindings[id].owner == owner :: !Fails(id, s.bindings[id], faulty))
      && (reply.Done? ==>
            && t.owners == s.owners - {owner}
            && t.bindings == (map id | id in s.bindings && s.bindings[id].owner != owner :: s.bindings[id])
            && (forall r | Held(s, r) && s.bindings[r.attempt].owner == owner :: r in t.disposed))
      && (forall o | o in s.owners && o != owner :: o in t.owners && t.owners[o] == s.owners[o])
      && (forall id | id in s.bindings && s.bindings[id].owner != owner ::
            id in t.bindings && t.bindings[id] == s.bindings[id])
  {
    var ids := s.owners[owner];
    assert forall id :: id in ids <==> Owned(s, owner, id);
    CloseLoopMeaning(s, owner, ids, s.bindings, faulty);
    hide Inv, DisposeCalls, CloseLoop, Reached, Fails, Held, Closed;
    var (t, ok) := CloseLoop(s, owner, ids, faulty);
    assert Perform(s, Close(owner), faulty) ==
      if ok then (t.(owners := t.owners - {owner}), Done(owner)) else (t, Threw);
    hide *;
    ClosedFrame(s, t, ok, owner, ids, faulty);
    if ok {
      ClosedDisposed(s, t, owner, ids, faulty);
    }
  }

  /** What the loop leaves in the indexes, in terms of owners. */
  lemma ClosedFrame(s: State, t: State, ok: bool, owner: nat, ids: seq<nat>, faulty: set<Resource>)
    requires owner in s.owners && forall id :: id in ids <==> Owned(s, owner, id)
    requires Within(ids, s.bindings) && Closed(s, t, ok, owner, ids, s.bindings, faulty)
    ensures ok <==> forall id | id in s.bindings && s.bindings[id].owner == owner :: !Fails(id, s.bindings[id], faulty)
    ensures ok ==> t.bindings == map id | id in s.bindings && s.bindings[id].owner != owner :: s.bindings[id]
    ensures t.owners - {owner} == s.owners - {owner}
    ensures forall o | o in s.owners && o != owner :: o in t.owners && t.owners[o] == s.owners[o]
    ensures forall id | id in s.bindings && s.bindings[id].owner != owner ::
      id in t.bindings && t.bindings[id] == s.bindings[id]
  {
    hide Fails, Reached, DisposeCalls;
    assert ids[..|ids|] == ids;
    assert forall id | id in ids[..Reached(s.bindings, ids, faulty)] :: Owned(s, owner, id);
  }

  lemma ClosedDisposed(s: State, t: State, owner: nat, ids: seq<nat>, faulty: set<Resource>)
    requires forall id :: id in ids <==> Owned(s, owner, id)
    requires Within(ids, s.bindings) && Closed(s, t, true, owner, ids, s.bindings, faulty)
    ensures forall r | Held(s, r) && s.bindings[r.attempt].owner == owner :: r in t.disposed
  {
    hide Reached, DisposeCalls;
    assert ids[..|ids|] == ids;
    forall r | Held(s, r) && s.bindings[r.attempt].owner == owner ensures r in t.disposed {
      assert Owned(s, owner, r.attempt);
      DisposeCallsAre(s.bindings, ids, faulty, r);
    }
  }

  // ----- what each operation answers and changes

  /** The operation stored binding `b` under the attempt's number, last in its owner's set. */
  ghost predicate Stored(s: State, t: State, owner: nat, b: Binding) {
    && owner in s.owners && b.owner == owner
    && t.bindings == s.bindings[s.attempts := b]
    && t.owners == s.owners[owner := s.owners[owner] + [s.attempts]]
  }

  ghost predicate SameIndexes(s: State, t: State) {
    t.bindings == s.bindings && t.owners == s.owners
  }

  /** A default bind is done exactly when its session is open, its inputs are valid, the
      runner it needs could be made and the expected revision holds; it holds that runner and
      no scope. Otherwise it throws and stores nothing. */
  lemma BindDefaultAnswers(s: State, owner: nat, inputsOk: bool, runner: RunnerPlan, revisionOk: bool,
                           faulty: set<Resource>)
    ensures var (t, reply) := Perform(s, BindDefault(owner, inputsOk, runner, revisionOk), faulty);
      && (reply.Done? <==> owner in s.owners && inputsOk && runner in {NotNeeded, Created} && revisionOk)
      && (if reply.Done? then reply.id == s.attempts && Stored(s, t, owner, Binding(owner, false, runner == Created))
          else SameIndexes(s, t))
      && t.disposed == s.disposed +
           if owner in s.owners && inputsOk && runner == Created && !revisionOk then [Runner(s.attempts)] else []
  {
    assert s.disposed + [] == s.disposed;
  }

  /** So for a local bind, which also needs its agent loaded with its skills, a matching
      configuration, a tool surface and an agent; its binding holds the scope as well. */
  lemma BindLocalAnswers(s: State, owner: nat, inputsOk: bool, load: Load, configurationOk: bool, surfaceOk: bool,
                         runner: RunnerPlan, agentOk: bool, faulty: set<Resource>)
    ensures
      var op := BindLocal(owner, inputsOk, load, configurationOk, surfaceOk, runner, agentOk);
      var (t, reply) := Perform(s, op, faulty);
      && (reply.Done? <==>
            && owner in s.owners && inputsOk && load == Loaded && configurationOk && surfaceOk
            && runner in {NotNeeded, Created} && agentOk)
      && (if reply.Done? then reply.id == s.attempts && Stored(s, t, owner, Binding(owner, true, runner == Created))
          else SameIndexes(s, t))
  {
  }

  /** A lookup answers exactly when the agent loads with its skills, and changes no index. */
  lemma ResolveAnswers(s: State, load: Load, faulty: set<Resource>)
    ensures var (t, reply) := Perform(s, ResolveLocal(load), faulty);
      && (reply.Done? <==> load == Loaded) && SameIndexes(s, t)
      && t.disposed == s.disposed + if load in {NotFound, SkillsFail, Loaded} then [Scope(s.attempts)] else []
  {
    assert s.disposed + [] == s.disposed;
  }

  /** A release is for an owner's own binding. It takes the binding out of both indexes,
      disposes the scope first and then, unless that throws, the runner, and is done exactly
      when neither throws. */
  lemma ReleaseAnswers(s: State, owner: nat, id: nat, faulty: set<Resource>)
    requires Inv(s)
    ensures var (t, reply) := Perform(s, Release(owner, id), faulty);
      if owner in s.owners && id in s.bindings && s.bindings[id].owner == owner then
        var b := s.bindings[id];
        && t.bindings == s.bindings - {id}
        && (forall o :: o in t.owners <==> o in s.owners)
        && (forall o, x | o in s.owners :: x in t.owners[o] <==> x in s.owners[o] && !(o == owner && x == id))
        && t.disposed == s.disposed + (if b.scope then [Scope(id)] else [])
             + (if b.runner && !(b.scope && Scope(id) in faulty) then [Runner(id)] else [])
        && (reply.Done? <==> !(b.scope && Scope(id) in faulty) && !(b.runner && Runner(id) in faulty))
      else reply == Threw && t == s
  {
    hide Inv;
    assert s.disposed + [] == s.disposed;
    if owner in s.owners && id in s.bindings && s.bindings[id].owner == owner {
      var mid := s.disposed + if s.bindings[id].scope then [Scope(id)] else [];
      assert mid + [] == mid;
    }
  }

  /** A session opens under a number of its own, with nothing bound. */
  lemma OpenAnswers(s: State, faulty: set<Resource>)
    requires Inv(s)
    ensures var (t, reply) := Perform(s, Open, faulty);
      reply == Done(s.sessions) && s.sessions !in s.owners
      && t.owners == s.owners[s.sessions := []] && t.bindings == s.bindings && t.disposed == s.disposed
  {
  }

  // ----- what can be lost

  /** The resources that `op` leaves behind, neither held nor disposed. */
  predicate Loses(s: State, op: Op, faulty: set<Resource>, r: Resource) {
    match op
    case Open => false
    case ResolveLocal(load) => load.Unreadable? && r == Scope(s.attempts)
    case BindDefault(_, _, _, _) => false
    case BindLocal(owner, inputsOk, load, configurationOk, surfaceOk, runner, agentOk) =>
      && owner in s.owners && inputsOk && r == Scope(s.attempts)
      && (load.Unreadable? ||
          (load.Loaded? && configurationOk &&
           (!surfaceOk || runner.CreateThrows? ||
            (runner.Created? && !agentOk && Runner(s.attempts) in faulty))))
    case Release(owner, id) => owner in s.owners && Owned(s, owner, id) && Strands(s, id, faulty, r)
    case Close(owner) =>
      && owner in s.owners && Within(s.owners[owner], s.bindings)
      && r.attempt in s.owners[owner][..Reached(s.bindings, s.owners[owner], faulty)]
      && Strands(s, r.attempt, faulty, r)
  }

  /** A binding's runner whose scope is disposed first and throws. */
  predicate Strands(s: State, id: nat, faulty: set<Resource>, r: Resource) {
    id in s.bindings && r == Runner(id) && s.bindings[id].runner && s.bindings[id].scope && Scope(id) in faulty
  }

  /** One release or one close: `gone` are the bindings removed. */
  lemma RemovalLoss(s: State, t: State, gone: seq<nat>, faulty: set<Resource>, r: Resource)
    requires Inv(s) && Within(gone, s.bindings) && t.bindings == s.bindings - Set(gone) && t.created == s.created
    requires t.disposed == s.disposed + DisposeCalls(s.bindings, gone, faulty)
    ensures Lost(t, r) <==> Lost(s, r) || (r.attempt in gone && Strands(s, r.attempt, faulty, r))
  {
    DisposeCallsAre(s.bindings, gone, faulty, r);
    hide DisposeCalls;
  }

  lemma ResolveLoss(s: State, load: Load, r: Resource)
    requires Inv(s)
    ensures Lost(ResolveLocalNext(s, load).0, r) <==> Lost(s, r) || Loses(s, ResolveLocal(load), {}, r)
  {
    AttemptInv(s);
    hide Inv;
  }

  lemma DefaultLoss(s: State, op: Op, r: Resource)
    requires Inv(s) && op.BindDefault?
    ensures Lost(BindDefaultNext(s, op).0, r) <==> Lost(s, r)
  {
    AttemptInv(s);
    hide Inv;
  }

  lemma LocalLoss(s: State, op: Op, faulty: set<Resource>, r: Resource)
    requires Inv(s) && op.BindLocal?
    ensures Lost(BindLocalNext(s, op, faulty).0, r) <==> Lost(s, r) || Loses(s, op, faulty, r)
  {
    var k := s.attempts;
    AttemptInv(s);
    NotDisposed(s, Scope(k));
    NotDisposed(s, Runner(k));
    hide Inv, Held;
    var t := Loading(s, op.load);
    LoadingLoss(s, op.load, r);
    if op.load.Loaded? && op.configurationOk {
      CallLoss(t, Scope(k), r);
      var made := if op.runner.Created? then Make(t, Runner(k)) else t;
      MakeLoss(t, Runner(k), r);
      CallLoss(made, Scope(k), r);
      CallLoss(made, Runner(k), r);
      CallLoss(Call(made, Runner(k)), Scope(k), r);
      if op.owner in s.owners {
        StoreLoss(made, k, Binding(op.owner, true, op.runner.Created?), r);
      }
      hide Lost, Loading, Make, Call, Store;
    } else {
      CallLoss(t, Scope(k), r);
      hide Lost, Loading, Make, Call, Store;
    }
  }

  lemma LoadingLoss(s: State, load: Load, r: Resource)
    requires Scope(s.attempts) !in s.created && Scope(s.attempts) !in s.disposed && s.attempts !in s.bindings
    ensures var t := Loading(s, load);
      && t.bindings == s.bindings && t.owners == s.owners && t.attempts == s.attempts + 1
      && (Runner(s.attempts) !in s.created ==> Runner(s.attempts) !in t.created)
      && (Runner(s.attempts) !in s.disposed ==> Runner(s.attempts) !in t.disposed)
      && (Lost(t, r) <==> Lost(s, r) || ((load.Loaded? || load.Unreadable?) && r == Scope(s.attempts)))
  {
  }

  lemma CallLoss(s: State, q: Resource, r: Resource)
    ensures Lost(Call(s, q), r) <==> Lost(s, r) && r != q
  {
  }

  lemma MakeLoss(s: State, q: Resource, r: Resource)
    requires !Held(s, q) && q !in s.disposed
    ensures Lost(Make(s, q), r) <==> Lost(s, r) || r == q
  {
  }

  lemma StoreLoss(s: State, id: nat, b: Binding, r: Resource)
    requires id !in s.bindings && b.owner in s.owners
    ensures Lost(Store(s, id, b), r) <==>
      Lost(s, r) && !(r == Scope(id) && b.scope) && !(r == Runner(id) && b.runner)
  {
  }

  /** Nothing is lost but what `Loses` says, operation by operation. */
  lemma LossExactly(s: State, op: Op, faulty: set<Resource>, r: Resource)
    requires Inv(s)
    ensures Lost(Perform(s, op, faulty).0, r) <==> Lost(s, r) || Loses(s, op, faulty, r)
  {
    match op
    case Open =>
    case Release(owner, id) =>
      if owner in s.owners && Owned(s, owner, id) {
        ReleaseEffect(s, id, faulty);
        assert Set([id]) == {id};
        RemovalLoss(s, Perform(s, op, faulty).0, [id], faulty, r);
      }
    case Close(owner) =>
      if owner in s.owners {
        CloseLoss(s, owner, faulty, r);
      }
    case ResolveLocal(load) => ResolveLoss(s, load, r);
    case BindDefault(_, _, _, _) => DefaultLoss(s, op, r);
    case BindLocal(_, _, _, _, _, _, _) => LocalLoss(s, op, faulty, r);
  }

  lemma CloseLoss(s: State, owner: nat, faulty: set<Resource>, r: Resource)
    requires Inv(s) && owner in s.owners
    ensures Lost(CloseNext(s, owner, faulty).0, r) <==> Lost(s, r) || Loses(s, Close(owner), faulty, r)
  {
    var ids := s.owners[owner];
    assert forall id :: id in ids <==> Owned(s, owner, id);
    CloseLoopMeaning(s, owner, ids, s.bindings, faulty);
    var n := Reached(s.bindings, ids, faulty);
    var (t, ok) := CloseLoop(s, owner, ids, faulty);
    RemovalLoss(s, t, ids[..n], faulty, r);
    hide Inv, DisposeCalls, CloseLoop, Reached;
  }

  /** Operations that fail, if they do, before or after holding resources they cannot give back. */
  predicate Careful(op: Op) {
    match op
    case ResolveLocal(load) => !load.Unreadable?
    case BindLocal(_, _, load, _, surfaceOk, runner, _) => !load.Unreadable? && surfaceOk && !runner.CreateThrows?
    case _ => true
  }

  lemma {:induction false} NothingLost(s: State, ops: seq<Op>, r: Resource)
    requires Inv(s) && !Lost(s, r) && forall op | op in ops :: Careful(op)
    ensures !Lost(History(s, ops, {}), r)
    decreases |ops|
  {
    hide Inv, Perform, Lost;
    if ops != [] {
      PerformInv(s, ops[0], {});
      assert Careful(ops[0]);
      LossExactly(s, ops[0], {}, r);
      NothingLost(Perform(s, ops[0], {}).0, ops[1..], r);
    }
  }

  /** When disposals succeed and no failing bind strands its scope, every resource ever made
      is held by its binding or was disposed, exactly one of the two, and at most once. */
  lemma Conservation(ops: seq<Op>)
    requires forall op | op in ops :: Careful(op)
    ensures var t := History(INIT, ops, {});
      && (forall r | r in t.created :: Held(t, r) <==> r !in t.disposed)
      && Unique(t.disposed)
  {
    var t := History(INIT, ops, {});
    HistoryInv(INIT, ops, {});
    forall r | r in t.created ensures Held(t, r) <==> r !in t.disposed {
      NothingLost(INIT, ops, r);
    }
  }

  /** A lookup whose configuration cannot be read strands the scope it made. */
  lemma FailedLookupStrandsScope()
    ensures Lost(History(INIT, [ResolveLocal(Unreadable)], {}), Scope(0))
  {
    var t := Perform(INIT, ResolveLocal(Unreadable), {}).0;
    assert History(INIT, [ResolveLocal(Unreadable)], {}) == History(t, [], {});
    assert Lost(t, Scope(0));
  }

  /** A scope that throws on release strands the runner bound with it. */
  lemma FailedDisposeStrandsRunner()
    ensures var ops := [Open, BindLocal(0, true, Loaded, true, true, Created, true), Release(0, 0)];
      Lost(History(INIT, ops, {Scope(0)}), Runner(0))
  {
    var faulty := {Scope(0)};
    var bind, release := BindLocal(0, true, Loaded, true, true, Created, true), Release(0, 0);
    var s := Perform(INIT, Open, faulty).0;
    var t := Perform(s, bind, faulty).0;
    var u := Perform(t, release, faulty).0;
    assert Lost(u, Runner(0));
    assert History(t, [release], faulty) == History(u, [], faulty) by { assert [release][1..] == []; }
    assert History(s, [bind, release], faulty) == History(t, [release], faulty) by {
      assert [bind, release][1..] == [release];
    }
    assert [Open, bind, release][1..] == [bind, release];
  }

  /** An unavailable tool is enough to strand a scope. */
  lemma FailedBindStrandsScope()
    ensures var ops := [Open, BindLocal(0, true, Loaded, true, false, NotNeeded, true)];
      Lost(History(INIT, ops, {}), Scope(0))
  {
    var bind := BindLocal(0, true, Loaded, true, false, NotNeeded, true);
    var s := Perform(INIT, Open, {}).0;
    var t := Perform(s, bind, {}).0;
    assert Lost(t, Scope(0));
    assert History(s, [bind], {}) == History(t, [], {}) by { assert [bind][1..] == []; }
    assert [Open, bind][1..] == [bind];
  }
}
