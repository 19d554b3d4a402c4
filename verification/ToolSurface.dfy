/** The resolver of the tools a remote binding may use
    (src/runtime-agent-binding.ts, lines 190-194 and 400-464). */
module ToolSurface {
  import opened Options
  import opened Sorting
  import opened ToolPolicy

  const NATIVE_READ: seq<string> := ["read", "grep", "glob"]
  const NATIVE_WRITE: seq<string> := ["write", "edit", "multi_edit", "insert_after_anchor"]
  const MCP: seq<string> := ["mcp_search", "mcp_describe", "mcp_call", "mcp_read_resource", "mcp_get_prompt"]
  const SUBAGENT: seq<string> :=
    ["list_dispatchable_agents", "dispatch_child_task", "task_output", "task_stop", "send_message"]

  datatype Contract = Contract(workspaceEffect: Workspace, networkOrigins: seq<string>)

  datatype Tool = Tool(registrationId: string, builtin: bool, remoteContract: Option<Contract>)

  /** Everything but the policy; `originOf` is the origin of a URL, none when it does not parse. */
  datatype Request = Request(
    registry: map<string, Tool>,
    declared: Option<seq<string>>,
    hasSkills: bool,
    hasSkillScripts: bool,
    originOf: string -> Option<string>,
    order: (string, string) -> bool)

  datatype Surface = Surface(tools: seq<string>, contracts: map<string, Contract>, registrations: map<string, string>)

  datatype SurfaceError =
    | NoContract(name: string)
    | BroaderWorkspace(name: string)
    | OriginOutside(name: string)
    | Unavailable(name: string)
    | Shadowed(name: string)
    | Denied(names: seq<string>)

  // ----- what the surface is to be

  function Rank(w: Workspace): nat {
    match w
    case NoWorkspace => 0
    case Read => 1
    case Write => 2
  }

  function Origins(p: Policy): seq<string> {
    if p.network.Allow? then p.network.origins else []
  }

  predicate OriginAllowed(req: Request, p: Policy, origin: string) {
    var o := req.originOf(origin);
    o.Some? && o.value in Origins(p)
  }

  predicate Fits(req: Request, p: Policy, c: Contract) {
    Rank(c.workspaceEffect) <= Rank(p.workspace)
    && forall i | 0 <= i < |c.networkOrigins| :: OriginAllowed(req, p, c.networkOrigins[i])
  }

  /** The names a policy allows, whether or not a tool answers to them. */
  predicate Allows(req: Request, p: Policy, name: string) {
    || (name in NATIVE_READ && !p.workspace.NoWorkspace?)
    || (name in NATIVE_WRITE && p.workspace.Write?)
    || (name == "skill" && req.hasSkills)
    || (name == "run_skill_script" && req.hasSkillScripts)
    || (name in MCP && p.mcp != [])
    || (name in SUBAGENT && p.subagents.Inherit?)
    || name in p.tools
  }

  predicate ToolFits(req: Request, p: Policy, name: string) {
    && name in req.registry && req.registry[name].remoteContract.Some?
    && Fits(req, p, req.registry[name].remoteContract.value)
  }

  /** An allowed name has a tool: one listed by the policy, or a builtin. */
  predicate Available(req: Request, p: Policy, name: string) {
    name in req.registry && (name in p.tools || req.registry[name].builtin)
  }

  ghost predicate Admissible(req: Request, p: Policy) {
    && (forall name | name in p.tools :: ToolFits(req, p, name))
    && (forall name :: Allows(req, p, name) ==> Available(req, p, name))
    && (req.declared.Some? ==> forall name | name in req.declared.value :: Allows(req, p, name))
  }

  predicate Wanted(req: Request, p: Policy, name: string) {
    if req.declared.Some? then name in req.declared.value else Allows(req, p, name)
  }

  ghost predicate IsSurface(req: Request, p: Policy, s: Surface) {
    && Distinct(s.tools) && Sorted(req.order, s.tools)
    && (forall name :: name in s.tools <==> Wanted(req, p, name))
    && (forall name :: name in s.contracts <==> name in p.tools)
    && (forall name | name in s.contracts ::
          name in req.registry && req.registry[name].remoteContract == Some(s.contracts[name]))
    && (forall name :: name in s.registrations <==> name in s.tools)
    && (forall name | name in s.registrations ::
          name in req.registry && s.registrations[name] == req.registry[name].registrationId)
  }

  /** The error names a real fault. */
  predicate Justified(req: Request, p: Policy, e: SurfaceError) {
    match e
    case NoContract(name) =>
      name in p.tools && !(name in req.registry && req.registry[name].remoteContract.Some?)
    case BroaderWorkspace(name) =>
      && name in p.tools && name in req.registry && req.registry[name].remoteContract.Some?
      && Rank(req.registry[name].remoteContract.value.workspaceEffect) > Rank(p.workspace)
    case OriginOutside(name) =>
      && name in p.tools && name in req.registry && req.registry[name].remoteContract.Some?
      && !Fits(req, p, req.registry[name].remoteContract.value)
    case Unavailable(name) => Allows(req, p, name) && name !in req.registry
    case Shadowed(name) =>
      Allows(req, p, name) && name in req.registry && name !in p.tools && !req.registry[name].builtin
    case Denied(names) =>
      && req.declared.Some? && names != []
      && forall name | name in names :: name in req.declared.value && !Allows(req, p, name)
  }

  // ----- the resolver

  method AddEach(allowed: seq<string>, names: seq<string>) returns (r: seq<string>)
    requires Distinct(allowed)
    ensures Distinct(r)
    ensures forall x :: x in r <==> x in allowed || x in names
  {
    r := allowed;
    for i := 0 to |names|
      invariant Distinct(r)
      invariant forall x :: x in r <==> x in allowed || x in names[..i]
    {
      assert names[..i + 1] == names[..i] + [names[i]];
      if names[i] !in r {
        r := r + [names[i]];
      }
    }
    assert names[..|names|] == names;
  }

  method ValidateRemoteContract(req: Request, p: Policy, name: string, c: Contract)
    returns (error: Option<SurfaceError>)
    ensures error.None? <==> Fits(req, p, c)
    ensures error.Some? && Rank(c.workspaceEffect) > Rank(p.workspace) ==> error.value == BroaderWorkspace(name)
    ensures error.Some? && Rank(c.workspaceEffect) <= Rank(p.workspace) ==> error.value == OriginOutside(name)
  {
    if Rank(c.workspaceEffect) > Rank(p.workspace) { return Some(BroaderWorkspace(name)); }
    for i := 0 to |c.networkOrigins|
      invariant forall j | 0 <= j < i :: OriginAllowed(req, p, c.networkOrigins[j])
    {
      if !OriginAllowed(req, p, c.networkOrigins[i]) { return Some(OriginOutside(name)); }
    }
    return None;
  }

  method AllowedNative(req: Request, p: Policy) returns (allowed: seq<string>)
    ensures Distinct(allowed)
    ensures forall name :: name in allowed || name in p.tools <==> Allows(req, p, name)
  {
    allowed := [];
    if p.workspace != NoWorkspace { allowed := AddEach(allowed, NATIVE_READ); }
    if p.workspace == Write { allowed := AddEach(allowed, NATIVE_WRITE); }
    if req.hasSkills { allowed := AddEach(allowed, ["skill"]); }
    if req.hasSkillScripts { allowed := AddEach(allowed, ["run_skill_script"]); }
    if |p.mcp| > 0 { allowed := AddEach(allowed, MCP); }
    if p.subagents == Inherit { allowed := AddEach(allowed, SUBAGENT); }
  }

  method CollectContracts(req: Request, p: Policy, native: seq<string>)
    returns (r: Result<(seq<string>, map<string, Contract>), SurfaceError>)
    requires Distinct(native)
    ensures r.Ok? <==> forall name | name in p.tools :: ToolFits(req, p, name)
    ensures r.Ok? ==> var (allowed, contracts) := r.value;
      && Distinct(allowed) && (forall x :: x in allowed <==> x in native || x in p.tools)
      && (forall name :: name in contracts <==> name in p.tools)
      && (forall name | name in contracts ::
            name in req.registry && req.registry[name].remoteContract == Some(contracts[name]))
    ensures r.Err? ==> Justified(req, p, r.error)
  {
    var allowed := native;
    var contracts: map<string, Contract> := map[];
    for i := 0 to |p.tools|
      invariant Distinct(allowed) && forall x :: x in allowed <==> x in native || x in p.tools[..i]
      invariant forall name :: name in contracts <==> name in p.tools[..i]
      invariant forall name | name in contracts ::
        name in req.registry && req.registry[name].remoteContract == Some(contracts[name])
      invariant forall name | name in p.tools[..i] :: ToolFits(req, p, name)
    {
      var name := p.tools[i];
      assert p.tools[..i + 1] == p.tools[..i] + [name];
      assert name in p.tools;
      if name !in req.registry || req.registry[name].remoteContract.None? {
        assert !ToolFits(req, p, name);
        return Err(NoContract(name));
      }
      var contract := req.registry[name].remoteContract.value;
      var error := ValidateRemoteContract(req, p, name, contract);
      if error.Some? {
        assert !ToolFits(req, p, name);
        return Err(error.value);
      }
      contracts := contracts[name := contract];
      allowed := AddEach(allowed, [name]);
    }
    assert p.tools[..|p.tools|] == p.tools;
    return Ok((allowed, contracts));
  }

  method CollectRegistrations(req: Request, p: Policy, allowed: seq<string>, contracts: map<string, Contract>)
    returns (r: Result<map<string, string>, SurfaceError>)
    requires forall name :: name in allowed <==> Allows(req, p, name)
    requires forall name :: name in contracts <==> name in p.tools
    ensures r.Ok? <==> forall name :: Allows(req, p, name) ==> Available(req, p, name)
    ensures r.Ok? ==>
      && (forall name :: name in r.value <==> name in allowed)
      && (forall name | name in r.value :: name in req.registry && r.value[name] == req.registry[name].registrationId)
    ensures r.Err? ==> Justified(req, p, r.error)
  {
    hide Allows;
    var registrations: map<string, string> := map[];
    for i := 0 to |allowed|
      invariant forall name :: name in registrations <==> name in allowed[..i]
      invariant forall name | name in allowed[..i] :: Available(req, p, name)
      invariant forall name | name in registrations ::
        name in req.registry && registrations[name] == req.registry[name].registrationId
    {
      var name := allowed[i];
      assert allowed[..i + 1] == allowed[..i] + [name];
      assert Allows(req, p, name);
      if name !in req.registry { return Err(Unavailable(name)); }
      var active := req.registry[name];
      if name !in contracts && !active.builtin { return Err(Shadowed(name)); }
      registrations := registrations[name := active.registrationId];
    }
    assert allowed[..|allowed|] == allowed;
    return Ok(registrations);
  }

  method Unlisted(declared: seq<string>, allowed: seq<string>) returns (names: seq<string>)
    ensures forall x :: x in names <==> x in declared && x !in allowed
  {
    names := [];
    for i := 0 to |declared|
      invariant forall x :: x in names <==> x in declared[..i] && x !in allowed
    {
      assert declared[..i + 1] == declared[..i] + [declared[i]];
      if declared[i] !in allowed {
        names := names + [declared[i]];
      }
    }
    assert declared[..|declared|] == declared;
  }

  method ChooseTools(req: Request, p: Policy, allowed: seq<string>) returns (r: Result<seq<string>, SurfaceError>)
    requires Distinct(allowed) && forall name :: name in allowed <==> Allows(req, p, name)
    ensures r.Ok? <==> (req.declared.Some? ==> forall name | name in req.declared.value :: Allows(req, p, name))
    ensures r.Ok? ==> Distinct(r.value) && forall name :: name in r.value <==> Wanted(req, p, name)
    ensures r.Err? ==> Justified(req, p, r.error)
  {
    hide Allows;
    if req.declared.None? { return Ok(allowed); }
    var unavailable := Unlisted(req.declared.value, allowed);
    if |unavailable| > 0 {
      assert unavailable[0] in unavailable;
      return Err(Denied(unavailable));
    }
    assert forall name | name in req.declared.value :: name !in unavailable;
    var tools := AddEach([], req.declared.value);
    return Ok(tools);
  }

  method Assemble(req: Request, p: Policy, tools: seq<string>, contracts: map<string, Contract>,
                  registered: map<string, string>)
    returns (surface: Surface)
    requires StrictTotal(req.order) && Distinct(tools)
    requires forall name :: name in tools <==> Wanted(req, p, name)
    requires forall name :: name in contracts <==> name in p.tools
    requires forall name | name in contracts ::
      name in req.registry && req.registry[name].remoteContract == Some(contracts[name])
    requires forall name | name in tools :: name in registered
    requires forall name | name in registered ::
      name in req.registry && registered[name] == req.registry[name].registrationId
    ensures IsSurface(req, p, surface)
  {
    hide Allows, Wanted, Distinct, Sorted, StrictTotal, StrictWeak;
    var registrations := map name | name in tools :: registered[name];
    TotalIsWeak(req.order);
    SortMembers(req.order, tools);
    surface := Surface(Sort(req.order, tools), contracts, registrations);
  }

  method ResolveToolSurface(req: Request, p: Policy) returns (r: Result<Surface, SurfaceError>)
    requires StrictTotal(req.order)
    ensures r.Ok? <==> Admissible(req, p)
    ensures r.Ok? ==> IsSurface(req, p, r.value)
    ensures r.Err? ==> Justified(req, p, r.error)
  {
    hide Allows, ToolFits, Available, Justified, Distinct, Sorted, StrictTotal, IsSurface;
    var native := AllowedNative(req, p);
    var collected := CollectContracts(req, p, native);
    if collected.Err? { return Err(collected.error); }
    var (allowed, contracts) := collected.value;
    var registered := CollectRegistrations(req, p, allowed, contracts);
    if registered.Err? { return Err(registered.error); }
    var chosen := ChooseTools(req, p, allowed);
    if chosen.Err? { return Err(chosen.error); }
    assert forall name | name in chosen.value :: name in allowed;
    var surface := Assemble(req, p, chosen.value, contracts, registered.value);
    return Ok(surface);
  }

  // ----- monotonicity

  /** `q` grants at least what `p` grants. */
  predicate AtLeast(q: Policy, p: Policy) {
    && Rank(p.workspace) <= Rank(q.workspace)
    && (forall name | name in p.tools :: name in q.tools)
    && (p.mcp != [] ==> q.mcp != [])
    && (p.subagents.Inherit? ==> q.subagents.Inherit?)
    && (forall o | o in Origins(p) :: o in Origins(q))
  }

  lemma AllowsMore(req: Request, p: Policy, q: Policy, name: string)
    requires AtLeast(q, p) && Allows(req, p, name)
    ensures Allows(req, q, name)
  {
  }

  /** A contract that fits the narrower policy fits the wider one. */
  lemma FitsMore(req: Request, p: Policy, q: Policy, c: Contract)
    requires AtLeast(q, p) && Fits(req, p, c)
    ensures Fits(req, q, c)
  {
  }

  /** When both policies resolve on the same registry, the wider one has all the tools of
      the narrower one, under the same registrations and contracts. */
  lemma Monotone(req: Request, p: Policy, q: Policy, s: Surface, t: Surface)
    requires AtLeast(q, p) && IsSurface(req, p, s) && IsSurface(req, q, t)
    ensures forall name | name in s.tools :: name in t.tools
    ensures forall name | name in s.registrations ::
      name in t.registrations && t.registrations[name] == s.registrations[name]
    ensures forall name | name in s.contracts :: name in t.contracts && t.contracts[name] == s.contracts[name]
  {
    forall name | name in s.tools ensures name in t.tools {
      assert Wanted(req, p, name);
      if req.declared.None? {
        AllowsMore(req, p, q, name);
      }
    }
    hide Wanted, AtLeast;
    assert forall name | name in s.contracts :: name in p.tools;
    assert forall name | name in p.tools :: name in q.tools by { ToolsMore(p, q); }
  }

  lemma ToolsMore(p: Policy, q: Policy)
    requires AtLeast(q, p)
    ensures forall name | name in p.tools :: name in q.tools
  {
  }

  /** Widening a policy that resolves can make it fail, exactly when a name it adds has no
      tool to answer to it. */
  lemma WideningFails(req: Request, p: Policy, q: Policy)
    requires AtLeast(q, p) && Admissible(req, p)
    ensures Admissible(req, q) <==>
      && (forall name | name in q.tools && name !in p.tools :: ToolFits(req, q, name))
      && (forall name :: Allows(req, q, name) && !Allows(req, p, name) ==> Available(req, q, name))
  {
    forall name | name in p.tools ensures ToolFits(req, q, name) {
      FitsMore(req, p, q, req.registry[name].remoteContract.value);
    }
    forall name | Allows(req, p, name) ensures Available(req, q, name) && Allows(req, q, name) {
      AllowsMore(req, p, q, name);
      assert Available(req, p, name);
      ToolsMore(p, q);
    }
    hide Allows, ToolFits, Available, AtLeast;
  }

  /** Where the native `read` is shadowed by a plugin, the empty policy resolves and the one
      that adds reading the workspace does not. */
  lemma ShadowedReadFails(originOf: string -> Option<string>, order: (string, string) -> bool)
    ensures
      var tools := map["read" := Tool("plugin:read", false, None), "grep" := Tool("builtin:grep", true, None),
                       "glob" := Tool("builtin:glob", true, None)];
      var req := Request(tools, None, false, false, originOf, order);
      var p := Policy(NoWorkspace, NoProcess, Deny, [], [], [], NoSubagents);
      var q := p.(workspace := Read);
      AtLeast(q, p) && Admissible(req, p) && !Admissible(req, q) && Justified(req, q, Shadowed("read"))
  {
    var tools := map["read" := Tool("plugin:read", false, None), "grep" := Tool("builtin:grep", true, None),
                     "glob" := Tool("builtin:glob", true, None)];
    var req := Request(tools, None, false, false, originOf, order);
    var p := Policy(NoWorkspace, NoProcess, Deny, [], [], [], NoSubagents);
    var q := p.(workspace := Read);
    assert "read" == NATIVE_READ[0];
    assert Allows(req, q, "read") && !Available(req, q, "read");
    assert forall name :: !Allows(req, p, name);
  }

  /** A declared list resolves to itself, sorted and without repetition, and lies inside the
      surface the policy has when nothing is declared. */
  lemma DeclaredExactly(req: Request, p: Policy, names: seq<string>, s: Surface, full: Surface)
    requires IsSurface(req.(declared := Some(names)), p, s) && Admissible(req.(declared := Some(names)), p)
    requires IsSurface(req.(declared := None), p, full)
    ensures forall name :: name in s.tools <==> name in names
    ensures forall name | name in names ::
      name in full.tools && s.registrations[name] == full.registrations[name]
  {
    var d := req.(declared := Some(names));
    hide Allows, Available, ToolFits;
    forall name | name in names ensures name in full.tools {
      assert Allows(d, p, name);
      SameAllows(req, Some(names), None, p, name);
    }
  }

  lemma SameAllows(req: Request, a: Option<seq<string>>, b: Option<seq<string>>, p: Policy, name: string)
    ensures Allows(req.(declared := a), p, name) == Allows(req.(declared := b), p, name)
  {
  }
}
