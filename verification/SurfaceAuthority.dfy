/** Which authority brings which tools, told by the tools of the surfaces alone
    (src/runtime-agent-binding.ts, lines 190-194 and 416-464). */
module SurfaceAuthority {
  import opened Options
  import opened ToolPolicy
  import opened ToolSurface

  const READING: set<string> := {"read", "grep", "glob"}
  const WRITING: set<string> := {"write", "edit", "multi_edit", "insert_after_anchor"}
  const MCP_TOOLS: set<string> := {"mcp_search", "mcp_describe", "mcp_call", "mcp_read_resource", "mcp_get_prompt"}
  const SUBAGENT_TOOLS: set<string> :=
    {"list_dispatchable_agents", "dispatch_child_task", "task_output", "task_stop", "send_message"}

  /** `t` has the tools of `s` and these, and no other. */
  ghost predicate Adds(s: Surface, t: Surface, names: set<string>) {
    forall name :: name in t.tools <==> name in s.tools || name in names
  }

  lemma NativeNames(name: string)
    ensures name in NATIVE_READ <==> name in READING
    ensures name in NATIVE_WRITE <==> name in WRITING
    ensures name in MCP <==> name in MCP_TOOLS
    ensures name in SUBAGENT <==> name in SUBAGENT_TOOLS
  {
  }

  /** A policy that grants nothing has its own tools and no others. */
  lemma NothingGranted(req: Request, p: Policy, s: Surface)
    requires req.declared == None && !req.hasSkills && !req.hasSkillScripts
    requires p.workspace == NoWorkspace && p.mcp == [] && p.subagents == NoSubagents
    requires IsSurface(req, p, s)
    ensures forall name :: name in s.tools <==> name in p.tools
  {
    hide NATIVE_READ, NATIVE_WRITE, MCP, SUBAGENT;
    forall name ensures name in s.tools <==> name in p.tools {
      assert name in s.tools <==> Wanted(req, p, name);
    }
  }

  /** Reading the workspace adds the reading tools. */
  lemma ReadingAdds(req: Request, p: Policy, without: Surface, with: Surface)
    requires req.declared == None
    requires IsSurface(req, p.(workspace := NoWorkspace), without) && IsSurface(req, p.(workspace := Read), with)
    ensures Adds(without, with, READING)
  {
    forall name ensures name in with.tools <==> name in without.tools || name in READING {
      NativeNames(name);
      hide NATIVE_READ, NATIVE_WRITE, MCP, SUBAGENT, READING, WRITING;
      assert name in without.tools <==> Wanted(req, p.(workspace := NoWorkspace), name);
      assert name in with.tools <==> Wanted(req, p.(workspace := Read), name);
    }
  }

  /** Writing it adds the writing tools to those. */
  lemma WritingAdds(req: Request, p: Policy, without: Surface, with: Surface)
    requires req.declared == None
    requires IsSurface(req, p.(workspace := Read), without) && IsSurface(req, p.(workspace := Write), with)
    ensures Adds(without, with, WRITING)
  {
    forall name ensures name in with.tools <==> name in without.tools || name in WRITING {
      NativeNames(name);
      hide NATIVE_READ, NATIVE_WRITE, MCP, SUBAGENT, READING, WRITING;
      assert name in without.tools <==> Wanted(req, p.(workspace := Read), name);
      assert name in with.tools <==> Wanted(req, p.(workspace := Write), name);
    }
  }

  /** Any MCP server adds the MCP tools. */
  lemma McpAdds(req: Request, p: Policy, mcp: NameMap, without: Surface, with: Surface)
    requires req.declared == None && mcp != []
    requires IsSurface(req, p.(mcp := []), without) && IsSurface(req, p.(mcp := mcp), with)
    ensures Adds(without, with, MCP_TOOLS)
  {
    forall name ensures name in with.tools <==> name in without.tools || name in MCP_TOOLS {
      NativeNames(name);
      hide NATIVE_READ, NATIVE_WRITE, MCP, SUBAGENT, MCP_TOOLS;
      assert name in without.tools <==> Wanted(req, p.(mcp := []), name);
      assert name in with.tools <==> Wanted(req, p.(mcp := mcp), name);
    }
  }

  lemma SubagentsAdd(req: Request, p: Policy, without: Surface, with: Surface)
    requires req.declared == None
    requires IsSurface(req, p.(subagents := NoSubagents), without) && IsSurface(req, p.(subagents := Inherit), with)
    ensures Adds(without, with, SUBAGENT_TOOLS)
  {
    forall name ensures name in with.tools <==> name in without.tools || name in SUBAGENT_TOOLS {
      NativeNames(name);
      hide NATIVE_READ, NATIVE_WRITE, MCP, SUBAGENT, SUBAGENT_TOOLS;
      assert name in without.tools <==> Wanted(req, p.(subagents := NoSubagents), name);
      assert name in with.tools <==> Wanted(req, p.(subagents := Inherit), name);
    }
  }

  /** Skills add the tool that reads them. */
  lemma SkillsAdd(req: Request, p: Policy, without: Surface, with: Surface)
    requires req.declared == None
    requires IsSurface(req.(hasSkills := false), p, without) && IsSurface(req.(hasSkills := true), p, with)
    ensures Adds(without, with, {"skill"})
  {
    forall name ensures name in with.tools <==> name in without.tools || name == "skill" {
      hide NATIVE_READ, NATIVE_WRITE, MCP, SUBAGENT;
      assert name in without.tools <==> Wanted(req.(hasSkills := false), p, name);
      assert name in with.tools <==> Wanted(req.(hasSkills := true), p, name);
    }
  }

  /** Skill scripts add the tool that runs them. */
  lemma ScriptsAdd(req: Request, p: Policy, without: Surface, with: Surface)
    requires req.declared == None
    requires IsSurface(req.(hasSkillScripts := false), p, without) && IsSurface(req.(hasSkillScripts := true), p, with)
    ensures Adds(without, with, {"run_skill_script"})
  {
    forall name ensures name in with.tools <==> name in without.tools || name == "run_skill_script" {
      hide NATIVE_READ, NATIVE_WRITE, MCP, SUBAGENT;
      assert name in without.tools <==> Wanted(req.(hasSkillScripts := false), p, name);
      assert name in with.tools <==> Wanted(req.(hasSkillScripts := true), p, name);
    }
  }

  /** A writing tool is in the surface only of a policy that may write or names it, whatever
      is declared; and so for every other tool and its authority. */
  lemma ToolsNeedAuthority(req: Request, p: Policy, s: Surface, name: string)
    requires IsSurface(req, p, s) && Admissible(req, p) && name in s.tools && name !in p.tools
    ensures name in WRITING ==> p.workspace == Write
    ensures name in READING ==> p.workspace == Read || p.workspace == Write
    ensures name in MCP_TOOLS ==> p.mcp != []
    ensures name in SUBAGENT_TOOLS ==> p.subagents == Inherit
    ensures name == "skill" ==> req.hasSkills
    ensures name == "run_skill_script" ==> req.hasSkillScripts
    ensures name in WRITING + READING + MCP_TOOLS + SUBAGENT_TOOLS + {"skill", "run_skill_script"}
  {
    NativeNames(name);
    Disjoint(name);
    hide NATIVE_READ, NATIVE_WRITE, MCP, SUBAGENT, READING, WRITING, MCP_TOOLS, SUBAGENT_TOOLS;
    assert Wanted(req, p, name);
    assert Allows(req, p, name);
  }

  lemma Disjoint(name: string)
    ensures name in WRITING ==> name !in READING + MCP_TOOLS + SUBAGENT_TOOLS + {"skill", "run_skill_script"}
    ensures name in READING ==> name !in MCP_TOOLS + SUBAGENT_TOOLS + {"skill", "run_skill_script"}
    ensures name in MCP_TOOLS ==> name !in SUBAGENT_TOOLS + {"skill", "run_skill_script"}
    ensures name in SUBAGENT_TOOLS ==> name !in {"skill", "run_skill_script"}
  {
  }

  // ----- contracts

  /** A remote tool is admitted exactly when it has a contract that asks for no more of the
      workspace than the policy grants and for network origins on its allowlist only. */
  lemma ContractWithin(req: Request, p: Policy, name: string)
    ensures ToolFits(req, p, name) <==>
      && name in req.registry && req.registry[name].remoteContract.Some?
      && var c := req.registry[name].remoteContract.value;
      && (c.workspaceEffect == Write ==> p.workspace == Write)
      && (c.workspaceEffect == Read ==> p.workspace == Read || p.workspace == Write)
      && (p.network == Deny ==> c.networkOrigins == [])
      && (p.network.Allow? ==> forall i | 0 <= i < |c.networkOrigins| ::
            exists origin :: req.originOf(c.networkOrigins[i]) == Some(origin) && origin in p.network.origins)
  {
    if name in req.registry && req.registry[name].remoteContract.Some? {
      var c := req.registry[name].remoteContract.value;
      if p.network == Deny && c.networkOrigins != [] {
        assert !OriginAllowed(req, p, c.networkOrigins[0]);
      }
      if p.network.Allow? {
        forall i | 0 <= i < |c.networkOrigins|
          ensures OriginAllowed(req, p, c.networkOrigins[i]) <==>
            exists origin :: req.originOf(c.networkOrigins[i]) == Some(origin) && origin in p.network.origins
        {
        }
      }
    }
  }
}
