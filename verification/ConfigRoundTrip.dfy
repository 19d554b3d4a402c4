/** Every canonical A2A configuration, written as JSON, parses to itself: the parser loses
    and mixes up nothing. */
module ConfigRoundTrip {
  import opened Options
  import opened JsText
  import opened Sorting
  import opened ConfigParser
  import opened ConfigFixedPoint
  import PosixPath

  // ----- canonical configurations

  /** An acceptable URL in the spelling the parser prints. */
  predicate UrlOk(url: UrlParser, s: string) {
    HttpUrl(url, Some(Str(s))) == Some(s)
  }

  predicate AgentOk(url: UrlParser, a: Agent) {
    && UrlOk(url, a.cardUrl)
    && ToText(a.effect) in {"none", "read", "write", "unknown"}
    && (a.credentialEnv.Some? ==> Clean(a.credentialEnv.value) && IsEnvironmentName(a.credentialEnv.value))
  }

  predicate NamesOk(names: seq<string>) {
    ListOk(names) && forall s | s in names :: '*' !in s
  }

  predicate ListsOk(m: NameLists) {
    forall name | name in m :: IsName(name) && m[name] != [] && NamesOk(m[name])
  }

  predicate PathsOk(paths: seq<string>) {
    forall i | 0 <= i < |paths| :: ScriptPath(paths[i]) == Some(paths[i])
  }

  predicate ScriptsOk(m: NameLists) {
    ListsOk(m) && forall skill | skill in m :: PathsOk(m[skill])
  }

  predicate NetworkOk(url: UrlParser, n: Network) {
    n.Allowlist? ==>
      && n.origins != [] && ListOk(n.origins)
      && forall i | 0 <= i < |n.origins| :: Origin(url, n.origins[i]) == Some(n.origins[i])
  }

  predicate PolicyOk(url: UrlParser, p: ToolPolicy) {
    && ToText(p.workspace) in {"none", "read", "write"}
    && ToText(p.process) in {"deny", "isolated"}
    && ToText(p.subagents) in {"deny", "inherit"}
    && (p.process == Str("deny") ==> p.skillScripts == map[])
    && (p.process == Str("isolated") ==> p.skillScripts != map[])
    && NetworkOk(url, p.network) && NamesOk(p.tools) && ListsOk(p.mcp) && ScriptsOk(p.skillScripts)
  }

  predicate WorkspaceOk(w: Workspace) {
    w.Fixed? ==> Clean(w.root) && PosixPath.IsAbsolute(w.root) && PosixPath.Resolve(w.root) == w.root
  }

  predicate ExecutionOk(url: UrlParser, e: Execution) {
    && WorkspaceOk(e.workspace) && PolicyOk(url, e.toolPolicy)
    && (e.kind.LocalAgent? ==> Clean(e.kind.name) && IsName(e.kind.name))
    && (e.profileId.Some? ==> Clean(e.profileId.value))
  }

  predicate ProfileOk(p: Published) {
    && Clean(p.name) && Clean(p.description) && Clean(p.version) && UniqueIds(p.skills)
    && ListOk(p.inputModes) && p.inputModes != [] && ListOk(p.outputModes) && p.outputModes != []
    && forall i | 0 <= i < |p.skills| :: SkillOk(p.skills[i])
  }

  predicate AuthenticationOk(a: Authentication) {
    Clean(a.tokenEnv) && IsEnvironmentName(a.tokenEnv) && Clean(a.principalId)
  }

  predicate CanonicalServer(url: UrlParser, s: Server) {
    && ExecutionOk(url, s.execution) && ProfileOk(s.published) && AuthenticationOk(s.authentication)
    && LimitsOk(s.limits, s.execution) && Clean(s.dataDir)
    && (s.publicBaseUrl.Some? ==> UrlOk(url, s.publicBaseUrl.value))
  }

  predicate Canonical(url: UrlParser, d: Document) {
    && (forall name | name in d.agents :: IsName(name) && AgentOk(url, d.agents[name]))
    && (d.server.Some? ==> CanonicalServer(url, d.server.value))
  }

  // ----- part by part

  lemma AgentForm(url: UrlParser, a: Agent)
    requires AgentOk(url, a)
    ensures ReadAgent(url, AgentValue(a)) == Some(a)
  {
    hide HttpUrl, ToText, IsEnvironmentName, Clean;
    if a.credentialEnv.Some? {
      TextBack(a.credentialEnv.value);
    }
    hide ReadText;
    var fields := AgentValue(a).fields;
    assert Get(fields, "cardUrl") == Some(Str(a.cardUrl)) && Get(fields, "effect") == Some(a.effect);
    assert Get(fields, "credentialEnv") == if a.credentialEnv.Some? then Some(Str(a.credentialEnv.value)) else None;
  }

  lemma NamesForm(names: seq<string>, allowEmpty: bool)
    requires NamesOk(names) && (allowEmpty || names != [])
    ensures ExactNames(Some(TextsValue(names)), allowEmpty) == Some(names)
  {
    ListBack(names, allowEmpty);
    hide StringList, ListOk, TextsValue;
  }

  lemma ListsForm(m: NameLists)
    requires ListsOk(m)
    ensures NamedExactLists(Some(ListsValue(m))) == Some(m)
  {
    hide ExactNames, TextsValue, IsName, NamesOk;
    var w := ListsValue(m).fields;
    forall name | name in m ensures IsName(name) && ExactNames(Some(w[name]), false) == Some(m[name]) {
      NamesForm(m[name], false);
      assert w[name] == TextsValue(m[name]);
    }
    assert AllNamed(w);
    assert NamedExactLists(Some(ListsValue(m))).value == m;
  }

  lemma {:induction false} PathsForm(paths: seq<string>)
    requires PathsOk(paths)
    ensures ScriptPaths(paths) == Some(paths)
  {
    hide ScriptPath;
    if paths != [] {
      PathsForm(paths[1..]);
      assert paths == [paths[0]] + paths[1..];
    }
  }

  lemma ScriptsForm(m: NameLists)
    requires ScriptsOk(m)
    ensures SkillScripts(Some(ListsValue(m))) == Some(m)
  {
    hide NamedExactLists, ScriptPaths, PathsOk, ListsValue;
    ListsForm(m);
    forall skill | skill in m ensures ScriptPaths(m[skill]) == Some(m[skill]) {
      PathsForm(m[skill]);
    }
    assert AllScripts(m);
    assert SkillScripts(Some(ListsValue(m))).value == m;
  }

  lemma NetworkForm(url: UrlParser, n: Network)
    requires NetworkOk(url, n)
    ensures ReadNetwork(url, Some(NetworkValue(n))) == Some(n)
  {
    hide StringList, Origins, Origin, TextsValue, Distinct, Clean;
    if n.Allowlist? {
      ListBack(n.origins, false);
      OriginsFixed(url, n.origins);
    }
  }

  lemma PolicyFields(p: ToolPolicy)
    ensures PolicyValue(p).Obj?
    ensures var fields := PolicyValue(p).fields;
      && fields.Keys == POLICY_KEYS
      && Get(fields, "workspace") == Some(p.workspace) && Get(fields, "process") == Some(p.process)
      && Get(fields, "subagents") == Some(p.subagents) && Get(fields, "network") == Some(NetworkValue(p.network))
      && Get(fields, "tools") == Some(TextsValue(p.tools)) && Get(fields, "mcp") == Some(ListsValue(p.mcp))
      && Get(fields, "skillScripts") == Some(ListsValue(p.skillScripts))
  {
    hide NetworkValue, TextsValue, ListsValue;
  }

  lemma PolicyAt(url: UrlParser, p: ToolPolicy, w: Workspace, fields: map<string, Value>)
    requires fields.Keys == POLICY_KEYS
    requires OneOf(Get(fields, "workspace"), {"none", "read", "write"}) == Some(p.workspace)
    requires OneOf(Get(fields, "process"), {"deny", "isolated"}) == Some(p.process)
    requires OneOf(Get(fields, "subagents"), {"deny", "inherit"}) == Some(p.subagents)
    requires ReadNetwork(url, Get(fields, "network")) == Some(p.network)
    requires ExactNames(Get(fields, "tools"), true) == Some(p.tools)
    requires NamedExactLists(Get(fields, "mcp")) == Some(p.mcp)
    requires SkillScripts(Get(fields, "skillScripts")) == Some(p.skillScripts)
    requires p.process == Str("deny") ==> p.skillScripts == map[]
    requires p.process == Str("isolated") ==> p.skillScripts != map[]
    ensures ReadToolPolicy(url, Some(Obj(fields)), w) == Some(p)
  {
    hide OneOf, Get, ReadNetwork, ExactNames, NamedExactLists, SkillScripts;
  }

  lemma PolicyForm(url: UrlParser, p: ToolPolicy, w: Workspace)
    requires PolicyOk(url, p)
    ensures ReadToolPolicy(url, Some(PolicyValue(p)), w) == Some(p)
  {
    hide ReadToolPolicy, ReadNetwork, ExactNames, NamedExactLists, SkillScripts, ToText, NetworkValue, TextsValue,
      ListsValue, PolicyValue, NetworkOk, NamesOk, ListsOk, ScriptsOk, Get;
    PolicyFields(p);
    NetworkForm(url, p.network);
    NamesForm(p.tools, true);
    ListsForm(p.mcp);
    ScriptsForm(p.skillScripts);
    PolicyAt(url, p, w, PolicyValue(p).fields);
  }

  lemma WorkspaceForm(w: Workspace)
    requires WorkspaceOk(w)
    ensures ReadWorkspace(Some(WorkspaceValue(w))) == Some(w)
  {
    if w.Fixed? {
      TextBack(w.root);
    }
    hide ReadText, PosixPath.Resolve, Clean;
  }

  lemma KindForm(k: Kind, rest: map<string, Value>)
    requires k.LocalAgent? ==> Clean(k.name) && IsName(k.name)
    requires rest.Keys <= {"workspace", "toolPolicy", "profileId"}
    ensures ReadKind(KindFields(k) + rest) == Some(k)
  {
    Merged(KindFields(k), rest);
    var fields := KindFields(k) + rest;
    assert Get(fields, "kind") == Get(KindFields(k), "kind");
    if k.LocalAgent? {
      TextBack(k.name);
      hide ReadText, IsName, Clean;
      assert Get(fields, "agentRef") == Get(KindFields(k), "agentRef");
      assert ReadAgentRef(Get(fields, "agentRef")) == Some(k.name);
      hide ReadAgentRef;
      assert KindFields(k).Keys == {"kind", "agentRef"};
    } else {
      assert KindFields(k).Keys == {"kind"};
    }
  }

  lemma ExecutionRead(url: UrlParser, e: Execution)
    requires ExecutionOk(url, e)
    ensures ReadExecution(url, Some(ExecutionValue(e))) == Some(e)
  {
    ExecutionFields(e);
    WorkspaceForm(e.workspace);
    PolicyForm(url, e.toolPolicy, e.workspace);
    KindForm(e.kind, ExecutionRest(e));
    if e.profileId.Some? {
      TextBack(e.profileId.value);
    }
    assert ExecutionValue(e).Obj?;
    hide ReadExecution, ReadWorkspace, ReadToolPolicy, ReadKind, ReadText, WorkspaceValue, PolicyValue,
      ExecutionValue, KindFields, ExecutionRest, Get, Clean, WorkspaceOk, PolicyOk;
    ExecutionForm(url, e, ExecutionValue(e).fields);
  }

  lemma PublishedRead(p: Published)
    requires ProfileOk(p)
    ensures ReadPublished(Some(PublishedValue(p))) == Some(p)
  {
    hide Clean, ListOk, ReadPublished, PublishedValue, ReadSkills, SkillsValue, SkillOk, UniqueIds;
    forall i | 0 <= i < |p.skills| ensures ReadSkill(SkillValue(p.skills[i])) == Some(p.skills[i]) {
      SkillForm(p.skills[i]);
    }
    SkillsForm(p.skills);
    PublishedForm(p);
  }

  lemma AuthenticationForm(a: Authentication)
    requires AuthenticationOk(a)
    ensures ReadAuthentication(Some(AuthenticationValue(a))) == Some(a)
  {
    TextBack(a.tokenEnv);
    TextBack(a.principalId);
    hide ReadText, Clean, IsEnvironmentName;
  }

  lemma ServerRead(url: UrlParser, s: Server)
    requires CanonicalServer(url, s)
    ensures ReadServer(url, ServerValue(s)) == Some(s)
  {
    hide ReadServer, ReadExecution, ReadPublished, ReadAuthentication, ReadLimits, HttpUrl, ReadText, Get, Clean,
      ServerValue, ExecutionValue, PublishedValue, AuthenticationValue, LimitsValue,
      ExecutionOk, ProfileOk, AuthenticationOk, LimitsOk;
    ExecutionRead(url, s.execution);
    PublishedRead(s.published);
    AuthenticationForm(s.authentication);
    LimitsForm(s.limits, s.execution);
    TextBack(s.dataDir);
    ServerFields(s);
    assert ServerValue(s).Obj? by { IsRecord(s); }
    ServerForm(url, s, ServerValue(s).fields);
  }

  lemma AgentsRead(url: UrlParser, agents: map<string, Agent>)
    requires forall name | name in agents :: IsName(name) && AgentOk(url, agents[name])
    ensures ReadAgents(url, Some(Obj(map name | name in agents :: AgentValue(agents[name])))) == Some(agents)
  {
    hide ReadAgent, AgentValue, IsName, AgentOk;
    var w := map name | name in agents :: AgentValue(agents[name]);
    forall name | name in agents ensures ReadAgent(url, w[name]) == Some(agents[name]) {
      AgentForm(url, agents[name]);
    }
    assert AllAgents(url, w);
    assert ReadAgents(url, Some(Obj(w))).value == agents;
  }

  /** A canonical configuration written as JSON parses to itself. */
  lemma RoundTrip(url: UrlParser, d: Document)
    requires Canonical(url, d)
    ensures Parse(url, DocumentValue(d)) == Some(d)
  {
    hide ReadAgents, ReadServer, ServerValue, AgentValue, CanonicalServer, AgentOk, IsName;
    AgentsRead(url, d.agents);
    if d.server.Some? {
      ServerRead(url, d.server.value);
    }
    var fields := DocumentValue(d).fields;
    assert Get(fields, "agents") == Some(Obj(map name | name in d.agents :: AgentValue(d.agents[name])));
    assert d.server.Some? ==> fields["server"] == ServerValue(d.server.value);
  }

  // ----- and only canonical ones do

  lemma AgentOnly(url: UrlParser, a: Agent)
    requires ReadAgent(url, AgentValue(a)) == Some(a)
    ensures AgentOk(url, a)
  {
    hide HttpUrl, ToText, IsEnvironmentName, Clean;
    var fields := AgentValue(a).fields;
    assert Get(fields, "cardUrl") == Some(Str(a.cardUrl)) && Get(fields, "effect") == Some(a.effect);
    assert Get(fields, "credentialEnv") == if a.credentialEnv.Some? then Some(Str(a.credentialEnv.value)) else None;
    hide Get, AgentValue, ReadText;
  }

  lemma NamesOnly(names: seq<string>, allowEmpty: bool)
    requires ExactNames(Some(TextsValue(names)), allowEmpty) == Some(names)
    ensures NamesOk(names) && (allowEmpty || names != [])
  {
    ListIsOk(Some(TextsValue(names)), allowEmpty);
    hide StringList, ListOk, TextsValue;
  }

  lemma ListsOnly(m: NameLists)
    requires NamedExactLists(Some(ListsValue(m))) == Some(m)
    ensures ListsOk(m)
  {
    hide ExactNames, TextsValue, IsName, NamesOk;
    var w := ListsValue(m).fields;
    forall name | name in m ensures IsName(name) && m[name] != [] && NamesOk(m[name]) {
      assert name in w && w[name] == TextsValue(m[name]);
      assert ExactNames(Some(w[name]), false) == Some(m[name]);
      NamesOnly(m[name], false);
    }
  }

  lemma ScriptsOnly(m: NameLists)
    requires SkillScripts(Some(ListsValue(m))) == Some(m)
    ensures ScriptsOk(m)
  {
    hide ExactNames, TextsValue, ScriptPaths, IsName, ListsOk;
    var w := ListsValue(m).fields;
    var lists := NamedExactLists(Some(ListsValue(m))).value;
    forall skill | skill in m ensures lists[skill] == m[skill] && PathsOk(m[skill]) {
      assert skill in w && w[skill] == TextsValue(m[skill]) && skill in lists;
      assert ExactNames(Some(w[skill]), false) == Some(lists[skill]);
      assert ScriptPaths(lists[skill]) == Some(m[skill]);
      BackIsStable(m[skill]);
      SameBack(m[skill]);
      PathsOnly(m[skill]);
    }
    assert lists == m;
    ListsOnly(m);
  }

  lemma SameBack(paths: seq<string>)
    requires PathsStable(paths) && ExactNames(Some(TextsValue(paths)), false).Some?
    ensures ExactNames(Some(TextsValue(paths)), false) == Some(paths)
  {
    var again := ExactNames(Some(TextsValue(paths)), false).value;
    forall i | 0 <= i < |paths| ensures again[i] == paths[i] {
      ReadAt(TextsValue(paths).items, i);
      assert paths[i] in paths;
    }
    assert again == paths;
  }

  lemma PathsOnly(paths: seq<string>)
    requires ScriptPaths(paths) == Some(paths)
    ensures PathsOk(paths)
  {
    hide ScriptPath;
  }

  lemma NetworkOnly(url: UrlParser, n: Network)
    requires UrlLaws(url) && ReadNetwork(url, Some(NetworkValue(n))) == Some(n)
    ensures NetworkOk(url, n)
  {
    if n.Allowlist? {
      var v := NetworkValue(n);
      assert Get(v.fields, "origins") == Some(TextsValue(n.origins));
      var given := StringList(Some(TextsValue(n.origins)), false).value;
      assert Origins(url, given) == Some(n.origins) by { hide StringList, Origins, TextsValue; }
      OriginsBack(url, given);
      hide UrlLaws, ReadNetwork, NetworkValue, Origin;
      assert NetworkOk(url, n) by { CleanBack(n.origins); ListIsOk(Some(TextsValue(n.origins)), false); }
    }
  }

  lemma CleanBack(xs: seq<string>)
    requires StringList(Some(TextsValue(xs)), false).Some? && forall s | s in xs :: Clean(s)
    ensures StringList(Some(TextsValue(xs)), false) == Some(xs)
  {
    TextsBack(xs);
    hide ReadTexts, Clean;
  }

  lemma PolicyOnly(url: UrlParser, p: ToolPolicy, w: Workspace)
    requires UrlLaws(url) && ReadToolPolicy(url, Some(PolicyValue(p)), w) == Some(p)
    ensures PolicyOk(url, p)
  {
    hide ReadNetwork, ExactNames, NamedExactLists, SkillScripts, ToText, NetworkValue, TextsValue, ListsValue,
      PolicyValue, NetworkOk, NamesOk, ListsOk, ScriptsOk, UrlLaws, Get;
    PolicyFields(p);
    NetworkOnly(url, p.network);
    NamesOnly(p.tools, true);
    ListsOnly(p.mcp);
    ScriptsOnly(p.skillScripts);
  }

  lemma WorkspaceOnly(w: Workspace)
    requires ReadWorkspace(Some(WorkspaceValue(w))) == Some(w)
    ensures WorkspaceOk(w)
  {
    if w.Fixed? {
      var given := Trim(w.root);
      assert ReadText(Some(Str(w.root))) == Some(given);
      TrimShorter(w.root);
      hide Trim;
      PosixPath.ResolveTwice(given);
      hide PosixPath.Resolve;
    }
  }

  lemma KindOnly(k: Kind, rest: map<string, Value>)
    requires ReadKind(KindFields(k) + rest) == Some(k) && rest.Keys <= {"workspace", "toolPolicy", "profileId"}
    ensures k.LocalAgent? ==> Clean(k.name) && IsName(k.name)
  {
    Merged(KindFields(k), rest);
    hide IsName, Clean;
    if k.LocalAgent? {
      assert Get(KindFields(k) + rest, "kind") == Get(KindFields(k), "kind") == Some(Str("local-agent"));
      assert Get(KindFields(k) + rest, "agentRef") == Get(KindFields(k), "agentRef");
      hide ReadText;
    }
  }

  lemma ExecutionOnly(url: UrlParser, e: Execution)
    requires UrlLaws(url) && ReadExecution(url, Some(ExecutionValue(e))) == Some(e)
    ensures ExecutionOk(url, e)
  {
    hide UrlLaws, ReadExecution, ReadWorkspace, ReadToolPolicy, ReadKind, WorkspaceValue, PolicyValue,
      ExecutionValue, KindFields, ExecutionRest, Get, WorkspaceOk, PolicyOk, Clean;
    ExecutionParts(url, Some(ExecutionValue(e)));
    ExecutionFields(e);
    WorkspaceOnly(e.workspace);
    PolicyOnly(url, e.toolPolicy, e.workspace);
    KindOnly(e.kind, ExecutionRest(e));
  }

  lemma {:induction false} SkillsOnly(items: seq<Value>)
    requires ReadSkills(items).Some?
    ensures forall i | 0 <= i < |items| :: SkillOk(ReadSkills(items).value[i])
  {
    hide SkillOk;
    forall i | 0 <= i < |items| ensures SkillOk(ReadSkills(items).value[i]) {
      SkillIsOk(items[i]);
    }
  }

  lemma PublishedOnly(p: Published)
    requires ReadPublished(Some(PublishedValue(p))) == Some(p)
    ensures ProfileOk(p)
  {
    PublishedIsOk(Some(PublishedValue(p)));
    hide ReadPublished, ReadSkills, SkillsValue, SkillOk, Clean, ListOk, UniqueIds;
    SkillsOnly(SkillsValue(p.skills).items);
  }

  lemma AuthenticationOnly(a: Authentication)
    requires ReadAuthentication(Some(AuthenticationValue(a))) == Some(a)
    ensures AuthenticationOk(a)
  {
    hide IsEnvironmentName, Clean;
  }

  lemma ServerOnly(url: UrlParser, s: Server)
    requires UrlLaws(url) && ReadServer(url, ServerValue(s)) == Some(s)
    ensures CanonicalServer(url, s)
  {
    hide UrlLaws, ReadServer, ReadExecution, ReadPublished, ReadAuthentication, ReadLimits, HttpUrl, Get, Clean,
      ServerValue, ExecutionValue, PublishedValue, AuthenticationValue, LimitsValue,
      ExecutionOk, ProfileOk, AuthenticationOk, LimitsOk;
    ServerParts(url, ServerValue(s));
    ServerFields(s);
    ExecutionOnly(url, s.execution);
    PublishedOnly(s.published);
    AuthenticationOnly(s.authentication);
    LimitsAreOk(Some(LimitsValue(s.limits)), s.execution);
  }

  lemma AgentsOnly(url: UrlParser, agents: map<string, Agent>)
    requires ReadAgents(url, Some(Obj(map name | name in agents :: AgentValue(agents[name])))) == Some(agents)
    ensures forall name | name in agents :: IsName(name) && AgentOk(url, agents[name])
  {
    hide ReadAgent, AgentValue, IsName, AgentOk;
    var w := map name | name in agents :: AgentValue(agents[name]);
    forall name | name in agents ensures IsName(name) && AgentOk(url, agents[name]) {
      assert name in w && ReadAgent(url, w[name]) == Some(agents[name]);
      AgentOnly(url, agents[name]);
    }
  }

  lemma DocumentParts(url: UrlParser, d: Document)
    requires Parse(url, DocumentValue(d)) == Some(d)
    ensures ReadAgents(url, Some(Obj(map name | name in d.agents :: AgentValue(d.agents[name])))) == Some(d.agents)
    ensures d.server.Some? ==> ReadServer(url, ServerValue(d.server.value)) == d.server
  {
    hide ReadAgents, ReadServer, ServerValue, AgentValue;
    var fields := DocumentValue(d).fields;
    assert Get(fields, "agents") == Some(Obj(map name | name in d.agents :: AgentValue(d.agents[name])));
    assert d.server.Some? ==> "server" in fields && fields["server"] == ServerValue(d.server.value);
  }

  /** A configuration written as JSON parses to itself exactly when it is canonical. */
  lemma ExactlyCanonical(url: UrlParser, d: Document)
    requires UrlLaws(url)
    ensures Parse(url, DocumentValue(d)) == Some(d) <==> Canonical(url, d)
  {
    hide Parse, DocumentValue, ReadAgents, ReadServer, ServerValue, AgentValue, CanonicalServer, AgentOk, IsName,
      UrlLaws;
    if Canonical(url, d) {
      RoundTrip(url, d);
    }
    if Parse(url, DocumentValue(d)) == Some(d) {
      DocumentParts(url, d);
      AgentsOnly(url, d.agents);
      if d.server.Some? {
        ServerOnly(url, d.server.value);
      }
    }
  }
}
