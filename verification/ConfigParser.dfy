/** The parser of the A2A integration document (src/a2a/config.ts, lines 106-445), from JSON
    values to configuration and back. A parser that throws returns `None` here. */
module ConfigParser {
  import opened Options
  import opened JsText
  import opened Sorting
  import PosixPath

  /** A JSON value; `Fraction` is any number that is not an integer. */
  datatype Value =
    | Null
    | Bool(b: bool)
    | Int(n: int)
    | Fraction
    | Str(s: string)
    | Arr(items: seq<Value>)
    | Obj(fields: map<string, Value>)

  // ----- the configuration

  /** A field checked through `String(...)` keeps whatever value passed, which may be an array. */
  datatype Agent = Agent(cardUrl: string, credentialEnv: Option<string>, effect: Value)

  datatype Workspace = Managed | Fixed(root: string)

  datatype Network = Deny | Allowlist(origins: seq<string>)

  type NameLists = map<string, seq<string>>

  datatype ToolPolicy = ToolPolicy(
    workspace: Value,
    process: Value,
    network: Network,
    tools: seq<string>,
    mcp: NameLists,
    skillScripts: NameLists,
    subagents: Value)

  datatype Kind = RuntimeDefault | LocalAgent(name: string)

  datatype Execution = Execution(kind: Kind, workspace: Workspace, toolPolicy: ToolPolicy, profileId: Option<string>)

  datatype Skill = Skill(id: string, name: string, description: string, tags: seq<string>)

  datatype Published = Published(
    name: string, description: string, version: string,
    skills: seq<Skill>, inputModes: seq<string>, outputModes: seq<string>)

  datatype Authentication = Authentication(tokenEnv: string, principalId: string)

  /** The nine limits, by key. */
  type Limits = map<string, int>

  datatype Server = Server(
    execution: Execution,
    published: Published,
    publicBaseUrl: Option<string>,
    authentication: Authentication,
    limits: Limits,
    dataDir: string)

  datatype Document = Document(agents: map<string, Agent>, server: Option<Server>)

  // ----- URLs

  datatype Url = Url(href: string, protocol: string, hostname: string, origin: string, credentials: bool)

  /** `new URL(text)`, none when it throws. */
  type UrlParser = string -> Option<Url>

  /** What the URL standard promises: printing and parsing again gives the same URL, an HTTP
      origin is a URL with that origin, and printed URLs have no space around them. */
  ghost predicate UrlLaws(url: UrlParser) {
    && (forall s :: url(s).Some? ==> url(url(s).value.href) == url(s) && Clean(url(s).value.href))
    && (forall s :: url(s).Some? && Http(url(s).value) && url(s).value.origin != "null" ==>
          var o := url(s).value.origin;
          Clean(o) && url(o).Some? && url(o).value.origin == o && Http(url(o).value))
  }

  predicate Http(u: Url) {
    u.protocol == "http:" || u.protocol == "https:"
  }

  // ----- basic readers

  /** A string that reading as text leaves alone. */
  predicate Clean(s: string) {
    s != "" && Trim(s) == s
  }

  function Get(fields: map<string, Value>, key: string): Option<Value> {
    if key in fields then Some(fields[key]) else None
  }

  function Record(v: Option<Value>): Option<map<string, Value>> {
    if v.Some? && v.value.Obj? then Some(v.value.fields) else None
  }

  predicate OnlyKeys(fields: map<string, Value>, allowed: set<string>) {
    fields.Keys <= allowed
  }

  /** `String(v)`, as far as an enumeration can tell. */
  function ToText(v: Value): string
    decreases v
  {
    match v
    case Null => "null"
    case Bool(b) => if b then "true" else "false"
    case Int(_) => "0"
    case Fraction => "0.5"
    case Str(s) => s
    case Arr(items) =>
      Join(seq(|items|, i requires 0 <= i < |items| => if items[i].Null? then "" else ToText(items[i])), ",")
    case Obj(_) => "[object Object]"
  }

  function OneOf(v: Option<Value>, allowed: set<string>): Option<Value> {
    if v.Some? && ToText(v.value) in allowed then v else None
  }

  function ReadText(v: Option<Value>): (r: Option<string>)
    ensures r.Some? ==> Clean(r.value)
  {
    if v.Some? && v.value.Str? && Trim(v.value.s) != "" then Some(Trim(v.value.s)) else None
  }

  function ReadTexts(items: seq<Value>): (r: Option<seq<string>>)
    ensures r.Some? ==> |r.value| == |items| && forall s | s in r.value :: Clean(s)
  {
    if items == [] then Some([])
    else
      var head, rest := ReadText(Some(items[0])), ReadTexts(items[1..]);
      if head.Some? && rest.Some? then Some([head.value] + rest.value) else None
  }

  function StringList(v: Option<Value>, allowEmpty: bool): Option<seq<string>> {
    if v.None? || !v.value.Arr? || (!allowEmpty && v.value.items == []) then None
    else
      var r := ReadTexts(v.value.items);
      if r.Some? && Distinct(r.value) then r else None
  }

  function ExactNames(v: Option<Value>, allowEmpty: bool): Option<seq<string>> {
    var r := StringList(v, allowEmpty);
    if r.Some? && forall s | s in r.value :: '*' !in s then r else None
  }

  predicate Letter(c: char) { 'A' <= c <= 'Z' || 'a' <= c <= 'z' }
  predicate Digit(c: char) { '0' <= c <= '9' }

  /** `NAME_PATTERN` */
  predicate IsName(s: string) {
    && 1 <= |s| <= 128 && (Letter(s[0]) || Digit(s[0]))
    && forall c | c in s :: Letter(c) || Digit(c) || c == '.' || c == '_' || c == '-'
  }

  /** `ENV_PATTERN` */
  predicate IsEnvironmentName(s: string) {
    && s != "" && (Letter(s[0]) || s[0] == '_')
    && forall c | c in s :: Letter(c) || Digit(c) || c == '_'
  }

  function EnvironmentName(v: Option<Value>): Option<string> {
    var r := ReadText(v);
    if r.Some? && IsEnvironmentName(r.value) then r else None
  }

  function HttpUrl(url: UrlParser, v: Option<Value>): Option<string> {
    var raw := ReadText(v);
    if raw.None? || url(raw.value).None? then None
    else
      var u := url(raw.value).value;
      var loopback := u.hostname in {"localhost", "127.0.0.1", "::1"};
      if u.credentials || (u.protocol != "https:" && !(u.protocol == "http:" && loopback)) then None
      else Some(u.href)
  }

  // ----- named lists and skill scripts

  predicate AllNamed(fields: map<string, Value>) {
    forall name | name in fields :: IsName(name) && ExactNames(Some(fields[name]), false).Some?
  }

  function NamedExactLists(v: Option<Value>): Option<NameLists> {
    var source := Record(v);
    if source.None? then None
    else if !AllNamed(source.value) then None
    else Some(map name | name in source.value :: ExactNames(Some(source.value[name]), false).value)
  }

  /** `path.includes('../')` */
  predicate HasParent(path: string) {
    path != "" && ("../" <= path || HasParent(path[1..]))
  }

  function ScriptPath(entry: string): Option<string> {
    if '\\' in entry || PosixPath.IsAbsolute(entry) then None
    else
      var normalized := PosixPath.Normalize(entry);
      if !("scripts/" <= normalized) || HasParent(normalized) then None else Some(normalized)
  }

  function ScriptPaths(entries: seq<string>): (r: Option<seq<string>>)
    ensures r.Some? ==> |r.value| == |entries|
    ensures r.Some? ==> forall i | 0 <= i < |entries| :: ScriptPath(entries[i]) == Some(r.value[i])
  {
    if entries == [] then Some([])
    else
      var head, rest := ScriptPath(entries[0]), ScriptPaths(entries[1..]);
      if head.Some? && rest.Some? then Some([head.value] + rest.value) else None
  }

  predicate AllScripts(lists: NameLists) {
    forall skill | skill in lists :: ScriptPaths(lists[skill]).Some?
  }

  function SkillScripts(v: Option<Value>): Option<NameLists> {
    var scripts := NamedExactLists(v);
    if scripts.None? || !AllScripts(scripts.value) then None
    else Some(map skill | skill in scripts.value :: ScriptPaths(scripts.value[skill]).value)
  }

  // ----- the loops that fill records in place

  /** The loop of `namedExactLists`; the order of the entries makes no difference. */
  method NamedExactListsLoop(v: Option<Value>) returns (r: Option<NameLists>)
    ensures r == NamedExactLists(v)
  {
    hide IsName, ExactNames;
    var source := Record(v);
    if source.None? { return None; }
    var result: NameLists := map[];
    var left := source.value.Keys;
    while left != {}
      invariant left <= source.value.Keys && result.Keys == source.value.Keys - left
      invariant forall name | name in result ::
        IsName(name) && ExactNames(Some(source.value[name]), false) == Some(result[name])
    {
      var name :| name in left;
      left := left - {name};
      if !IsName(name) { return None; }
      var items := ExactNames(Some(source.value[name]), false);
      if items.None? { return None; }
      result := result[name := items.value];
    }
    assert result == map name | name in source.value :: ExactNames(Some(source.value[name]), false).value;
    return Some(result);
  }

  /** The loop of `parseSkillScripts`, which overwrites each list by its normalised paths. */
  method SkillScriptsLoop(v: Option<Value>) returns (r: Option<NameLists>)
    ensures r == SkillScripts(v)
  {
    hide NamedExactLists, ScriptPaths;
    var parsed := NamedExactListsLoop(v);
    if parsed.None? { return None; }
    var scripts := parsed.value;
    var left := scripts.Keys;
    while left != {}
      invariant left <= scripts.Keys && scripts.Keys == parsed.value.Keys
      invariant forall skill | skill in left :: scripts[skill] == parsed.value[skill]
      invariant forall skill | skill in scripts && skill !in left ::
        ScriptPaths(parsed.value[skill]) == Some(scripts[skill])
    {
      var skill :| skill in left;
      left := left - {skill};
      var entries := ScriptPaths(scripts[skill]);
      if entries.None? { return None; }
      scripts := scripts[skill := entries.value];
    }
    assert AllScripts(parsed.value);
    assert SkillScripts(v).value == scripts;
    return Some(scripts);
  }

  // ----- tool policy

  function ReadNetwork(url: UrlParser, v: Option<Value>): Option<Network> {
    var source := Record(v);
    if source.None? then None
    else if Get(source.value, "mode") == Some(Str("deny")) then
      if OnlyKeys(source.value, {"mode"}) then Some(Deny) else None
    else if Get(source.value, "mode") != Some(Str("allowlist"))
         || !OnlyKeys(source.value, {"mode", "origins"}) then None
    else
      var given := StringList(Get(source.value, "origins"), false);
      if given.None? then None
      else
        var origins := Origins(url, given.value);
        if origins.None? || !Distinct(origins.value) then None else Some(Allowlist(origins.value))
  }

  function Origin(url: UrlParser, s: string): Option<string> {
    var u := url(s);
    if u.None? || !Http(u.value) || u.value.origin == "null" then None else Some(u.value.origin)
  }

  function Origins(url: UrlParser, given: seq<string>): (r: Option<seq<string>>)
    ensures r.Some? ==> |r.value| == |given|
    ensures r.Some? ==> forall i | 0 <= i < |given| :: Origin(url, given[i]) == Some(r.value[i])
  {
    if given == [] then Some([])
    else
      var head, rest := Origin(url, given[0]), Origins(url, given[1..]);
      if head.Some? && rest.Some? then Some([head.value] + rest.value) else None
  }

  function DefaultToolPolicy(workspace: Workspace): ToolPolicy {
    ToolPolicy(Str(if workspace.Managed? then "write" else "read"), Str("deny"), Deny, [], map[], map[], Str("deny"))
  }

  const POLICY_KEYS: set<string> := {"workspace", "process", "network", "tools", "mcp", "skillScripts", "subagents"}

  function ReadToolPolicy(url: UrlParser, v: Option<Value>, workspace: Workspace): Option<ToolPolicy> {
    if v.None? then Some(DefaultToolPolicy(workspace))
    else if !v.value.Obj? || v.value.fields.Keys != POLICY_KEYS then None
    else
      var source := v.value.fields;
      var access := OneOf(Get(source, "workspace"), {"none", "read", "write"});
      var process := OneOf(Get(source, "process"), {"deny", "isolated"});
      var subagents := OneOf(Get(source, "subagents"), {"deny", "inherit"});
      var scripts := SkillScripts(Get(source, "skillScripts"));
      var network := ReadNetwork(url, Get(source, "network"));
      var tools := ExactNames(Get(source, "tools"), true);
      var mcp := NamedExactLists(Get(source, "mcp"));
      if access.None? || process.None? || subagents.None? || scripts.None? then None
      else if process.value == Str("deny") && scripts.value != map[] then None
      else if process.value == Str("isolated") && scripts.value == map[] then None
      else if network.None? || tools.None? || mcp.None? then None
      else
        Some(ToolPolicy(access.value, process.value, network.value, tools.value, mcp.value, scripts.value,
                        subagents.value))
  }

  // ----- execution

  function ReadWorkspace(v: Option<Value>): Option<Workspace> {
    if v.None? then Some(Managed)
    else if !v.value.Obj? then None
    else
      var source := v.value.fields;
      if Get(source, "mode") == Some(Str("managed")) then
        if OnlyKeys(source, {"mode"}) then Some(Managed) else None
      else if Get(source, "mode") != Some(Str("fixed")) || !OnlyKeys(source, {"mode", "root"}) then None
      else
        var root := ReadText(Get(source, "root"));
        if root.None? || !PosixPath.IsAbsolute(root.value) then None else Some(Fixed(PosixPath.Resolve(root.value)))
  }

  /** An optional text: absent, or present and well formed. */
  function Optional(v: Option<Value>, r: Option<string>): Option<Option<string>> {
    if v.None? then Some(None) else if r.None? then None else Some(r)
  }

  function ReadAgentRef(v: Option<Value>): Option<string> {
    var source := Record(v);
    if source.None? || !OnlyKeys(source.value, {"source", "name"}) then None
    else if Get(source.value, "source") != Some(Str("markdown:user")) then None
    else
      var name := ReadText(Get(source.value, "name"));
      if name.Some? && IsName(name.value) then name else None
  }

  function ReadKind(source: map<string, Value>): Option<Kind> {
    if Get(source, "kind") == Some(Str("runtime-default")) then
      if OnlyKeys(source, {"kind", "workspace", "toolPolicy", "profileId"}) then Some(RuntimeDefault) else None
    else if Get(source, "kind") != Some(Str("local-agent"))
         || !OnlyKeys(source, {"kind", "agentRef", "workspace", "toolPolicy", "profileId"}) then None
    else
      var name := ReadAgentRef(Get(source, "agentRef"));
      if name.None? then None else Some(LocalAgent(name.value))
  }

  function ReadExecution(url: UrlParser, v: Option<Value>): Option<Execution> {
    var record := Record(v);
    if record.None? then None
    else
      var source := record.value;
      var workspace := ReadWorkspace(Get(source, "workspace"));
      if workspace.None? then None
      else
        var policy := ReadToolPolicy(url, Get(source, "toolPolicy"), workspace.value);
        var profile := Optional(Get(source, "profileId"), ReadText(Get(source, "profileId")));
        var kind := ReadKind(source);
        if policy.None? || profile.None? || kind.None? then None
        else Some(Execution(kind.value, workspace.value, policy.value, profile.value))
  }

  // ----- the rest of the server

  function ReadSkill(v: Value): Option<Skill> {
    if !v.Obj? || !OnlyKeys(v.fields, {"id", "name", "description", "tags"}) then None
    else
      var id, name := ReadText(Get(v.fields, "id")), ReadText(Get(v.fields, "name"));
      var description, tags := ReadText(Get(v.fields, "description")), StringList(Get(v.fields, "tags"), true);
      if id.None? || name.None? || description.None? || tags.None? then None
      else Some(Skill(id.value, name.value, description.value, tags.value))
  }

  function ReadSkills(items: seq<Value>): (r: Option<seq<Skill>>)
    ensures r.Some? ==> |r.value| == |items|
    ensures r.Some? ==> forall i | 0 <= i < |items| :: ReadSkill(items[i]) == Some(r.value[i])
  {
    if items == [] then Some([])
    else
      var head, rest := ReadSkill(items[0]), ReadSkills(items[1..]);
      if head.Some? && rest.Some? then Some([head.value] + rest.value) else None
  }

  predicate UniqueIds(skills: seq<Skill>) {
    forall i, j | 0 <= i < j < |skills| :: skills[i].id != skills[j].id
  }

  function ReadPublished(v: Option<Value>): Option<Published> {
    var record := Record(v);
    if record.None?
       || !OnlyKeys(record.value, {"name", "description", "version", "skills", "inputModes", "outputModes"}) then None
    else
      var source := record.value;
      var skills := Get(source, "skills");
      if skills.None? || !skills.value.Arr? then None
      else
        var read := ReadSkills(skills.value.items);
        var name, description := ReadText(Get(source, "name")), ReadText(Get(source, "description"));
        var version := ReadText(Get(source, "version"));
        var inputs := StringList(Get(source, "inputModes"), false);
        var outputs := StringList(Get(source, "outputModes"), false);
        if read.None? || !UniqueIds(read.value) then None
        else if name.None? || description.None? || version.None? || inputs.None? || outputs.None? then None
        else Some(Published(name.value, description.value, version.value, read.value, inputs.value, outputs.value))
  }

  function ReadAuthentication(v: Option<Value>): Option<Authentication> {
    var source := Record(v);
    if source.None? || !OnlyKeys(source.value, {"type", "tokenEnv", "principalId"}) then None
    else if Get(source.value, "type") != Some(Str("bearer-env")) then None
    else
      var token := EnvironmentName(Get(source.value, "tokenEnv"));
      var principal := ReadText(Get(source.value, "principalId"));
      if token.None? || principal.None? then None else Some(Authentication(token.value, principal.value))
  }

  const MAX_SAFE_INTEGER: int := 9_007_199_254_740_991

  const LIMIT_DEFAULTS: Limits := map[
    "maxRequestBytes" := 33_554_432,
    "maxPartBytes" := 16_777_216,
    "maxConcurrentTasks" := 4,
    "maxTaskWaitMs" := 30_000,
    "maxActiveTasksPerPrincipal" := 4,
    "maxRetainedTasksPerPrincipal" := 100,
    "maxEventsPerTask" := 1_000,
    "maxEventBytesPerTask" := 16_777_216,
    "maxWorkspaceBytesPerContext" := 1_073_741_824]

  predicate IsPositiveInteger(v: Value) {
    v.Int? && 0 < v.n <= MAX_SAFE_INTEGER
  }

  function Limit(source: map<string, Value>, key: string): int
    requires key in LIMIT_DEFAULTS
  {
    if key in source && source[key].Int? then source[key].n else LIMIT_DEFAULTS[key]
  }

  predicate FixedWrite(execution: Execution) {
    execution.workspace.Fixed? && execution.toolPolicy.workspace == Str("write")
  }

  function ReadLimits(v: Option<Value>, execution: Execution): Option<Limits> {
    if v.Some? && !v.value.Obj? then None
    else
      var source := if v.None? then map[] else v.value.fields;
      if !OnlyKeys(source, LIMIT_DEFAULTS.Keys)
         || exists key | key in source :: !IsPositiveInteger(source[key]) then None
      else
        var limits := map key | key in LIMIT_DEFAULTS :: Limit(source, key);
        if limits["maxPartBytes"] > limits["maxRequestBytes"] then None
        else if FixedWrite(execution) && "maxConcurrentTasks" !in source then Some(limits["maxConcurrentTasks" := 1])
        else if FixedWrite(execution) && limits["maxConcurrentTasks"] != 1 then None
        else Some(limits)
  }

  function ReadServer(url: UrlParser, v: Value): Option<Server> {
    if !v.Obj?
       || !OnlyKeys(v.fields, {"execution", "published", "publicBaseUrl", "authentication", "limits", "dataDir"})
    then None
    else
      var execution := ReadExecution(url, Get(v.fields, "execution"));
      if execution.None? then None
      else
        var base := Optional(Get(v.fields, "publicBaseUrl"), HttpUrl(url, Get(v.fields, "publicBaseUrl")));
        var published := ReadPublished(Get(v.fields, "published"));
        var authentication := ReadAuthentication(Get(v.fields, "authentication"));
        var limits := ReadLimits(Get(v.fields, "limits"), execution.value);
        var dataDir := ReadText(Get(v.fields, "dataDir"));
        if base.None? || published.None? || authentication.None? || limits.None? || dataDir.None? then None
        else
          Some(Server(execution.value, published.value, base.value, authentication.value, limits.value, dataDir.value))
  }

  // ----- the document

  function ReadAgent(url: UrlParser, v: Value): Option<Agent> {
    if !v.Obj? || !OnlyKeys(v.fields, {"cardUrl", "credentialEnv", "effect"}) then None
    else
      var card := HttpUrl(url, Get(v.fields, "cardUrl"));
      var effect := OneOf(Get(v.fields, "effect"), {"none", "read", "write", "unknown"});
      var credential := Optional(Get(v.fields, "credentialEnv"), EnvironmentName(Get(v.fields, "credentialEnv")));
      if card.None? || effect.None? || credential.None? then None
      else Some(Agent(card.value, credential.value, effect.value))
  }

  predicate AllAgents(url: UrlParser, fields: map<string, Value>) {
    forall name | name in fields :: IsName(name) && ReadAgent(url, fields[name]).Some?
  }

  function ReadAgents(url: UrlParser, v: Option<Value>): Option<map<string, Agent>> {
    var source := Record(v);
    if source.None? then None
    else if !AllAgents(url, source.value) then None
    else Some(map name | name in source.value :: ReadAgent(url, source.value[name]).value)
  }

  function Parse(url: UrlParser, v: Value): Option<Document> {
    if !v.Obj? || !OnlyKeys(v.fields, {"version", "agents", "server"})
       || Get(v.fields, "version") != Some(Int(1)) then None
    else
      var agents := ReadAgents(url, Get(v.fields, "agents"));
      if agents.None? then None
      else if "server" !in v.fields then Some(Document(agents.value, None))
      else
        var server := ReadServer(url, v.fields["server"]);
        if server.None? then None else Some(Document(agents.value, server))
  }

  /** The agents loop of `parseA2AIntegrationDocument`. */
  method AgentsLoop(url: UrlParser, v: Option<Value>) returns (r: Option<map<string, Agent>>)
    ensures r == ReadAgents(url, v)
  {
    hide IsName, ReadAgent;
    var source := Record(v);
    if source.None? { return None; }
    var agents: map<string, Agent> := map[];
    var left := source.value.Keys;
    while left != {}
      invariant left <= source.value.Keys && agents.Keys == source.value.Keys - left
      invariant forall name | name in agents :: IsName(name) && ReadAgent(url, source.value[name]) == Some(agents[name])
    {
      var name :| name in left;
      left := left - {name};
      if !IsName(name) { return None; }
      var agent := ReadAgent(url, source.value[name]);
      if agent.None? { return None; }
      agents := agents[name := agent.value];
    }
    assert agents == map name | name in source.value :: ReadAgent(url, source.value[name]).value;
    return Some(agents);
  }
}
