/** Documents that do not read back as themselves. */
module UnstableDocuments {
  import opened Options
  import opened JsText
  import opened Sorting
  import opened ConfigParser
  import opened ConfigFixedPoint
  import PosixPath

  // ----- script paths

  lemma DotStart(path: string)
    ensures "../" <= path ==> '.' in path
  {
    assert "../"[0] == '.';
  }

  lemma {:induction false} NoDots(path: string)
    requires '.' !in path
    ensures !HasParent(path)
  {
    if path != "" {
      assert forall c | c in path[1..] :: c in path;
      NoDots(path[1..]);
      DotStart(path);
    }
  }

  /** A script path of three segments, the middle or last of which is a dot. */
  lemma DottedPath(first: string, second: string, third: string, path: string, normal: string)
    requires PosixPath.Plain(first) && '/' !in second && '/' !in third
    requires (second == "." && PosixPath.Plain(third)) || (third == "." && PosixPath.Plain(second))
    requires path == first + "/" + (second + "/" + third)
    requires normal == first + "/" + (if second == "." then third else second)
    ensures PosixPath.Segments(path) == [first, second, third]
    ensures PosixPath.Body(path, true) == normal
  {
    var segments := [first, second, third];
    assert segments[1..] == [second, third] && segments[1..][1..] == [third];
    assert Join([second, third], "/") == second + "/" + third by { assert [second, third][1..] == [third]; }
    assert Join(segments, "/") == path;
    PosixPath.SegmentsJoin(segments);
    var kept := if second == "." then third else second;
    assert [] + [first] == [first] && [first] + [kept] == [first, kept];
    assert PosixPath.Collapse([], segments, true) == PosixPath.Collapse([first], [second, third], true);
    assert PosixPath.Collapse([first], [second, third], true) == [first, kept] by {
      assert [second, third][1..] == [third] && [third][1..] == [];
      if second == "." {
        assert PosixPath.Collapse([first], [third], true) == PosixPath.Collapse([first, kept], [], true);
      } else {
        assert PosixPath.Collapse([first, kept], [third], true) == PosixPath.Collapse([first, kept], [], true);
      }
    }
    assert Join([first, kept], "/") == normal by { assert [first, kept][1..] == [kept]; }
  }

  lemma AcceptedAs(path: string, normal: string)
    requires path != "" && path[0] != '/' && path[|path| - 1] != '/' && '\\' !in path
    requires PosixPath.Body(path, true) == normal && "scripts/" <= normal && '.' !in normal
    ensures ScriptPath(path) == Some(normal)
  {
    hide PosixPath.Body;
    NoDots(normal);
    assert normal + "" == normal;
  }

  lemma ToolIsName()
    ensures IsName("tool")
  {
  }

  lemma OneSkill(entries: seq<string>, paths: seq<string>)
    requires Exact(entries) && ScriptPaths(entries) == Some(paths)
    ensures SkillScripts(Some(Obj(map["tool" := TextsValue(entries)]))) == Some(map["tool" := paths])
  {
    var v := Some(Obj(map["tool" := TextsValue(entries)]));
    ToolIsName();
    ListBack(entries, false);
    hide IsName;
    assert ExactNames(Some(TextsValue(entries)), false) == Some(entries);
    hide ExactNames, TextsValue, ScriptPaths, IsName;
    assert NamedExactLists(v).value == map["tool" := entries];
    hide NamedExactLists;
    assert AllScripts(map["tool" := entries]);
    assert SkillScripts(v).value == map["tool" := paths];
  }

  lemma CleanEnds(s: string)
    requires s != "" && !IsSpace(s[0]) && !IsSpace(s[|s| - 1])
    ensures Clean(s)
  {
  }

  lemma TwoPaths(a: string, b: string, n: string)
    requires ScriptPath(a) == ScriptPath(b) == Some(n)
    ensures ScriptPaths([a, b]) == Some([n, n]) && ScriptPaths([a]) == Some([n])
  {
    OnePath(a, n);
    OnePath(b, n);
    hide ScriptPath;
    assert [a, b][1..] == [b] && [n] + [n] == [n, n];
  }

  lemma OnePath(a: string, n: string)
    requires ScriptPath(a) == Some(n)
    ensures ScriptPaths([a]) == Some([n])
  {
    hide ScriptPath;
    assert [a][1..] == [] && [n] + [] == [n];
    assert ScriptPaths([]) == Some([]);
  }

  function ToolScripts(entries: seq<string>): Value {
    Obj(map["tool" := TextsValue(entries)])
  }

  /** Two spellings of one path pass the duplicate check and come out equal. */
  lemma TwoSpellings()
    ensures var m := map["tool" := ["scripts/a", "scripts/a"]];
      SkillScripts(Some(ToolScripts(["scripts/a", "scripts/./a"]))) == Some(m) && !ScriptsStable(m)
  {
    hide PosixPath.Body, PosixPath.Segments, ScriptPath, SkillScripts, TextsValue, Trim, Clean, ScriptPaths;
    var a, b := "scripts/a", "scripts/./a";
    DottedPath("scripts", ".", "a", b, a);
    AcceptedAs(b, a);
    PathBack(b);
    TwoPaths(a, b, a);
    CleanEnds(a);
    CleanEnds(b);
    OneSkill([a, b], [a, a]);
    var m := map["tool" := [a, a]];
    assert m["tool"][0] == m["tool"][1];
    assert !PathsStable(m["tool"]);
  }

  /** A directory whose name ends in a space keeps the space the first time. */
  lemma SpacedScript()
    ensures var m := map["tool" := ["scripts/a "]];
      SkillScripts(Some(ToolScripts(["scripts/a /."]))) == Some(m) && !ScriptsStable(m)
  {
    hide PosixPath.Body, PosixPath.Segments, ScriptPath, SkillScripts, TextsValue, Clean, ScriptPaths;
    var c, d := "scripts/a /.", "scripts/a ";
    DottedPath("scripts", "a ", ".", c, d);
    AcceptedAs(c, d);
    OnePath(c, d);
    CleanEnds(c);
    OneSkill([c], [d]);
    var m := map["tool" := [d]];
    assert d in m["tool"] && d[|d| - 1] == ' ';
    assert !PathsStable(m["tool"]);
  }

  // ----- executions

  /** A policy with these scripts and nothing else out of the ordinary. */
  function ScriptPolicy(scripts: Value): Value {
    Obj(map["workspace" := Str("read"), "process" := Str("isolated"), "network" := NetworkValue(Deny),
            "tools" := Arr([]), "mcp" := Obj(map[]), "skillScripts" := scripts, "subagents" := Str("deny")])
  }

  function ScriptExecution(scripts: Value): Value {
    Obj(map["kind" := Str("runtime-default"), "toolPolicy" := ScriptPolicy(scripts)])
  }

  function RootExecution(root: string): Value {
    Obj(map["kind" := Str("runtime-default"), "workspace" := WorkspaceValue(Fixed(root))])
  }

  lemma ScriptPolicyGets(scripts: Value)
    ensures var fields := ScriptPolicy(scripts).fields;
      && fields.Keys == POLICY_KEYS
      && Get(fields, "workspace") == Some(Str("read")) && Get(fields, "process") == Some(Str("isolated"))
      && Get(fields, "network") == Some(NetworkValue(Deny)) && Get(fields, "tools") == Some(Arr([]))
      && Get(fields, "mcp") == Some(Obj(map[])) && Get(fields, "skillScripts") == Some(scripts)
      && Get(fields, "subagents") == Some(Str("deny"))
  {
    hide NetworkValue;
  }

  lemma ScriptPolicyReads(url: UrlParser, scripts: Value, m: NameLists)
    requires SkillScripts(Some(scripts)) == Some(m) && m != map[]
    ensures ReadToolPolicy(url, Some(ScriptPolicy(scripts)), Managed)
         == Some(ToolPolicy(Str("read"), Str("isolated"), Deny, [], map[], m, Str("deny")))
  {
    hide SkillScripts;
    ScriptPolicyGets(scripts);
    assert ReadTexts([]) == Some([]);
    assert NamedExactLists(Some(Obj(map[]))).value == map[];
    hide Get, ReadTexts, NamedExactLists;
  }

  lemma ScriptExecutionGets(scripts: Value)
    ensures ScriptExecution(scripts).Obj?
    ensures var fields := ScriptExecution(scripts).fields;
      && Get(fields, "workspace") == None && Get(fields, "profileId") == None
      && Get(fields, "toolPolicy") == Some(ScriptPolicy(scripts)) && ReadKind(fields) == Some(RuntimeDefault)
  {
    hide ScriptPolicy;
    assert ScriptExecution(scripts).fields.Keys == {"kind", "toolPolicy"};
  }

  lemma ScriptExecutionReads(url: UrlParser, scripts: Value, m: NameLists)
    requires SkillScripts(Some(scripts)) == Some(m) && m != map[]
    ensures var e := ReadExecution(url, Some(ScriptExecution(scripts)));
      e.Some? && e.value.workspace == Managed && e.value.toolPolicy.skillScripts == m
  {
    hide ReadToolPolicy, SkillScripts, ScriptPolicy, ScriptExecution, Get, ReadKind;
    ScriptPolicyReads(url, scripts, m);
    ScriptExecutionGets(scripts);
  }

  lemma SpacedRoot()
    ensures PosixPath.Resolve("/a /.") == "/a "
  {
    var segments := ["", "a ", "."];
    assert segments[1..] == ["a ", "."] && ["a ", "."][1..] == ["."] && ["."][1..] == [];
    assert Join(["a ", "."], "/") == "a /.";
    assert Join(segments, "/") == "/a /.";
    PosixPath.SegmentsJoin(segments);
    assert [] + ["a "] == ["a "];
    assert PosixPath.Collapse(["a "], ["."], false) == PosixPath.Collapse(["a "], [], false);
    assert PosixPath.Collapse([], segments, false) == PosixPath.Collapse([], ["a ", "."], false) == ["a "];
  }

  lemma RootExecutionReads(url: UrlParser)
    ensures var e := ReadExecution(url, Some(RootExecution("/a /.")));
      e.Some? && e.value == Execution(RuntimeDefault, Fixed("/a "), DefaultToolPolicy(Fixed("/a ")), None)
  {
    hide ReadWorkspace, ReadToolPolicy, RootExecution, DefaultToolPolicy, WorkspaceValue, Get, ReadKind;
    RootWorkspaceReads();
    RootExecutionGets("/a /.");
    NoPolicy(url, Fixed("/a "));
  }

  lemma NoPolicy(url: UrlParser, w: Workspace)
    ensures ReadToolPolicy(url, None, w) == Some(DefaultToolPolicy(w))
  {
  }

  lemma RootWorkspaceReads()
    ensures ReadWorkspace(Some(WorkspaceValue(Fixed("/a /.")))) == Some(Fixed("/a "))
  {
    SpacedRoot();
    CleanEnds("/a /.");
    TextBack("/a /.");
    hide PosixPath.Resolve, ReadText;
  }

  lemma RootExecutionGets(root: string)
    ensures RootExecution(root).Obj?
    ensures var fields := RootExecution(root).fields;
      && Get(fields, "workspace") == Some(WorkspaceValue(Fixed(root)))
      && Get(fields, "toolPolicy") == None && Get(fields, "profileId") == None
      && ReadKind(fields) == Some(RuntimeDefault)
  {
    hide WorkspaceValue;
    assert RootExecution(root).fields.Keys == {"kind", "workspace"};
  }

  // ----- documents

  const PUBLISHED: Published := Published("agent", "an agent", "1", [], ["text/plain"], ["text/plain"])
  const AUTHENTICATION: Authentication := Authentication("TOKEN", "principal")

  function ServerFieldsWith(execution: Value): map<string, Value> {
    map["execution" := execution, "published" := PublishedValue(PUBLISHED),
        "authentication" := AuthenticationValue(AUTHENTICATION), "dataDir" := Str("data")]
  }

  /** The least document with this execution. */
  function DocumentWith(execution: Value): Value {
    Obj(map["version" := Int(1), "agents" := Obj(map[]), "server" := Obj(ServerFieldsWith(execution))])
  }

  lemma ServerGets(execution: Value)
    ensures var fields := ServerFieldsWith(execution);
      && fields.Keys <= {"execution", "published", "publicBaseUrl", "authentication", "limits", "dataDir"}
      && Get(fields, "execution") == Some(execution)
      && Get(fields, "published") == Some(PublishedValue(PUBLISHED))
      && Get(fields, "authentication") == Some(AuthenticationValue(AUTHENTICATION))
      && Get(fields, "limits") == None && Get(fields, "publicBaseUrl") == None
      && Get(fields, "dataDir") == Some(Str("data"))
  {
    hide PublishedValue, AuthenticationValue, PUBLISHED, AUTHENTICATION;
  }

  lemma ServerReads(url: UrlParser, execution: Value, e: Execution)
    requires ReadExecution(url, Some(execution)) == Some(e) && !FixedWrite(e)
    ensures ReadServer(url, Obj(ServerFieldsWith(execution)))
         == Some(Server(e, PUBLISHED, None, AUTHENTICATION, LIMIT_DEFAULTS, "data"))
  {
    hide *;
    ServerGets(execution);
    PublishedReads();
    AuthenticationReads();
    DefaultLimits(e);
    DataReads();
    var s := Server(e, PUBLISHED, None, AUTHENTICATION, LIMIT_DEFAULTS, "data");
    ServerIsOk(url, s, ServerFieldsWith(execution));
    ServerForm(url, s, ServerFieldsWith(execution));
  }

  lemma ServerIsOk(url: UrlParser, s: Server, fields: map<string, Value>)
    requires fields.Keys <= {"execution", "published", "publicBaseUrl", "authentication", "limits", "dataDir"}
    requires ReadPublished(Get(fields, "published")) == Some(s.published)
    requires ReadAuthentication(Get(fields, "authentication")) == Some(s.authentication)
    requires ReadLimits(Get(fields, "limits"), s.execution) == Some(s.limits)
    requires ReadText(Get(fields, "dataDir")) == Some(s.dataDir)
    requires Get(fields, "publicBaseUrl") == None && s.publicBaseUrl == None
    ensures ServerOk(url, s, fields)
  {
    hide ReadPublished, ReadAuthentication, ReadLimits, ReadText, HttpUrl, Get;
  }

  lemma DataReads()
    ensures ReadText(Some(Str("data"))) == Some("data")
  {
    CleanEnds("data");
    TextBack("data");
  }

  lemma PublishedReads()
    ensures ReadPublished(Some(PublishedValue(PUBLISHED))) == Some(PUBLISHED)
  {
    CleanEnds("agent");
    CleanEnds("an agent");
    CleanEnds("1");
    CleanEnds("text/plain");
    hide Clean;
    assert SkillsValue([]) == Arr([]);
    PublishedForm(PUBLISHED);
  }

  lemma AuthenticationReads()
    ensures ReadAuthentication(Some(AuthenticationValue(AUTHENTICATION))) == Some(AUTHENTICATION)
  {
    CleanEnds("TOKEN");
    CleanEnds("principal");
    TextBack("TOKEN");
    TextBack("principal");
    hide ReadText, Clean;
  }

  lemma DefaultLimits(e: Execution)
    requires !FixedWrite(e)
    ensures ReadLimits(None, e) == Some(LIMIT_DEFAULTS)
  {
    hide FixedWrite;
    assert (map key | key in LIMIT_DEFAULTS :: Limit(map[], key)) == LIMIT_DEFAULTS;
  }

  /** A document whose execution is not stable parses, but not to itself the second time. */
  lemma NotAFixedPoint(url: UrlParser, execution: Value, e: Execution)
    requires UrlLaws(url) && ReadExecution(url, Some(execution)) == Some(e) && !FixedWrite(e)
    requires !ExecutionStable(e)
    ensures var d := Parse(url, DocumentWith(execution));
      && d.Some? && d.value.server.Some? && d.value.server.value.execution == e
      && Parse(url, DocumentValue(d.value)) != d
  {
    hide *;
    var s := Server(e, PUBLISHED, None, AUTHENTICATION, LIMIT_DEFAULTS, "data");
    ServerReads(url, execution, e);
    DocumentReads(url, execution, s);
    FixedPoint(url, DocumentWith(execution));
    ServerDecides(Document(map[], Some(s)));
  }

  lemma DocumentReads(url: UrlParser, execution: Value, s: Server)
    requires ReadServer(url, Obj(ServerFieldsWith(execution))) == Some(s)
    ensures Parse(url, DocumentWith(execution)) == Some(Document(map[], Some(s)))
  {
    hide ReadServer, ServerFieldsWith;
    var fields := DocumentWith(execution).fields;
    assert Get(fields, "version") == Some(Int(1)) && Get(fields, "agents") == Some(Obj(map[]));
    assert ReadAgents(url, Some(Obj(map[]))).value == map[];
    hide ReadAgents, Get;
  }

  lemma ServerDecides(d: Document)
    requires d.server.Some? && !ExecutionStable(d.server.value.execution)
    ensures !Stable(d)
  {
    hide ExecutionStable;
  }

  /** A document with two spellings of one script path is accepted, and its result is not
      the result of parsing it again. */
  lemma UnstableSpelling(url: UrlParser)
    requires UrlLaws(url)
    ensures var d := Parse(url, DocumentWith(ScriptExecution(ToolScripts(["scripts/a", "scripts/./a"]))));
      && d.Some? && d.value.server.Some?
      && d.value.server.value.execution.toolPolicy.skillScripts == map["tool" := ["scripts/a", "scripts/a"]]
      && Parse(url, DocumentValue(d.value)) != d
  {
    var scripts, m := ToolScripts(["scripts/a", "scripts/./a"]), map["tool" := ["scripts/a", "scripts/a"]];
    TwoSpellings();
    UnstableScripts(url, scripts, m);
  }

  /** So is one with a script path whose name ends in a space. */
  lemma UnstableScript(url: UrlParser)
    requires UrlLaws(url)
    ensures var d := Parse(url, DocumentWith(ScriptExecution(ToolScripts(["scripts/a /."]))));
      && d.Some? && d.value.server.Some?
      && d.value.server.value.execution.toolPolicy.skillScripts == map["tool" := ["scripts/a "]]
      && Parse(url, DocumentValue(d.value)) != d
  {
    SpacedScript();
    UnstableScripts(url, ToolScripts(["scripts/a /."]), map["tool" := ["scripts/a "]]);
  }

  lemma UnstableScripts(url: UrlParser, scripts: Value, m: NameLists)
    requires UrlLaws(url) && SkillScripts(Some(scripts)) == Some(m) && !ScriptsStable(m)
    ensures var d := Parse(url, DocumentWith(ScriptExecution(scripts)));
      && d.Some? && d.value.server.Some? && d.value.server.value.execution.toolPolicy.skillScripts == m
      && Parse(url, DocumentValue(d.value)) != d
  {
    assert m != map[];
    ScriptExecutionReads(url, scripts, m);
    hide Parse, ReadExecution, UrlLaws, ScriptsStable, SkillScripts, ScriptExecution, DocumentWith, DocumentValue;
    NotAFixedPoint(url, ScriptExecution(scripts), ReadExecution(url, Some(ScriptExecution(scripts))).value);
  }

  /** And so is one whose fixed root ends in a space once it is resolved. */
  lemma UnstableRoot(url: UrlParser)
    requires UrlLaws(url)
    ensures var d := Parse(url, DocumentWith(RootExecution("/a /.")));
      && d.Some? && d.value.server.Some? && d.value.server.value.execution.workspace == Fixed("/a ")
      && Parse(url, DocumentValue(d.value)) != d
  {
    RootExecutionReads(url);
    var e := ReadExecution(url, Some(RootExecution("/a /."))).value;
    assert "/a "[2] == ' ';
    assert !RootStable(e.workspace);
    hide Parse, ReadExecution, UrlLaws, RootStable, RootExecution, DocumentWith, DocumentValue;
    NotAFixedPoint(url, RootExecution("/a /."), e);
  }
}
