/** What the parser of the integration document accepts, refuses and fills in, record by
    record (src/a2a/config.ts, lines 106-445). */
module ConfigAdmission {
  import opened Options
  import opened JsText
  import opened Sorting
  import opened ConfigParser
  import PosixPath

  // ----- fields nobody knows

  /** A document is version 1, names its agents and has no other field than the server. */
  lemma DocumentFields(url: UrlParser, v: Value)
    requires Parse(url, v).Some?
    ensures v.Obj? && {"version", "agents"} <= v.fields.Keys <= {"version", "agents", "server"}
    ensures v.fields["version"] == Int(1) && v.fields["agents"].Obj?
    ensures Parse(url, v).value.server.Some? <==> "server" in v.fields
    ensures Parse(url, v).value.agents.Keys == v.fields["agents"].fields.Keys
    ensures forall name | name in Parse(url, v).value.agents ::
      IsName(name) && ReadAgent(url, v.fields["agents"].fields[name]) == Some(Parse(url, v).value.agents[name])
  {
    hide ReadServer, ReadAgent, IsName;
  }

  lemma ServerFields(url: UrlParser, v: Value)
    requires ReadServer(url, v).Some?
    ensures v.Obj?
    ensures {"execution", "published", "authentication", "dataDir"} <= v.fields.Keys
    ensures v.fields.Keys <= {"execution", "published", "publicBaseUrl", "authentication", "limits", "dataDir"}
    ensures ReadServer(url, v).value.publicBaseUrl.Some? <==> "publicBaseUrl" in v.fields
  {
    hide ReadPublished, ReadAuthentication, ReadLimits, ReadText, HttpUrl;
    ExecutionGiven(url);
    PartsGiven();
  }

  lemma ExecutionGiven(url: UrlParser)
    ensures ReadExecution(url, None) == None
  {
  }

  lemma PartsGiven()
    ensures ReadPublished(None) == None && ReadAuthentication(None) == None && ReadText(None) == None
  {
  }

  lemma ExecutionFields(url: UrlParser, v: Option<Value>)
    requires ReadExecution(url, v).Some?
    ensures v.Some? && v.value.Obj?
    ensures var e := ReadExecution(url, v).value;
      if e.kind == RuntimeDefault then
        && v.value.fields.Keys <= {"kind", "workspace", "toolPolicy", "profileId"}
        && Get(v.value.fields, "kind") == Some(Str("runtime-default"))
      else
        && {"kind", "agentRef"} <= v.value.fields.Keys
        && v.value.fields.Keys <= {"kind", "agentRef", "workspace", "toolPolicy", "profileId"}
        && Get(v.value.fields, "kind") == Some(Str("local-agent"))
  {
    hide ReadWorkspace, ReadToolPolicy, ReadText, Optional;
    var source := v.value.fields;
    assert Get(source, "kind") == Some(Str("local-agent")) && ReadKind(source).Some? ==> "agentRef" in source by {
      assert ReadAgentRef(None) == None;
      hide ReadAgentRef;
    }
    hide ReadAgentRef;
  }

  lemma SmallFields(url: UrlParser, v: Value)
    ensures ReadWorkspace(Some(v)).Some? ==>
      v.Obj? && v.fields.Keys <= if ReadWorkspace(Some(v)) == Some(Managed) then {"mode"} else {"mode", "root"}
    ensures ReadNetwork(url, Some(v)).Some? ==>
      v.Obj? && v.fields.Keys <= if ReadNetwork(url, Some(v)) == Some(Deny) then {"mode"} else {"mode", "origins"}
    ensures ReadAgentRef(Some(v)).Some? ==> v.Obj? && v.fields.Keys <= {"source", "name"}
    ensures ReadAgentRef(Some(v)).Some? ==> Get(v.fields, "source") == Some(Str("markdown:user"))
    ensures ReadAuthentication(Some(v)).Some? ==> v.Obj? && v.fields.Keys <= {"type", "tokenEnv", "principalId"}
    ensures ReadAuthentication(Some(v)).Some? ==> Get(v.fields, "type") == Some(Str("bearer-env"))
  {
    hide ReadText, StringList, Origins, EnvironmentName, IsName, PosixPath.Resolve, Distinct;
  }

  lemma RecordFields(url: UrlParser, v: Value, w: Workspace, e: Execution)
    ensures ReadToolPolicy(url, Some(v), w).Some? ==>
      v.Obj? && v.fields.Keys == {"workspace", "process", "network", "tools", "mcp", "skillScripts", "subagents"}
    ensures ReadPublished(Some(v)).Some? ==>
      v.Obj? && v.fields.Keys <= {"name", "description", "version", "skills", "inputModes", "outputModes"}
    ensures ReadSkill(v).Some? ==> v.Obj? && v.fields.Keys <= {"id", "name", "description", "tags"}
    ensures ReadAgent(url, v).Some? ==> v.Obj? && v.fields.Keys <= {"cardUrl", "credentialEnv", "effect"}
    ensures ReadLimits(Some(v), e).Some? ==>
      v.Obj? && v.fields.Keys <= {
        "maxRequestBytes", "maxPartBytes", "maxConcurrentTasks", "maxTaskWaitMs", "maxActiveTasksPerPrincipal",
        "maxRetainedTasksPerPrincipal", "maxEventsPerTask", "maxEventBytesPerTask", "maxWorkspaceBytesPerContext"}
  {
    hide OneOf, SkillScripts, ReadNetwork, ExactNames, NamedExactLists, ReadText, StringList, ReadSkills, HttpUrl,
      Optional, EnvironmentName, UniqueIds, Limit, FixedWrite;
  }

  // ----- what is filled in

  /** Nothing said about tools: a managed workspace may be written, a fixed one only read, and
      nothing else is granted. */
  lemma OmittedPolicy(url: UrlParser, w: Workspace)
    ensures ReadToolPolicy(url, None, w).Some?
    ensures var p := ReadToolPolicy(url, None, w).value;
      && p.workspace == (match w case Managed => Str("write") case Fixed(_) => Str("read"))
      && p.process == Str("deny") && p.network == Deny && p.subagents == Str("deny")
      && p.tools == [] && p.mcp == map[] && p.skillScripts == map[]
  {
  }

  /** So an execution that says nothing about its tools never writes a fixed workspace. */
  lemma OmittedNeverWritesFixed(url: UrlParser, fields: map<string, Value>)
    requires ReadExecution(url, Some(Obj(fields))).Some? && "toolPolicy" !in fields
    ensures !FixedWrite(ReadExecution(url, Some(Obj(fields))).value)
    ensures "workspace" !in fields ==> ReadExecution(url, Some(Obj(fields))).value.workspace == Managed
  {
    hide ReadText, ReadKind, Optional, PosixPath.Resolve;
    var w := ReadWorkspace(Get(fields, "workspace")).value;
    OmittedPolicy(url, w);
    assert "workspace" !in fields ==> ReadWorkspace(Get(fields, "workspace")) == Some(Managed);
    assert Get(fields, "toolPolicy") == None;
    hide ReadWorkspace, ReadToolPolicy, Get;
  }

  /** A limit is the one given, or else its default; a fixed workspace that may be written
      runs one task at a time whatever the default says. */
  lemma LimitsAre(v: Option<Value>, e: Execution)
    requires ReadLimits(v, e).Some?
    ensures var l := ReadLimits(v, e).value; var given := if v.None? then map[] else v.value.fields;
      && (forall key | key in given :: key in l && given[key] == Int(l[key]) && 0 < l[key] <= 9_007_199_254_740_991)
      && LimitIs(l, given, "maxRequestBytes", 33_554_432) && LimitIs(l, given, "maxPartBytes", 16_777_216)
      && LimitIs(l, given, "maxTaskWaitMs", 30_000) && LimitIs(l, given, "maxActiveTasksPerPrincipal", 4)
      && LimitIs(l, given, "maxRetainedTasksPerPrincipal", 100) && LimitIs(l, given, "maxEventsPerTask", 1_000)
      && LimitIs(l, given, "maxEventBytesPerTask", 16_777_216)
      && LimitIs(l, given, "maxWorkspaceBytesPerContext", 1_073_741_824)
      && LimitIs(l, given, "maxConcurrentTasks", if FixedWrite(e) then 1 else 4)
      && l["maxPartBytes"] <= l["maxRequestBytes"] && (FixedWrite(e) ==> l["maxConcurrentTasks"] == 1)
  {
    var given := if v.None? then map[] else v.value.fields;
    LimitsRead(v, e, given);
    DefaultsAre();
    hide ReadLimits, LIMIT_DEFAULTS, FixedWrite;
  }

  /** Each limit as it is read, before one slot is forced. */
  lemma LimitsRead(v: Option<Value>, e: Execution, given: map<string, Value>)
    requires ReadLimits(v, e).Some? && given == if v.None? then map[] else v.value.fields
    ensures var l := ReadLimits(v, e).value;
      && given.Keys <= LIMIT_DEFAULTS.Keys == l.Keys && (forall key | key in given :: IsPositiveInteger(given[key]))
      && (forall key | key in l && key != "maxConcurrentTasks" :: l[key] == Limit(given, key))
      && l["maxConcurrentTasks"] ==
           (if FixedWrite(e) && "maxConcurrentTasks" !in given then 1 else Limit(given, "maxConcurrentTasks"))
      && l["maxPartBytes"] <= l["maxRequestBytes"] && (FixedWrite(e) ==> l["maxConcurrentTasks"] == 1)
  {
    hide FixedWrite, Limit, IsPositiveInteger;
    assert ReadLimits(v, e).value.Keys == LIMIT_DEFAULTS.Keys;
  }

  lemma DefaultsAre()
    ensures LIMIT_DEFAULTS.Keys == {
      "maxRequestBytes", "maxPartBytes", "maxConcurrentTasks", "maxTaskWaitMs", "maxActiveTasksPerPrincipal",
      "maxRetainedTasksPerPrincipal", "maxEventsPerTask", "maxEventBytesPerTask", "maxWorkspaceBytesPerContext"}
    ensures LIMIT_DEFAULTS["maxRequestBytes"] == 33_554_432 && LIMIT_DEFAULTS["maxPartBytes"] == 16_777_216
    ensures LIMIT_DEFAULTS["maxConcurrentTasks"] == 4 && LIMIT_DEFAULTS["maxTaskWaitMs"] == 30_000
    ensures LIMIT_DEFAULTS["maxActiveTasksPerPrincipal"] == 4
    ensures LIMIT_DEFAULTS["maxRetainedTasksPerPrincipal"] == 100 && LIMIT_DEFAULTS["maxEventsPerTask"] == 1_000
    ensures LIMIT_DEFAULTS["maxEventBytesPerTask"] == 16_777_216
    ensures LIMIT_DEFAULTS["maxWorkspaceBytesPerContext"] == 1_073_741_824
  {
  }

  predicate LimitIs(l: Limits, given: map<string, Value>, key: string, default_: int) {
    key in l && (key !in given ==> l[key] == default_)
  }

  /** Limits are refused only for the reasons above. */
  lemma LimitsAccepted(given: map<string, Value>, e: Execution)
    requires given.Keys <= LIMIT_DEFAULTS.Keys
    requires forall key | key in given :: given[key].Int? && 0 < given[key].n <= 9_007_199_254_740_991
    ensures ReadLimits(Some(Obj(given)), e).Some? <==>
      && (if "maxPartBytes" in given then given["maxPartBytes"].n else 16_777_216)
           <= (if "maxRequestBytes" in given then given["maxRequestBytes"].n else 33_554_432)
      && (FixedWrite(e) && "maxConcurrentTasks" in given ==> given["maxConcurrentTasks"].n == 1)
  {
    assert forall key | key in given :: IsPositiveInteger(given[key]);
    var limits := map key | key in LIMIT_DEFAULTS :: Limit(given, key);
    DefaultsAre();
    assert limits["maxPartBytes"] == Limit(given, "maxPartBytes");
    assert limits["maxRequestBytes"] == Limit(given, "maxRequestBytes");
    assert limits["maxConcurrentTasks"] == Limit(given, "maxConcurrentTasks");
    hide FixedWrite, LIMIT_DEFAULTS;
  }

  // ----- texts, names, URLs and paths

  /** An HTTP URL is one that parses once trimmed, without credentials, over HTTPS or to the
      loopback; it comes out as the URL standard prints it. */
  lemma HttpUrlExactly(url: UrlParser, v: Option<Value>, href: string)
    ensures HttpUrl(url, v) == Some(href) <==>
      exists s, u ::
        && v == Some(Str(s)) && Trim(s) != "" && url(Trim(s)) == Some(u) && !u.credentials && href == u.href
        && (u.protocol == "https:" || (u.protocol == "http:" && u.hostname in {"localhost", "127.0.0.1", "::1"}))
  {
    hide Trim;
  }

  /** `[A-Za-z]` and `[0-9]`, by code point. */
  predicate AsciiLetter(c: char) {
    65 <= c as int <= 90 || 97 <= c as int <= 122
  }

  predicate AsciiDigit(c: char) {
    48 <= c as int <= 57
  }

  /** Names and environment names, letter by letter. */
  lemma NamesAre(s: string)
    ensures IsName(s) <==>
      && 1 <= |s| <= 128 && (AsciiLetter(s[0]) || AsciiDigit(s[0]))
      && forall i | 0 <= i < |s| :: AsciiLetter(s[i]) || AsciiDigit(s[i]) || s[i] in {'.', '_', '-'}
    ensures IsEnvironmentName(s) <==>
      && s != "" && (AsciiLetter(s[0]) || s[0] == '_')
      && forall i | 0 <= i < |s| :: AsciiLetter(s[i]) || AsciiDigit(s[i]) || s[i] == '_'
  {
    assert forall c :: Letter(c) == AsciiLetter(c) && Digit(c) == AsciiDigit(c);
    hide Letter, Digit, AsciiLetter, AsciiDigit;
    assert forall c | c in s :: exists i | 0 <= i < |s| :: s[i] == c;
  }

  lemma {:induction false} ParentIs(path: string)
    ensures HasParent(path) <==> exists i | 0 <= i <= |path| :: "../" <= path[i..]
  {
    if path != "" {
      ParentIs(path[1..]);
      assert path[0..] == path;
      if i :| 0 <= i <= |path| && "../" <= path[i..] {
        assert i > 0 ==> path[1..][i - 1..] == path[i..];
      }
      if i :| 0 <= i <= |path[1..]| && "../" <= path[1..][i..] {
        assert path[i + 1..] == path[1..][i..];
      }
    }
  }

  /** A script path is a relative one, without backslashes, that normalises to one below
      `scripts` in which no `../` stands; it comes out normalised. */
  lemma ScriptPathExactly(entry: string, path: string)
    ensures ScriptPath(entry) == Some(path) <==>
      && '\\' !in entry && (entry == "" || entry[0] != '/') && path == PosixPath.Normalize(entry)
      && |path| >= 8 && path[..8] == "scripts/"
      && forall i | 0 <= i <= |path| :: !("../" <= path[i..])
  {
    ParentIs(path);
    hide PosixPath.Normalize;
    assert "scripts/" <= path <==> |path| >= 8 && path[..8] == "scripts/";
  }

  /** Skill scripts and isolated processes come together. */
  lemma ScriptsNeedIsolation(url: UrlParser, v: Value, w: Workspace)
    requires ReadToolPolicy(url, Some(v), w).Some?
    ensures var p := ReadToolPolicy(url, Some(v), w).value;
      && (p.process == Str("isolated") ==> p.skillScripts != map[])
      && (p.process == Str("deny") ==> p.skillScripts == map[])
      && (forall skill | skill in p.skillScripts :: IsName(skill) && p.skillScripts[skill] != [])
  {
    hide OneOf, ReadNetwork, ExactNames, IsName, ScriptPaths;
    var p := ReadToolPolicy(url, Some(v), w).value;
    forall skill | skill in p.skillScripts ensures IsName(skill) && p.skillScripts[skill] != [] {
      NotEmpty(Some(v.fields["skillScripts"].fields[skill]));
    }
  }

  lemma NotEmpty(v: Option<Value>)
    ensures ExactNames(v, false).Some? ==> ExactNames(v, false).value != []
  {
  }

  // ----- enumerations

  /** The word itself, or an array that holds such a value and nothing else. */
  predicate Spells(v: Value, word: string) {
    v == Str(word) || (v.Arr? && |v.items| == 1 && Spells(v.items[0], word))
  }

  lemma JoinsWithCommas(parts: seq<string>)
    requires |parts| > 1
    ensures ',' in Join(parts, ",")
  {
    assert Join(parts, ",") == parts[0] + "," + Join(parts[1..], ",");
    assert Join(parts, ",")[|parts[0]|] == ',';
  }

  lemma {:induction false} SpellsIs(v: Value, word: string)
    requires word !in {"", "null", "true", "false", "0", "0.5", "[object Object]"} && ',' !in word
    ensures ToText(v) == word <==> Spells(v, word)
    decreases v
  {
    if v.Arr? {
      var texts := seq(|v.items|, i requires 0 <= i < |v.items| => if v.items[i].Null? then "" else ToText(v.items[i]));
      if |v.items| == 1 {
        SpellsIs(v.items[0], word);
        assert Join(texts, ",") == texts[0];
      } else if |v.items| > 1 {
        JoinsWithCommas(texts);
      }
    }
  }

  /** The enumerated fields of a policy are kept as they were given, and each spells one of
      its words. */
  lemma ModesAre(url: UrlParser, v: Value, w: Workspace)
    requires ReadToolPolicy(url, Some(v), w).Some?
    ensures var p := ReadToolPolicy(url, Some(v), w).value;
      && Get(v.fields, "workspace") == Some(p.workspace) && Get(v.fields, "process") == Some(p.process)
      && Get(v.fields, "subagents") == Some(p.subagents)
      && (Spells(p.workspace, "none") || Spells(p.workspace, "read") || Spells(p.workspace, "write"))
      && (Spells(p.process, "deny") || Spells(p.process, "isolated"))
      && (Spells(p.subagents, "deny") || Spells(p.subagents, "inherit"))
  {
    hide SkillScripts, ReadNetwork, ExactNames, NamedExactLists, ToText, Spells;
    var p := ReadToolPolicy(url, Some(v), w).value;
    SpellsIs(p.workspace, "none");
    SpellsIs(p.workspace, "read");
    SpellsIs(p.workspace, "write");
    SpellsIs(p.process, "deny");
    SpellsIs(p.process, "isolated");
    SpellsIs(p.subagents, "deny");
    SpellsIs(p.subagents, "inherit");
  }

  // ----- lists and origins

  /** `r` are the texts of these values, trimmed, none of them blank. */
  predicate TextsOf(items: seq<Value>, r: seq<string>) {
    && |items| == |r|
    && forall i | 0 <= i < |items| :: items[i].Str? && r[i] == Trim(items[i].s) && r[i] != ""
  }

  lemma {:induction false} TextsExactly(items: seq<Value>, r: seq<string>)
    ensures ReadTexts(items) == Some(r) <==> TextsOf(items, r)
  {
    hide Trim;
    if items != [] && r != [] {
      TextsExactly(items[1..], r[1..]);
      assert r == [r[0]] + r[1..];
      assert forall i | 0 < i < |items| :: items[i] == items[1..][i - 1];
      assert forall i | 0 < i < |r| :: r[i] == r[1..][i - 1];
      assert forall i | 0 <= i < |items[1..]| :: items[1..][i] == items[i + 1];
      assert forall i | 0 <= i < |r[1..]| :: r[1..][i] == r[i + 1];
    }
  }

  /** A list of names is an array of texts, different once trimmed, without a `*`. */
  lemma NamesExactly(v: Value, allowEmpty: bool, r: seq<string>)
    ensures StringList(Some(v), allowEmpty) == Some(r) <==>
      && v.Arr? && TextsOf(v.items, r) && (allowEmpty || r != [])
      && forall i, j | 0 <= i < j < |r| :: r[i] != r[j]
    ensures ExactNames(Some(v), allowEmpty) == Some(r) <==>
      StringList(Some(v), allowEmpty) == Some(r) && forall i | 0 <= i < |r| :: '*' !in r[i]
  {
    hide TextsOf, ReadTexts;
    if v.Arr? {
      TextsExactly(v.items, r);
      if ReadTexts(v.items).Some? {
        TextsExactly(v.items, ReadTexts(v.items).value);
      }
      SameLength(v.items, r);
    }
    assert (forall s | s in r :: '*' !in s) <==> forall i | 0 <= i < |r| :: '*' !in r[i];
  }

  lemma SameLength(items: seq<Value>, r: seq<string>)
    ensures TextsOf(items, r) ==> |items| == |r|
  {
  }

  /** `origins` are the HTTP origins of these URLs. */
  ghost predicate OriginsOf(url: UrlParser, texts: seq<string>, origins: seq<string>) {
    && |texts| == |origins|
    && forall i | 0 <= i < |texts| ::
         exists u :: url(texts[i]) == Some(u) && u.protocol in {"http:", "https:"} && u.origin != "null"
           && origins[i] == u.origin
  }

  lemma {:induction false} OriginsExactly(url: UrlParser, texts: seq<string>, origins: seq<string>)
    ensures Origins(url, texts) == Some(origins) <==> OriginsOf(url, texts, origins)
  {
    if texts != [] && origins != [] {
      OriginsExactly(url, texts[1..], origins[1..]);
      OriginsUnfold(url, texts, origins);
      assert origins == [origins[0]] + origins[1..];
      assert Origin(url, texts[0]) == Some(origins[0]) <==> OriginsOf(url, [texts[0]], [origins[0]]);
      hide OriginsOf, Origin;
    }
  }

  lemma OriginsUnfold(url: UrlParser, texts: seq<string>, origins: seq<string>)
    requires texts != [] && origins != []
    ensures OriginsOf(url, texts, origins) <==>
      OriginsOf(url, [texts[0]], [origins[0]]) && OriginsOf(url, texts[1..], origins[1..])
  {
    assert |texts| == |origins| <==> |texts[1..]| == |origins[1..]|;
    assert forall i | 0 < i < |texts| :: texts[i] == texts[1..][i - 1];
    assert forall i | 0 < i < |origins| :: origins[i] == origins[1..][i - 1];
    assert forall i | 0 <= i < |texts[1..]| :: texts[1..][i] == texts[i + 1];
    assert forall i | 0 <= i < |origins[1..]| :: origins[1..][i] == origins[i + 1];
    assert [texts[0]][0] == texts[0] && [origins[0]][0] == origins[0];
  }

  /** A network policy denies everything, or allows the origins of the listed URLs, which
      differ as texts and as origins. */
  lemma NetworkExactly(url: UrlParser, fields: map<string, Value>, n: Network)
    ensures ReadNetwork(url, Some(Obj(fields))) == Some(n) <==>
      match n
      case Deny => fields == map["mode" := Str("deny")]
      case Allowlist(origins) =>
        && fields.Keys == {"mode", "origins"} && fields["mode"] == Str("allowlist")
        && exists texts ::
             && StringList(Some(fields["origins"]), false) == Some(texts) && OriginsOf(url, texts, origins)
             && forall i, j | 0 <= i < j < |origins| :: origins[i] != origins[j]
  {
    hide StringList, Origins, OriginsOf;
    assert StringList(None, false) == None by { NoList(); }
    if "origins" in fields && StringList(Some(fields["origins"]), false).Some? {
      var texts := StringList(Some(fields["origins"]), false).value;
      if n.Allowlist? {
        OriginsExactly(url, texts, n.origins);
      }
      if Origins(url, texts).Some? {
        OriginsExactly(url, texts, Origins(url, texts).value);
      }
    }
  }

  lemma NoList()
    ensures StringList(None, false) == None
  {
  }
}
