/** Parsing a parsed A2A integration document again. */
module ConfigFixedPoint {
  import opened Options
  import opened JsText
  import opened Sorting
  import opened ConfigParser
  import PosixPath

  // ----- the configuration as a JSON value

  function TextsValue(xs: seq<string>): Value {
    Arr(seq(|xs|, i requires 0 <= i < |xs| => Str(xs[i])))
  }

  function ListsValue(m: NameLists): Value {
    Obj(map name | name in m :: TextsValue(m[name]))
  }

  function NetworkValue(n: Network): Value {
    match n
    case Deny => Obj(map["mode" := Str("deny")])
    case Allowlist(origins) => Obj(map["mode" := Str("allowlist"), "origins" := TextsValue(origins)])
  }

  function PolicyValue(p: ToolPolicy): Value {
    Obj(map["workspace" := p.workspace, "process" := p.process, "network" := NetworkValue(p.network),
            "tools" := TextsValue(p.tools), "mcp" := ListsValue(p.mcp),
            "skillScripts" := ListsValue(p.skillScripts), "subagents" := p.subagents])
  }

  function WorkspaceValue(w: Workspace): Value {
    match w
    case Managed => Obj(map["mode" := Str("managed")])
    case Fixed(root) => Obj(map["mode" := Str("fixed"), "root" := Str(root)])
  }

  function OptionalField(key: string, v: Option<string>): map<string, Value> {
    if v.Some? then map[key := Str(v.value)] else map[]
  }

  function KindFields(k: Kind): map<string, Value> {
    match k
    case RuntimeDefault => map["kind" := Str("runtime-default")]
    case LocalAgent(name) =>
      map["kind" := Str("local-agent"),
          "agentRef" := Obj(map["source" := Str("markdown:user"), "name" := Str(name)])]
  }

  function ExecutionValue(e: Execution): Value {
    Obj(KindFields(e.kind) + map["workspace" := WorkspaceValue(e.workspace), "toolPolicy" := PolicyValue(e.toolPolicy)]
        + OptionalField("profileId", e.profileId))
  }

  function SkillValue(s: Skill): Value {
    Obj(map["id" := Str(s.id), "name" := Str(s.name), "description" := Str(s.description),
            "tags" := TextsValue(s.tags)])
  }

  function SkillsValue(skills: seq<Skill>): Value {
    Arr(seq(|skills|, i requires 0 <= i < |skills| => SkillValue(skills[i])))
  }

  function PublishedValue(p: Published): Value {
    Obj(map["name" := Str(p.name), "description" := Str(p.description), "version" := Str(p.version),
            "skills" := SkillsValue(p.skills),
            "inputModes" := TextsValue(p.inputModes), "outputModes" := TextsValue(p.outputModes)])
  }

  function AuthenticationValue(a: Authentication): Value {
    Obj(map["type" := Str("bearer-env"), "tokenEnv" := Str(a.tokenEnv), "principalId" := Str(a.principalId)])
  }

  function LimitsValue(l: Limits): Value {
    Obj(map key | key in l :: Int(l[key]))
  }

  function ServerValue(s: Server): Value {
    Obj(map["execution" := ExecutionValue(s.execution), "published" := PublishedValue(s.published),
            "authentication" := AuthenticationValue(s.authentication), "limits" := LimitsValue(s.limits),
            "dataDir" := Str(s.dataDir)] + OptionalField("publicBaseUrl", s.publicBaseUrl))
  }

  function AgentValue(a: Agent): Value {
    Obj(map["cardUrl" := Str(a.cardUrl), "effect" := a.effect] + OptionalField("credentialEnv", a.credentialEnv))
  }

  function DocumentValue(d: Document): Value {
    Obj(map["version" := Int(1), "agents" := Obj(map name | name in d.agents :: AgentValue(d.agents[name]))]
        + if d.server.Some? then map["server" := ServerValue(d.server.value)] else map[])
  }

  // ----- texts and lists

  predicate ListOk(xs: seq<string>) {
    Distinct(xs) && forall s | s in xs :: Clean(s)
  }

  lemma {:induction false} TextsBack(xs: seq<string>)
    requires forall s | s in xs :: Clean(s)
    ensures ReadTexts(TextsValue(xs).items) == Some(xs)
  {
    hide Trim;
    if xs != [] {
      TextsBack(xs[1..]);
      assert TextsValue(xs).items[1..] == TextsValue(xs[1..]).items;
      assert Clean(xs[0]);
      assert xs == [xs[0]] + xs[1..];
    }
  }

  lemma ListBack(xs: seq<string>, allowEmpty: bool)
    requires ListOk(xs) && (allowEmpty || xs != [])
    ensures StringList(Some(TextsValue(xs)), allowEmpty) == Some(xs)
  {
    TextsBack(xs);
    assert TextsValue(xs).Arr? && |TextsValue(xs).items| == |xs|;
    hide ReadTexts, Clean, TextsValue;
  }

  lemma ListIsOk(v: Option<Value>, allowEmpty: bool)
    requires StringList(v, allowEmpty).Some?
    ensures ListOk(StringList(v, allowEmpty).value) && (allowEmpty || StringList(v, allowEmpty).value != [])
  {
    hide Clean;
    var items := v.value.items;
    assert |StringList(v, allowEmpty).value| == |items| && (allowEmpty || |items| > 0);
  }

  lemma NamesBack(v: Option<Value>, allowEmpty: bool)
    requires ExactNames(v, allowEmpty).Some?
    ensures ExactNames(Some(TextsValue(ExactNames(v, allowEmpty).value)), allowEmpty) == ExactNames(v, allowEmpty)
  {
    hide StringList, TextsValue;
    var xs := ExactNames(v, allowEmpty).value;
    ListIsOk(v, allowEmpty);
    ListBack(xs, allowEmpty);
    assert StringList(Some(TextsValue(xs)), allowEmpty) == Some(xs);
  }

  lemma ListsBack(v: Option<Value>)
    requires NamedExactLists(v).Some?
    ensures NamedExactLists(Some(ListsValue(NamedExactLists(v).value))) == NamedExactLists(v)
  {
    hide ExactNames, TextsValue, IsName;
    var m := NamedExactLists(v).value;
    var w := ListsValue(m).fields;
    forall name | name in m
      ensures IsName(name) && w[name] == TextsValue(m[name])
      ensures ExactNames(Some(w[name]), false) == Some(m[name])
    {
      NamesBack(Some(v.value.fields[name]), false);
    }
    assert AllNamed(w);
    assert NamedExactLists(Some(ListsValue(m))).value == m;
  }

  // ----- skill scripts

  lemma {:induction false} TrimShorter(s: string)
    ensures |Trim(s)| <= |s| && (|Trim(s)| == |s| ==> Trim(s) == s)
  {
    TrimStartShorter(s);
    TrimEndShorter(TrimStart(s));
  }

  lemma {:induction false} TrimStartShorter(s: string)
    ensures |TrimStart(s)| <= |s| && (|TrimStart(s)| == |s| ==> TrimStart(s) == s)
  {
    if s != "" && IsSpace(s[0]) {
      TrimStartShorter(s[1..]);
    }
  }

  lemma {:induction false} TrimEndShorter(s: string)
    ensures |TrimEnd(s)| <= |s| && (|TrimEnd(s)| == |s| ==> TrimEnd(s) == s)
  {
    if s != "" && IsSpace(s[|s| - 1]) {
      TrimEndShorter(s[..|s| - 1]);
    }
  }

  /** An accepted path is accepted again as it came out, and was no shorter going in. */
  lemma PathBack(entry: string)
    requires entry != "" && ScriptPath(entry).Some?
    ensures var n := ScriptPath(entry).value;
      && ScriptPath(n) == Some(n) && n != "" && |n| <= |entry| && ('*' !in entry ==> '*' !in n)
  {
    hide PosixPath.Normalize, HasParent;
    var n := PosixPath.Normalize(entry);
    assert n[0] == "scripts/"[0];
    PosixPath.NormalizeTwice(entry);
  }

  /** Each skill's normalised paths are still different, and none ends in white space. */
  predicate ScriptsStable(m: NameLists) {
    forall skill | skill in m :: PathsStable(m[skill])
  }

  predicate PathsStable(paths: seq<string>) {
    Distinct(paths) && forall p | p in paths :: Trim(p) == p
  }

  predicate Exact(entries: seq<string>) {
    entries != [] && ListOk(entries) && forall s | s in entries :: '*' !in s
  }

  lemma NamesAreExact(v: Option<Value>)
    requires ExactNames(v, false).Some?
    ensures Exact(ExactNames(v, false).value)
  {
    ListIsOk(v, false);
    hide StringList, ListOk;
  }

  lemma {:induction false} PathsBack(entries: seq<string>)
    requires ScriptPaths(entries).Some? && forall s | s in entries :: s != "" && '*' !in s
    ensures var paths := ScriptPaths(entries).value;
      ScriptPaths(paths) == Some(paths) && forall s | s in paths :: s != "" && '*' !in s
  {
    hide ScriptPath;
    if entries != [] {
      assert entries[0] in entries && forall s | s in entries[1..] :: s in entries;
      PathBack(entries[0]);
      PathsBack(entries[1..]);
      var paths := ScriptPaths(entries).value;
      assert paths[1..] == ScriptPaths(entries[1..]).value;
      assert paths == [paths[0]] + paths[1..];
    }
  }

  /** Paths read back as themselves exactly when they are stable. */
  lemma StableBack(entries: seq<string>)
    requires Exact(entries) && ScriptPaths(entries).Some?
    ensures var paths := ScriptPaths(entries).value;
      var again := ExactNames(Some(TextsValue(paths)), false);
      (again.Some? && ScriptPaths(again.value) == Some(paths)) <==> PathsStable(paths)
  {
    var paths := ScriptPaths(entries).value;
    PathsBack(entries) by { hide ScriptPaths; assert forall s | s in entries :: Clean(s); }
    var again := ExactNames(Some(TextsValue(paths)), false);
    if PathsStable(paths) {
      ListBack(paths, false) by { hide ScriptPaths, Trim; }
      hide StringList, ScriptPaths, TextsValue, Trim;
      assert again == Some(paths);
    }
    if again.Some? && ScriptPaths(again.value) == Some(paths) {
      BackIsStable(paths);
    }
  }

  lemma BackIsStable(paths: seq<string>)
    requires ExactNames(Some(TextsValue(paths)), false).Some?
    requires ScriptPaths(ExactNames(Some(TextsValue(paths)), false).value) == Some(paths)
    ensures PathsStable(paths)
  {
    var again := ExactNames(Some(TextsValue(paths)), false).value;
    ListIsOk(Some(TextsValue(paths)), false);
    forall i | 0 <= i < |paths| ensures again[i] == Trim(paths[i]) == paths[i] {
      ReadAt(TextsValue(paths).items, i);
      assert ScriptPath(again[i]) == Some(paths[i]);
      PathBack(again[i]);
      TrimShorter(paths[i]);
    }
    hide *;
    assert again == paths;
    StableIfListOk(paths);
  }

  lemma StableIfListOk(paths: seq<string>)
    requires ListOk(paths)
    ensures PathsStable(paths)
  {
    hide Trim;
    assert forall p | p in paths :: Clean(p);
  }

  lemma {:induction false} ReadAt(items: seq<Value>, i: nat)
    requires ReadTexts(items).Some? && i < |items|
    ensures items[i].Str? && ReadTexts(items).value[i] == Trim(items[i].s) && Clean(Trim(items[i].s))
  {
    hide Trim;
    if i > 0 {
      ReadAt(items[1..], i - 1);
    }
  }

  lemma ScriptsBack(v: Option<Value>)
    requires SkillScripts(v).Some?
    ensures var m := SkillScripts(v).value;
      SkillScripts(Some(ListsValue(m))) == Some(m) <==> ScriptsStable(m)
  {
    hide ExactNames, TextsValue, IsName, ScriptPaths, PathsStable, Exact;
    var lists, m := NamedExactLists(v).value, SkillScripts(v).value;
    var w := ListsValue(m).fields;
    var again := SkillScripts(Some(ListsValue(m)));
    forall skill | skill in m
      ensures IsName(skill) && w[skill] == TextsValue(m[skill])
      ensures var names := ExactNames(Some(w[skill]), false);
        (names.Some? && ScriptPaths(names.value) == Some(m[skill])) <==> PathsStable(m[skill])
    {
      NamesAreExact(Some(v.value.fields[skill]));
      StableBack(lists[skill]);
    }
    if again == Some(m) {
      forall skill | skill in m ensures PathsStable(m[skill]) {
        assert ScriptPaths(NamedExactLists(Some(ListsValue(m))).value[skill]) == Some(m[skill]);
      }
    }
    if ScriptsStable(m) {
      assert forall skill | skill in m :: PathsStable(m[skill]);
      assert AllNamed(w);
      var names := NamedExactLists(Some(ListsValue(m))).value;
      assert AllScripts(names);
      assert again.value == m;
    }
  }

  // ----- the rest of the policy

  lemma OriginsBack(url: UrlParser, given: seq<string>)
    requires UrlLaws(url) && Origins(url, given).Some?
    ensures var o := Origins(url, given).value;
      Origins(url, o) == Some(o) && forall s | s in o :: Clean(s)
  {
    var o := Origins(url, given).value;
    forall i | 0 <= i < |o| ensures Origin(url, o[i]) == Some(o[i]) && Clean(o[i]) {
      assert Origin(url, given[i]) == Some(o[i]);
    }
    hide Origin, Clean;
    OriginsFixed(url, o);
  }

  lemma {:induction false} OriginsFixed(url: UrlParser, o: seq<string>)
    requires forall i | 0 <= i < |o| :: Origin(url, o[i]) == Some(o[i])
    ensures Origins(url, o) == Some(o)
  {
    hide Origin;
    if o != [] {
      OriginsFixed(url, o[1..]);
      assert o == [o[0]] + o[1..];
    }
  }

  lemma NetworkBack(url: UrlParser, v: Option<Value>)
    requires UrlLaws(url) && ReadNetwork(url, v).Some?
    ensures ReadNetwork(url, Some(NetworkValue(ReadNetwork(url, v).value))) == ReadNetwork(url, v)
  {
    hide StringList, Origins, TextsValue, UrlLaws, Distinct;
    var n := ReadNetwork(url, v).value;
    if n.Allowlist? {
      var given := StringList(Get(v.value.fields, "origins"), false).value;
      ListIsOk(Get(v.value.fields, "origins"), false);
      OriginsBack(url, given);
      ListBack(n.origins, false);
    }
  }

  /** A policy reads back as itself exactly when its script paths are stable. */
  lemma PolicyBack(url: UrlParser, v: Option<Value>, w: Workspace)
    requires UrlLaws(url) && ReadToolPolicy(url, v, w).Some?
    ensures var p := ReadToolPolicy(url, v, w).value;
      ReadToolPolicy(url, Some(PolicyValue(p)), w) == Some(p) <==> ScriptsStable(p.skillScripts)
  {
    hide ReadNetwork, ExactNames, NamedExactLists, SkillScripts, ToText, UrlLaws, NetworkValue, TextsValue, ListsValue,
      ScriptsStable;
    var p := ReadToolPolicy(url, v, w).value;
    if v.None? {
      DefaultBack(url, w);
    } else {
      var source := v.value.fields;
      NetworkBack(url, Get(source, "network"));
      NamesBack(Get(source, "tools"), true);
      ListsBack(Get(source, "mcp"));
      ScriptsBack(Get(source, "skillScripts"));
    }
  }

  lemma PolicyFields(p: ToolPolicy)
    ensures var fields := PolicyValue(p).fields;
      && fields.Keys == POLICY_KEYS
      && Get(fields, "workspace") == Some(p.workspace) && Get(fields, "process") == Some(p.process)
      && Get(fields, "network") == Some(NetworkValue(p.network)) && Get(fields, "tools") == Some(TextsValue(p.tools))
      && Get(fields, "mcp") == Some(ListsValue(p.mcp)) && Get(fields, "subagents") == Some(p.subagents)
      && Get(fields, "skillScripts") == Some(ListsValue(p.skillScripts))
  {
    hide NetworkValue, TextsValue, ListsValue;
  }

  lemma DefaultBack(url: UrlParser, w: Workspace)
    ensures var p := DefaultToolPolicy(w);
      ReadToolPolicy(url, Some(PolicyValue(p)), w) == Some(p) && ScriptsStable(p.skillScripts)
  {
    PolicyFields(DefaultToolPolicy(w));
    assert ReadTexts([]) == Some([]);
    assert ListsValue(map[]) == Obj(map[]);
    assert NamedExactLists(Some(Obj(map[]))).value == map[];
    assert SkillScripts(Some(Obj(map[]))).value == map[];
    assert TextsValue([]) == Arr([]);
    hide Get, ReadTexts, NamedExactLists, SkillScripts, ListsValue, TextsValue;
  }

  // ----- execution

  predicate RootStable(w: Workspace) {
    w.Fixed? ==> Trim(w.root) == w.root
  }

  lemma WorkspaceBack(v: Option<Value>)
    requires ReadWorkspace(v).Some?
    ensures var w := ReadWorkspace(v).value;
      ReadWorkspace(Some(WorkspaceValue(w))) == Some(w) <==> RootStable(w)
  {
    hide Trim;
    var w := ReadWorkspace(v).value;
    if w.Fixed? {
      var given := ReadText(Get(v.value.fields, "root")).value;
      PosixPath.ResolveTwice(given);
      TrimShorter(w.root);
      if Trim(w.root) != "" && PosixPath.IsAbsolute(Trim(w.root)) {
        PosixPath.ResolveTwice(Trim(w.root));
      }
      hide PosixPath.Resolve;
    }
  }

  lemma Merged(a: map<string, Value>, rest: map<string, Value>)
    ensures (a + rest).Keys == a.Keys + rest.Keys
    ensures forall key | key !in rest :: Get(a + rest, key) == Get(a, key)
  {
  }

  lemma AgentRefBack(v: Option<Value>)
    requires ReadAgentRef(v).Some?
    ensures var name := ReadAgentRef(v).value;
      ReadAgentRef(Some(Obj(map["source" := Str("markdown:user"), "name" := Str(name)]))) == Some(name)
  {
    hide IsName, Trim;
    TextBack(ReadAgentRef(v).value);
  }

  lemma KindBack(source: map<string, Value>, rest: map<string, Value>)
    requires ReadKind(source).Some? && rest.Keys <= {"workspace", "toolPolicy", "profileId"}
    ensures ReadKind(KindFields(ReadKind(source).value) + rest) == ReadKind(source)
  {
    hide ReadAgentRef;
    var k := ReadKind(source).value;
    var fields := KindFields(k) + rest;
    Merged(KindFields(k), rest);
    assert Get(fields, "kind") == Get(KindFields(k), "kind");
    if k.LocalAgent? {
      AgentRefBack(Get(source, "agentRef"));
      assert Get(fields, "agentRef") == Get(KindFields(k), "agentRef");
      assert KindFields(k).Keys == {"kind", "agentRef"};
    } else {
      assert KindFields(k).Keys == {"kind"};
    }
    hide Get;
  }

  predicate ExecutionStable(e: Execution) {
    RootStable(e.workspace) && ScriptsStable(e.toolPolicy.skillScripts)
  }

  function ExecutionRest(e: Execution): map<string, Value> {
    map["workspace" := WorkspaceValue(e.workspace), "toolPolicy" := PolicyValue(e.toolPolicy)]
    + OptionalField("profileId", e.profileId)
  }

  lemma ExecutionFields(e: Execution)
    ensures var fields := ExecutionValue(e).fields;
      && fields == KindFields(e.kind) + ExecutionRest(e)
      && Get(fields, "workspace") == Some(WorkspaceValue(e.workspace))
      && Get(fields, "toolPolicy") == Some(PolicyValue(e.toolPolicy))
      && Get(fields, "profileId") == (if e.profileId.Some? then Some(Str(e.profileId.value)) else None)
      && ExecutionRest(e).Keys <= {"workspace", "toolPolicy", "profileId"}
  {
    hide WorkspaceValue, PolicyValue;
    assert ExecutionValue(e).fields == KindFields(e.kind) + ExecutionRest(e);
  }

  /** What reading an execution hands to its parts. */
  lemma ExecutionParts(url: UrlParser, v: Option<Value>)
    requires ReadExecution(url, v).Some?
    ensures var e := ReadExecution(url, v).value;
      && v.Some? && v.value.Obj?
      && ReadWorkspace(Get(v.value.fields, "workspace")) == Some(e.workspace)
      && ReadToolPolicy(url, Get(v.value.fields, "toolPolicy"), e.workspace) == Some(e.toolPolicy)
      && ReadKind(v.value.fields) == Some(e.kind)
      && (e.profileId.Some? ==> Clean(e.profileId.value))
  {
    hide ReadWorkspace, ReadToolPolicy, ReadKind, Trim;
  }

  lemma ExecutionBack(url: UrlParser, v: Option<Value>)
    requires UrlLaws(url) && ReadExecution(url, v).Some?
    ensures var e := ReadExecution(url, v).value;
      ReadExecution(url, Some(ExecutionValue(e))) == Some(e) <==> ExecutionStable(e)
  {
    var e := ReadExecution(url, v).value;
    ExecutionParts(url, v);
    ExecutionFields(e);
    WorkspaceBack(Get(v.value.fields, "workspace"));
    PolicyBack(url, Get(v.value.fields, "toolPolicy"), e.workspace);
    KindBack(v.value.fields, ExecutionRest(e));
    if e.profileId.Some? {
      TextBack(e.profileId.value);
    }
    assert ExecutionValue(e).Obj?;
    hide ReadWorkspace, ReadToolPolicy, ReadKind, ReadText, UrlLaws, WorkspaceValue, PolicyValue, ScriptsStable,
      RootStable, ExecutionValue, KindFields, ExecutionRest, Get, Clean;
    ExecutionForm(url, e, ExecutionValue(e).fields);
  }

  lemma ExecutionForm(url: UrlParser, e: Execution, fields: map<string, Value>)
    requires Get(fields, "profileId") == (if e.profileId.Some? then Some(Str(e.profileId.value)) else None)
    requires e.profileId.Some? ==> ReadText(Some(Str(e.profileId.value))) == e.profileId
    requires ReadKind(fields) == Some(e.kind)
    ensures ReadExecution(url, Some(Obj(fields))) == Some(e) <==>
      && ReadWorkspace(Get(fields, "workspace")) == Some(e.workspace)
      && ReadToolPolicy(url, Get(fields, "toolPolicy"), e.workspace) == Some(e.toolPolicy)
  {
    hide ReadWorkspace, ReadToolPolicy, ReadKind, ReadText, Get;
  }

  // ----- the rest of the server

  lemma TextBack(s: string)
    requires Clean(s)
    ensures ReadText(Some(Str(s))) == Some(s)
  {
    hide Trim;
  }

  predicate SkillOk(s: Skill) {
    Clean(s.id) && Clean(s.name) && Clean(s.description) && ListOk(s.tags)
  }

  lemma SkillIsOk(v: Value)
    requires ReadSkill(v).Some?
    ensures SkillOk(ReadSkill(v).value)
  {
    hide StringList, ListOk, Trim;
    ListIsOk(Get(v.fields, "tags"), true);
  }

  lemma SkillForm(s: Skill)
    requires SkillOk(s)
    ensures ReadSkill(SkillValue(s)) == Some(s)
  {
    TextBack(s.id);
    TextBack(s.name);
    TextBack(s.description);
    ListBack(s.tags, true);
    hide ReadText, StringList, TextsValue, Clean, ListOk;
  }

  lemma {:induction false} SkillsBack(items: seq<Value>)
    requires ReadSkills(items).Some?
    ensures ReadSkills(SkillsValue(ReadSkills(items).value).items) == ReadSkills(items)
  {
    var skills := ReadSkills(items).value;
    hide ReadSkills, SkillsValue;
    forall i | 0 <= i < |skills| ensures ReadSkill(SkillValue(skills[i])) == Some(skills[i]) {
      SkillIsOk(items[i]);
      SkillForm(skills[i]);
    }
    SkillsForm(skills);
  }

  lemma {:induction false} SkillsForm(skills: seq<Skill>)
    requires forall i | 0 <= i < |skills| :: ReadSkill(SkillValue(skills[i])) == Some(skills[i])
    ensures ReadSkills(SkillsValue(skills).items) == Some(skills)
  {
    hide ReadSkill, SkillValue;
    if skills != [] {
      SkillsValueCons(skills);
      hide SkillsValue;
      SkillsForm(skills[1..]);
      assert skills == [skills[0]] + skills[1..];
    }
  }

  lemma SkillsValueCons(skills: seq<Skill>)
    requires skills != []
    ensures var items := SkillsValue(skills).items;
      SkillsValue(skills).Arr? && |items| == |skills| && items[0] == SkillValue(skills[0])
      && SkillsValue(skills[1..]).Arr? && items[1..] == SkillsValue(skills[1..]).items
  {
    hide SkillValue;
  }

  predicate PublishedOk(p: Published) {
    && Clean(p.name) && Clean(p.description) && Clean(p.version) && UniqueIds(p.skills)
    && ListOk(p.inputModes) && p.inputModes != [] && ListOk(p.outputModes) && p.outputModes != []
    && ReadSkills(SkillsValue(p.skills).items) == Some(p.skills)
  }

  lemma PublishedIsOk(v: Option<Value>)
    requires ReadPublished(v).Some?
    ensures PublishedOk(ReadPublished(v).value)
  {
    hide ReadText, StringList, ReadSkills, SkillsValue, Clean, ListOk, UniqueIds;
    var source := v.value.fields;
    ListIsOk(Get(source, "inputModes"), false);
    ListIsOk(Get(source, "outputModes"), false);
    SkillsBack(source["skills"].items);
  }

  lemma PublishedForm(p: Published)
    requires PublishedOk(p)
    ensures ReadPublished(Some(PublishedValue(p))) == Some(p)
  {
    TextBack(p.name);
    TextBack(p.description);
    TextBack(p.version);
    ListBack(p.inputModes, false);
    ListBack(p.outputModes, false);
    assert SkillsValue(p.skills).Arr?;
    hide ReadText, StringList, ReadSkills, SkillsValue, TextsValue, Clean, ListOk, UniqueIds;
  }

  lemma PublishedBack(v: Option<Value>)
    requires ReadPublished(v).Some?
    ensures ReadPublished(Some(PublishedValue(ReadPublished(v).value))) == ReadPublished(v)
  {
    PublishedIsOk(v);
    PublishedForm(ReadPublished(v).value);
  }

  lemma AuthenticationBack(v: Option<Value>)
    requires ReadAuthentication(v).Some?
    ensures ReadAuthentication(Some(AuthenticationValue(ReadAuthentication(v).value))) == ReadAuthentication(v)
  {
    var a := ReadAuthentication(v).value;
    TextBack(a.tokenEnv);
    TextBack(a.principalId);
    hide ReadText, Clean, IsEnvironmentName;
  }

  /** Limits read back as themselves, the single task of a fixed writable workspace included. */
  lemma LimitsBack(v: Option<Value>, e: Execution)
    requires ReadLimits(v, e).Some?
    ensures ReadLimits(Some(LimitsValue(ReadLimits(v, e).value)), e) == ReadLimits(v, e)
  {
    var l := ReadLimits(v, e).value;
    LimitsAreOk(v, e);
    LimitsForm(l, e);
  }

  predicate LimitsOk(l: Limits, e: Execution) {
    && l.Keys == LIMIT_DEFAULTS.Keys
    && (forall key | key in l :: 0 < l[key] <= MAX_SAFE_INTEGER)
    && l["maxPartBytes"] <= l["maxRequestBytes"]
    && (FixedWrite(e) ==> l["maxConcurrentTasks"] == 1)
  }

  lemma LimitsAreOk(v: Option<Value>, e: Execution)
    requires ReadLimits(v, e).Some?
    ensures LimitsOk(ReadLimits(v, e).value, e)
  {
    hide FixedWrite, Limit;
    var l := ReadLimits(v, e).value;
    var source := if v.None? then map[] else v.value.fields;
    LimitsRead(v, e, source);
    hide ReadLimits, LIMIT_DEFAULTS;
    forall key | key in l ensures 0 < l[key] <= MAX_SAFE_INTEGER {
      LimitRange(source, key);
    }
  }

  /** What reading the limits computes: the given ones over the defaults, but for one slot. */
  lemma LimitsRead(v: Option<Value>, e: Execution, source: map<string, Value>)
    requires ReadLimits(v, e).Some? && source == if v.None? then map[] else v.value.fields
    ensures var l := ReadLimits(v, e).value;
      && l.Keys == LIMIT_DEFAULTS.Keys && (forall k | k in source :: IsPositiveInteger(source[k]))
      && (forall key | key in l && key != "maxConcurrentTasks" :: l[key] == Limit(source, key))
      && l["maxConcurrentTasks"] in {1, Limit(source, "maxConcurrentTasks")}
      && l["maxPartBytes"] <= l["maxRequestBytes"]
      && (FixedWrite(e) ==> l["maxConcurrentTasks"] == 1)
  {
    hide FixedWrite, Limit, IsPositiveInteger;
    assert ReadLimits(v, e).value.Keys == LIMIT_DEFAULTS.Keys;
  }

  lemma LimitsForm(l: Limits, e: Execution)
    requires LimitsOk(l, e)
    ensures ReadLimits(Some(LimitsValue(l)), e) == Some(l)
  {
    hide FixedWrite;
    var w := LimitsValue(l).fields;
    assert w.Keys == l.Keys;
    assert (map key | key in LIMIT_DEFAULTS :: Limit(w, key)) == l;
  }

  lemma LimitRange(source: map<string, Value>, key: string)
    requires key in LIMIT_DEFAULTS && forall k | k in source :: IsPositiveInteger(source[k])
    ensures 0 < Limit(source, key) <= MAX_SAFE_INTEGER
  {
  }

  // ----- server, agents, document

  lemma UrlBack(url: UrlParser, v: Option<Value>)
    requires UrlLaws(url) && HttpUrl(url, v).Some?
    ensures HttpUrl(url, Some(Str(HttpUrl(url, v).value))) == HttpUrl(url, v)
  {
    hide Trim;
    TextBack(HttpUrl(url, v).value);
  }

  lemma ServerFields(s: Server)
    ensures var fields := ServerValue(s).fields;
      && fields.Keys <= {"execution", "published", "publicBaseUrl", "authentication", "limits", "dataDir"}
      && Get(fields, "execution") == Some(ExecutionValue(s.execution))
      && Get(fields, "published") == Some(PublishedValue(s.published))
      && Get(fields, "authentication") == Some(AuthenticationValue(s.authentication))
      && Get(fields, "limits") == Some(LimitsValue(s.limits))
      && Get(fields, "dataDir") == Some(Str(s.dataDir))
      && Get(fields, "publicBaseUrl") == (if s.publicBaseUrl.Some? then Some(Str(s.publicBaseUrl.value)) else None)
  {
    hide ExecutionValue, PublishedValue, AuthenticationValue, LimitsValue;
  }

  lemma ServerParts(url: UrlParser, v: Value)
    requires ReadServer(url, v).Some?
    ensures var s := ReadServer(url, v).value;
      && v.Obj?
      && ReadExecution(url, Get(v.fields, "execution")) == Some(s.execution)
      && ReadPublished(Get(v.fields, "published")) == Some(s.published)
      && ReadAuthentication(Get(v.fields, "authentication")) == Some(s.authentication)
      && ReadLimits(Get(v.fields, "limits"), s.execution) == Some(s.limits)
      && Clean(s.dataDir)
      && (s.publicBaseUrl.Some? ==> HttpUrl(url, Get(v.fields, "publicBaseUrl")) == s.publicBaseUrl)
  {
    hide ReadExecution, ReadPublished, ReadAuthentication, ReadLimits, HttpUrl, Clean, Get;
  }

  predicate ServerOk(url: UrlParser, s: Server, fields: map<string, Value>) {
    && fields.Keys <= {"execution", "published", "publicBaseUrl", "authentication", "limits", "dataDir"}
    && ReadPublished(Get(fields, "published")) == Some(s.published)
    && ReadAuthentication(Get(fields, "authentication")) == Some(s.authentication)
    && ReadLimits(Get(fields, "limits"), s.execution) == Some(s.limits)
    && ReadText(Get(fields, "dataDir")) == Some(s.dataDir)
    && Optional(Get(fields, "publicBaseUrl"), HttpUrl(url, Get(fields, "publicBaseUrl"))) == Some(s.publicBaseUrl)
  }

  lemma ServerForm(url: UrlParser, s: Server, fields: map<string, Value>)
    requires ServerOk(url, s, fields)
    ensures ReadServer(url, Obj(fields)) == Some(s) <==>
      ReadExecution(url, Get(fields, "execution")) == Some(s.execution)
  {
    hide Optional, ReadExecution, ReadPublished, ReadAuthentication, ReadLimits, HttpUrl, ReadText, Get;
  }

  lemma IsRecord(s: Server)
    ensures ServerValue(s).Obj?
  {
  }

  lemma ServerBack(url: UrlParser, v: Value)
    requires UrlLaws(url) && ReadServer(url, v).Some?
    ensures var s := ReadServer(url, v).value;
      ReadServer(url, ServerValue(s)) == Some(s) <==> ExecutionStable(s.execution)
  {
    hide ReadServer, ReadExecution, ReadPublished, ReadAuthentication, ReadLimits, HttpUrl, ReadText, UrlLaws, Get,
      Clean, ExecutionStable, ServerValue, ExecutionValue, PublishedValue, AuthenticationValue, LimitsValue;
    var s := ReadServer(url, v).value;
    ServerParts(url, v);
    ExecutionBack(url, Get(v.fields, "execution"));
    PublishedBack(Get(v.fields, "published"));
    AuthenticationBack(Get(v.fields, "authentication"));
    LimitsBack(Get(v.fields, "limits"), s.execution);
    TextBack(s.dataDir);
    if s.publicBaseUrl.Some? {
      UrlBack(url, Get(v.fields, "publicBaseUrl"));
    }
    ServerFields(s);
    assert ServerValue(s).Obj? by { IsRecord(s); }
    ServerForm(url, s, ServerValue(s).fields);
  }

  lemma AgentBack(url: UrlParser, v: Value)
    requires UrlLaws(url) && ReadAgent(url, v).Some?
    ensures ReadAgent(url, AgentValue(ReadAgent(url, v).value)) == ReadAgent(url, v)
  {
    hide HttpUrl, ToText, IsEnvironmentName, UrlLaws, Clean;
    var a := ReadAgent(url, v).value;
    UrlBack(url, Get(v.fields, "cardUrl"));
    if a.credentialEnv.Some? {
      TextBack(a.credentialEnv.value);
    }
    hide ReadText;
    var fields := AgentValue(a).fields;
    assert Get(fields, "cardUrl") == Some(Str(a.cardUrl)) && Get(fields, "effect") == Some(a.effect);
    assert Get(fields, "credentialEnv") == if a.credentialEnv.Some? then Some(Str(a.credentialEnv.value)) else None;
  }

  lemma AgentsBack(url: UrlParser, v: Option<Value>)
    requires UrlLaws(url) && ReadAgents(url, v).Some?
    ensures var agents := ReadAgents(url, v).value;
      ReadAgents(url, Some(Obj(map name | name in agents :: AgentValue(agents[name])))) == Some(agents)
  {
    hide ReadAgent, AgentValue, IsName, UrlLaws;
    var agents := ReadAgents(url, v).value;
    var w := map name | name in agents :: AgentValue(agents[name]);
    forall name | name in agents ensures IsName(name) && ReadAgent(url, w[name]) == Some(agents[name]) {
      AgentBack(url, v.value.fields[name]);
    }
    assert AllAgents(url, w);
    assert ReadAgents(url, Some(Obj(w))).value == agents;
  }

  /** The fixed root does not end in white space, and each skill's normalised script paths
      are different and do not end in white space either. */
  predicate Stable(d: Document) {
    d.server.Some? ==> ExecutionStable(d.server.value.execution)
  }

  /** Parsing an accepted document's result again gives that result, default limits and the
      forced single task included, exactly when it is stable. */
  lemma FixedPoint(url: UrlParser, v: Value)
    requires UrlLaws(url) && Parse(url, v).Some?
    ensures var d := Parse(url, v).value;
      Parse(url, DocumentValue(d)) == Some(d) <==> Stable(d)
  {
    hide ReadAgents, ReadServer, UrlLaws, ServerValue, AgentValue, ExecutionStable;
    var d := Parse(url, v).value;
    AgentsBack(url, Get(v.fields, "agents"));
    if d.server.Some? {
      ServerBack(url, v.fields["server"]);
    }
    var fields := DocumentValue(d).fields;
    assert Get(fields, "agents") == Some(Obj(map name | name in d.agents :: AgentValue(d.agents[name])));
    assert d.server.Some? ==> fields["server"] == ServerValue(d.server.value);
  }
}
