/** The revision of a tool policy: the text `stableHash` digests for a validated policy
    (src/runtime-agent-binding.ts, lines 203-207, 292-300, 728 and 810). */
module PolicyRevision {
  import opened Options
  import opened Sorting
  import opened JsonText
  import opened StableJson
  import opened HashInput
  import opened ToolPolicy

  // ----- text as code units

  function CharUnits(c: char): JsString {
    var n := c as int;
    if n < 0x10000 then [n as Unit]
    else [(0xD800 + (n - 0x10000) / 0x400) as Unit, (0xDC00 + (n - 0x10000) % 0x400) as Unit]
  }

  /** UTF-16. */
  function Units(s: string): JsString {
    if s == "" then [] else CharUnits(s[0]) + Units(s[1..])
  }

  lemma CharOnce(a: char, x: JsString, b: char, y: JsString)
    requires CharUnits(a) + x == CharUnits(b) + y
    ensures a == b && x == y
  {
    var u, v := CharUnits(a), CharUnits(b);
    assert (u + x)[0] == u[0] && (v + y)[0] == v[0];
    assert |u| == |v|;
    assert (u + x)[..|u|] == u && (v + y)[..|v|] == v && (u + x)[|u|..] == x && (v + y)[|v|..] == y;
    assert u == v;
    assert |u| == 2 ==> u[1] == v[1];
    assert a as int == b as int;
  }

  lemma {:induction false} UnitsOnce(s: string, t: string)
    requires Units(s) == Units(t)
    ensures s == t
  {
    if s != "" && t != "" {
      CharOnce(s[0], Units(s[1..]), t[0], Units(t[1..]));
      UnitsOnce(s[1..], t[1..]);
      assert s == [s[0]] + s[1..] && t == [t[0]] + t[1..];
    }
  }

  // ----- a policy as a JSON value

  function Encode(fields: seq<(string, Json)>): (members: seq<(JsString, Json)>)
    ensures |members| == |fields|
    ensures forall i | 0 <= i < |fields| :: members[i] == (Units(fields[i].0), fields[i].1)
  {
    seq(|fields|, i requires 0 <= i < |fields| => (Units(fields[i].0), fields[i].1))
  }

  function TextJson(s: string): Json {
    String(Units(s))
  }

  function TextsJson(xs: seq<string>): Json {
    Array(seq(|xs|, i requires 0 <= i < |xs| => TextJson(xs[i])))
  }

  function MapFields(m: NameMap): (fields: seq<(string, Json)>)
    ensures |fields| == |m| && Keys(fields) == Keys(m)
  {
    seq(|m|, i requires 0 <= i < |m| => (m[i].0, TextsJson(m[i].1)))
  }

  function MapJson(m: NameMap): Json {
    Object(Encode(MapFields(m)))
  }

  function ModeText(n: Network): string {
    if n.Deny? then "deny" else "allowlist"
  }

  function NetworkFields(n: Network): seq<(string, Json)> {
    match n
    case Deny => [("mode", TextJson(ModeText(n)))]
    case Allow(origins) => [("mode", TextJson(ModeText(n))), ("origins", TextsJson(origins))]
  }

  function WorkspaceText(w: Workspace): string {
    match w
    case NoWorkspace => "none"
    case Read => "read"
    case Write => "write"
  }

  function ProcessText(p: Process): string {
    if p.NoProcess? then "deny" else "isolated"
  }

  function SubagentsText(s: Subagents): string {
    if s.NoSubagents? then "deny" else "inherit"
  }

  /** The members in the order `validatedToolPolicy` writes them. */
  function Fields(p: Policy): seq<(string, Json)> {
    [("workspace", TextJson(WorkspaceText(p.workspace))),
     ("process", TextJson(ProcessText(p.process))),
     ("network", Object(Encode(NetworkFields(p.network)))),
     ("tools", TextsJson(p.tools)),
     ("mcp", MapJson(p.mcp)),
     ("skillScripts", MapJson(p.skillScripts)),
     ("subagents", TextJson(SubagentsText(p.subagents)))]
  }

  function PolicyJson(p: Policy): Json {
    Object(Encode(Fields(p)))
  }

  function RevisionText(lt: KeyOrder, p: Policy): Option<JsString> {
    HashText(lt, PolicyJson(p))
  }

  /** The order of keys is the one the normaliser sorted by. */
  ghost predicate Agrees(lt: KeyOrder, host: Host) {
    StrictWeak(lt) && forall x, y :: lt(Units(x), Units(y)) == host.locale(x, y)
  }

  // ----- the value has nothing undefined, and no key twice

  predicate Complete(v: Json)
    decreases v
  {
    match v
    case Undefined => false
    case Array(items) => forall i | 0 <= i < |items| :: Complete(items[i])
    case Object(members) => forall i | 0 <= i < |members| :: Complete(members[i].1)
    case _ => true
  }

  lemma {:induction false} DropNothing(v: Json)
    requires Complete(v)
    ensures Drop(v) == v
    decreases v
  {
    match v
    case Array(items) =>
      forall i | 0 <= i < |items| ensures Drop(items[i]) == items[i] && !items[i].Undefined? {
        DropNothing(items[i]);
      }
      assert Drop(v).items == items;
    case Object(members) =>
      forall i | 0 <= i < |members| ensures Drop(members[i].1) == members[i].1 && !members[i].1.Undefined? {
        DropNothing(members[i].1);
      }
      DropNoMember(members);
    case _ =>
  }

  lemma {:induction false} DropNoMember(members: seq<(JsString, Json)>)
    requires forall i | 0 <= i < |members| :: Drop(members[i].1) == members[i].1 && !members[i].1.Undefined?
    ensures DropMembers(members) == members
  {
    hide Drop;
    if members != [] {
      DropNoMember(members[1..]);
      assert members == [members[0]] + members[1..];
    }
  }

  lemma EncodeDistinct(fields: seq<(string, Json)>)
    requires Distinct(Keys(fields))
    ensures Distinct(Keys(Encode(fields)))
  {
    var keys := Keys(Encode(fields));
    forall i, j | 0 <= i < j < |keys| ensures keys[i] != keys[j] {
      assert keys[i] == Units(Keys(fields)[i]) && keys[j] == Units(Keys(fields)[j]);
      if keys[i] == keys[j] {
        UnitsOnce(Keys(fields)[i], Keys(fields)[j]);
      }
    }
  }

  predicate Fine(v: Json) {
    Complete(v) && WellFormed(v)
  }

  lemma ObjectFine(fields: seq<(string, Json)>)
    requires Distinct(Keys(fields)) && forall i | 0 <= i < |fields| :: Fine(fields[i].1)
    ensures Fine(Object(Encode(fields)))
  {
    EncodeDistinct(fields);
    hide Distinct, Keys;
  }

  lemma TextFine(s: string)
    ensures Fine(TextJson(s))
  {
  }

  lemma TextsFine(xs: seq<string>)
    ensures Fine(TextsJson(xs))
  {
    hide Units;
    var items := TextsJson(xs).items;
    forall i | 0 <= i < |items| ensures Fine(items[i]) {
      TextFine(xs[i]);
    }
  }

  lemma MapFine(m: NameMap)
    requires Distinct(Keys(m))
    ensures Fine(MapJson(m))
  {
    forall i | 0 <= i < |m| ensures Fine(MapFields(m)[i].1) {
      TextsFine(m[i].1);
    }
    hide Fine, TextsJson;
    ObjectFine(MapFields(m));
  }

  lemma NetworkFine(n: Network)
    ensures Distinct(Keys(NetworkFields(n))) && Fine(Object(Encode(NetworkFields(n))))
  {
    var fields := NetworkFields(n);
    if n.Allow? {
      TextsFine(n.origins);
    }
    assert forall i | 0 <= i < |fields| :: Fine(fields[i].1) by { hide TextsJson, Units; }
    assert Distinct(Keys(fields));
    hide Fine;
    ObjectFine(fields);
  }

  lemma FieldKeys(p: Policy)
    ensures Distinct(Keys(Fields(p)))
    ensures Keys(Fields(p)) == ["workspace", "process", "network", "tools", "mcp", "skillScripts", "subagents"]
  {
    hide TextJson, TextsJson, MapJson, Encode;
  }

  lemma FieldsFine(p: Policy)
    requires Distinct(Keys(p.mcp)) && Distinct(Keys(p.skillScripts))
    ensures Fine(PolicyJson(p))
  {
    hide Fine, TextJson, TextsJson, MapJson, Encode, Distinct, Keys;
    var fields := Fields(p);
    forall i | 0 <= i < |fields| ensures Fine(fields[i].1) {
      TextFine(WorkspaceText(p.workspace));
      TextFine(ProcessText(p.process));
      NetworkFine(p.network);
      TextsFine(p.tools);
      MapFine(p.mcp);
      MapFine(p.skillScripts);
      TextFine(SubagentsText(p.subagents));
    }
    FieldKeys(p);
    hide Fields;
    ObjectFine(fields);
  }

  // ----- the parts of a policy are canonical, and so are told apart

  lemma TextsCanon(lt: KeyOrder, xs: seq<string>)
    ensures Canon(lt, TextsJson(xs)) == TextsJson(xs)
  {
    hide Units;
    assert Canon(lt, TextsJson(xs)).items == TextsJson(xs).items;
  }

  lemma TextsOnce(xs: seq<string>, ys: seq<string>)
    requires TextsJson(xs) == TextsJson(ys)
    ensures xs == ys
  {
    assert |xs| == |TextsJson(xs).items| == |ys|;
    forall i | 0 <= i < |xs| ensures xs[i] == ys[i] {
      assert TextsJson(xs).items[i] == TextsJson(ys).items[i];
      UnitsOnce(xs[i], ys[i]);
    }
  }

  /** A normal map is in the order the hash uses already. */
  lemma MapCanon(lt: KeyOrder, host: Host, m: NameMap)
    requires Agrees(lt, host) && NormalMap(host, m)
    ensures Canon(lt, MapJson(m)) == MapJson(m)
  {
    var members := Encode(MapFields(m));
    EncodeDistinct(MapFields(m));
    assert Sorted(lt, Keys(members)) by {
      assert forall i | 0 <= i < |m| :: Keys(members)[i] == Units(Keys(m)[i]);
    }
    hide StrictWeak, Sorted, Distinct, NormalList;
    ArrangeAgain(lt, members);
    forall i | 0 <= i < |m| ensures Canon(lt, members[i].1) == members[i].1 {
      TextsCanon(lt, m[i].1);
    }
    CanonMembersSame(lt, members);
  }

  lemma CanonMembersSame(lt: KeyOrder, members: seq<(JsString, Json)>)
    requires Arrange(lt, members) == members
    requires forall i | 0 <= i < |members| :: Canon(lt, members[i].1) == members[i].1
    ensures Canon(lt, Object(members)) == Object(members)
  {
    assert Canon(lt, Object(members)).members == members;
  }

  lemma MapOnce(a: NameMap, b: NameMap)
    requires MapJson(a) == MapJson(b)
    ensures a == b
  {
    var x, y := Encode(MapFields(a)), Encode(MapFields(b));
    assert x == y && |a| == |x| == |b|;
    forall i | 0 <= i < |a| ensures a[i] == b[i] {
      assert x[i] == y[i];
      UnitsOnce(a[i].0, b[i].0);
      TextsOnce(a[i].1, b[i].1);
    }
  }

  lemma FieldCanon(lt: KeyOrder, a: seq<(string, Json)>, b: seq<(string, Json)>, i: nat)
    requires Distinct(Keys(a)) && Distinct(Keys(b)) && i < |a| && i < |b| && a[i].0 == b[i].0
    requires Canon(lt, Object(Encode(a))) == Canon(lt, Object(Encode(b)))
    ensures Canon(lt, a[i].1) == Canon(lt, b[i].1)
  {
    EncodeDistinct(a);
    EncodeDistinct(b);
    hide Canon, Distinct;
    MemberCanon(lt, Encode(a), Encode(b), i, i);
  }

  lemma WordCanon(lt: KeyOrder, s: string, t: string)
    requires Canon(lt, TextJson(s)) == Canon(lt, TextJson(t))
    ensures s == t
  {
    hide Units;
    UnitsOnce(s, t);
  }

  lemma NetworkOnce(lt: KeyOrder, m: Network, n: Network)
    requires Canon(lt, Object(Encode(NetworkFields(m)))) == Canon(lt, Object(Encode(NetworkFields(n))))
    ensures m == n
  {
    NetworkFine(m);
    NetworkFine(n);
    var a, b := NetworkFields(m), NetworkFields(n);
    hide Encode, Keys, Distinct, Fine, Canon, TextJson, TextsJson, ModeText;
    FieldCanon(lt, a, b, 0);
    WordCanon(lt, ModeText(m), ModeText(n));
    ModeOnce(m, n);
    if m.Allow? {
      FieldCanon(lt, a, b, 1);
      TextsCanon(lt, m.origins);
      TextsCanon(lt, n.origins);
      TextsOnce(m.origins, n.origins);
    }
  }

  lemma ModeOnce(m: Network, n: Network)
    requires ModeText(m) == ModeText(n)
    ensures m.Deny? == n.Deny?
  {
    assert "deny"[0] == 'd' && "allowlist"[0] == 'a';
  }

  // ----- main results

  lemma SameField(lt: KeyOrder, p: Policy, q: Policy, i: nat)
    requires i < 7 && Canon(lt, PolicyJson(p)) == Canon(lt, PolicyJson(q))
    ensures Canon(lt, Fields(p)[i].1) == Canon(lt, Fields(q)[i].1)
  {
    hide Canon, Encode, Distinct, TextJson, TextsJson, MapJson;
    FieldKeys(p);
    FieldKeys(q);
    assert Fields(p)[i].0 == Keys(Fields(p))[i] == Fields(q)[i].0;
    hide Fields;
    FieldCanon(lt, Fields(p), Fields(q), i);
  }

  lemma FieldsAt(p: Policy)
    ensures Fields(p)[0].1 == TextJson(WorkspaceText(p.workspace))
    ensures Fields(p)[1].1 == TextJson(ProcessText(p.process))
    ensures Fields(p)[2].1 == Object(Encode(NetworkFields(p.network)))
    ensures Fields(p)[3].1 == TextsJson(p.tools)
    ensures Fields(p)[4].1 == MapJson(p.mcp) && Fields(p)[5].1 == MapJson(p.skillScripts)
    ensures Fields(p)[6].1 == TextJson(SubagentsText(p.subagents))
  {
    hide TextJson, TextsJson, MapJson, Encode;
  }

  lemma WordsOnce(p: Policy, q: Policy)
    requires WorkspaceText(p.workspace) == WorkspaceText(q.workspace)
    requires ProcessText(p.process) == ProcessText(q.process)
    requires SubagentsText(p.subagents) == SubagentsText(q.subagents)
    ensures p.workspace == q.workspace && p.process == q.process && p.subagents == q.subagents
  {
    assert "none"[0] == 'n' && "read"[0] == 'r' && "write"[0] == 'w';
    assert "deny"[0] == 'd' && "isolated"[0] == 'i' && "inherit"[0] == 'i';
  }

  lemma SameWords(lt: KeyOrder, p: Policy, q: Policy)
    requires Canon(lt, PolicyJson(p)) == Canon(lt, PolicyJson(q))
    ensures p.workspace == q.workspace && p.process == q.process && p.subagents == q.subagents
  {
    SameField(lt, p, q, 0);
    SameField(lt, p, q, 1);
    SameField(lt, p, q, 6);
    FieldsAt(p);
    FieldsAt(q);
    hide *;
    WordCanon(lt, WorkspaceText(p.workspace), WorkspaceText(q.workspace));
    WordCanon(lt, ProcessText(p.process), ProcessText(q.process));
    WordCanon(lt, SubagentsText(p.subagents), SubagentsText(q.subagents));
    WordsOnce(p, q);
  }

  lemma SameLists(lt: KeyOrder, host: Host, p: Policy, q: Policy)
    requires Agrees(lt, host) && Normal(host, p) && Normal(host, q)
    requires Canon(lt, PolicyJson(p)) == Canon(lt, PolicyJson(q))
    ensures p.network == q.network && p.tools == q.tools && p.mcp == q.mcp && p.skillScripts == q.skillScripts
  {
    SameField(lt, p, q, 2);
    SameField(lt, p, q, 3);
    SameField(lt, p, q, 4);
    SameField(lt, p, q, 5);
    FieldsAt(p);
    FieldsAt(q);
    hide Canon, TextJson, TextsJson, MapJson, Encode, Fields, Agrees, NormalMap, NormalList, PolicyJson;
    NetworkOnce(lt, p.network, q.network);
    TextsCanon(lt, p.tools);
    TextsCanon(lt, q.tools);
    TextsOnce(p.tools, q.tools);
    MapsOnce(lt, host, p.mcp, q.mcp);
    MapsOnce(lt, host, p.skillScripts, q.skillScripts);
  }

  lemma MapsOnce(lt: KeyOrder, host: Host, a: NameMap, b: NameMap)
    requires Agrees(lt, host) && NormalMap(host, a) && NormalMap(host, b)
    requires Canon(lt, MapJson(a)) == Canon(lt, MapJson(b))
    ensures a == b
  {
    hide Agrees, NormalMap, Canon, MapJson;
    MapCanon(lt, host, a);
    MapCanon(lt, host, b);
    MapOnce(a, b);
  }

  /** What is hashed for a policy is its canonical form, and that is never nothing. */
  lemma RevisionIsCanon(lt: KeyOrder, host: Host, p: Policy)
    requires Agrees(lt, host) && Normal(host, p)
    ensures WellFormed(PolicyJson(p)) && RevisionText(lt, p) == Some(Print(Canon(lt, PolicyJson(p))))
  {
    FieldsFine(p);
    DropNothing(PolicyJson(p));
    DropCommutes(lt, PolicyJson(p));
    hide Canon, Print, Drop, CanonicalValue, WellFormed, Complete, Encode, Fields, StrictWeak;
  }

  /** Two validated policies have the same revision text exactly when they are the same. */
  lemma RevisionTellsApart(lt: KeyOrder, host: Host, p: Policy, q: Policy)
    requires Agrees(lt, host) && Normal(host, p) && Normal(host, q)
    ensures RevisionText(lt, p) == RevisionText(lt, q) <==> p == q
  {
    hide *;
    RevisionIsCanon(lt, host, p);
    RevisionIsCanon(lt, host, q);
    PrintOnce(lt, PolicyJson(p), PolicyJson(q));
    if RevisionText(lt, p) == RevisionText(lt, q) {
      SameWords(lt, p, q);
      SameLists(lt, host, p, q);
    }
  }

  /** Two accepted policies have the same revision exactly when they grant the same authority
      and keys that tie stand in the same order in both. */
  lemma RevisionIsGrant(lt: KeyOrder, host: Host, p: RawPolicy, q: RawPolicy)
    requires Ordered(host) && Agrees(lt, host)
    requires IsObject(p.mcp) && IsObject(p.skillScripts) && IsObject(q.mcp) && IsObject(q.skillScripts)
    requires Validate(host, p).Ok? && Validate(host, q).Ok?
    ensures p.workspace.Some? && p.process.Some? && p.subagents.Some?
    ensures q.workspace.Some? && q.process.Some? && q.subagents.Some?
    ensures RevisionText(lt, Validate(host, p).value) == RevisionText(lt, Validate(host, q).value) <==>
      GrantOf(p) == GrantOf(q) && KeyTiesAgree(host, p, q)
  {
    hide *;
    ValidNormal(host, p);
    ValidNormal(host, q);
    NormalFormIsGrant(host, p, q);
    RevisionTellsApart(lt, host, Validate(host, p).value, Validate(host, q).value);
  }
}
