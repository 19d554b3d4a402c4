/** The normaliser of tool policies whose output the policy revision hashes
    (src/runtime-agent-binding.ts, lines 244-301). */
module ToolPolicy {
  import opened Options
  import opened JsText
  import opened Sorting

  datatype Workspace = NoWorkspace | Read | Write
  datatype Process = NoProcess | Isolated
  datatype Subagents = NoSubagents | Inherit

  // ----- what a caller may pass

  datatype RawItem = Text(s: string) | NotText
  datatype RawList = NotAList | List(items: seq<RawItem>)
  datatype RawMap = NotAMap | Entries(entries: seq<(string, RawList)>)
  datatype RawNetwork = BadNetwork | DenyAll | Allowlist(origins: RawList)

  /** Enumerations are `None` when the value is not one of theirs. */
  datatype RawPolicy = RawPolicy(
    workspace: Option<Workspace>,
    process: Option<Process>,
    subagents: Option<Subagents>,
    network: RawNetwork,
    skillScripts: RawMap,
    tools: RawList,
    mcp: RawMap)

  // ----- what validation returns

  type NameMap = seq<(string, seq<string>)>

  datatype Network = Deny | Allow(origins: seq<string>)

  datatype Policy = Policy(
    workspace: Workspace,
    process: Process,
    network: Network,
    tools: seq<string>,
    mcp: NameMap,
    skillScripts: NameMap,
    subagents: Subagents)

  datatype ListError = NotAnArray | NotExact | Duplicates
  datatype MapError = NotAnObject | BadKey | InEntry(list: ListError)
  datatype PolicyError =
    | BadWorkspace | BadProcess | BadSubagents | NoNetwork
    | Origins(list: ListError) | NotAnOrigin
    | Scripts(map_: MapError) | ScriptsWithoutProcess
    | Tools(list: ListError) | Mcp(map_: MapError)

  /** The order of `sort`, the order of `localeCompare` on keys (in which different keys
      may tie), and the strings that are their own HTTP(S) origin. */
  datatype Host = Host(units: (string, string) -> bool, locale: (string, string) -> bool, isOrigin: string -> bool)

  ghost predicate Ordered(host: Host) {
    StrictTotal(host.units) && StrictWeak(host.locale)
  }

  // ----- validation

  predicate Exact(item: RawItem) {
    item.Text? && Trim(item.s) != "" && '*' !in item.s
  }

  predicate AllExact(items: seq<RawItem>) {
    forall i | 0 <= i < |items| :: Exact(items[i])
  }

  function Name(item: RawItem): string {
    if item.Text? then Trim(item.s) else ""
  }

  function Names(items: seq<RawItem>): (names: seq<string>)
    ensures |names| == |items|
    ensures forall i | 0 <= i < |items| :: names[i] == Name(items[i])
  {
    seq(|items|, i requires 0 <= i < |items| => Name(items[i]))
  }

  function ExactList(host: Host, raw: RawList, allowEmpty: bool): Result<seq<string>, ListError> {
    if raw.NotAList? || (!allowEmpty && raw.items == []) then Err(NotAnArray)
    else if !AllExact(raw.items) then Err(NotExact)
    else if !Distinct(Names(raw.items)) then Err(Duplicates)
    else Ok(Sort(host.units, Names(raw.items)))
  }

  function ExactEntries(host: Host, entries: seq<(string, RawList)>): Result<NameMap, MapError> {
    if entries == [] then Ok([])
    else if entries[0].0 == "" || '*' in entries[0].0 then Err(BadKey)
    else
      match ExactList(host, entries[0].1, false)
      case Err(e) => Err(InEntry(e))
      case Ok(names) =>
        match ExactEntries(host, entries[1..])
        case Err(e) => Err(e)
        case Ok(rest) => Ok([(entries[0].0, names)] + rest)
  }

  function ExactMap(host: Host, raw: RawMap): Result<NameMap, MapError> {
    if raw.NotAMap? then Err(NotAnObject) else ExactEntries(host, Arrange(host.locale, raw.entries))
  }

  function ExactNetwork(host: Host, raw: RawNetwork): Result<Network, PolicyError> {
    match raw
    case BadNetwork => Err(NoNetwork)
    case DenyAll => Ok(Deny)
    case Allowlist(list) =>
      match ExactList(host, list, true)
      case Err(e) => Err(Origins(e))
      case Ok(origins) =>
        if exists i | 0 <= i < |origins| :: !host.isOrigin(origins[i]) then Err(NotAnOrigin)
        else Ok(Allow(origins))
  }

  function ScriptCount(scripts: NameMap): nat {
    if scripts == [] then 0 else |scripts[0].1| + ScriptCount(scripts[1..])
  }

  function Validate(host: Host, raw: RawPolicy): Result<Policy, PolicyError> {
    if raw.workspace.None? then Err(BadWorkspace)
    else if raw.process.None? then Err(BadProcess)
    else if raw.subagents.None? then Err(BadSubagents)
    else
      match ExactNetwork(host, raw.network)
      case Err(e) => Err(e)
      case Ok(network) =>
        match ExactMap(host, raw.skillScripts)
        case Err(e) => Err(Scripts(e))
        case Ok(scripts) =>
          if raw.process.value.NoProcess? != (ScriptCount(scripts) == 0) then Err(ScriptsWithoutProcess)
          else
            match ExactList(host, raw.tools, true)
            case Err(e) => Err(Tools(e))
            case Ok(tools) =>
              match ExactMap(host, raw.mcp)
              case Err(e) => Err(Mcp(e))
              case Ok(mcp) =>
                Ok(Policy(raw.workspace.value, raw.process.value, network, tools, mcp, scripts, raw.subagents.value))
  }

  // ----- passing the result in again

  function RawNames(names: seq<string>): RawList {
    List(seq(|names|, i requires 0 <= i < |names| => Text(names[i])))
  }

  function RawEntries(m: NameMap): seq<(string, RawList)> {
    seq(|m|, i requires 0 <= i < |m| => (m[i].0, RawNames(m[i].1)))
  }

  function Again(p: Policy): RawPolicy {
    RawPolicy(Some(p.workspace), Some(p.process), Some(p.subagents),
              if p.network.Deny? then DenyAll else Allowlist(RawNames(p.network.origins)),
              Entries(RawEntries(p.skillScripts)), RawNames(p.tools), Entries(RawEntries(p.mcp)))
  }

  predicate ExactName(name: string) {
    Trim(name) == name != "" && '*' !in name
  }

  /** A list of trimmed exact names, sorted, none twice. */
  ghost predicate NormalList(host: Host, names: seq<string>) {
    Sorted(host.units, names) && Distinct(names) && forall name | name in names :: ExactName(name)
  }

  ghost predicate NormalMap(host: Host, m: NameMap) {
    && Sorted(host.locale, Keys(m)) && Distinct(Keys(m))
    && forall i | 0 <= i < |m| :: m[i].0 != "" && '*' !in m[i].0 && m[i].1 != [] && NormalList(host, m[i].1)
  }

  lemma {:induction false} TrimWithin(s: string, c: char)
    requires c in Trim(s)
    ensures c in s
  {
    TrimEndWithin(TrimStart(s), c);
    TrimStartWithin(s, c);
  }

  lemma {:induction false} TrimStartWithin(s: string, c: char)
    requires c in TrimStart(s)
    ensures c in s
  {
    if s != "" && IsSpace(s[0]) {
      TrimStartWithin(s[1..], c);
    }
  }

  lemma {:induction false} TrimEndWithin(s: string, c: char)
    requires c in TrimEnd(s)
    ensures c in s
  {
    if s != "" && IsSpace(s[|s| - 1]) {
      TrimEndWithin(s[..|s| - 1], c);
    }
  }

  lemma ExactNames(item: RawItem)
    requires Exact(item)
    ensures ExactName(Name(item))
  {
    hide Trim;
    assert Trim(Name(item)) == Name(item) by { TrimTwice(item.s); }
    if '*' in Name(item) {
      TrimWithin(item.s, '*');
    }
  }

  lemma TrimTwice(s: string)
    ensures Trim(Trim(s)) == Trim(s)
  {
  }

  lemma ListNormal(host: Host, raw: RawList, allowEmpty: bool)
    requires Ordered(host) && ExactList(host, raw, allowEmpty).Ok?
    ensures var names := ExactList(host, raw, allowEmpty).value;
      NormalList(host, names) && (allowEmpty || names != []) && forall s :: s in names <==> s in Names(raw.items)
  {
    var given := Names(raw.items);
    TotalIsWeak(host.units);
    SortMembers(host.units, given);
    hide Sort, Exact, ExactName, StrictTotal, StrictWeak, Sorted, Distinct, Trim;
    var names := Sort(host.units, given);
    forall name | name in names ensures ExactName(name) {
      var j :| 0 <= j < |given| && given[j] == name;
      ExactNames(raw.items[j]);
    }
  }

  // ----- validating twice changes nothing

  lemma ListAgain(host: Host, names: seq<string>, allowEmpty: bool)
    requires Ordered(host) && NormalList(host, names) && (allowEmpty || names != [])
    ensures ExactList(host, RawNames(names), allowEmpty) == Ok(names)
  {
    var items := RawNames(names).items;
    forall i | 0 <= i < |names| ensures Exact(items[i]) && Names(items)[i] == names[i] {
      assert ExactName(names[i]);
    }
    assert Names(items) == names;
    hide Exact, ExactName;
    SortCanonical(host.units, names, names);
  }

  ghost predicate NormalEntries(host: Host, m: NameMap) {
    forall i | 0 <= i < |m| :: m[i].0 != "" && '*' !in m[i].0 && m[i].1 != [] && NormalList(host, m[i].1)
  }

  lemma {:induction false} EntriesAgain(host: Host, m: NameMap)
    requires Ordered(host) && NormalEntries(host, m)
    ensures ExactEntries(host, RawEntries(m)) == Ok(m)
  {
    hide Ordered, NormalList, ExactList, RawNames;
    if m != [] {
      ListAgain(host, m[0].1, false);
      EntriesAgain(host, m[1..]);
      assert RawEntries(m)[1..] == RawEntries(m[1..]);
      assert m == [(m[0].0, m[0].1)] + m[1..];
    }
  }

  lemma MapAgain(host: Host, m: NameMap)
    requires Ordered(host) && NormalMap(host, m)
    ensures ExactMap(host, Entries(RawEntries(m))) == Ok(m)
  {
    hide NormalList;
    assert Keys(RawEntries(m)) == Keys(m);
    ArrangeAgain(host.locale, RawEntries(m));
    EntriesAgain(host, m);
  }

  lemma {:induction false} EntriesNormal(host: Host, entries: seq<(string, RawList)>)
    requires Ordered(host) && ExactEntries(host, entries).Ok?
    ensures var m := ExactEntries(host, entries).value;
      |m| == |entries| && Keys(m) == Keys(entries) && NormalEntries(host, m)
      && forall i | 0 <= i < |m| :: ExactList(host, entries[i].1, false) == Ok(m[i].1)
  {
    hide Ordered, NormalList, ExactList;
    if entries != [] {
      ListNormal(host, entries[0].1, false);
      EntriesNormal(host, entries[1..]);
      var m := ExactEntries(host, entries).value;
      assert forall i | 0 < i < |m| :: m[i] == m[1..][i - 1] && entries[i] == entries[1..][i - 1];
    }
  }

  lemma MapNormal(host: Host, raw: RawMap)
    requires Ordered(host) && ExactMap(host, raw).Ok? && (raw.Entries? ==> Distinct(Keys(raw.entries)))
    ensures NormalMap(host, ExactMap(host, raw).value)
  {
    hide NormalList;
    EntriesNormal(host, Arrange(host.locale, raw.entries));
    SortSorted(host.locale, Keys(raw.entries));
    ArrangeMembers(host.locale, raw.entries);
  }

  /** An object has no key twice. */
  predicate IsObject(raw: RawMap) {
    raw.Entries? ==> Distinct(Keys(raw.entries))
  }

  ghost predicate Normal(host: Host, p: Policy) {
    && NormalList(host, p.tools) && NormalMap(host, p.mcp) && NormalMap(host, p.skillScripts)
    && (p.process.NoProcess? <==> ScriptCount(p.skillScripts) == 0)
    && (p.network.Allow? ==>
          && NormalList(host, p.network.origins)
          && forall i | 0 <= i < |p.network.origins| :: host.isOrigin(p.network.origins[i]))
  }

  lemma ValidNormal(host: Host, raw: RawPolicy)
    requires Ordered(host) && IsObject(raw.mcp) && IsObject(raw.skillScripts) && Validate(host, raw).Ok?
    ensures Normal(host, Validate(host, raw).value)
  {
    hide Ordered, NormalList, NormalMap, ExactList, ExactMap, Distinct;
    ListNormal(host, raw.tools, true);
    MapNormal(host, raw.mcp);
    MapNormal(host, raw.skillScripts);
    if raw.network.Allowlist? {
      ListNormal(host, raw.network.origins, true);
    }
  }

  lemma NormalAgain(host: Host, p: Policy)
    requires Ordered(host) && Normal(host, p)
    ensures Validate(host, Again(p)) == Ok(p)
  {
    hide Ordered, NormalList, NormalMap, ExactList, ExactMap, RawNames, RawEntries;
    ListAgain(host, p.tools, true);
    MapAgain(host, p.mcp);
    MapAgain(host, p.skillScripts);
    if p.network.Allow? {
      ListAgain(host, p.network.origins, true);
    }
  }

  /** Validation is idempotent: an accepted policy is accepted again, unchanged. */
  lemma Idempotent(host: Host, raw: RawPolicy)
    requires Ordered(host) && IsObject(raw.mcp) && IsObject(raw.skillScripts) && Validate(host, raw).Ok?
    ensures Validate(host, Again(Validate(host, raw).value)) == Validate(host, raw)
  {
    ValidNormal(host, raw);
    NormalAgain(host, Validate(host, raw).value);
  }

  // ----- order does not matter

  predicate SameItems(a: RawList, b: RawList) {
    a == b || (a.List? && b.List? && multiset(a.items) == multiset(b.items))
  }

  ghost predicate SameEntries(a: RawMap, b: RawMap) {
    a == b ||
    (a.Entries? && b.Entries? && IsObject(a) && IsObject(b)
     && (forall k :: k in Keys(a.entries) <==> k in Keys(b.entries))
     && forall k | k in Keys(a.entries) && k in Keys(b.entries) ::
          SameItems(Lookup(a.entries, k), Lookup(b.entries, k)))
  }

  /** Equal but for the order of list entries and of map keys, anywhere. */
  ghost predicate Reordered(p: RawPolicy, q: RawPolicy) {
    && p.workspace == q.workspace && p.process == q.process && p.subagents == q.subagents
    && (p.network == q.network ||
        (p.network.Allowlist? && q.network.Allowlist? && SameItems(p.network.origins, q.network.origins)))
    && SameEntries(p.skillScripts, q.skillScripts) && SameItems(p.tools, q.tools) && SameEntries(p.mcp, q.mcp)
  }

  function Without<T>(s: seq<T>, j: nat): (r: seq<T>)
    requires j < |s|
    ensures |r| == |s| - 1
  {
    s[..j] + s[j + 1..]
  }

  lemma TakeOut<T>(s: seq<T>, j: nat)
    requires j < |s|
    ensures multiset(s) == multiset(Without(s, j)) + multiset{s[j]}
  {
    assert s == s[..j] + [s[j]] + s[j + 1..];
  }

  lemma NamesOut(a: seq<RawItem>, j: nat)
    requires j < |a|
    ensures multiset(Names(a)) == multiset(Names(Without(a, j))) + multiset{Name(a[j])}
  {
    TakeOut(Names(a), j);
    assert Names(Without(a, j)) == Without(Names(a), j);
  }

  lemma Occurrence(a: seq<RawItem>, x: RawItem) returns (j: nat)
    requires x in multiset(a)
    ensures j < |a| && a[j] == x
  {
    j :| 0 <= j < |a| && a[j] == x;
  }

  lemma {:induction false} NamesMultiset(a: seq<RawItem>, b: seq<RawItem>)
    requires multiset(a) == multiset(b)
    ensures multiset(Names(a)) == multiset(Names(b))
    decreases |a|
  {
    hide Without, Names, Name;
    if a == [] {
      assert |b| == |multiset(b)| == 0;
    } else {
      assert a[0] in multiset(a);
      var j := Occurrence(b, a[0]);
      TakeOut(a, 0);
      TakeOut(b, j);
      Cancel(multiset(Without(a, 0)), multiset(Without(b, j)), a[0]);
      NamesMultiset(Without(a, 0), Without(b, j));
      NamesOut(a, 0);
      NamesOut(b, j);
    }
  }

  lemma Cancel<T>(a: multiset<T>, b: multiset<T>, x: T)
    requires a + multiset{x} == b + multiset{x}
    ensures a == b
  {
    assert a == a + multiset{x} - multiset{x};
    assert b == b + multiset{x} - multiset{x};
  }

  lemma ListOrder(host: Host, a: RawList, b: RawList, allowEmpty: bool)
    requires StrictTotal(host.units) && SameItems(a, b)
    ensures ExactList(host, a, allowEmpty) == ExactList(host, b, allowEmpty)
  {
    if a != b {
      ItemsOrder(a.items, b.items);
      hide Names, AllExact, Distinct, Sort, StrictTotal;
      SortCanonical(host.units, Names(a.items), Names(b.items));
    }
  }

  lemma ItemsOrder(a: seq<RawItem>, b: seq<RawItem>)
    requires multiset(a) == multiset(b)
    ensures |a| == |b| && AllExact(a) == AllExact(b) && Distinct(Names(a)) == Distinct(Names(b))
    ensures multiset(Names(a)) == multiset(Names(b))
  {
    assert |a| == |multiset(a)| == |multiset(b)| == |b|;
    NamesMultiset(a, b);
    hide Names, AllExact, Distinct;
    if AllExact(a) { ExactOrder(a, b); }
    if AllExact(b) { ExactOrder(b, a); }
    if Distinct(Names(a)) { MultisetDistinct(Names(a), Names(b)); }
    if Distinct(Names(b)) { MultisetDistinct(Names(b), Names(a)); }
  }

  lemma ExactOrder(a: seq<RawItem>, b: seq<RawItem>)
    requires multiset(a) == multiset(b) && AllExact(a)
    ensures AllExact(b)
  {
    forall i | 0 <= i < |b| ensures Exact(b[i]) {
      assert b[i] in multiset(a);
    }
  }

  lemma {:induction false} EntriesOrder(host: Host, a: seq<(string, RawList)>, b: seq<(string, RawList)>)
    requires StrictTotal(host.units) && |a| == |b|
    requires forall i | 0 <= i < |a| :: a[i].0 == b[i].0 && SameItems(a[i].1, b[i].1)
    ensures ExactEntries(host, a) == ExactEntries(host, b)
  {
    hide StrictTotal, ExactList, SameItems;
    if a != [] {
      ListOrder(host, a[0].1, b[0].1, false);
      EntriesOrder(host, a[1..], b[1..]);
    }
  }

  /** Keys of the two maps that tie stand in the same order in both. */
  ghost predicate TiesAgree(host: Host, a: RawMap, b: RawMap) {
    a.Entries? && b.Entries? ==> SameTies(host.locale, Keys(a.entries), Keys(b.entries))
  }

  ghost predicate KeyTiesAgree(host: Host, p: RawPolicy, q: RawPolicy) {
    TiesAgree(host, p.skillScripts, q.skillScripts) && TiesAgree(host, p.mcp, q.mcp)
  }

  lemma MapOrder(host: Host, a: RawMap, b: RawMap)
    requires Ordered(host) && SameEntries(a, b) && TiesAgree(host, a, b)
    ensures ExactMap(host, a) == ExactMap(host, b)
  {
    if a != b {
      SameElements(Keys(a.entries), Keys(b.entries));
      SortTies(host.locale, Keys(a.entries), Keys(b.entries));
      hide SameTies, Sort;
      var r, q := Arrange(host.locale, a.entries), Arrange(host.locale, b.entries);
      assert |Keys(r)| == |Keys(q)|;
      forall i | 0 <= i < |r| ensures r[i].0 == q[i].0 && SameItems(r[i].1, q[i].1) {
        assert r[i].0 == Keys(r)[i] == Keys(q)[i] == q[i].0;
      }
      EntriesOrder(host, r, q);
    }
  }

  /** Policies that differ only in order, but for keys that tie, get the same answer, value
      or error. */
  lemma SameAnswer(host: Host, p: RawPolicy, q: RawPolicy)
    requires Ordered(host) && Reordered(p, q) && KeyTiesAgree(host, p, q)
    ensures Validate(host, p) == Validate(host, q)
  {
    hide ExactList, ExactMap, SameItems, SameEntries, Ordered, TiesAgree;
    Orders(host);
    ListOrder(host, p.tools, q.tools, true);
    MapOrder(host, p.mcp, q.mcp);
    MapOrder(host, p.skillScripts, q.skillScripts);
    if p.network != q.network {
      ListOrder(host, p.network.origins, q.network.origins, true);
    }
  }

  lemma Orders(host: Host)
    requires Ordered(host)
    ensures StrictTotal(host.units) && StrictWeak(host.locale)
  {
  }

  // ----- the normal form is the authority granted

  /** What a policy allows, with no order and no spelling left in it. */
  datatype Grant = Grant(
    workspace: Workspace,
    process: Process,
    origins: Option<set<string>>,
    tools: set<string>,
    mcp: map<string, set<string>>,
    skillScripts: map<string, set<string>>,
    subagents: Subagents)

  function ListGrant(raw: RawList): set<string> {
    if raw.List? then set i | 0 <= i < |raw.items| :: Name(raw.items[i]) else {}
  }

  function MapGrant(raw: RawMap): map<string, set<string>> {
    if raw.Entries? then map k | k in Keys(raw.entries) :: ListGrant(Lookup(raw.entries, k)) else map[]
  }

  function GrantOf(raw: RawPolicy): Grant
    requires raw.workspace.Some? && raw.process.Some? && raw.subagents.Some?
  {
    Grant(raw.workspace.value, raw.process.value,
          if raw.network.Allowlist? then Some(ListGrant(raw.network.origins)) else None,
          ListGrant(raw.tools), MapGrant(raw.mcp), MapGrant(raw.skillScripts), raw.subagents.value)
  }

  lemma ListByGrant(host: Host, a: RawList, b: RawList, allowEmpty: bool)
    requires StrictTotal(host.units) && ExactList(host, a, allowEmpty).Ok? && ExactList(host, b, allowEmpty).Ok?
    ensures ExactList(host, a, allowEmpty) == ExactList(host, b, allowEmpty) <==> ListGrant(a) == ListGrant(b)
  {
    GrantMembers(a);
    GrantMembers(b);
    var m, n := Names(a.items), Names(b.items);
    hide Names, ListGrant, AllExact;
    if ListGrant(a) == ListGrant(b) {
      SameElements(m, n);
      SortCanonical(host.units, m, n);
    }
    if Sort(host.units, m) == Sort(host.units, n) {
      assert multiset(m) == multiset(n);
      assert forall s :: s in m <==> s in multiset(m);
      assert forall s :: s in n <==> s in multiset(n);
      assert ListGrant(a) == ListGrant(b);
    }
  }

  lemma GrantMembers(a: RawList)
    requires a.List?
    ensures forall s :: s in ListGrant(a) <==> s in Names(a.items)
  {
    forall s ensures s in ListGrant(a) <==> s in Names(a.items) {
      if s in ListGrant(a) {
        var i :| 0 <= i < |a.items| && Name(a.items[i]) == s;
        assert Names(a.items)[i] == s;
      }
    }
  }

  predicate SameGrants(a: seq<(string, RawList)>, b: seq<(string, RawList)>)
    requires |a| == |b|
  {
    forall i | 0 <= i < |a| :: ListGrant(a[i].1) == ListGrant(b[i].1)
  }

  lemma SameGrantsStep(a: seq<(string, RawList)>, b: seq<(string, RawList)>)
    requires |a| == |b| > 0
    ensures SameGrants(a, b) <==> ListGrant(a[0].1) == ListGrant(b[0].1) && SameGrants(a[1..], b[1..])
  {
    hide ListGrant;
    if SameGrants(a[1..], b[1..]) {
      assert forall i | 0 < i < |a| :: a[i] == a[1..][i - 1] && b[i] == b[1..][i - 1];
    }
  }

  lemma {:induction false} EntriesByGrant(host: Host, a: seq<(string, RawList)>, b: seq<(string, RawList)>)
    requires StrictTotal(host.units) && Keys(a) == Keys(b) && |a| == |b|
    requires ExactEntries(host, a).Ok? && ExactEntries(host, b).Ok?
    ensures ExactEntries(host, a) == ExactEntries(host, b) <==> SameGrants(a, b)
  {
    hide StrictTotal, ExactList, ListGrant, SameGrants;
    if a == [] {
      assert SameGrants([], []) by { NoGrants(); }
    } else {
      assert a[0].0 == Keys(a)[0] == Keys(b)[0] == b[0].0;
      assert Keys(a[1..]) == Keys(a)[1..] == Keys(b)[1..] == Keys(b[1..]);
      EntriesByGrant(host, a[1..], b[1..]);
      ListByGrant(host, a[0].1, b[0].1, false);
      SameGrantsStep(a, b);
      var m, n := ExactEntries(host, a).value, ExactEntries(host, b).value;
      assert m[1..] == ExactEntries(host, a[1..]).value && n[1..] == ExactEntries(host, b[1..]).value;
    }
  }

  lemma NoGrants()
    ensures SameGrants([], [])
  {
  }

  lemma MapByGrant(host: Host, a: RawMap, b: RawMap)
    requires Ordered(host) && IsObject(a) && IsObject(b) && ExactMap(host, a).Ok? && ExactMap(host, b).Ok?
    ensures ExactMap(host, a) == ExactMap(host, b) <==> MapGrant(a) == MapGrant(b) && TiesAgree(host, a, b)
  {
    hide MapGrant, TiesAgree, IsObject, Ordered, ExactEntries;
    if MapGrant(a) == MapGrant(b) && TiesAgree(host, a, b) {
      MapFromGrant(host, a, b);
    }
    if ExactMap(host, a) == ExactMap(host, b) {
      GrantFromMap(host, a, b);
    }
  }

  lemma MapFromGrant(host: Host, a: RawMap, b: RawMap)
    requires Ordered(host) && IsObject(a) && IsObject(b) && ExactMap(host, a).Ok? && ExactMap(host, b).Ok?
    requires MapGrant(a) == MapGrant(b) && TiesAgree(host, a, b)
    ensures ExactMap(host, a) == ExactMap(host, b)
  {
    Orders(host);
    hide ExactEntries, MapGrant, IsObject, Ordered, SameGrants, TiesAgree, StrictWeak, StrictTotal, Arrange;
    SameByKey(host, a, b);
    EntriesByGrant(host, Arrange(host.locale, a.entries), Arrange(host.locale, b.entries));
  }

  lemma GrantFromMap(host: Host, a: RawMap, b: RawMap)
    requires Ordered(host) && IsObject(a) && IsObject(b)
    requires ExactMap(host, a).Ok? && ExactMap(host, a) == ExactMap(host, b)
    ensures MapGrant(a) == MapGrant(b) && TiesAgree(host, a, b)
  {
    var r, q := Arrange(host.locale, a.entries), Arrange(host.locale, b.entries);
    Orders(host);
    EntriesNormal(host, r);
    EntriesNormal(host, q);
    hide ExactEntries, NormalEntries, MapGrant, Ordered, SameGrants, TiesAgree, StrictWeak, StrictTotal, Arrange;
    ArrangeMembers(host.locale, a.entries);
    ArrangeMembers(host.locale, b.entries);
    EntriesByGrant(host, r, q);
    SameByPlace(a, b, r, q);
    TiesKept(host, a, b);
  }

  lemma GrantKeys(a: RawMap, b: RawMap)
    requires a.Entries? && b.Entries? && IsObject(a) && IsObject(b) && MapGrant(a) == MapGrant(b)
    ensures multiset(Keys(a.entries)) == multiset(Keys(b.entries))
  {
    hide ListGrant;
    assert forall k :: k in Keys(a.entries) <==> k in MapGrant(a);
    assert forall k :: k in Keys(b.entries) <==> k in MapGrant(b);
    SameElements(Keys(a.entries), Keys(b.entries));
  }

  lemma TiesKept(host: Host, a: RawMap, b: RawMap)
    requires StrictWeak(host.locale) && a.Entries? && b.Entries? && IsObject(a) && IsObject(b)
    requires Keys(Arrange(host.locale, a.entries)) == Keys(Arrange(host.locale, b.entries))
    ensures TiesAgree(host, a, b)
  {
    var m, n := Keys(a.entries), Keys(b.entries);
    assert multiset(m) == multiset(Sort(host.locale, m)) == multiset(n);
    SortTies(host.locale, m, n);
  }

  lemma SameByKey(host: Host, a: RawMap, b: RawMap)
    requires StrictWeak(host.locale) && a.Entries? && b.Entries? && IsObject(a) && IsObject(b)
    requires MapGrant(a) == MapGrant(b) && TiesAgree(host, a, b)
    ensures var r, q := Arrange(host.locale, a.entries), Arrange(host.locale, b.entries);
      Keys(r) == Keys(q) && |r| == |q| && SameGrants(r, q)
  {
    hide ListGrant;
    var r, q := Arrange(host.locale, a.entries), Arrange(host.locale, b.entries);
    GrantKeys(a, b);
    SortTies(host.locale, Keys(a.entries), Keys(b.entries));
    hide SameTies, Sort, StrictWeak;
    assert |Keys(r)| == |Keys(q)|;
    forall i | 0 <= i < |r| ensures ListGrant(r[i].1) == ListGrant(q[i].1) {
      assert r[i].0 == Keys(r)[i] == Keys(q)[i] == q[i].0;
      assert MapGrant(a)[r[i].0] == MapGrant(b)[q[i].0];
    }
  }

  lemma SameByPlace(a: RawMap, b: RawMap, r: seq<(string, RawList)>, q: seq<(string, RawList)>)
    requires a.Entries? && b.Entries? && IsObject(a) && IsObject(b) && Keys(r) == Keys(q)
    requires forall m :: m in r <==> m in a.entries
    requires forall m :: m in q <==> m in b.entries
    requires |r| == |q| && SameGrants(r, q)
    ensures MapGrant(a) == MapGrant(b)
  {
    hide ListGrant;
    Covers(a.entries, r);
    Covers(b.entries, q);
    forall k | k in Keys(r) ensures ListGrant(Lookup(a.entries, k)) == ListGrant(Lookup(b.entries, k)) {
      var i :| 0 <= i < |r| && Keys(r)[i] == k;
      assert Keys(q)[i] == k;
      LookupUnique(a.entries, k, r[i].1);
      LookupUnique(b.entries, k, q[i].1);
    }
    assert MapGrant(a).Keys == MapGrant(b).Keys;
  }

  lemma Covers(a: seq<(string, RawList)>, r: seq<(string, RawList)>)
    requires forall m :: m in r <==> m in a
    ensures forall k :: k in Keys(a) <==> k in Keys(r)
  {
    SameKeys(a, r);
    SameKeys(r, a);
  }

  lemma NetworkByGrant(host: Host, a: RawNetwork, b: RawNetwork)
    requires Ordered(host) && ExactNetwork(host, a).Ok? && ExactNetwork(host, b).Ok?
    ensures ExactNetwork(host, a) == ExactNetwork(host, b) <==>
      a.Allowlist? == b.Allowlist? && (a.Allowlist? ==> ListGrant(a.origins) == ListGrant(b.origins))
  {
    hide ExactList, ListGrant;
    if a.Allowlist? && b.Allowlist? {
      ListByGrant(host, a.origins, b.origins, true);
    }
  }

  lemma ValidParts(host: Host, p: RawPolicy)
    requires Validate(host, p).Ok?
    ensures p.workspace.Some? && p.process.Some? && p.subagents.Some?
    ensures ExactNetwork(host, p.network).Ok? && ExactList(host, p.tools, true).Ok?
    ensures ExactMap(host, p.mcp).Ok? && ExactMap(host, p.skillScripts).Ok?
    ensures Validate(host, p).value ==
      Policy(p.workspace.value, p.process.value, ExactNetwork(host, p.network).value,
             ExactList(host, p.tools, true).value, ExactMap(host, p.mcp).value,
             ExactMap(host, p.skillScripts).value, p.subagents.value)
  {
    hide ExactList, ExactMap, ExactNetwork;
  }

  /** Two accepted policies normalise to the same value exactly when they grant the same
      authority and keys that tie stand in the same order in both. */
  lemma NormalFormIsGrant(host: Host, p: RawPolicy, q: RawPolicy)
    requires Ordered(host) && IsObject(p.mcp) && IsObject(p.skillScripts) && IsObject(q.mcp) && IsObject(q.skillScripts)
    requires Validate(host, p).Ok? && Validate(host, q).Ok?
    ensures p.workspace.Some? && p.process.Some? && p.subagents.Some?
    ensures q.workspace.Some? && q.process.Some? && q.subagents.Some?
    ensures Validate(host, p) == Validate(host, q) <==> GrantOf(p) == GrantOf(q) && KeyTiesAgree(host, p, q)
  {
    Orders(host);
    ValidParts(host, p);
    ValidParts(host, q);
    hide Validate, ExactList, ExactMap, ExactNetwork, ListGrant, MapGrant, IsObject, Ordered, StrictTotal, TiesAgree;
    ListByGrant(host, p.tools, q.tools, true);
    MapByGrant(host, p.mcp, q.mcp);
    MapByGrant(host, p.skillScripts, q.skillScripts);
    NetworkByGrant(host, p.network, q.network);
  }

  lemma AgainObject(host: Host, p: Policy)
    requires Normal(host, p)
    ensures IsObject(Again(p).mcp) && IsObject(Again(p).skillScripts)
  {
    assert Keys(RawEntries(p.mcp)) == Keys(p.mcp);
    assert Keys(RawEntries(p.skillScripts)) == Keys(p.skillScripts);
  }

  /** Validation neither adds authority nor takes any away. */
  lemma GrantKept(host: Host, raw: RawPolicy)
    requires Ordered(host) && IsObject(raw.mcp) && IsObject(raw.skillScripts) && Validate(host, raw).Ok?
    ensures raw.workspace.Some? && raw.process.Some? && raw.subagents.Some?
    ensures GrantOf(Again(Validate(host, raw).value)) == GrantOf(raw)
  {
    hide Ordered, IsObject, Validate, Again, Normal, GrantOf;
    var p := Validate(host, raw).value;
    ValidNormal(host, raw);
    AgainObject(host, p);
    Idempotent(host, raw);
    NormalFormIsGrant(host, Again(p), raw);
  }

  // ----- when order does not matter

  /** Policies that differ only in order get the same answer when keys that tie stand in the
      same order in both; an accepted one keeps its value only then. */
  lemma OrderInsensitive(host: Host, p: RawPolicy, q: RawPolicy)
    requires Ordered(host) && IsObject(p.mcp) && IsObject(p.skillScripts) && Reordered(p, q)
    ensures KeyTiesAgree(host, p, q) ==> Validate(host, p) == Validate(host, q)
    ensures Validate(host, p).Ok? && Validate(host, p) == Validate(host, q) ==> KeyTiesAgree(host, p, q)
  {
    if KeyTiesAgree(host, p, q) {
      SameAnswer(host, p, q);
    }
    if Validate(host, p).Ok? && Validate(host, p) == Validate(host, q) {
      assert IsObject(q.mcp) && IsObject(q.skillScripts);
      hide Validate, IsObject, Reordered, Ordered, KeyTiesAgree, GrantOf;
      NormalFormIsGrant(host, p, q);
    }
  }

  ghost predicate NoKeyTies(host: Host, raw: RawMap) {
    raw.Entries? ==> NoTies(host.locale, Keys(raw.entries))
  }

  function Reversed<T>(s: seq<T>): (r: seq<T>)
    ensures |r| == |s| && forall i | 0 <= i < |s| :: r[i] == s[|s| - 1 - i]
  {
    seq(|s|, i requires 0 <= i < |s| => s[|s| - 1 - i])
  }

  lemma ReversedKeys(a: seq<(string, RawList)>)
    ensures Keys(Reversed(a)) == Reversed(Keys(a))
  {
  }

  lemma ReversedDistinct(s: seq<string>)
    requires Distinct(s)
    ensures Distinct(Reversed(s)) && forall k :: k in s <==> k in Reversed(s)
  {
    var r := Reversed(s);
    forall k | k in s ensures k in r {
      var i :| 0 <= i < |s| && s[i] == k;
      assert r[|s| - 1 - i] == k;
    }
    forall i, j | 0 <= i < j < |r| ensures r[i] != r[j] {
      assert s[|s| - 1 - j] != s[|s| - 1 - i];
    }
  }

  lemma ReversedEntries(raw: RawMap)
    requires raw.Entries? && IsObject(raw)
    ensures SameEntries(raw, Entries(Reversed(raw.entries)))
    ensures Keys(Reversed(raw.entries)) == Reversed(Keys(raw.entries))
  {
    var a, b := raw.entries, Reversed(raw.entries);
    ReversedKeys(a);
    ReversedDistinct(Keys(a));
    hide Distinct;
    forall k | k in Keys(a) && k in Keys(b) ensures Lookup(a, k) == Lookup(b, k) {
      var i :| 0 <= i < |a| && a[i] == (k, Lookup(a, k));
      assert b[|a| - 1 - i] == a[i];
      LookupUnique(b, k, Lookup(a, k));
    }
  }

  lemma ReversedTies(lt: (string, string) -> bool, s: seq<string>)
    requires Distinct(s) && SameTies(lt, s, Reversed(s))
    ensures NoTies(lt, s)
  {
    forall x, y | x in s && y in s && Tied(lt, x, y) ensures x == y {
      if x != y {
        TurnedRound(s, x, y);
        TurnedRound(s, y, x);
        BeforeOnce(s, x, y);
        BeforeOrAfter(s, x, y);
      }
    }
  }

  lemma TurnedRound(s: seq<string>, x: string, y: string)
    ensures Before(s, x, y) ==> Before(Reversed(s), y, x)
  {
    if Before(s, x, y) {
      var i, j := Places(s, x, y);
      var r := Reversed(s);
      assert r[|s| - 1 - j] == y && r[|s| - 1 - i] == x;
    }
  }

  function TurnedMap(raw: RawMap): RawMap {
    if raw.Entries? then Entries(Reversed(raw.entries)) else raw
  }

  function Turned(raw: RawPolicy): RawPolicy {
    raw.(mcp := TurnedMap(raw.mcp), skillScripts := TurnedMap(raw.skillScripts))
  }

  lemma TurnedOver(raw: RawMap)
    requires IsObject(raw)
    ensures SameEntries(raw, TurnedMap(raw))
  {
    if raw.Entries? {
      ReversedEntries(raw);
    }
  }

  lemma TurnedTies(host: Host, raw: RawMap)
    requires IsObject(raw) && TiesAgree(host, raw, TurnedMap(raw))
    ensures NoKeyTies(host, raw)
  {
    if raw.Entries? {
      ReversedEntries(raw);
      ReversedTies(host.locale, Keys(raw.entries));
    }
  }

  lemma NoTiesAgree(host: Host, a: RawMap, b: RawMap)
    requires IsObject(a) && NoKeyTies(host, a) && SameEntries(a, b)
    ensures TiesAgree(host, a, b)
  {
    if a.Entries? && b.Entries? {
      NoTiesSame(host.locale, Keys(a.entries), Keys(b.entries));
    }
  }

  /** An accepted policy has the same normal form in every order of its entries exactly when
      no two keys of one of its maps tie. */
  lemma OrderFree(host: Host, raw: RawPolicy)
    requires Ordered(host) && IsObject(raw.mcp) && IsObject(raw.skillScripts) && Validate(host, raw).Ok?
    ensures (forall other | Reordered(raw, other) :: Validate(host, other) == Validate(host, raw)) <==>
      NoKeyTies(host, raw.mcp) && NoKeyTies(host, raw.skillScripts)
  {
    hide Validate, Ordered, IsObject, TiesAgree, NoKeyTies, SameEntries, SameItems, TurnedMap;
    if NoKeyTies(host, raw.mcp) && NoKeyTies(host, raw.skillScripts) {
      forall other | Reordered(raw, other) ensures Validate(host, other) == Validate(host, raw) {
        NoTiesAgree(host, raw.mcp, other.mcp);
        NoTiesAgree(host, raw.skillScripts, other.skillScripts);
        OrderInsensitive(host, raw, other);
      }
    }
    if forall other | Reordered(raw, other) :: Validate(host, other) == Validate(host, raw) {
      TurnedOver(raw.mcp);
      TurnedOver(raw.skillScripts);
      assert Reordered(raw, Turned(raw)) by { SameAsItself(raw.tools); }
      OrderInsensitive(host, raw, Turned(raw));
      TurnedTies(host, raw.mcp);
      TurnedTies(host, raw.skillScripts);
    }
  }

  lemma SameAsItself(raw: RawList)
    ensures SameItems(raw, raw)
  {
  }

  // ----- keys that tie

  /** A policy of two MCP servers. */
  function TwoServers(x: string, y: string): RawPolicy {
    RawPolicy(Some(NoWorkspace), Some(NoProcess), Some(NoSubagents), DenyAll, Entries([]), List([]),
              Entries([(x, List([Text("search")])), (y, List([Text("search")]))]))
  }

  /** Two servers whose names tie, as an accented letter written in two ways, keep the order
      they were given in, so that one policy in two orders has two normal forms. */
  lemma TiedServers(host: Host, x: string, y: string)
    requires x != y && Tied(host.locale, x, y)
    requires x != "" && '*' !in x && y != "" && '*' !in y
    ensures Reordered(TwoServers(x, y), TwoServers(y, x))
    ensures Validate(host, TwoServers(x, y)).Ok? && Validate(host, TwoServers(y, x)).Ok?
    ensures Validate(host, TwoServers(x, y)) != Validate(host, TwoServers(y, x))
  {
    TwoServersTurned(x, y);
    hide Reordered, TwoServers, Validate;
    TwoServersKept(host, x, y);
    TwoServersKept(host, y, x);
  }

  lemma OneName(host: Host)
    ensures ExactList(host, List([Text("search")]), false) == Ok(["search"])
  {
    var items := [Text("search")];
    assert Names(items) == ["search"];
    assert Exact(items[0]);
    assert ["search"][1..] == [];
    SortAgain(host.units, ["search"]);
  }

  lemma TwoServersKept(host: Host, x: string, y: string)
    requires x != y && Tied(host.locale, x, y) && x != "" && '*' !in x && y != "" && '*' !in y
    ensures Validate(host, TwoServers(x, y)) ==
      Ok(Policy(NoWorkspace, NoProcess, Deny, [], [(x, ["search"]), (y, ["search"])], [], NoSubagents))
  {
    TwoEntriesKept(host, x, y);
    assert ExactMap(host, Entries([])) == Ok([]) by { assert Arrange<string, RawList>(host.locale, []) == []; }
    assert ExactList(host, List([]), true) == Ok([]);
    hide ExactMap, ExactList;
  }

  lemma TwoEntriesKept(host: Host, x: string, y: string)
    requires x != y && Tied(host.locale, x, y) && x != "" && '*' !in x && y != "" && '*' !in y
    ensures ExactMap(host, TwoServers(x, y).mcp) == Ok([(x, ["search"]), (y, ["search"])])
  {
    var list := List([Text("search")]);
    var entries := [(x, list), (y, list)];
    assert Keys(entries) == [x, y];
    assert Sorted(host.locale, [x, y]);
    hide Arrange, ExactList, ExactEntries, Sorted, Keys, Tied;
    ArrangeAgain(host.locale, entries);
    ServersRead(host, x, y);
  }

  lemma ServersRead(host: Host, x: string, y: string)
    requires x != "" && '*' !in x && y != "" && '*' !in y
    ensures var list := List([Text("search")]);
      ExactEntries(host, [(x, list), (y, list)]) == Ok([(x, ["search"]), (y, ["search"])])
  {
    var list := List([Text("search")]);
    assert ExactEntries(host, []) == Ok([]);
    hide ExactEntries;
    ServerRead(host, y, []);
    Pair((x, list), (y, list));
    Pair((x, ["search"]), (y, ["search"]));
    ServerRead(host, x, [(y, list)]);
  }

  lemma Pair<T>(a: T, b: T)
    ensures [b] + [] == [b] && [a] + [b] == [a, b] && [a] + ([b] + []) == [a, b]
  {
  }

  lemma ServerRead(host: Host, key: string, rest: seq<(string, RawList)>)
    requires key != "" && '*' !in key && ExactEntries(host, rest).Ok?
    ensures ExactEntries(host, [(key, List([Text("search")]))] + rest)
         == Ok([(key, ["search"])] + ExactEntries(host, rest).value)
  {
    OneName(host);
    hide ExactList;
    assert ([(key, List([Text("search")]))] + rest)[1..] == rest;
  }

  lemma TwoServersTurned(x: string, y: string)
    requires x != y
    ensures Reordered(TwoServers(x, y), TwoServers(y, x))
  {
    var p := TwoServers(x, y);
    assert Keys(p.mcp.entries) == [x, y];
    assert Reversed(p.mcp.entries) == TwoServers(y, x).mcp.entries;
    TurnedOver(p.mcp);
    TurnedOver(p.skillScripts);
    hide SameEntries;
  }
}
