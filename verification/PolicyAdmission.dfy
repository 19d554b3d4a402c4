/** Which tool policies are accepted, in terms of the policy as it was passed
    (src/runtime-agent-binding.ts, lines 244-301). */
module PolicyAdmission {
  import opened Options
  import opened JsText
  import opened Sorting
  import opened ToolPolicy

  /** An array of exact names, different once trimmed. */
  predicate NameList(raw: RawList) {
    && raw.List?
    && (forall i | 0 <= i < |raw.items| ::
          raw.items[i].Text? && Trim(raw.items[i].s) != "" && '*' !in raw.items[i].s)
    && (forall i, j | 0 <= i < j < |raw.items| :: TrimmedAt(raw, i) != TrimmedAt(raw, j))
  }

  function TrimmedAt(raw: RawList, i: nat): string
    requires raw.List? && i < |raw.items|
  {
    if raw.items[i].Text? then Trim(raw.items[i].s) else ""
  }

  /** An object from exact names to non-empty arrays of exact names. */
  predicate NameObject(raw: RawMap) {
    && raw.Entries?
    && forall i | 0 <= i < |raw.entries| ::
         && raw.entries[i].0 != "" && '*' !in raw.entries[i].0
         && NameList(raw.entries[i].1) && raw.entries[i].1.items != []
  }

  predicate NetworkFits(host: Host, raw: RawNetwork) {
    match raw
    case BadNetwork => false
    case DenyAll => true
    case Allowlist(list) =>
      NameList(list) && forall i | 0 <= i < |list.items| :: host.isOrigin(TrimmedAt(list, i))
  }

  lemma ListAccepted(host: Host, raw: RawList, allowEmpty: bool)
    ensures ExactList(host, raw, allowEmpty).Ok? <==> NameList(raw) && (allowEmpty || raw.items != [])
    ensures ExactList(host, raw, allowEmpty).Ok? ==>
      multiset(ExactList(host, raw, allowEmpty).value) == multiset(Names(raw.items))
  {
    if raw.List? {
      assert forall i | 0 <= i < |raw.items| :: Names(raw.items)[i] == TrimmedAt(raw, i);
    }
    hide Trim, Sort;
  }

  lemma {:induction false} EntriesAccepted(host: Host, entries: seq<(string, RawList)>)
    ensures ExactEntries(host, entries).Ok? <==> NameObject(Entries(entries))
    ensures ExactEntries(host, entries).Ok? ==>
      (ScriptCount(ExactEntries(host, entries).value) == 0 <==> entries == [])
  {
    hide ExactList, NameList;
    if entries != [] {
      ListAccepted(host, entries[0].1, false);
      EntriesAccepted(host, entries[1..]);
      var rest := ExactEntries(host, entries[1..]);
      if ExactEntries(host, entries).Ok? {
        FilledList(host, entries[0].1);
        assert ExactEntries(host, entries).value[1..] == rest.value;
      }
      EntriesUnfold(entries);
    }
  }

  lemma FilledList(host: Host, raw: RawList)
    requires ExactList(host, raw, false).Ok?
    ensures ExactList(host, raw, false).value != []
  {
    ListAccepted(host, raw, false);
    hide Trim, Sort, NameList;
    assert |multiset(Names(raw.items))| == |raw.items|;
  }

  lemma EntriesUnfold(entries: seq<(string, RawList)>)
    requires entries != []
    ensures NameObject(Entries(entries)) <==>
      && entries[0].0 != "" && '*' !in entries[0].0 && NameList(entries[0].1) && entries[0].1.items != []
      && NameObject(Entries(entries[1..]))
  {
    hide NameList;
    var rest := entries[1..];
    assert forall i | 0 < i < |entries| :: entries[i] == rest[i - 1];
    assert forall i | 0 <= i < |rest| :: rest[i] == entries[i + 1];
  }

  lemma MapAccepted(host: Host, raw: RawMap)
    requires IsObject(raw)
    ensures ExactMap(host, raw).Ok? <==> NameObject(raw)
    ensures ExactMap(host, raw).Ok? ==> (ScriptCount(ExactMap(host, raw).value) == 0 <==> raw.entries == [])
  {
    if raw.Entries? {
      var r := Arrange(host.locale, raw.entries);
      ArrangeMembers(host.locale, raw.entries);
      EntriesAccepted(host, r);
      assert |r| == |raw.entries|;
      assert r == [] <==> raw.entries == [];
      hide Arrange, ExactEntries, Distinct, ScriptCount, NameObject;
      SameObject(raw.entries, r);
    }
  }

  lemma SameObject(a: seq<(string, RawList)>, b: seq<(string, RawList)>)
    requires forall m :: m in a <==> m in b
    ensures NameObject(Entries(a)) <==> NameObject(Entries(b))
  {
    ObjectOver(a, b);
    ObjectOver(b, a);
  }

  lemma ObjectOver(a: seq<(string, RawList)>, b: seq<(string, RawList)>)
    requires forall m | m in b :: m in a
    ensures NameObject(Entries(a)) ==> NameObject(Entries(b))
  {
    hide Trim;
    forall i | 0 <= i < |b| && NameObject(Entries(a))
      ensures b[i].0 != "" && '*' !in b[i].0 && NameList(b[i].1) && b[i].1.items != []
    {
      assert b[i] in a;
    }
  }

  lemma NetworkAccepted(host: Host, raw: RawNetwork)
    ensures ExactNetwork(host, raw).Ok? <==> NetworkFits(host, raw)
  {
    if raw.Allowlist? {
      ListAccepted(host, raw.origins, true);
      hide ExactList, Trim, NameList;
      if NameList(raw.origins) {
        OriginsMatch(host, raw.origins, ExactList(host, raw.origins, true).value);
      }
    }
  }

  lemma OriginsMatch(host: Host, list: RawList, origins: seq<string>)
    requires list.List? && multiset(origins) == multiset(Names(list.items))
    requires NameList(list)
    ensures (forall i | 0 <= i < |origins| :: host.isOrigin(origins[i])) <==>
      forall i | 0 <= i < |list.items| :: host.isOrigin(TrimmedAt(list, i))
  {
    hide Trim;
    var names := Names(list.items);
    assert forall i | 0 <= i < |names| :: names[i] == TrimmedAt(list, i);
    if forall i | 0 <= i < |origins| :: host.isOrigin(origins[i]) {
      forall i | 0 <= i < |names| ensures host.isOrigin(names[i]) {
        assert names[i] in multiset(names);
        assert names[i] in origins;
      }
    }
    if forall i | 0 <= i < |names| :: host.isOrigin(names[i]) {
      forall i | 0 <= i < |origins| ensures host.isOrigin(origins[i]) {
        assert origins[i] in multiset(origins);
        assert origins[i] in names;
      }
    }
  }

  /** A policy is accepted exactly when its three modes are of their enumerations, every list
      is of exact names without repetition, every map is from exact names to such lists, none
      empty, every origin is exactly an origin, and isolated processes and skill scripts come
      together. */
  lemma AcceptedExactly(host: Host, raw: RawPolicy)
    requires IsObject(raw.mcp) && IsObject(raw.skillScripts)
    ensures Validate(host, raw).Ok? <==>
      && raw.workspace.Some? && raw.process.Some? && raw.subagents.Some?
      && NetworkFits(host, raw.network) && NameList(raw.tools)
      && NameObject(raw.mcp) && NameObject(raw.skillScripts)
      && (raw.process == Some(Isolated) <==> raw.skillScripts.entries != [])
  {
    hide *;
    NetworkAccepted(host, raw.network);
    ListAccepted(host, raw.tools, true);
    MapAccepted(host, raw.mcp);
    MapAccepted(host, raw.skillScripts);
    IsEntries(raw.skillScripts);
    ValidateSucceeds(host, raw);
    assert raw.process.Some? ==> raw.process.value == NoProcess || raw.process.value == Isolated;
  }

  lemma ValidateSucceeds(host: Host, raw: RawPolicy)
    ensures Validate(host, raw).Ok? <==>
      && raw.workspace.Some? && raw.process.Some? && raw.subagents.Some?
      && ExactNetwork(host, raw.network).Ok? && ExactList(host, raw.tools, true).Ok?
      && ExactMap(host, raw.mcp).Ok? && ExactMap(host, raw.skillScripts).Ok?
      && (raw.process == Some(NoProcess) <==> ScriptCount(ExactMap(host, raw.skillScripts).value) == 0)
  {
    hide ExactNetwork, ExactList, ExactMap, ScriptCount;
  }

  lemma IsEntries(raw: RawMap)
    ensures NameObject(raw) ==> raw.Entries?
  {
  }
}
