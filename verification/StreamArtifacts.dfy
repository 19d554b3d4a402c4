/** What one frame of an A2A event stream does to the artifacts collected so far
    (src/a2a/client-executor.ts, lines 252-261, 469-505). */
module StreamArtifacts {
  import opened Options

  /** `text` is absent for file and data parts; `uri` is what a reference to it would be. */
  datatype Part = Part(text: Option<string>, uri: Option<string>)

  datatype Artifact = Artifact(
    id: string, name: Option<string>, description: Option<string>, metadata: Option<string>, parts: seq<Part>)

  /** The artifacts in `Map` order: by first insertion, one per id. */
  type Store = seq<Artifact>

  function Find(store: Store, id: string): (r: Option<Artifact>)
    ensures r.Some? ==> r.value in store && r.value.id == id
    ensures r.None? ==> forall a | a in store :: a.id != id
  {
    if store == [] then None else if store[0].id == id then Some(store[0]) else Find(store[1..], id)
  }

  /** `Map.set`: in place when the id is known, at the end otherwise. */
  function Set(store: Store, artifact: Artifact): Store {
    if store == [] then [artifact]
    else if store[0].id == artifact.id then [artifact] + store[1..]
    else [store[0]] + Set(store[1..], artifact)
  }

  function SetAll(store: Store, artifacts: seq<Artifact>): Store
    decreases |artifacts|
  {
    if artifacts == [] then store else SetAll(Set(store, artifacts[0]), artifacts[1..])
  }

  function Prefer(later: Option<string>, earlier: Option<string>): Option<string> {
    if later.Some? then later else earlier
  }

  /** `{ ...current, ...artifact, parts: [...current.parts, ...artifact.parts] }`. */
  function Extend(current: Artifact, artifact: Artifact): Artifact {
    Artifact(artifact.id, Prefer(artifact.name, current.name), Prefer(artifact.description, current.description),
             Prefer(artifact.metadata, current.metadata), current.parts + artifact.parts)
  }

  function Merge(store: Store, artifact: Artifact, append: bool): Store {
    match Find(store, artifact.id)
    case Some(current) => Set(store, if append then Extend(current, artifact) else artifact)
    case None => Set(store, artifact)
  }

  // ----- frames

  /** What a frame does to the store. */
  datatype Effect =
    | Reset(artifacts: seq<Artifact>)             // a task snapshot
    | Update(artifact: Artifact, append: bool)    // an artifact update
    | Keep                                        // a status update or a message

  function Apply(store: Store, effect: Effect): Store {
    match effect
    case Reset(artifacts) => SetAll([], artifacts)
    case Update(artifact, append) => Merge(store, artifact, append)
    case Keep => store
  }

  function Fold(store: Store, log: seq<Effect>): Store {
    if log == [] then store else Apply(Fold(store, log[..|log| - 1]), log[|log| - 1])
  }

  // ----- what the fold means, one artifact at a time

  lemma {:induction false} FindSet(store: Store, artifact: Artifact, id: string)
    ensures Find(Set(store, artifact), id) == if id == artifact.id then Some(artifact) else Find(store, id)
  {
    if store != [] && store[0].id != artifact.id {
      FindSet(store[1..], artifact, id);
      var after := Set(store, artifact);
      assert after[0] == store[0] && after[1..] == Set(store[1..], artifact);
    } else if store != [] {
      assert ([artifact] + store[1..])[1..] == store[1..];
    }
  }

  /** The last artifact of a list with this id, over what was there before. */
  function LastOf(artifacts: seq<Artifact>, id: string, otherwise: Option<Artifact>): Option<Artifact> {
    if artifacts == [] then otherwise
    else if artifacts[|artifacts| - 1].id == id then Some(artifacts[|artifacts| - 1])
    else LastOf(artifacts[..|artifacts| - 1], id, otherwise)
  }

  lemma {:induction false} LastOfStep(artifacts: seq<Artifact>, id: string, otherwise: Option<Artifact>)
    requires artifacts != []
    ensures LastOf(artifacts, id, otherwise)
      == LastOf(artifacts[1..], id, if artifacts[0].id == id then Some(artifacts[0]) else otherwise)
    decreases |artifacts|
  {
    var n := |artifacts| - 1;
    if n > 0 && artifacts[n].id != id {
      LastOfStep(artifacts[..n], id, otherwise);
      assert artifacts[..n][1..] == artifacts[1..][..n - 1];
    }
  }

  lemma {:induction false} FindSetAll(store: Store, artifacts: seq<Artifact>, id: string)
    ensures Find(SetAll(store, artifacts), id) == LastOf(artifacts, id, Find(store, id))
    decreases |artifacts|
  {
    if artifacts != [] {
      FindSetAll(Set(store, artifacts[0]), artifacts[1..], id);
      FindSet(store, artifacts[0], id);
      LastOfStep(artifacts, id, Find(store, id));
    }
  }

  /** A frame that settles the artifact on its own: a snapshot, or a replacing update. */
  predicate IsBase(effect: Effect, id: string) {
    effect.Reset? || (effect.Update? && effect.artifact.id == id && !effect.append)
  }

  predicate IsAppend(effect: Effect, id: string) {
    effect.Update? && effect.artifact.id == id && effect.append
  }

  function BaseParts(effect: Effect, id: string): Option<seq<Part>>
    requires IsBase(effect, id)
  {
    match effect
    case Reset(artifacts) => (match LastOf(artifacts, id, None) case Some(a) => Some(a.parts) case None => None)
    case Update(artifact, _) => Some(artifact.parts)
  }

  function PartsIn(effect: Effect, id: string): seq<Part> {
    if IsAppend(effect, id) then effect.artifact.parts else []
  }

  /** The parts of every append to this artifact, in order. */
  function Appended(log: seq<Effect>, id: string): seq<Part> {
    if log == [] then [] else Appended(log[..|log| - 1], id) + PartsIn(log[|log| - 1], id)
  }

  predicate Touched(log: seq<Effect>, id: string) {
    exists i | 0 <= i < |log| :: IsAppend(log[i], id)
  }

  function PartsOf(artifact: Option<Artifact>): Option<seq<Part>> {
    match artifact case Some(a) => Some(a.parts) case None => None
  }

  /** What a base followed by later frames amounts to. */
  function Meaning(start: Option<seq<Part>>, later: seq<Effect>, id: string): Option<seq<Part>> {
    if start.Some? then Some(start.value + Appended(later, id))
    else if Touched(later, id) then Some(Appended(later, id))
    else None
  }

  lemma FindMerge(store: Store, artifact: Artifact, append: bool, id: string)
    ensures PartsOf(Find(Merge(store, artifact, append), id)) ==
      if id != artifact.id then PartsOf(Find(store, id))
      else if append && Find(store, id).Some? then Some(Find(store, id).value.parts + artifact.parts)
      else Some(artifact.parts)
  {
    var current := Find(store, artifact.id);
    FindSet(store, if append && current.Some? then Extend(current.value, artifact) else artifact, id);
  }

  lemma {:induction false} Untouched(log: seq<Effect>, id: string)
    requires !Touched(log, id)
    ensures Appended(log, id) == []
  {
    if log != [] {
      Untouched(log[..|log| - 1], id);
    }
  }

  lemma TouchedSnoc(log: seq<Effect>, effect: Effect, id: string)
    ensures Touched(log + [effect], id) <==> Touched(log, id) || IsAppend(effect, id)
  {
    var all := log + [effect];
    if Touched(log, id) {
      var i :| 0 <= i < |log| && IsAppend(log[i], id);
      assert IsAppend(all[i], id);
    }
    if IsAppend(effect, id) {
      assert IsAppend(all[|log|], id);
    }
    if Touched(all, id) {
      var i :| 0 <= i < |all| && IsAppend(all[i], id);
      assert if i < |log| then log[i] == all[i] else all[i] == effect;
    }
  }

  lemma MeaningStep(start: Option<seq<Part>>, later: seq<Effect>, effect: Effect, id: string)
    ensures Meaning(start, later + [effect], id) ==
      var m := Meaning(start, later, id);
      if IsAppend(effect, id) then Some((if m.Some? then m.value else []) + effect.artifact.parts) else m
  {
    var log := later + [effect];
    assert log[..|log| - 1] == later;
    assert Appended(later, id) + [] == Appended(later, id);
    if start.Some? {
      assert start.value + (Appended(later, id) + PartsIn(effect, id))
          == start.value + Appended(later, id) + PartsIn(effect, id);
    } else {
      TouchedSnoc(later, effect, id);
      if !Touched(later, id) {
        Untouched(later, id);
      }
    }
  }

  /** After any frames, an artifact's parts are those of its last base, at `base - 1`,
      followed by all later appends in order; it is absent exactly when its base lacks it
      (or there is none) and nothing was appended since. */
  lemma {:induction false} StoreMeaning(log: seq<Effect>, id: string, base: nat)
    requires base <= |log|
    requires base > 0 ==> IsBase(log[base - 1], id)
    requires forall i | base <= i < |log| :: !IsBase(log[i], id)
    ensures PartsOf(Find(Fold([], log), id)) ==
      Meaning(if base > 0 then BaseParts(log[base - 1], id) else None, log[base..], id)
    decreases |log|
  {
    hide Meaning, Find, Merge;
    if log != [] {
      var n := |log| - 1;
      var before := Fold([], log[..n]);
      if base == |log| {
        BaseMeaning(before, log[n], id);
        assert log[base..] == [];
      } else {
        StoreMeaning(log[..n], id, base);
        assert log[base..] == log[..n][base..] + [log[n]];
        MeaningStep(if base > 0 then BaseParts(log[base - 1], id) else None, log[..n][base..], log[n], id);
        LaterMeaning(before, log[n], id);
      }
    } else {
      NothingStored(id);
    }
  }

  lemma NothingStored(id: string)
    ensures PartsOf(Find([], id)) == Meaning(None, [], id)
  {
  }

  lemma BaseMeaning(before: Store, effect: Effect, id: string)
    requires IsBase(effect, id)
    ensures PartsOf(Find(Apply(before, effect), id)) == Meaning(BaseParts(effect, id), [], id)
  {
    match effect
    case Reset(artifacts) =>
      FindSetAll([], artifacts, id);
      var last := LastOf(artifacts, id, None);
      assert last.Some? ==> last.value.parts + [] == last.value.parts;
    case Update(artifact, append) =>
      FindMerge(before, artifact, append, id);
      assert artifact.parts + [] == artifact.parts;
  }

  lemma LaterMeaning(before: Store, effect: Effect, id: string)
    requires !IsBase(effect, id)
    ensures PartsOf(Find(Apply(before, effect), id)) ==
      var m := PartsOf(Find(before, id));
      if IsAppend(effect, id) then Some((if m.Some? then m.value else []) + effect.artifact.parts) else m
  {
    if effect.Update? {
      FindMerge(before, effect.artifact, effect.append, id);
      assert [] + effect.artifact.parts == effect.artifact.parts;
    }
  }

  // ----- the other fields, and the order

  datatype Field = Name | Description | Metadata

  function FieldOf(artifact: Artifact, field: Field): Option<string> {
    match field
    case Name => artifact.name
    case Description => artifact.description
    case Metadata => artifact.metadata
  }

  /** The frame settles the artifact's field: a snapshot, an update that replaces the
      artifact, or one that gives the field. */
  predicate Settles(effect: Effect, id: string, field: Field) {
    IsBase(effect, id) || (effect.Update? && effect.artifact.id == id && FieldOf(effect.artifact, field).Some?)
  }

  function FieldIn(artifact: Option<Artifact>, field: Field): Option<string> {
    match artifact case Some(a) => FieldOf(a, field) case None => None
  }

  function SettledTo(effect: Effect, id: string, field: Field): Option<string>
    requires Settles(effect, id, field)
  {
    match effect
    case Reset(artifacts) => FieldIn(LastOf(artifacts, id, None), field)
    case Update(artifact, _) => FieldOf(artifact, field)
  }

  lemma FindUpdate(store: Store, artifact: Artifact, append: bool, field: Field)
    ensures var after := Find(Merge(store, artifact, append), artifact.id);
      after.Some? && FieldOf(after.value, field) ==
        if FieldOf(artifact, field).None? && append && Find(store, artifact.id).Some?
        then FieldOf(Find(store, artifact.id).value, field) else FieldOf(artifact, field)
  {
    var current := Find(store, artifact.id);
    FindSet(store, if append && current.Some? then Extend(current.value, artifact) else artifact, artifact.id);
  }

  /** A field stays as the last frame that settled it left it: appends that leave it out
      keep it. */
  lemma {:induction false} FieldMeaning(log: seq<Effect>, id: string, field: Field, k: nat)
    requires k < |log| && Settles(log[k], id, field)
    requires forall i | k < i < |log| :: !Settles(log[i], id, field)
    ensures FieldIn(Find(Fold([], log), id), field) == SettledTo(log[k], id, field)
    decreases |log|
  {
    var n := |log| - 1;
    var before := Fold([], log[..n]);
    hide Find, Merge, SetAll;
    if k == n {
      match log[n]
      case Reset(artifacts) => FindSetAll([], artifacts, id); assert Find([], id) == None by { NothingFound(id); }
      case Update(artifact, append) => FindUpdate(before, artifact, append, field);
    } else {
      FieldMeaning(log[..n], id, field, k);
      match log[n]
      case Update(artifact, append) =>
        if artifact.id == id {
          FindUpdate(before, artifact, append, field);
        } else {
          FindOther(before, artifact, append, id);
        }
      case _ =>
    }
  }

  lemma NothingFound(id: string)
    ensures Find([], id) == None
  {
  }

  lemma FindOther(store: Store, artifact: Artifact, append: bool, id: string)
    requires id != artifact.id
    ensures Find(Merge(store, artifact, append), id) == Find(store, id)
  {
    var current := Find(store, artifact.id);
    FindSet(store, if append && current.Some? then Extend(current.value, artifact) else artifact, id);
  }

  function Ids(artifacts: seq<Artifact>): (ids: seq<string>)
    ensures |ids| == |artifacts|
  {
    seq(|artifacts|, i requires 0 <= i < |artifacts| => artifacts[i].id)
  }

  /** Each id once, where it first stands. */
  function Firsts(ids: seq<string>): seq<string> {
    if ids == [] then []
    else
      var rest, last := Firsts(ids[..|ids| - 1]), ids[|ids| - 1];
      if last in rest then rest else rest + [last]
  }

  /** The ids a frame names: all of a snapshot's, the one of an update. */
  function NamedIn(effect: Effect): seq<string> {
    match effect
    case Reset(artifacts) => Ids(artifacts)
    case Update(artifact, _) => [artifact.id]
    case Keep => []
  }

  /** The ids named since the last snapshot, that snapshot included. */
  function NamedSince(log: seq<Effect>): seq<string> {
    if log == [] then []
    else
      var last := log[|log| - 1];
      (if last.Reset? then [] else NamedSince(log[..|log| - 1])) + NamedIn(last)
  }

  lemma {:induction false} SetIds(store: Store, artifact: Artifact)
    ensures Ids(Set(store, artifact)) == if artifact.id in Ids(store) then Ids(store) else Ids(store) + [artifact.id]
  {
    if store == [] {
      assert Ids([artifact]) == [artifact.id] && Ids([]) + [artifact.id] == [artifact.id];
    } else {
      SetIds(store[1..], artifact);
      assert Ids(store) == [store[0].id] + Ids(store[1..]);
      if store[0].id == artifact.id {
        assert Ids([artifact] + store[1..]) == Ids(store);
      } else {
        assert Ids(Set(store, artifact)) == [store[0].id] + Ids(Set(store[1..], artifact));
      }
    }
  }

  lemma FirstsSnoc(ids: seq<string>, last: string)
    ensures Firsts(ids + [last]) == if last in Firsts(ids) then Firsts(ids) else Firsts(ids) + [last]
  {
    assert (ids + [last])[..|ids|] == ids;
  }

  lemma {:induction false} SetAllIds(store: Store, artifacts: seq<Artifact>, ids: seq<string>)
    requires Ids(store) == Firsts(ids)
    ensures Ids(SetAll(store, artifacts)) == Firsts(ids + Ids(artifacts))
    decreases |artifacts|
  {
    if artifacts == [] {
      assert ids + Ids([]) == ids;
    } else {
      SetIds(store, artifacts[0]);
      FirstsSnoc(ids, artifacts[0].id);
      SetAllIds(Set(store, artifacts[0]), artifacts[1..], ids + [artifacts[0].id]);
      assert ids + [artifacts[0].id] + Ids(artifacts[1..]) == ids + Ids(artifacts);
    }
  }

  /** The artifacts stand in the order in which they were first named since the last
      snapshot, each once. */
  lemma {:induction false} StoreOrder(log: seq<Effect>)
    ensures Ids(Fold([], log)) == Firsts(NamedSince(log))
    decreases |log|
  {
    if log == [] {
      assert Ids([]) == [];
    } else {
      var n := |log| - 1;
      var before := Fold([], log[..n]);
      StoreOrder(log[..n]);
      match log[n]
      case Reset(artifacts) =>
        assert Ids([]) == [] == Firsts([]);
        SetAllIds([], artifacts, []);
      case Update(artifact, append) =>
        var current := Find(before, artifact.id);
        SetIds(before, if append && current.Some? then Extend(current.value, artifact) else artifact);
        FirstsSnoc(NamedSince(log[..n]), artifact.id);
      case Keep => assert NamedSince(log[..n]) + [] == NamedSince(log[..n]);
    }
  }

  // ----- segmentation

  lemma {:induction false} SetTwice(store: Store, first: Artifact, second: Artifact)
    requires first.id == second.id
    ensures Set(Set(store, first), second) == Set(store, second)
  {
    if store != [] && store[0].id != first.id {
      SetTwice(store[1..], first, second);
      var after := Set(store, first);
      assert after[0] == store[0] && after[1..] == Set(store[1..], first);
    } else if store != [] {
      assert ([first] + store[1..])[1..] == store[1..];
    }
  }

  /** Sending an update's parts in two pieces, the second appended, is the same update. */
  lemma SplitUpdate(store: Store, artifact: Artifact, append: bool, u: seq<Part>, v: seq<Part>)
    requires artifact.parts == u + v
    ensures Merge(Merge(store, artifact.(parts := u), append), artifact.(parts := v), true)
      == Merge(store, artifact, append)
  {
    var current := Find(store, artifact.id);
    var first := artifact.(parts := u);
    var stored := if append && current.Some? then Extend(current.value, first) else first;
    FindSet(store, stored, artifact.id);
    var second := Extend(stored, artifact.(parts := v));
    SetTwice(store, stored, second);
    if append && current.Some? {
      assert current.value.parts + u + v == current.value.parts + (u + v);
      assert second == Extend(current.value, artifact);
    } else {
      assert second == artifact;
    }
  }

  lemma {:induction false} FoldConcat(store: Store, p: seq<Effect>, q: seq<Effect>)
    ensures Fold(store, p + q) == Fold(Fold(store, p), q)
    decreases |q|
  {
    if q == [] {
      assert p + q == p;
    } else {
      var n := |q| - 1;
      FoldConcat(store, p, q[..n]);
      assert (p + q)[..|p + q| - 1] == p + q[..n] && (p + q)[|p + q| - 1] == q[n];
    }
  }

  /** Anywhere in a stream, cutting an update into an update and an append leaves every
      later store the same. */
  lemma Segmentation(before: seq<Effect>, artifact: Artifact, append: bool, u: seq<Part>, v: seq<Part>,
                     after: seq<Effect>)
    requires artifact.parts == u + v
    ensures Fold([], before + [Update(artifact.(parts := u), append), Update(artifact.(parts := v), true)] + after)
      == Fold([], before + [Update(artifact, append)] + after)
  {
    var one := [Update(artifact, append)];
    var two := [Update(artifact.(parts := u), append), Update(artifact.(parts := v), true)];
    var store := Fold([], before);
    FoldConcat([], before, one);
    FoldConcat([], before, two);
    FoldConcat([], before + one, after);
    FoldConcat([], before + two, after);
    assert two[..1] == [two[0]] && two[..1][..0] == [] && one[..0] == [];
    assert Fold(store, [two[0]]) == Apply(store, two[0]) by { assert [two[0]][..0] == []; }
    SplitUpdate(store, artifact, append, u, v);
  }

  function Flatten(pieces: seq<seq<Part>>): seq<Part> {
    if pieces == [] then [] else pieces[0] + Flatten(pieces[1..])
  }

  /** The pieces sent one by one: the first as the update itself, the others appended. */
  function InPieces(artifact: Artifact, append: bool, pieces: seq<seq<Part>>): seq<Effect>
    decreases |pieces|
  {
    if pieces == [] then []
    else [Update(artifact.(parts := pieces[0]), append)] + InPieces(artifact, true, pieces[1..])
  }

  /** However many pieces an update is cut into, every later store is the same. */
  lemma {:induction false} SegmentationInto(before: seq<Effect>, artifact: Artifact, append: bool,
                                            pieces: seq<seq<Part>>, after: seq<Effect>)
    requires pieces != [] && artifact.parts == Flatten(pieces)
    ensures Fold([], before + InPieces(artifact, append, pieces) + after)
      == Fold([], before + [Update(artifact, append)] + after)
    decreases |pieces|
  {
    var head, rest := pieces[0], Flatten(pieces[1..]);
    var first := Update(artifact.(parts := head), append);
    var tail := artifact.(parts := rest);
    if |pieces| == 1 {
      assert Flatten([]) == [] && head + [] == head;
      assert artifact.(parts := head) == artifact;
      assert InPieces(artifact, append, pieces) == [first] + InPieces(artifact, true, []) == [first];
    } else {
      SegmentationInto(before + [first], tail, true, pieces[1..], after);
      Segmentation(before, artifact, append, head, rest, after);
      PiecesOf(tail, artifact, true, pieces[1..]);
      hide Fold, InPieces, Flatten;
      var more := InPieces(artifact, true, pieces[1..]);
      assert before + [first] + more + after == before + ([first] + more) + after;
      assert before + [first] + [Update(tail, true)] + after == before + [first, Update(tail, true)] + after;
    }
  }

  /** The pieces replace the artifact's own parts. */
  lemma {:induction false} PiecesOf(a: Artifact, b: Artifact, append: bool, pieces: seq<seq<Part>>)
    requires a.(parts := []) == b.(parts := [])
    ensures InPieces(a, append, pieces) == InPieces(b, append, pieces)
    decreases |pieces|
  {
    if pieces != [] {
      PiecesOf(a, b, true, pieces[1..]);
    }
  }
}
