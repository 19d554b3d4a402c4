/** The text behind Runtime revisions: `JSON.stringify(canonicalValue(v))`
    (src/runtime-agent-binding.ts, lines 197-207). Unlike `stableJson` it drops undefined
    members. Keys come in any strict weak order, so some may tie. */
module HashInput {
  import opened Options
  import opened Sorting
  import opened JsonText
  import opened StableJson

  /** `canonicalValue`: members in key order, undefined ones included. */
  function CanonicalValue(lt: KeyOrder, v: Json): Json
    decreases v
  {
    match v
    case Array(items) => Array(seq(|items|, i requires 0 <= i < |items| => CanonicalValue(lt, items[i])))
    case Object(members) =>
      var r := Arrange(lt, members);
      Object(seq(|r|, i requires 0 <= i < |r| => (r[i].0, CanonicalValue(lt, r[i].1))))
    case _ => v
  }

  /** The part of a value that `JSON.stringify` prints: undefined members go, undefined
      items turn into null. */
  function Drop(v: Json): Json
    decreases v, 1
  {
    match v
    case Array(items) =>
      Array(seq(|items|, i requires 0 <= i < |items| => if items[i].Undefined? then Null else Drop(items[i])))
    case Object(members) => Object(DropMembers(members))
    case _ => v
  }

  function DropMembers(members: seq<(JsString, Json)>): seq<(JsString, Json)>
    decreases members, 0
  {
    if members == [] then [] else DropMember(members[0]) + DropMembers(members[1..])
  }

  function DropMember(member: (JsString, Json)): seq<(JsString, Json)>
    decreases member, 0
  {
    if member.1.Undefined? then [] else [(member.0, Drop(member.1))]
  }

  /** The hashed text; undefined itself has none, and hashing it throws. */
  function HashText(lt: KeyOrder, v: Json): Option<JsString> {
    if v.Undefined? then None else Some(Print(Drop(CanonicalValue(lt, v))))
  }

  // ----- dropping members

  lemma {:induction false} DropMembersAre(members: seq<(JsString, Json)>, m: (JsString, Json))
    ensures m in DropMembers(members) <==>
      exists i | 0 <= i < |members| :: !members[i].1.Undefined? && m == (members[i].0, Drop(members[i].1))
  {
    hide Drop;
    if members != [] {
      DropMembersAre(members[1..], m);
      if m in DropMembers(members[1..]) {
        var rest := members[1..];
        var i :| 0 <= i < |rest| && !rest[i].1.Undefined? && m == (rest[i].0, Drop(rest[i].1));
        assert members[i + 1] == rest[i];
      }
      if i :| 0 <= i < |members| && !members[i].1.Undefined? && m == (members[i].0, Drop(members[i].1)) {
        assert i > 0 ==> members[1..][i - 1] == members[i];
      }
    }
  }

  lemma DropKeysStep(members: seq<(JsString, Json)>)
    requires members != []
    ensures Keys(members) == [members[0].0] + Keys(members[1..])
    ensures Keys(DropMembers(members)) ==
      (if members[0].1.Undefined? then [] else [members[0].0]) + Keys(DropMembers(members[1..]))
  {
    hide DropMember, Keys;
    KeysConcat([members[0]], members[1..]);
    KeysConcat(DropMember(members[0]), DropMembers(members[1..]));
    assert members == [members[0]] + members[1..];
    OneKey(members[0]);
  }

  lemma OneKey(m: (JsString, Json))
    ensures Keys([m]) == [m.0] && Keys(DropMember(m)) == if m.1.Undefined? then [] else [m.0]
  {
    hide Drop;
  }

  lemma KeysConcat(a: seq<(JsString, Json)>, b: seq<(JsString, Json)>)
    ensures Keys(a + b) == Keys(a) + Keys(b)
  {
  }

  /** Of different keys, those left after dropping are different, and stand as they stood. */
  lemma {:induction false} DropKeys(lt: KeyOrder, members: seq<(JsString, Json)>)
    requires Distinct(Keys(members))
    ensures forall k | k in Keys(DropMembers(members)) :: k in Keys(members)
    ensures Distinct(Keys(DropMembers(members)))
    ensures Sorted(lt, Keys(members)) ==> Sorted(lt, Keys(DropMembers(members)))
  {
    if members != [] {
      DropKeysStep(members);
      var all, rest := Keys(members), Keys(members[1..]);
      hide DropMembers, Keys;
      assert all[1..] == rest;
      assert Sorted(lt, all) ==> Sorted(lt, rest) && forall k | k in rest :: !lt(k, all[0]);
      assert members[0].0 !in rest;
      DropKeys(lt, members[1..]);
    }
  }

  lemma {:induction false} DropBefore(members: seq<(JsString, Json)>, x: JsString, y: JsString)
    ensures Before(Keys(DropMembers(members)), x, y) ==> Before(Keys(members), x, y)
    ensures forall k | k in Keys(DropMembers(members)) :: k in Keys(members)
  {
    if members != [] {
      DropKeysStep(members);
      DropBefore(members[1..], x, y);
      var all, rest := Keys(members), Keys(members[1..]);
      var left, kept := Keys(DropMembers(members)), Keys(DropMembers(members[1..]));
      hide DropMembers, Keys;
      if Before(left, x, y) {
        var i, j := Places(left, x, y);
        var d := if members[0].1.Undefined? then 0 else 1;
        assert kept[j - d] == y;
        if i < d {
          assert y in kept && y in rest;
          var k :| 0 <= k < |rest| && rest[k] == y;
          assert all[0] == x && all[k + 1] == y;
        } else {
          assert kept[i - d] == x;
          var k, l := Places(rest, x, y);
          assert all[k + 1] == x && all[l + 1] == y;
        }
      }
    }
  }

  lemma DropTies(lt: KeyOrder, members: seq<(JsString, Json)>, x: JsString, y: JsString)
    requires Distinct(Keys(members)) && x in Keys(DropMembers(members)) && y in Keys(DropMembers(members))
    ensures Before(Keys(DropMembers(members)), x, y) <==> Before(Keys(members), x, y)
  {
    DropBefore(members, x, y);
    DropBefore(members, y, x);
    BeforeOnce(Keys(members), x, y);
    hide Before, Keys, DropMembers;
    if x != y {
      BeforeOrAfter(Keys(DropMembers(members)), x, y);
    }
  }

  lemma DropWithin(a: seq<(JsString, Json)>, b: seq<(JsString, Json)>, m: (JsString, Json))
    requires m in DropMembers(a) && forall x | x in a :: x in b
    ensures m in DropMembers(b)
  {
    hide DropMembers, Drop;
    DropMembersAre(a, m);
    DropMembersAre(b, m);
    var i :| 0 <= i < |a| && !a[i].1.Undefined? && m == (a[i].0, Drop(a[i].1));
    assert a[i] in b;
  }

  lemma DropSame(lt: KeyOrder, members: seq<(JsString, Json)>)
    requires Distinct(Keys(members))
    ensures forall m :: m in DropMembers(members) <==> m in DropMembers(Arrange(lt, members))
  {
    var r := Arrange(lt, members);
    ArrangeMembers(lt, members);
    hide Arrange, DropMembers;
    forall m ensures m in DropMembers(members) <==> m in DropMembers(r) {
      if m in DropMembers(members) {
        DropWithin(members, r, m);
      }
      if m in DropMembers(r) {
        DropWithin(r, members, m);
      }
    }
  }

  lemma DropArrangedTies(lt: KeyOrder, members: seq<(JsString, Json)>)
    requires StrictWeak(lt) && Distinct(Keys(members))
    ensures SameTies(lt, Keys(DropMembers(members)), Keys(DropMembers(Arrange(lt, members))))
  {
    var r := Arrange(lt, members);
    var a, b := DropMembers(members), DropMembers(r);
    ArrangeMembers(lt, members);
    SortStable(lt, Keys(members));
    DropSame(lt, members);
    hide Arrange, DropMembers, Sort, StrictWeak, Before, Distinct;
    SameKeys(a, b);
    forall x, y | x in Keys(a) && y in Keys(a) && Tied(lt, x, y)
      ensures Before(Keys(a), x, y) <==> Before(Keys(b), x, y)
    {
      DropTies(lt, members, x, y);
      DropTies(lt, r, x, y);
      DropKeys(lt, members);
    }
  }

  /** Dropping members and putting the rest in order can be done either way round. */
  lemma DropArranged(lt: KeyOrder, members: seq<(JsString, Json)>)
    requires StrictWeak(lt) && Distinct(Keys(members))
    ensures Arrange(lt, DropMembers(members)) == DropMembers(Arrange(lt, members))
  {
    var r := Arrange(lt, members);
    SortSorted(lt, Keys(members));
    hide Arrange, DropMembers, Sort, StrictWeak, Sorted, Distinct, SameTies, Keys;
    ArrangeMembers(lt, members);
    DropKeys(lt, members);
    DropKeys(lt, r);
    DropSame(lt, members);
    DropArrangedTies(lt, members);
    ArrangeTies(lt, DropMembers(members), DropMembers(r));
    ArrangeAgain(lt, DropMembers(r));
  }

  // ----- the hashed text is that of a canonical value

  function ValueMembers(lt: KeyOrder, r: seq<(JsString, Json)>): (q: seq<(JsString, Json)>)
    ensures |q| == |r|
  {
    seq(|r|, i requires 0 <= i < |r| => (r[i].0, CanonicalValue(lt, r[i].1)))
  }

  function CanonMembers(lt: KeyOrder, r: seq<(JsString, Json)>): (q: seq<(JsString, Json)>)
    ensures |q| == |r|
  {
    seq(|r|, i requires 0 <= i < |r| => (r[i].0, Canon(lt, r[i].1)))
  }

  lemma {:induction false} DropValues(lt: KeyOrder, r: seq<(JsString, Json)>)
    requires forall i | 0 <= i < |r| && !r[i].1.Undefined? ::
      Drop(CanonicalValue(lt, r[i].1)) == Canon(lt, Drop(r[i].1))
    ensures DropMembers(ValueMembers(lt, r)) == CanonMembers(lt, DropMembers(r))
  {
    hide Drop, Canon;
    if r != [] {
      DropValues(lt, r[1..]);
      var q := ValueMembers(lt, r);
      assert q[1..] == ValueMembers(lt, r[1..]);
      assert q[0].1.Undefined? <==> r[0].1.Undefined?;
      hide CanonicalValue;
      var rest := DropMembers(r[1..]);
      if r[0].1.Undefined? {
        assert DropMembers(r) == rest && DropMembers(q) == DropMembers(q[1..]);
      } else {
        assert DropMembers(r) == [(r[0].0, Drop(r[0].1))] + rest;
        assert CanonMembers(lt, DropMembers(r)) == [(r[0].0, Canon(lt, Drop(r[0].1)))] + CanonMembers(lt, rest);
      }
    }
  }

  lemma DropItems(lt: KeyOrder, items: seq<Json>)
    requires forall i | 0 <= i < |items| && !items[i].Undefined? ::
      Drop(CanonicalValue(lt, items[i])) == Canon(lt, Drop(items[i]))
    ensures Drop(CanonicalValue(lt, Array(items))) == Canon(lt, Drop(Array(items)))
  {
    var c, d := CanonicalValue(lt, Array(items)).items, Drop(Array(items)).items;
    assert forall i | 0 <= i < |items| :: c[i] == CanonicalValue(lt, items[i]);
    assert forall i | 0 <= i < |items| :: c[i].Undefined? <==> items[i].Undefined?;
    assert forall i | 0 <= i < |items| :: d[i] == if items[i].Undefined? then Null else Drop(items[i]);
    var left, right := Drop(Array(c)).items, Canon(lt, Array(d)).items;
    assert forall i | 0 <= i < |items| :: left[i] == if c[i].Undefined? then Null else Drop(c[i]);
    assert forall i | 0 <= i < |items| :: right[i] == Canon(lt, d[i]);
    assert Canon(lt, Null) == Null;
    hide CanonicalValue, Drop, Canon;
    assert left == right;
  }

  lemma {:induction false} DropCommutes(lt: KeyOrder, v: Json)
    requires StrictWeak(lt) && WellFormed(v) && !v.Undefined?
    ensures Drop(CanonicalValue(lt, v)) == Canon(lt, Drop(v))
    decreases v
  {
    hide IsNumber, StrictWeak;
    match v
    case Array(items) =>
      forall i | 0 <= i < |items| && !items[i].Undefined?
        ensures Drop(CanonicalValue(lt, items[i])) == Canon(lt, Drop(items[i]))
      {
        DropCommutes(lt, items[i]);
      }
      DropItems(lt, items);
    case Object(members) =>
      var r := Arrange(lt, members);
      forall i | 0 <= i < |r| && !r[i].1.Undefined?
        ensures Drop(CanonicalValue(lt, r[i].1)) == Canon(lt, Drop(r[i].1))
      {
        ArrangedWithin(lt, members, i);
        var j :| 0 <= j < |members| && members[j] == r[i];
        DropCommutes(lt, members[j].1);
      }
      DropValues(lt, r);
      DropArranged(lt, members);
      assert CanonicalValue(lt, v) == Object(ValueMembers(lt, r));
      assert Canon(lt, Drop(v)) == Object(CanonMembers(lt, Arrange(lt, DropMembers(members))));
    case _ =>
  }

  lemma {:induction false} DropWellFormed(v: Json)
    requires WellFormed(v)
    ensures WellFormed(Drop(v)) && (v.Undefined? <==> Drop(v).Undefined?)
    decreases v
  {
    hide IsNumber;
    match v
    case Array(items) =>
      forall i | 0 <= i < |items| ensures WellFormed(Drop(v).items[i]) {
        DropWellFormed(items[i]);
      }
    case Object(members) =>
      var q := DropMembers(members);
      DropKeys(Less, members);
      forall i | 0 <= i < |q| ensures WellFormed(q[i].1) {
        DropMembersAre(members, q[i]);
        assert q[i] in q;
        var j :| 0 <= j < |members| && !members[j].1.Undefined? && q[i] == (members[j].0, Drop(members[j].1));
        DropWellFormed(members[j].1);
      }
    case _ =>
  }

  // ----- what dropping keeps

  /** An undefined item is a null one, and every other item stands where it stood. */
  lemma ItemsKept(items: seq<Json>, i: nat)
    requires i < |items|
    ensures Drop(Array(items)).Array? && |Drop(Array(items)).items| == |items|
    ensures Drop(Array(items)).items[i] == if items[i].Undefined? then Null else Drop(items[i])
  {
  }

  /** Members that are not undefined stay, in order, and nothing comes in. */
  lemma MembersKept(before: seq<(JsString, Json)>, member: (JsString, Json))
    ensures DropMembers(before + [member]) ==
      DropMembers(before) + if member.1.Undefined? then [] else [(member.0, Drop(member.1))]
    ensures Drop(Object(before)) == Object(DropMembers(before)) && DropMembers([]) == []
  {
    DropMembersConcat(before, [member]);
    assert [member][1..] == [];
    assert DropMember(member) + [] == DropMember(member);
  }

  lemma {:induction false} DropMembersConcat(a: seq<(JsString, Json)>, b: seq<(JsString, Json)>)
    ensures DropMembers(a + b) == DropMembers(a) + DropMembers(b)
  {
    hide DropMember;
    if a == [] {
      assert a + b == b;
    } else {
      DropMembersConcat(a[1..], b);
      assert (a + b)[0] == a[0] && (a + b)[1..] == a[1..] + b;
      assert DropMember(a[0]) + (DropMembers(a[1..]) + DropMembers(b))
          == DropMember(a[0]) + DropMembers(a[1..]) + DropMembers(b);
    }
  }

  // ----- main results

  /** Two values hash the same text exactly when what `JSON.stringify` keeps of them is the
      same up to member order, and keys that tie stand in the same order in both. */
  lemma HashTextInjective(lt: KeyOrder, v: Json, w: Json)
    requires StrictWeak(lt) && WellFormed(v) && WellFormed(w)
    ensures HashText(lt, v) == HashText(lt, w) <==>
      v.Undefined? == w.Undefined? && Same(Drop(v), Drop(w)) && TiesAlike(lt, Drop(v), Drop(w))
  {
    hide Canon, Print, StrictWeak, WellFormed, Same, Drop, CanonicalValue;
    DropWellFormed(v);
    DropWellFormed(w);
    CanonIffSame(lt, Drop(v), Drop(w));
    if v.Undefined? || w.Undefined? {
      assert Drop(Undefined) == Undefined && Canon(lt, Undefined) == Null by { UndefinedStays(lt); }
    } else {
      DropCommutes(lt, v);
      DropCommutes(lt, w);
      PrintOnce(lt, Drop(v), Drop(w));
    }
  }

  lemma UndefinedStays(lt: KeyOrder)
    ensures Drop(Undefined) == Undefined && Canon(lt, Undefined) == Null
  {
  }

  lemma PrintOnce(lt: KeyOrder, v: Json, w: Json)
    requires WellFormed(v) && WellFormed(w)
    ensures Print(Canon(lt, v)) == Print(Canon(lt, w)) <==> Canon(lt, v) == Canon(lt, w)
  {
    hide Canon, Print, WellFormed;
    CanonPrintable(lt, v);
    CanonPrintable(lt, w);
    ReadBack(Canon(lt, v), []);
    ReadBack(Canon(lt, w), []);
  }

  /** Under a total order member order never shows. */
  lemma HashTextTotal(lt: KeyOrder, v: Json, w: Json)
    requires StrictTotal(lt) && WellFormed(v) && WellFormed(w)
    ensures HashText(lt, v) == HashText(lt, w) <==> v.Undefined? == w.Undefined? && Same(Drop(v), Drop(w))
  {
    TotalIsWeak(lt);
    hide StrictWeak, StrictTotal, WellFormed, HashText, Drop;
    DropWellFormed(v);
    DropWellFormed(w);
    TotalTiesAlike(lt, Drop(v), Drop(w));
    HashTextInjective(lt, v, w);
  }

  /** An undefined member is an absent one: a revision does not see whether an optional
      field was left out or passed as undefined. */
  lemma AbsentIsUndefined(lt: KeyOrder, before: seq<(JsString, Json)>, key: JsString, after: seq<(JsString, Json)>)
    requires StrictWeak(lt)
    requires WellFormed(Object(before + [(key, Undefined)] + after)) && WellFormed(Object(before + after))
    ensures HashText(lt, Object(before + [(key, Undefined)] + after)) == HashText(lt, Object(before + after))
  {
    DropUndefined(before, key, after);
    hide StrictWeak, WellFormed, Print;
    DropCommutes(lt, Object(before + [(key, Undefined)] + after));
    DropCommutes(lt, Object(before + after));
  }

  lemma {:induction false} DropUndefined(before: seq<(JsString, Json)>, key: JsString, after: seq<(JsString, Json)>)
    ensures DropMembers(before + [(key, Undefined)] + after) == DropMembers(before + after)
    decreases |before|
  {
    hide Drop;
    var all, rest := before + [(key, Undefined)] + after, before + after;
    if before == [] {
      assert all[1..] == after && rest == after;
    } else {
      DropUndefined(before[1..], key, after);
      assert all[1..] == before[1..] + [(key, Undefined)] + after && rest[1..] == before[1..] + after;
    }
  }
}
