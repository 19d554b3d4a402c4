/** The canonical printer behind revision keys: object members in key order, at any depth. */
module StableJson {
  import opened Options
  import opened Sorting
  import opened JsonText

  type KeyOrder = (JsString, JsString) -> bool

  /** The order of `Array.prototype.sort`: UTF-16 code units, left to right. */
  predicate Less(a: JsString, b: JsString) {
    b != [] && (a == [] || a[0] < b[0] || (a[0] == b[0] && Less(a[1..], b[1..])))
  }

  function StableJson(v: Json): JsString
    decreases v
  {
    match v
    case Array(items) =>
      ArrayText(seq(|items|, i requires 0 <= i < |items| => StableJson(items[i])))
    case Object(members) =>
      var r := Arrange(Less, members);
      ObjectText(seq(|r|, i requires 0 <= i < |r| => (r[i].0, StableJson(r[i].1))))
    case _ => ScalarText(v)
  }

  /** The value itself, members in the order `lt` of their keys and nothing undefined. */
  function Canon(lt: KeyOrder, v: Json): Json
    decreases v
  {
    match v
    case Undefined => Null
    case Array(items) => Array(seq(|items|, i requires 0 <= i < |items| => Canon(lt, items[i])))
    case Object(members) =>
      var r := Arrange(lt, members);
      Object(seq(|r|, i requires 0 <= i < |r| => (r[i].0, Canon(lt, r[i].1))))
    case _ => v
  }

  /** Number tokens as `JSON.stringify` writes them, and no key twice in one object. */
  predicate WellFormed(v: Json)
    decreases v
  {
    match v
    case Number(token) => IsNumber(token)
    case Array(items) => forall i | 0 <= i < |items| :: WellFormed(items[i])
    case Object(members) =>
      Distinct(Keys(members)) && forall i | 0 <= i < |members| :: WellFormed(members[i].1)
    case _ => true
  }

  predicate Nullish(v: Json) { v.Undefined? || v.Null? }

  /** Equal up to the order of object members, with undefined taken for null. */
  predicate Same(v: Json, w: Json)
    decreases v, 1
  {
    match v
    case Array(items) =>
      w.Array? && |items| == |w.items| && forall i | 0 <= i < |items| :: Same(items[i], w.items[i])
    case Object(members) =>
      && w.Object?
      && (forall i | 0 <= i < |members| :: Matched(members[i], w.members))
      && (forall k | k in Keys(w.members) :: k in Keys(members))
    case _ => v == w || (Nullish(v) && Nullish(w))
  }

  /** The object `others` has this key, with the same value. */
  predicate Matched(member: (JsString, Json), others: seq<(JsString, Json)>)
    decreases member, 0
  {
    exists j | 0 <= j < |others| :: others[j].0 == member.0 && Same(member.1, others[j].1)
  }

  /** Keys that tie under `lt` stand in the same order in both values, at every depth. */
  ghost predicate TiesAlike(lt: KeyOrder, v: Json, w: Json)
    decreases v
  {
    match v
    case Array(items) =>
      w.Array? ==> forall i | 0 <= i < |items| && i < |w.items| :: TiesAlike(lt, items[i], w.items[i])
    case Object(members) =>
      w.Object? ==>
        && SameTies(lt, Keys(members), Keys(w.members))
        && forall i, j | 0 <= i < |members| && 0 <= j < |w.members| && members[i].0 == w.members[j].0 ::
             TiesAlike(lt, members[i].1, w.members[j].1)
    case _ => true
  }

  // ----- the order

  lemma {:induction false} LessChain(a: JsString, b: JsString, c: JsString)
    ensures !Less(a, a)
    ensures Less(a, b) && Less(b, c) ==> Less(a, c)
    ensures a == b || Less(a, b) || Less(b, a)
  {
    if a != [] {
      LessChain(a[1..], if b == [] then [] else b[1..], if c == [] then [] else c[1..]);
      if b != [] && a[0] == b[0] && a[1..] == b[1..] {
        assert a == [a[0]] + a[1..] && b == [b[0]] + b[1..];
      }
    }
  }

  /** The first code unit in which two keys differ decides, the smaller coming first; a key
      comes before every longer one that starts with it. */
  lemma {:induction false} LessIsFirstDifference(a: JsString, b: JsString)
    ensures Less(a, b) <==>
      || (|a| < |b| && a == b[..|a|])
      || exists k | 0 <= k < |a| && k < |b| :: a[..k] == b[..k] && a[k] < b[k]
  {
    if a != [] && b != [] {
      LessIsFirstDifference(a[1..], b[1..]);
      var c, d := a[1..], b[1..];
      if a[0] == b[0] {
        assert a == [a[0]] + c && b == [a[0]] + d;
        assert |a| < |b| ==> b[..|a|] == [a[0]] + d[..|c|];
        if k :| 0 <= k < |c| && k < |d| && c[..k] == d[..k] && c[k] < d[k] {
          assert a[..k + 1] == [a[0]] + c[..k] && b[..k + 1] == [a[0]] + d[..k];
          assert a[k + 1] < b[k + 1];
        }
        if k :| 0 <= k < |a| && k < |b| && a[..k] == b[..k] && a[k] < b[k] {
          assert k > 0 && c[..k - 1] == a[..k][1..] && d[..k - 1] == b[..k][1..];
          assert c[k - 1] < d[k - 1];
        }
      } else if a[0] < b[0] {
        assert a[..0] == b[..0];
      } else {
        assert forall k | 0 < k <= |a| && k <= |b| :: a[..k][0] == a[0] && b[..k][0] == b[0];
      }
    }
  }

  lemma LessTotal()
    ensures StrictTotal(Less)
  {
    forall x, y, z
      ensures !Less(x, x) && (Less(x, y) && Less(y, z) ==> Less(x, z)) && (x == y || Less(x, y) || Less(y, x))
    {
      LessChain(x, y, z);
    }
  }

  // ----- printing is printing the canonical value

  lemma {:induction false} ItemTexts(items: seq<Json>)
    ensures forall i | 0 <= i < |items| :: PrintItems(items)[i] == Print(items[i])
  {
    hide Print;
    if items != [] {
      ItemTexts(items[1..]);
      assert PrintItems(items)[1..] == PrintItems(items[1..]);
    }
  }

  lemma {:induction false} MemberTexts(members: seq<(JsString, Json)>)
    ensures forall i | 0 <= i < |members| ::
              PrintMembers(members)[i] == (members[i].0, Print(members[i].1))
  {
    hide Print;
    if members != [] {
      MemberTexts(members[1..]);
      assert PrintMembers(members)[1..] == PrintMembers(members[1..]);
    }
  }

  lemma {:induction false} PrintsCanon(v: Json)
    ensures StableJson(v) == Print(Canon(Less, v))
    decreases v
  {
    hide ArrayText, ObjectText, Less, Quote;
    match v
    case Array(items) =>
      var c := Canon(Less, v).items;
      forall i | 0 <= i < |items| ensures StableJson(items[i]) == Print(c[i]) {
        PrintsCanon(items[i]);
      }
      ItemTexts(c);
      assert PrintItems(c) == seq(|items|, i requires 0 <= i < |items| => StableJson(items[i]));
    case Object(members) =>
      var r, c := Arrange(Less, members), Canon(Less, v).members;
      forall i | 0 <= i < |r| ensures StableJson(r[i].1) == Print(c[i].1) {
        ArrangedWithin(Less, members, i);
        PrintsCanon(r[i].1);
      }
      MemberTexts(c);
      assert PrintMembers(c) == seq(|r|, i requires 0 <= i < |r| => (r[i].0, StableJson(r[i].1)));
    case _ =>
  }

  lemma ArrangedWithin(lt: KeyOrder, members: seq<(JsString, Json)>, i: nat)
    requires i < |Arrange(lt, members)|
    ensures Arrange(lt, members)[i] in members
  {
  }

  lemma {:induction false} CanonPrintable(lt: KeyOrder, v: Json)
    requires WellFormed(v)
    ensures Printable(Canon(lt, v))
    decreases v
  {
    hide IsNumber;
    match v
    case Array(items) =>
      forall i | 0 <= i < |items| ensures Printable(Canon(lt, v).items[i]) {
        CanonPrintable(lt, items[i]);
      }
    case Object(members) =>
      var r := Arrange(lt, members);
      forall i | 0 <= i < |r| ensures Printable(Canon(lt, v).members[i].1) {
        ArrangedWithin(lt, members, i);
        var j :| 0 <= j < |members| && members[j] == r[i];
        CanonPrintable(lt, members[j].1);
      }
    case _ =>
  }

  /** A JSON reader gets the canonical value back, whatever text follows a delimiter. */
  lemma Readable(v: Json, rest: JsString)
    requires WellFormed(v) && Delimited(rest)
    ensures ReadValue(StableJson(v) + rest) == Some((Canon(Less, v), rest))
  {
    PrintsCanon(v);
    CanonPrintable(Less, v);
    ReadBack(Canon(Less, v), rest);
  }

  // ----- canonical values are equal exactly when values are the same up to order

  lemma {:induction false} CanonSame(lt: KeyOrder, v: Json, w: Json)
    requires WellFormed(v) && WellFormed(w) && Canon(lt, v) == Canon(lt, w)
    ensures Same(v, w)
    decreases v
  {
    hide IsNumber, Print;
    match v
    case Array(items) =>
      forall i | 0 <= i < |items| ensures Same(items[i], w.items[i]) {
        assert Canon(lt, items[i]) == Canon(lt, v).items[i] == Canon(lt, w).items[i] == Canon(lt, w.items[i]);
        CanonSame(lt, items[i], w.items[i]);
      }
    case Object(members) =>
      forall i | 0 <= i < |members| ensures Matched(members[i], w.members) {
        var j := Partner(lt, members, w.members, i);
        CanonSame(lt, members[i].1, w.members[j].1);
        assert w.members[j].0 == members[i].0;
      }
      forall k | k in Keys(w.members) ensures k in Keys(members) {
        var j :| 0 <= j < |w.members| && Keys(w.members)[j] == k;
        var i := Partner(lt, w.members, members, j);
        assert Keys(members)[i] == k;
      }
    case _ =>
  }

  /** The member that stands where member `i` stands once both objects are arranged. */
  lemma Partner(lt: KeyOrder, a: seq<(JsString, Json)>, b: seq<(JsString, Json)>, i: nat) returns (j: nat)
    requires Distinct(Keys(a)) && Distinct(Keys(b)) && i < |a|
    requires Canon(lt, Object(a)) == Canon(lt, Object(b))
    ensures j < |b| && a[i].0 == b[j].0 && Canon(lt, a[i].1) == Canon(lt, b[j].1)
  {
    var r, q := Arrange(lt, a), Arrange(lt, b);
    ArrangeMembers(lt, a);
    assert a[i] in r;
    var p :| 0 <= p < |r| && r[p] == a[i];
    var ca, cb := Canon(lt, Object(a)).members, Canon(lt, Object(b)).members;
    assert ca[p] == (r[p].0, Canon(lt, r[p].1)) && cb[p] == (q[p].0, Canon(lt, q[p].1));
    ArrangedWithin(lt, b, p);
    j :| 0 <= j < |b| && b[j] == q[p];
  }

  lemma CanonShape(lt: KeyOrder, v: Json, w: Json)
    requires Canon(lt, v) == Canon(lt, w)
    ensures v.Array? == w.Array? && v.Object? == w.Object?
    ensures v.Array? ==> |v.items| == |w.items| && forall i | 0 <= i < |v.items| ::
      Canon(lt, v.items[i]) == Canon(lt, w.items[i])
  {
    if v.Array? {
      forall i | 0 <= i < |v.items| ensures Canon(lt, v.items[i]) == Canon(lt, w.items[i]) {
        assert Canon(lt, v).items[i] == Canon(lt, w).items[i];
      }
    }
  }

  lemma MemberCanon(lt: KeyOrder, a: seq<(JsString, Json)>, b: seq<(JsString, Json)>, i: nat, j: nat)
    requires Distinct(Keys(a)) && Distinct(Keys(b)) && Canon(lt, Object(a)) == Canon(lt, Object(b))
    requires i < |a| && j < |b| && a[i].0 == b[j].0
    ensures Canon(lt, a[i].1) == Canon(lt, b[j].1)
  {
    var k := Partner(lt, a, b, i);
    assert Keys(b)[k] == Keys(b)[j];
  }

  lemma {:induction false} CanonTies(lt: KeyOrder, v: Json, w: Json)
    requires StrictWeak(lt) && WellFormed(v) && WellFormed(w) && Canon(lt, v) == Canon(lt, w)
    ensures TiesAlike(lt, v, w)
    decreases v
  {
    CanonShape(lt, v, w);
    hide IsNumber, StrictWeak, Canon, SameTies;
    match v
    case Array(items) =>
      forall i | 0 <= i < |items| && i < |w.items| ensures TiesAlike(lt, items[i], w.items[i]) {
        CanonTies(lt, items[i], w.items[i]);
      }
    case Object(members) =>
      CanonKeys(lt, members, w.members);
      forall i, j | 0 <= i < |members| && 0 <= j < |w.members| && members[i].0 == w.members[j].0
        ensures TiesAlike(lt, members[i].1, w.members[j].1)
      {
        MemberCanon(lt, members, w.members, i, j);
        CanonTies(lt, members[i].1, w.members[j].1);
      }
    case _ =>
  }

  lemma CanonKeys(lt: KeyOrder, a: seq<(JsString, Json)>, b: seq<(JsString, Json)>)
    requires StrictWeak(lt) && Distinct(Keys(a)) && Distinct(Keys(b))
    requires Canon(lt, Object(a)) == Canon(lt, Object(b))
    ensures SameTies(lt, Keys(a), Keys(b))
  {
    var m, n := Canon(lt, Object(a)).members, Canon(lt, Object(b)).members;
    assert Keys(m) == Keys(Arrange(lt, a)) && Keys(n) == Keys(Arrange(lt, b));
    hide StrictWeak, SameTies, Distinct;
    assert multiset(Keys(a)) == multiset(Sort(lt, Keys(a))) == multiset(Keys(b));
    SortTies(lt, Keys(a), Keys(b));
  }

  lemma {:induction false} SameCanon(lt: KeyOrder, v: Json, w: Json)
    requires StrictWeak(lt) && WellFormed(v) && WellFormed(w) && Same(v, w) && TiesAlike(lt, v, w)
    ensures Canon(lt, v) == Canon(lt, w)
    decreases v
  {
    hide IsNumber, Matched, StrictWeak, SameTies;
    match v
    case Array(items) =>
      forall i | 0 <= i < |items| ensures Canon(lt, items[i]) == Canon(lt, w.items[i]) {
        SameCanon(lt, items[i], w.items[i]);
      }
      assert Canon(lt, v).items == Canon(lt, w).items;
    case Object(members) =>
      var r, q := Arrange(lt, members), Arrange(lt, w.members);
      SameArranged(lt, members, w.members);
      forall p | 0 <= p < |r| ensures Canon(lt, r[p].1) == Canon(lt, q[p].1) {
        var i, j := AtPlace(lt, members, w.members, p);
        SameCanon(lt, members[i].1, w.members[j].1);
      }
      assert Canon(lt, v).members == Canon(lt, w).members;
    case _ =>
  }

  lemma MatchedKeys(a: seq<(JsString, Json)>, b: seq<(JsString, Json)>)
    requires forall i | 0 <= i < |a| :: Matched(a[i], b)
    ensures forall k | k in Keys(a) :: k in Keys(b)
  {
    hide Same;
    forall k | k in Keys(a) ensures k in Keys(b) {
      var i :| 0 <= i < |a| && Keys(a)[i] == k;
      assert Matched(a[i], b);
      var j :| 0 <= j < |b| && b[j].0 == a[i].0;
      assert Keys(b)[j] == k;
    }
  }

  lemma SameArranged(lt: KeyOrder, a: seq<(JsString, Json)>, b: seq<(JsString, Json)>)
    requires StrictWeak(lt) && Distinct(Keys(a)) && Distinct(Keys(b)) && SameTies(lt, Keys(a), Keys(b))
    requires forall i | 0 <= i < |a| :: Matched(a[i], b)
    requires forall k | k in Keys(b) :: k in Keys(a)
    ensures Keys(Arrange(lt, a)) == Keys(Arrange(lt, b)) && |a| == |b|
  {
    hide Same, StrictWeak, SameTies, Matched, Distinct;
    MatchedKeys(a, b);
    SameElements(Keys(a), Keys(b));
    SortTies(lt, Keys(a), Keys(b));
    assert |Keys(Arrange(lt, a))| == |Keys(Arrange(lt, b))|;
  }

  /** Canonical values are equal exactly when the values are, up to member order, and ties
      of the order agree. */
  lemma CanonIffSame(lt: KeyOrder, v: Json, w: Json)
    requires StrictWeak(lt) && WellFormed(v) && WellFormed(w)
    ensures Canon(lt, v) == Canon(lt, w) <==> Same(v, w) && TiesAlike(lt, v, w)
  {
    if Canon(lt, v) == Canon(lt, w) {
      CanonSame(lt, v, w);
      CanonTies(lt, v, w);
    }
    if Same(v, w) && TiesAlike(lt, v, w) {
      SameCanon(lt, v, w);
    }
  }

  /** In a total order nothing ties. */
  lemma {:induction false} TotalTiesAlike(lt: KeyOrder, v: Json, w: Json)
    requires StrictTotal(lt) && WellFormed(v) && WellFormed(w)
    ensures TiesAlike(lt, v, w)
    decreases v
  {
    hide IsNumber, StrictTotal;
    match v
    case Array(items) =>
      forall i | 0 <= i < |items| && w.Array? && i < |w.items| ensures TiesAlike(lt, items[i], w.items[i]) {
        TotalTiesAlike(lt, items[i], w.items[i]);
      }
    case Object(members) =>
      if w.Object? {
        TotalNoTies(lt, Keys(members), Keys(w.members));
        forall i, j | 0 <= i < |members| && 0 <= j < |w.members| && members[i].0 == w.members[j].0
          ensures TiesAlike(lt, members[i].1, w.members[j].1)
        {
          TotalTiesAlike(lt, members[i].1, w.members[j].1);
        }
      }
    case _ =>
  }

  lemma Match(member: (JsString, Json), others: seq<(JsString, Json)>) returns (j: nat)
    requires Matched(member, others)
    ensures j < |others| && others[j].0 == member.0 && Same(member.1, others[j].1)
  {
    hide Same;
    j :| 0 <= j < |others| && others[j].0 == member.0 && Same(member.1, others[j].1);
  }

  /** The members of `a` and `b` at place `p` of the arranged objects. */
  lemma AtPlace(lt: KeyOrder, a: seq<(JsString, Json)>, b: seq<(JsString, Json)>, p: nat) returns (i: nat, j: nat)
    requires Distinct(Keys(b)) && p < |Arrange(lt, a)| && p < |Arrange(lt, b)|
    requires forall i | 0 <= i < |a| :: Matched(a[i], b)
    requires Keys(Arrange(lt, a)) == Keys(Arrange(lt, b))
    ensures i < |a| && a[i] == Arrange(lt, a)[p]
    ensures j < |b| && b[j] == Arrange(lt, b)[p]
    ensures Same(a[i].1, b[j].1)
  {
    hide Same, Arrange, Matched;
    var r, q := Arrange(lt, a), Arrange(lt, b);
    ArrangedWithin(lt, a, p);
    ArrangedWithin(lt, b, p);
    i :| 0 <= i < |a| && a[i] == r[p];
    var k :| 0 <= k < |b| && b[k] == q[p];
    assert r[p].0 == Keys(r)[p] == Keys(q)[p] == q[p].0;
    j := Match(a[i], b);
    assert Keys(b)[j] == Keys(b)[k];
  }

  /** The printer tells two values apart exactly when they differ beyond member order. */
  lemma Injective(v: Json, w: Json)
    requires WellFormed(v) && WellFormed(w)
    ensures StableJson(v) == StableJson(w) <==> Same(v, w)
  {
    if StableJson(v) == StableJson(w) {
      Readable(v, []);
      Readable(w, []);
      assert StableJson(v) + [] == StableJson(w) + [];
      CanonSame(Less, v, w);
    }
    if Same(v, w) {
      LessTotal();
      TotalIsWeak(Less);
      TotalTiesAlike(Less, v, w);
      SameCanon(Less, v, w);
      PrintsCanon(v);
      PrintsCanon(w);
    }
  }

  /** Beyond JSON values it is not one to one: an undefined member reads as null. */
  lemma UndefinedCollides(key: JsString)
    ensures var v, w := Object([(key, Undefined)]), Object([(key, Null)]);
      v != w && StableJson(v) == StableJson(w)
  {
    var v, w := Object([(key, Undefined)]), Object([(key, Null)]);
    assert w.members[0].0 == v.members[0].0 && Same(v.members[0].1, w.members[0].1);
    assert Matched(v.members[0], w.members);
    Injective(v, w);
  }

  // ----- registration identity

  datatype Interface = Interface(cardUrl: JsString, url: JsString, binding: JsString, version: JsString,
                                 tenant: Option<JsString>)

  function Ascii(s: string): JsString {
    seq(|s|, i requires 0 <= i < |s| => (s[i] as int % 128) as Unit)
  }

  function TenantText(f: Interface): JsString {
    if f.tenant.Some? then f.tenant.value else []
  }

  function IdentityFields(f: Interface): seq<(JsString, Json)> {
    [(Ascii("agentCardUrl"), String(f.cardUrl)),
     (Ascii("interfaceUrl"), String(f.url)),
     (Ascii("protocolBinding"), String(f.binding)),
     (Ascii("protocolVersion"), String(f.version)),
     (Ascii("tenant"), String(TenantText(f)))]
  }

  lemma FieldNames(f: Interface)
    ensures Distinct(Keys(IdentityFields(f)))
  {
    var keys := Keys(IdentityFields(f));
    assert keys[0][0] == 97 && keys[1][0] == 105 && keys[2][0] == 112 && keys[3][0] == 112 && keys[4][0] == 116;
    assert keys[2][8] == 66 && keys[3][8] == 86;
  }

  /** Two agents get the same identity text exactly when the five fields agree, a missing
      tenant counting as the empty one. */
  lemma IdentityInjective(f: Interface, g: Interface)
    ensures StableJson(Object(IdentityFields(f))) == StableJson(Object(IdentityFields(g))) <==>
      f.(tenant := None) == g.(tenant := None) && TenantText(f) == TenantText(g)
  {
    var a, b := IdentityFields(f), IdentityFields(g);
    FieldNames(f);
    FieldNames(g);
    Injective(Object(a), Object(b));
    SameFields(f, g);
  }

  lemma SameFields(f: Interface, g: Interface)
    ensures Same(Object(IdentityFields(f)), Object(IdentityFields(g))) <==> IdentityFields(f) == IdentityFields(g)
  {
    var a, b := IdentityFields(f), IdentityFields(g);
    FieldNames(g);
    forall i | 0 <= i < 5 ensures Matched(a[i], b) <==> a[i] == b[i] {
      assert Keys(b)[i] == a[i].0;
      if Matched(a[i], b) {
        var j := Match(a[i], b);
        assert Keys(b)[j] == Keys(b)[i];
      }
      if a[i] == b[i] {
        assert b[i].0 == a[i].0 && Same(a[i].1, b[i].1);
      }
    }
    assert Keys(a) == Keys(b);
  }
}
