/** Stable sorting, and objects seen as lists of keyed members. */
module Sorting {
  /** An order in which different elements may tie, as the keys of `localeCompare` do. */
  ghost predicate StrictWeak<K(!new)>(lt: (K, K) -> bool) {
    && (forall x, y :: lt(x, y) ==> !lt(y, x))
    && (forall x, y, z :: !lt(x, y) && !lt(y, z) ==> !lt(x, z))
  }

  ghost predicate StrictTotal<K(!new)>(lt: (K, K) -> bool) {
    && (forall x :: !lt(x, x))
    && (forall x, y, z :: lt(x, y) && lt(y, z) ==> lt(x, z))
    && (forall x, y :: x == y || lt(x, y) || lt(y, x))
  }

  lemma TotalIsWeak<K(!new)>(lt: (K, K) -> bool)
    requires StrictTotal(lt)
    ensures StrictWeak(lt)
  {
    forall x, y, z | !lt(x, y) && !lt(y, z) ensures !lt(x, z) {
      assert x == y || lt(y, x);
    }
  }

  ghost predicate Sorted<K>(lt: (K, K) -> bool, s: seq<K>) {
    forall i, j | 0 <= i < j < |s| :: !lt(s[j], s[i])
  }

  predicate Distinct<K(==)>(s: seq<K>) {
    forall i, j | 0 <= i < j < |s| :: s[i] != s[j]
  }

  function Insert<K>(lt: (K, K) -> bool, x: K, s: seq<K>): (r: seq<K>)
    ensures multiset(r) == multiset{x} + multiset(s)
  {
    if s == [] || !lt(s[0], x) then [x] + s
    else
      assert s == [s[0]] + s[1..];
      [s[0]] + Insert(lt, x, s[1..])
  }

  /** `Array.prototype.sort` with the order `lt`. */
  function Sort<K>(lt: (K, K) -> bool, s: seq<K>): (r: seq<K>)
    ensures multiset(r) == multiset(s)
  {
    if s == [] then []
    else
      assert s == [s[0]] + s[1..];
      Insert(lt, s[0], Sort(lt, s[1..]))
  }

  lemma {:induction false} InsertSorted<K(!new)>(lt: (K, K) -> bool, x: K, s: seq<K>)
    requires StrictWeak(lt) && Sorted(lt, s)
    ensures Sorted(lt, Insert(lt, x, s))
  {
    if s != [] && lt(s[0], x) {
      InsertSorted(lt, x, s[1..]);
      var tail := Insert(lt, x, s[1..]);
      forall j | 0 <= j < |tail| ensures !lt(tail[j], s[0]) {
        assert tail[j] in multiset(tail);
        assert tail[j] == x || tail[j] in s[1..];
      }
    }
  }

  lemma {:induction false} SortSorted<K(!new)>(lt: (K, K) -> bool, s: seq<K>)
    requires StrictWeak(lt)
    ensures Sorted(lt, Sort(lt, s))
  {
    if s != [] {
      SortSorted(lt, s[1..]);
      InsertSorted(lt, s[0], Sort(lt, s[1..]));
    }
  }

  lemma SameHead<K(!new)>(lt: (K, K) -> bool, a: seq<K>, b: seq<K>)
    requires StrictTotal(lt) && Sorted(lt, a) && Sorted(lt, b) && a != [] && b != [] && a[0] in b && b[0] in a
    ensures a[0] == b[0]
  {
    var i :| 0 <= i < |a| && a[i] == b[0];
    var j :| 0 <= j < |b| && b[j] == a[0];
  }

  lemma SortedTail<K>(lt: (K, K) -> bool, a: seq<K>)
    requires Sorted(lt, a) && a != []
    ensures Sorted(lt, a[1..])
  {
  }

  lemma TailMultiset<K>(a: seq<K>)
    requires a != []
    ensures multiset(a[1..]) == multiset(a) - multiset{a[0]}
  {
    assert a == [a[0]] + a[1..];
  }

  /** Two sorted lists of the same elements are the same list. */
  lemma {:induction false} SortedUnique<K(!new)>(lt: (K, K) -> bool, a: seq<K>, b: seq<K>)
    requires StrictTotal(lt) && Sorted(lt, a) && Sorted(lt, b) && multiset(a) == multiset(b)
    ensures a == b
    decreases |a|
  {
    hide StrictTotal, Sorted;
    assert |a| == |multiset(a)| == |multiset(b)| == |b|;
    if a != [] {
      assert a[0] in multiset(b) && b[0] in multiset(a);
      SameHead(lt, a, b);
      SortedTail(lt, a);
      SortedTail(lt, b);
      TailMultiset(a);
      TailMultiset(b);
      SortedUnique(lt, a[1..], b[1..]);
      assert a == [a[0]] + a[1..] && b == [b[0]] + b[1..];
    }
  }

  /** Sorting depends only on which elements there are, and leaves sorted lists alone. */
  lemma SortCanonical<K(!new)>(lt: (K, K) -> bool, a: seq<K>, b: seq<K>)
    requires StrictTotal(lt) && multiset(a) == multiset(b)
    ensures Sort(lt, a) == Sort(lt, b)
    ensures Sorted(lt, a) ==> Sort(lt, b) == a
  {
    TotalIsWeak(lt);
    SortSorted(lt, a);
    SortSorted(lt, b);
    SortedUnique(lt, Sort(lt, a), Sort(lt, b));
    if Sorted(lt, a) {
      SortedUnique(lt, a, Sort(lt, b));
    }
  }

  lemma {:induction false} DistinctMultiset<K>(s: seq<K>)
    requires Distinct(s)
    ensures forall x :: x in s ==> multiset(s)[x] == 1
  {
    if s != [] {
      assert s == [s[0]] + s[1..];
      DistinctMultiset(s[1..]);
    }
  }

  /** Lists without repetition that have the same elements have them equally often. */
  lemma SameElements<K>(a: seq<K>, b: seq<K>)
    requires Distinct(a) && Distinct(b) && forall x :: x in a <==> x in b
    ensures multiset(a) == multiset(b)
  {
    DistinctMultiset(a);
    DistinctMultiset(b);
    forall x ensures multiset(a)[x] == multiset(b)[x] {
      assert x in a <==> x in multiset(a);
      assert x in b <==> x in multiset(b);
    }
  }

  lemma {:induction false} MultisetDistinct<K>(a: seq<K>, b: seq<K>)
    requires multiset(a) == multiset(b) && Distinct(a)
    ensures Distinct(b)
  {
    DistinctMultiset(a);
    forall i, j | 0 <= i < j < |b| ensures b[i] != b[j] {
      assert b[i] in multiset(b) && b[i] in a;
      Twice(b, i, j);
    }
  }

  lemma Twice<K>(s: seq<K>, i: nat, j: nat)
    requires i < j < |s|
    ensures s[i] == s[j] ==> multiset(s)[s[i]] >= 2
  {
    assert s == s[..i] + [s[i]] + s[i + 1..j] + [s[j]] + s[j + 1..];
  }

  /** Sorting a list without repetition. */
  lemma SortMembers<K(!new)>(lt: (K, K) -> bool, s: seq<K>)
    requires StrictWeak(lt) && Distinct(s)
    ensures var r := Sort(lt, s);
      Sorted(lt, r) && Distinct(r) && |r| == |s| && forall x :: x in r <==> x in s
  {
    var r := Sort(lt, s);
    SortSorted(lt, s);
    MultisetDistinct(s, r);
    hide Sort, StrictWeak, Sorted, Distinct;
    assert |r| == |multiset(r)| == |multiset(s)| == |s|;
    assert forall x :: x in s <==> x in multiset(s);
    assert forall x :: x in r <==> x in multiset(r);
  }

  lemma {:induction false} SortAgain<K>(lt: (K, K) -> bool, s: seq<K>)
    requires Sorted(lt, s)
    ensures Sort(lt, s) == s
  {
    if s != [] {
      SortAgain(lt, s[1..]);
      assert s == [s[0]] + s[1..];
      assert |s| > 1 ==> s[1..][0] == s[1];
    }
  }

  // ----- stability

  predicate Tied<K>(lt: (K, K) -> bool, x: K, y: K) {
    !lt(x, y) && !lt(y, x)
  }

  ghost predicate Before<K>(s: seq<K>, x: K, y: K) {
    exists i, j | 0 <= i < j < |s| :: s[i] == x && s[j] == y
  }

  /** Elements that tie stand in the same order in both lists. */
  ghost predicate SameTies<K(!new)>(lt: (K, K) -> bool, a: seq<K>, b: seq<K>) {
    forall x, y | x in a && y in a && Tied(lt, x, y) :: Before(a, x, y) <==> Before(b, x, y)
  }

  /** No two different elements tie. */
  ghost predicate NoTies<K(!new)>(lt: (K, K) -> bool, s: seq<K>) {
    forall x, y | x in s && y in s && Tied(lt, x, y) :: x == y
  }

  /** `r` is in order, with ties as in `s`. */
  ghost predicate InOrder<K>(lt: (K, K) -> bool, s: seq<K>, r: seq<K>) {
    forall i, j | 0 <= i < j < |r| :: Precedes(lt, s, r[i], r[j])
  }

  ghost predicate Precedes<K>(lt: (K, K) -> bool, s: seq<K>, x: K, y: K) {
    lt(x, y) || (!lt(y, x) && Before(s, x, y))
  }

  lemma BeforeOnce<K>(s: seq<K>, x: K, y: K)
    requires Distinct(s)
    ensures !(Before(s, x, y) && Before(s, y, x))
  {
  }

  lemma BeforeOrAfter<K>(s: seq<K>, x: K, y: K)
    requires x in s && y in s && x != y
    ensures Before(s, x, y) || Before(s, y, x)
  {
    var i :| 0 <= i < |s| && s[i] == x;
    var j :| 0 <= j < |s| && s[j] == y;
    assert i < j ==> Before(s, x, y);
    assert j < i ==> Before(s, y, x);
  }

  lemma {:induction false} InsertInOrder<K(!new)>(lt: (K, K) -> bool, s: seq<K>, x: K, r: seq<K>)
    requires StrictWeak(lt) && InOrder(lt, s, r) && forall y | y in r :: Before(s, x, y)
    ensures InOrder(lt, s, Insert(lt, x, r))
  {
    hide Before;
    var q := Insert(lt, x, r);
    if r == [] {
    } else if !lt(r[0], x) {
      forall j | 0 < j < |q| ensures Precedes(lt, s, q[0], q[j]) {
        assert q[j] == r[j - 1] && q[j] in r;
        assert j > 1 ==> Precedes(lt, s, r[0], r[j - 1]);
      }
      assert forall i, j | 0 < i < j < |q| :: q[i] == r[i - 1] && q[j] == r[j - 1];
    } else {
      InsertInOrder(lt, s, x, r[1..]);
      forall j | 0 < j < |q| ensures Precedes(lt, s, q[0], q[j]) {
        assert q[j] in multiset(q[1..]) && q[1..] == Insert(lt, x, r[1..]);
        assert q[j] == x || q[j] in r[1..];
      }
      assert forall i, j | 0 < i < j < |q| :: q[i] == q[1..][i - 1] && q[j] == q[1..][j - 1];
    }
  }

  lemma {:induction false} SortInOrder<K(!new)>(lt: (K, K) -> bool, s: seq<K>)
    requires StrictWeak(lt)
    ensures InOrder(lt, s, Sort(lt, s))
  {
    if s != [] {
      var r := Sort(lt, s[1..]);
      SortInOrder(lt, s[1..]);
      forall x, y | Before(s[1..], x, y) ensures Before(s, x, y) {
        var i, j :| 0 <= i < j < |s[1..]| && s[1..][i] == x && s[1..][j] == y;
        assert s[i + 1] == x && s[j + 1] == y;
      }
      forall y | y in r ensures Before(s, s[0], y) {
        assert y in multiset(r) && y in s[1..];
        var j :| 0 <= j < |s[1..]| && s[1..][j] == y;
        assert s[j + 1] == y;
      }
      hide Before, StrictWeak;
      InsertInOrder(lt, s, s[0], r);
    }
  }

  /** Sorting keeps tied elements in the order they came in. */
  lemma SortStable<K(!new)>(lt: (K, K) -> bool, s: seq<K>)
    requires StrictWeak(lt) && Distinct(s)
    ensures SameTies(lt, s, Sort(lt, s))
  {
    var r := Sort(lt, s);
    SortInOrder(lt, s);
    SortMembers(lt, s);
    hide Sort, StrictWeak, Before, InOrder, Distinct, Sorted;
    forall x, y | x in s && y in s && Tied(lt, x, y) ensures Before(s, x, y) <==> Before(r, x, y) {
      BeforeOnce(s, x, y);
      BeforeOnce(r, x, y);
      if x != y {
        BeforeOrAfter(r, x, y);
        OrderedTie(lt, s, r, x, y);
        OrderedTie(lt, s, r, y, x);
      }
    }
  }

  lemma OrderedTie<K>(lt: (K, K) -> bool, s: seq<K>, r: seq<K>, x: K, y: K)
    requires InOrder(lt, s, r) && Tied(lt, x, y)
    ensures Before(r, x, y) ==> Before(s, x, y)
  {
    hide Before;
    if Before(r, x, y) {
      var i, j := Places(r, x, y);
      assert Precedes(lt, s, r[i], r[j]);
    }
  }

  lemma Places<K>(s: seq<K>, x: K, y: K) returns (i: nat, j: nat)
    requires Before(s, x, y)
    ensures i < j < |s| && s[i] == x && s[j] == y
  {
    i, j :| 0 <= i < j < |s| && s[i] == x && s[j] == y;
  }

  lemma HeadsAgree<K(!new)>(lt: (K, K) -> bool, s: seq<K>, a: seq<K>, b: seq<K>)
    requires StrictWeak(lt) && Distinct(s) && InOrder(lt, s, a) && InOrder(lt, s, b)
    requires a != [] && b != [] && a[0] in b && b[0] in a
    ensures a[0] == b[0]
  {
    BeforeOnce(s, a[0], b[0]);
    hide Before, Distinct;
    var i :| 0 <= i < |a| && a[i] == b[0];
    var j :| 0 <= j < |b| && b[j] == a[0];
    assert i > 0 ==> Precedes(lt, s, a[0], a[i]);
    assert j > 0 ==> Precedes(lt, s, b[0], b[j]);
  }

  /** Two lists of the same elements in the same order are the same list. */
  lemma {:induction false} InOrderUnique<K(!new)>(lt: (K, K) -> bool, s: seq<K>, a: seq<K>, b: seq<K>)
    requires StrictWeak(lt) && Distinct(s) && InOrder(lt, s, a) && InOrder(lt, s, b) && multiset(a) == multiset(b)
    ensures a == b
    decreases |a|
  {
    hide StrictWeak, Precedes, Distinct;
    assert |a| == |multiset(a)| == |multiset(b)| == |b|;
    if a != [] {
      assert a[0] in multiset(b) && b[0] in multiset(a);
      HeadsAgree(lt, s, a, b);
      InOrderTail(lt, s, a);
      InOrderTail(lt, s, b);
      hide InOrder;
      TailMultiset(a);
      TailMultiset(b);
      InOrderUnique(lt, s, a[1..], b[1..]);
      assert a == [a[0]] + a[1..] && b == [b[0]] + b[1..];
    }
  }

  lemma InOrderTail<K>(lt: (K, K) -> bool, s: seq<K>, a: seq<K>)
    requires InOrder(lt, s, a) && a != []
    ensures InOrder(lt, s, a[1..])
  {
    hide Precedes;
  }

  /** Two orders of the same elements sort to the same list exactly when ties stand in the
      same order in both. */
  lemma SortTies<K(!new)>(lt: (K, K) -> bool, a: seq<K>, b: seq<K>)
    requires StrictWeak(lt) && Distinct(a) && Distinct(b) && multiset(a) == multiset(b)
    ensures Sort(lt, a) == Sort(lt, b) <==> SameTies(lt, a, b)
  {
    SameMembers(a, b);
    if SameTies(lt, a, b) {
      SortInOrder(lt, a);
      SortInOrder(lt, b);
      SortMembers(lt, b);
      hide Sort, Before, StrictWeak, Distinct;
      TiesInOrder(lt, a, b, Sort(lt, b));
      InOrderUnique(lt, a, Sort(lt, a), Sort(lt, b));
    }
    if Sort(lt, a) == Sort(lt, b) {
      SortStable(lt, a);
      SortStable(lt, b);
      hide Sort, Before, StrictWeak, Distinct;
    }
  }

  lemma TiesInOrder<K(!new)>(lt: (K, K) -> bool, a: seq<K>, b: seq<K>, r: seq<K>)
    requires SameTies(lt, a, b) && InOrder(lt, b, r) && forall x | x in r :: x in a
    ensures InOrder(lt, a, r)
  {
    hide Before;
    forall i, j | 0 <= i < j < |r| ensures Precedes(lt, a, r[i], r[j]) {
      assert Precedes(lt, b, r[i], r[j]);
      assert r[i] in a && r[j] in a;
    }
  }

  lemma SameMembers<K>(a: seq<K>, b: seq<K>)
    requires multiset(a) == multiset(b)
    ensures forall x :: x in a <==> x in b
  {
    assert forall x :: x in a <==> x in multiset(a);
    assert forall x :: x in b <==> x in multiset(b);
  }

  lemma TotalNoTies<K(!new)>(lt: (K, K) -> bool, a: seq<K>, b: seq<K>)
    requires StrictTotal(lt) && Distinct(a) && Distinct(b)
    ensures NoTies(lt, a) && SameTies(lt, a, b)
  {
    NoTiesSame(lt, a, b);
  }

  lemma NoTiesSame<K(!new)>(lt: (K, K) -> bool, a: seq<K>, b: seq<K>)
    requires NoTies(lt, a) && Distinct(a) && Distinct(b)
    ensures SameTies(lt, a, b)
  {
    forall x, y | x in a && y in a && Tied(lt, x, y) ensures !Before(a, x, y) && !Before(b, x, y) {
      assert x == y;
      BeforeOnce(a, x, y);
      BeforeOnce(b, x, y);
    }
  }

  // ----- keyed members

  function Keys<K, V>(members: seq<(K, V)>): (keys: seq<K>)
    ensures |keys| == |members|
    ensures forall i | 0 <= i < |members| :: keys[i] == members[i].0
  {
    seq(|members|, i requires 0 <= i < |members| => members[i].0)
  }

  function Lookup<K(==), V>(members: seq<(K, V)>, key: K): (v: V)
    requires key in Keys(members)
    ensures (key, v) in members
  {
    if members[0].0 == key then members[0].1
    else
      assert key in Keys(members[1..]) by {
        var i :| 0 <= i < |members| && Keys(members)[i] == key;
        assert Keys(members[1..])[i - 1] == key;
      }
      Lookup(members[1..], key)
  }

  /** `Object.keys(o).sort().map(k => [k, o[k]])`. */
  function Arrange<K(==), V>(lt: (K, K) -> bool, members: seq<(K, V)>): (r: seq<(K, V)>)
    ensures |r| == |members|
    ensures Keys(r) == Sort(lt, Keys(members))
    ensures forall i | 0 <= i < |r| :: r[i].0 in Keys(members) && r[i].1 == Lookup(members, r[i].0)
  {
    var keys := Sort(lt, Keys(members));
    assert |keys| == |multiset(keys)| == |multiset(Keys(members))| == |members|;
    assert forall i | 0 <= i < |keys| :: keys[i] in Keys(members) by {
      forall i | 0 <= i < |keys| ensures keys[i] in Keys(members) {
        assert keys[i] in multiset(keys);
      }
    }
    seq(|keys|, i requires 0 <= i < |keys| => (keys[i], Lookup(members, keys[i])))
  }

  lemma {:induction false} LookupUnique<K, V>(members: seq<(K, V)>, key: K, v: V)
    requires Distinct(Keys(members)) && (key, v) in members
    ensures key in Keys(members) && Lookup(members, key) == v
  {
    var i :| 0 <= i < |members| && members[i] == (key, v);
    assert Keys(members)[i] == key;
    var w := Lookup(members, key);
    var j :| 0 <= j < |members| && members[j] == (key, w);
    assert Keys(members)[j] == key;
    assert i == j;
  }

  /** Arranging keeps exactly the members, when keys are unique. */
  lemma ArrangeMembers<K, V>(lt: (K, K) -> bool, members: seq<(K, V)>)
    requires Distinct(Keys(members))
    ensures forall m :: m in Arrange(lt, members) <==> m in members
    ensures Distinct(Keys(Arrange(lt, members)))
  {
    var r := Arrange(lt, members);
    MultisetDistinct(Keys(members), Keys(r));
    forall m | m in members ensures m in r {
      LookupUnique(members, m.0, m.1);
      assert m.0 in multiset(Keys(members));
      assert m.0 in Keys(r);
      var i :| 0 <= i < |r| && Keys(r)[i] == m.0;
      assert r[i] == m;
    }
  }

  lemma ArrangeAgain<K(!new), V>(lt: (K, K) -> bool, members: seq<(K, V)>)
    requires Sorted(lt, Keys(members)) && Distinct(Keys(members))
    ensures Arrange(lt, members) == members
  {
    var r := Arrange(lt, members);
    SortAgain(lt, Keys(members));
    forall i | 0 <= i < |members| ensures r[i] == members[i] {
      assert Keys(r)[i] == Keys(members)[i];
      LookupUnique(members, members[i].0, members[i].1);
    }
  }

  /** Two orders of the same members arrange to the same list when ties agree. */
  lemma ArrangeTies<K(!new), V>(lt: (K, K) -> bool, a: seq<(K, V)>, b: seq<(K, V)>)
    requires StrictWeak(lt) && Distinct(Keys(a)) && Distinct(Keys(b)) && SameTies(lt, Keys(a), Keys(b))
    requires forall m :: m in a <==> m in b
    ensures Arrange(lt, a) == Arrange(lt, b)
  {
    SameKeys(a, b);
    SameKeys(b, a);
    SameElements(Keys(a), Keys(b));
    SortTies(lt, Keys(a), Keys(b));
    hide StrictWeak, SameTies, Sort;
    var p, q := Arrange(lt, a), Arrange(lt, b);
    assert |Keys(p)| == |Keys(q)|;
    forall i | 0 <= i < |p| ensures p[i] == q[i] {
      assert Keys(p)[i] == Keys(q)[i];
      LookupUnique(b, p[i].0, p[i].1);
    }
  }

  lemma SameKeys<K, V>(a: seq<(K, V)>, b: seq<(K, V)>)
    requires forall m :: m in a ==> m in b
    ensures forall k :: k in Keys(a) ==> k in Keys(b)
  {
    forall k | k in Keys(a) ensures k in Keys(b) {
      var i :| 0 <= i < |a| && Keys(a)[i] == k;
      assert a[i] in b;
      var j :| 0 <= j < |b| && b[j] == a[i];
      assert Keys(b)[j] == k;
    }
  }
}
