/** What normalising and resolving a path mean, as laws that rewrite any path to its normal
    form: what each dot, double dot and slash undoes, and which paths are left alone. */
module PathLaws {
  import opened JsText
  import opened PosixPath

  // ----- segments of longer paths

  lemma {:induction false} SegmentsConcat(a: string, b: string)
    ensures Segments(a + "/" + b) == Segments(a) + Segments(b)
    decreases |a|
  {
    if a == "" {
      assert a + "/" + b == "/" + b && ("/" + b)[1..] == b;
    } else {
      SegmentsConcat(a[1..], b);
      assert (a + "/" + b)[1..] == a[1..] + "/" + b && (a + "/" + b)[0] == a[0];
      hide Segments;
      FirstSegment(a[0], Segments(a[1..]), Segments(b));
    }
  }

  lemma FirstSegment(c: char, rest: seq<string>, more: seq<string>)
    requires rest != []
    ensures (rest + more)[0] == rest[0] && (rest + more)[1..] == rest[1..] + more
    ensures [""] + (rest + more) == [""] + rest + more
    ensures [[c] + rest[0]] + (rest[1..] + more) == [[c] + rest[0]] + rest[1..] + more
  {
  }

  lemma OneSegment(x: string)
    requires '/' !in x
    ensures Segments(x) == [x]
  {
    SegmentsJoin([x]);
  }

  /** Segments that leave every stack as it is. */
  ghost predicate Idle(segments: seq<string>, above: bool) {
    forall stack :: Collapse(stack, segments, above) == stack
  }

  lemma PlainThenUp(x: string, above: bool)
    requires Plain(x)
    ensures Idle([x, ".."], above)
  {
    forall stack ensures Collapse(stack, [x, ".."], above) == stack {
      assert [x, ".."][1..] == [".."] && [".."][1..] == [];
      assert Step(stack, x, above) == stack + [x];
      assert (stack + [x])[..|stack|] == stack;
      assert Step(stack + [x], "..", above) == stack;
      assert Collapse(stack + [x], [".."], above) == Collapse(stack, [], above);
    }
  }

  lemma DotOrNothing(x: string, above: bool)
    requires x == "." || x == ""
    ensures Idle([x], above)
  {
    forall stack ensures Collapse(stack, [x], above) == stack {
      assert [x][1..] == [];
      assert Collapse(stack, [x], above) == Collapse(Step(stack, x, above), [], above);
    }
  }

  /** Idle segments in the middle of a path change nothing. */
  lemma IdleBody(a: seq<string>, idle: seq<string>, b: seq<string>, above: bool)
    requires Idle(idle, above)
    ensures Collapse([], a + idle + b, above) == Collapse([], a + b, above)
  {
    CollapseConcat([], a + idle, b, above);
    CollapseConcat([], a, idle, above);
    CollapseConcat([], a, b, above);
  }

  /** Two paths with the same ends and the same body normalise and resolve alike. */
  lemma SameBody(p: string, q: string)
    requires p != "" && q != "" && IsAbsolute(p) == IsAbsolute(q) && Trailing(p) == Trailing(q)
    requires Body(p, !IsAbsolute(p)) == Body(q, !IsAbsolute(q))
    ensures Normalize(p) == Normalize(q) && (IsAbsolute(p) ==> Resolve(p) == Resolve(q))
  {
    hide Body;
  }

  lemma Ends(a: string, middle: string, b: string)
    ensures IsAbsolute(a + "/" + middle + "/" + b) == IsAbsolute(a + "/" + b)
    ensures Trailing(a + "/" + middle + "/" + b) == Trailing(a + "/" + b)
  {
  }

  lemma MiddleGone(a: string, middle: string, b: string)
    requires forall above :: Idle(Segments(middle), above)
    ensures var p, q := a + "/" + middle + "/" + b, a + "/" + b;
      Normalize(p) == Normalize(q) && (IsAbsolute(p) ==> IsAbsolute(q) && Resolve(p) == Resolve(q))
  {
    var p, q := a + "/" + middle + "/" + b, a + "/" + b;
    var above := !IsAbsolute(p);
    Ends(a, middle, b);
    SegmentsConcat(a + "/" + middle, b);
    SegmentsConcat(a, middle);
    SegmentsConcat(a, b);
    hide Segments, Collapse, Join, Normalize, Resolve, IsAbsolute, Trailing;
    assert Idle(Segments(middle), above);
    IdleBody(Segments(a), Segments(middle), Segments(b), above);
    assert Body(p, above) == Body(q, above);
    SameBody(p, q);
  }

  // ----- what goes

  /** A double dot undoes the plain segment before it. */
  lemma UpUndoes(a: string, x: string, b: string)
    requires Plain(x)
    ensures Normalize(a + "/" + x + "/../" + b) == Normalize(a + "/" + b)
    ensures IsAbsolute(a + "/" + b) ==>
      IsAbsolute(a + "/" + x + "/../" + b) && Resolve(a + "/" + x + "/../" + b) == Resolve(a + "/" + b)
  {
    var middle := x + "/" + "..";
    SegmentsConcat(x, "..");
    OneSegment(x);
    OneSegment("..");
    assert [x] + [".."] == [x, ".."];
    forall above ensures Idle(Segments(middle), above) {
      PlainThenUp(x, above);
    }
    MiddleGone(a, middle, b);
    Ends(a, middle, b);
    hide *;
    SpelledUp(a, x, b);
  }

  lemma SpelledUp(a: string, x: string, b: string)
    ensures a + "/" + x + "/../" + b == a + "/" + (x + "/" + "..") + "/" + b
  {
    assert "/../" == "/" + ".." + "/";
  }

  /** A dot between slashes, and a slash after a slash, are nothing. */
  lemma DotIsNothing(a: string, b: string)
    ensures Normalize(a + "/./" + b) == Normalize(a + "/" + b)
    ensures Normalize(a + "//" + b) == Normalize(a + "/" + b)
    ensures IsAbsolute(a + "/" + b) ==>
      && IsAbsolute(a + "/./" + b) && Resolve(a + "/./" + b) == Resolve(a + "/" + b)
      && IsAbsolute(a + "//" + b) && Resolve(a + "//" + b) == Resolve(a + "/" + b)
  {
    OneSegment(".");
    OneSegment("");
    forall above ensures Idle(Segments("."), above) && Idle(Segments(""), above) {
      DotOrNothing(".", above);
      DotOrNothing("", above);
    }
    MiddleGone(a, ".", b);
    MiddleGone(a, "", b);
    Ends(a, ".", b);
    Ends(a, "", b);
    hide *;
    Between(a, "/", ".", b);
    Between(a, "/", "", b);
    assert "/" + "." + "/" == "/./" && "/" + "" + "/" == "//";
  }

  lemma Between<T>(a: seq<T>, slash: seq<T>, middle: seq<T>, b: seq<T>)
    ensures a + (slash + middle + slash) + b == a + slash + middle + slash + b
  {
  }

  /** The root has nothing above it. */
  lemma RootHasNoParent(b: string)
    ensures Normalize("/../" + b) == Normalize("/" + b) && Resolve("/../" + b) == Resolve("/" + b)
  {
    var p, q := "/../" + b, "/" + b;
    assert p == "/" + ".." + "/" + b && "" + "/" + b == q && "" + "/" + ".." == "/" + "..";
    SegmentsConcat("/" + "..", b);
    SegmentsConcat("", "..");
    SegmentsConcat("", b);
    OneSegment("..");
    OneSegment("");
    CollapseConcat([], [""] + [".."], Segments(b), false);
    CollapseConcat([], [""], Segments(b), false);
    NothingAbove();
    assert Trailing(p) == Trailing(q);
    hide Segments, Collapse;
    SameBody(p, q);
  }

  lemma NothingAbove()
    ensures Collapse([], [""] + [".."], false) == [] && Collapse([], [""], false) == []
  {
    assert ([""] + [".."])[1..] == [".."] && [".."][1..] == [] && [""][1..] == [];
    assert Collapse([], [""], false) == Collapse([], [], false);
    assert Collapse([], [".."], false) == Collapse([], [], false);
  }

  /** A relative path may start with dots, and with plain segments undone at once. */
  lemma StartGone(x: string, b: string)
    requires Plain(x) && b != "" && !IsAbsolute(b)
    ensures Normalize("./" + b) == Normalize(b) && Normalize(x + "/../" + b) == Normalize(b)
  {
    OneSegment(".");
    OneSegment(x);
    OneSegment("..");
    SegmentsConcat(x, "..");
    assert [x] + [".."] == [x, ".."];
    DotOrNothing(".", true);
    PlainThenUp(x, true);
    assert (x + "/" + "..")[0] == x[0] && x[0] in x;
    hide *;
    FirstGone(".", b);
    FirstGone(x + "/" + "..", b);
    assert "." + "/" == "./";
    Between(x, "/", "..", b);
    assert "/" + ".." + "/" == "/../";
  }

  lemma FirstGone(first: string, b: string)
    requires first != "" && first[0] != '/' && b != "" && !IsAbsolute(b) && Idle(Segments(first), true)
    ensures Normalize(first + "/" + b) == Normalize(b)
  {
    FirstEnds(first, b);
    SegmentsConcat(first, b);
    hide Segments, Join, Plain, IsAbsolute, Trailing, Normalize, Resolve;
    CollapseConcat([], Segments(first), Segments(b), true);
    assert Body(first + "/" + b, true) == Body(b, true);
    hide Collapse, Body;
    SameBody(first + "/" + b, b);
  }

  lemma FirstEnds(first: string, b: string)
    requires first != "" && first[0] != '/' && b != ""
    ensures first + "/" + b != "" && !IsAbsolute(first + "/" + b) && Trailing(first + "/" + b) == Trailing(b)
  {
  }

  // ----- what stays

  function Ups(n: nat): seq<string> {
    seq(n, _ => "..")
  }

  lemma UpsAreShaped(n: nat, segments: seq<string>)
    requires AllPlain(segments)
    ensures Shape(Ups(n) + segments, true)
  {
    var stack := Ups(n) + segments;
    forall i | 0 <= i < |stack| ensures stack[i] == ".." || Plain(stack[i]) {
      assert i >= n ==> stack[i] == segments[i - n];
    }
    forall i | 0 <= i < |stack| - 1 ensures stack[i + 1] == ".." ==> stack[i] == ".." {
      assert i + 1 >= n ==> stack[i + 1] == segments[i + 1 - n] && Plain(stack[i + 1]);
    }
  }

  /** A relative path of double dots and then plain segments is normal, with a slash at its
      end or without. */
  lemma RelativeKept(n: nat, segments: seq<string>, slash: bool)
    requires AllPlain(segments) && Ups(n) + segments != []
    ensures var p := Join(Ups(n) + segments, "/") + (if slash then "/" else "");
      !IsAbsolute(p) && Normalize(p) == p
  {
    var stack := Ups(n) + segments;
    UpsAreShaped(n, segments);
    assert Solid(stack) by { hide Join; }
    JoinEnds(stack);
    BodyAgain(stack, true);
    hide Body, Shape, Join;
    RelativeForm(Join(stack, "/"), slash);
  }

  /** So is an absolute path of plain segments, and resolving it takes only the slash. */
  lemma AbsoluteKept(segments: seq<string>, slash: bool)
    requires AllPlain(segments)
    ensures var p := "/" + Join(segments, "/");
      var q := p + if segments != [] && slash then "/" else "";
      IsAbsolute(q) && Normalize(q) == q && Resolve(q) == p
  {
    UpsAreShaped(0, segments);
    assert Ups(0) + segments == segments;
    assert Shape(segments, false);
    var body := Join(segments, "/");
    if segments != [] {
      assert Solid(segments);
      JoinEnds(segments);
    }
    BodyAgain(segments, false);
    hide Body, Shape, Join;
    AbsoluteForm(body, slash);
    NoBody(segments);
  }

  lemma NoBody(segments: seq<string>)
    ensures segments == [] ==> Join(segments, "/") == ""
    ensures forall p: string :: p + "" == p
  {
  }

  /** The shortest paths. */
  lemma ShortPaths()
    ensures Normalize("") == "." && Normalize(".") == "." && Normalize("./") == "./" && Normalize("/") == "/"
    ensures Resolve("/") == "/"
  {
    DotAgain();
    AbsoluteKept([], false);
    assert "/" + "" == "/" && Join([], "/") == "";
  }
}
