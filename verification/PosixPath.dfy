/** Node's `path.posix.normalize` and `path.resolve` of an absolute path. */
module PosixPath {
  import opened JsText

  /** `path.split('/')`. */
  function Segments(path: string): (r: seq<string>)
    ensures r != []
  {
    if path == "" then [""]
    else
      var rest := Segments(path[1..]);
      if path[0] == '/' then [""] + rest else [[path[0]] + rest[0]] + rest[1..]
  }

  /** One more segment: empty ones and dots go, a double dot takes the segment before it. */
  function Step(stack: seq<string>, segment: string, above: bool): seq<string> {
    if segment == "" || segment == "." then stack
    else if segment != ".." then stack + [segment]
    else if stack != [] && stack[|stack| - 1] != ".." then stack[..|stack| - 1]
    else if above then stack + [".."]
    else stack
  }

  function Collapse(stack: seq<string>, segments: seq<string>, above: bool): seq<string>
    decreases |segments|
  {
    if segments == [] then stack else Collapse(Step(stack, segments[0], above), segments[1..], above)
  }

  predicate IsAbsolute(path: string) {
    path != "" && path[0] == '/'
  }

  predicate Trailing(path: string) {
    path != "" && path[|path| - 1] == '/'
  }

  function Body(path: string, above: bool): string {
    Join(Collapse([], Segments(path), above), "/")
  }

  function Normalize(path: string): string {
    if path == "" then "."
    else if IsAbsolute(path) then
      var body := Body(path, false);
      "/" + body + (if body != "" && Trailing(path) then "/" else "")
    else
      var body := Body(path, true);
      (if body == "" then "." else body) + (if Trailing(path) then "/" else "")
  }

  /** `path.resolve` when the path is absolute. */
  function Resolve(path: string): string
    requires IsAbsolute(path)
  {
    "/" + Body(path, false)
  }

  // ----- segments

  predicate Plain(segment: string) {
    segment != "" && segment != "." && segment != ".." && '/' !in segment
  }

  predicate AllPlain(segments: seq<string>) {
    forall i | 0 <= i < |segments| :: Plain(segments[i])
  }

  predicate NoSlash(segments: seq<string>) {
    forall i | 0 <= i < |segments| :: '/' !in segments[i]
  }

  lemma {:induction false} SegmentsOf(path: string)
    ensures NoSlash(Segments(path))
    ensures forall i, c | 0 <= i < |Segments(path)| && c in Segments(path)[i] :: c in path
    decreases |path|
  {
    if path != "" {
      SegmentsOf(path[1..]);
      var rest, all := Segments(path[1..]), Segments(path);
      assert path == [path[0]] + path[1..];
      forall i, c | 0 <= i < |all| && c in all[i] ensures c in path {
        if path[0] == '/' {
          assert i > 0 && all[i] == rest[i - 1];
        } else if i == 0 {
          assert all[0] == [path[0]] + rest[0];
          assert c == path[0] || c in rest[0];
        } else {
          assert all[i] == rest[i];
        }
      }
    }
  }

  lemma {:induction false} SegmentsGlue(head: string, path: string)
    requires '/' !in head
    ensures Segments(head + path) == [head + Segments(path)[0]] + Segments(path)[1..]
    decreases |head|
  {
    if head == "" {
      assert head + path == path;
      assert "" + Segments(path)[0] == Segments(path)[0];
    } else {
      SegmentsGlue(head[1..], path);
      assert (head + path)[1..] == head[1..] + path;
      assert [head[0]] + (head[1..] + Segments(path)[0]) == head + Segments(path)[0];
    }
  }

  lemma {:induction false} SegmentsJoin(segments: seq<string>)
    requires segments != [] && NoSlash(segments)
    ensures Segments(Join(segments, "/")) == segments
    decreases |segments|
  {
    var head, rest := segments[0], segments[1..];
    if rest == [] {
      SegmentsGlue(head, "");
      assert head + "" == head;
      assert segments == [head];
    } else {
      SegmentsJoin(rest);
      var tail := Join(rest, "/");
      assert Join(segments, "/") == head + ("/" + tail);
      assert ("/" + tail)[1..] == tail;
      SegmentsGlue(head, "/" + tail);
      assert head + "" == head;
    }
  }

  /** Double dots stand only at the front, and only where going above is allowed. */
  predicate Shape(stack: seq<string>, above: bool) {
    && (forall i | 0 <= i < |stack| :: stack[i] == ".." || Plain(stack[i]))
    && (forall i | 0 <= i < |stack| - 1 :: stack[i + 1] == ".." ==> stack[i] == "..")
    && (!above ==> AllPlain(stack))
  }

  lemma {:induction false} CollapseShape(stack: seq<string>, segments: seq<string>, above: bool)
    requires Shape(stack, above) && NoSlash(segments)
    ensures Shape(Collapse(stack, segments, above), above)
    ensures forall s | s in Collapse(stack, segments, above) :: s in stack || s in segments
    decreases |segments|
  {
    if segments != [] {
      var next := Step(stack, segments[0], above);
      assert Shape(next, above);
      CollapseShape(next, segments[1..], above);
      assert forall s | s in next :: s in stack || s == segments[0];
    }
  }

  /** A stack of this shape collapses to itself. */
  lemma {:induction false} ShapeAgain(done: seq<string>, rest: seq<string>, above: bool)
    requires Shape(done + rest, above)
    ensures Collapse(done, rest, above) == done + rest
    decreases |rest|
  {
    var all := done + rest;
    if rest == [] {
      assert all == done;
    } else {
      var k := |done|;
      assert all[k] == rest[0] && (k > 0 ==> all[k - 1] == done[k - 1]);
      assert Step(done, rest[0], above) == done + [rest[0]];
      assert (done + [rest[0]]) + rest[1..] == all;
      ShapeAgain(done + [rest[0]], rest[1..], above);
    }
  }

  // ----- length

  function Weight(segments: seq<string>): nat {
    if segments == [] then 0 else Weight(segments[..|segments| - 1]) + |segments[|segments| - 1]| + 1
  }

  lemma {:induction false} WeightCons(head: string, rest: seq<string>)
    ensures Weight([head] + rest) == |head| + 1 + Weight(rest)
    decreases |rest|
  {
    var all := [head] + rest;
    if rest == [] {
      assert all[..0] == [];
    } else {
      var n := |rest| - 1;
      WeightCons(head, rest[..n]);
      assert all[..|all| - 1] == [head] + rest[..n];
    }
  }

  lemma {:induction false} SegmentsWeight(path: string)
    ensures Weight(Segments(path)) == |path| + 1
    decreases |path|
  {
    if path == "" {
      assert [""][..0] == [];
    } else {
      var rest := Segments(path[1..]);
      SegmentsWeight(path[1..]);
      if path[0] == '/' {
        WeightCons("", rest);
      } else {
        assert rest == [rest[0]] + rest[1..];
        WeightCons(rest[0], rest[1..]);
        WeightCons([path[0]] + rest[0], rest[1..]);
      }
    }
  }

  lemma {:induction false} CollapseWeight(stack: seq<string>, segments: seq<string>, above: bool)
    ensures Weight(Collapse(stack, segments, above)) <= Weight(stack) + Weight(segments)
    decreases |segments|
  {
    if segments != [] {
      StepWeight(stack, segments[0], above);
      CollapseWeight(Step(stack, segments[0], above), segments[1..], above);
      assert segments == [segments[0]] + segments[1..];
      WeightCons(segments[0], segments[1..]);
    }
  }

  lemma StepWeight(stack: seq<string>, segment: string, above: bool)
    ensures Weight(Step(stack, segment, above)) <= Weight(stack) + |segment| + 1
    ensures segment == "" ==> Step(stack, segment, above) == stack
  {
    assert (stack + [segment])[..|stack|] == stack;
  }

  lemma {:induction false} JoinLength(segments: seq<string>)
    requires segments != []
    ensures |Join(segments, "/")| + 1 == Weight(segments)
    decreases |segments|
  {
    assert segments == [segments[0]] + segments[1..];
    WeightCons(segments[0], segments[1..]);
    if |segments| > 1 {
      JoinLength(segments[1..]);
    }
  }

  // ----- results

  lemma {:induction false} CollapseConcat(stack: seq<string>, a: seq<string>, b: seq<string>, above: bool)
    ensures Collapse(stack, a + b, above) == Collapse(Collapse(stack, a, above), b, above)
    decreases |a|
  {
    if a == [] {
      assert a + b == b;
    } else {
      CollapseConcat(Step(stack, a[0], above), a[1..], b, above);
      assert (a + b)[1..] == a[1..] + b;
    }
  }

  lemma {:induction false} SegmentsSlash(path: string)
    ensures Segments(path + "/") == Segments(path) + [""]
    decreases |path|
  {
    if path == "" {
      assert "" + "/" == "/" && "/"[1..] == "";
    } else {
      SegmentsSlash(path[1..]);
      assert (path + "/")[1..] == path[1..] + "/";
    }
  }

  /** Neither a final slash nor a first one adds a segment. */
  lemma BodySlash(path: string, above: bool)
    ensures Collapse([], Segments(path + "/"), above) == Collapse([], Segments(path), above)
    ensures Collapse([], Segments("/" + path), above) == Collapse([], Segments(path), above)
  {
    SegmentsSlash(path);
    CollapseConcat([], Segments(path), [""], above);
    var stack := Collapse([], Segments(path), above);
    assert Collapse(stack, [""], above) == Collapse(stack, [""][1..], above) == stack;
    assert ("/" + path)[1..] == path;
    assert ([""] + Segments(path))[1..] == Segments(path);
  }

  /** The stack of a path: its shape, and where its letters come from. */
  lemma StackOf(path: string, above: bool)
    ensures var stack := Collapse([], Segments(path), above);
      Shape(stack, above) && forall i, c | 0 <= i < |stack| && c in stack[i] :: c in path
  {
    SegmentsOf(path);
    CollapseShape([], Segments(path), above);
    var stack := Collapse([], Segments(path), above);
    forall i, c | 0 <= i < |stack| && c in stack[i] ensures c in path {
      assert stack[i] in stack;
      var j :| 0 <= j < |Segments(path)| && Segments(path)[j] == stack[i];
    }
  }

  lemma CollapseJoined(stack: seq<string>, above: bool)
    requires Shape(stack, above)
    ensures Collapse([], Segments(Join(stack, "/")), above) == stack
  {
    if stack == [] {
      assert Collapse([], [""], above) == Collapse([], [""][1..], above) == [];
    } else {
      SegmentsJoin(stack);
      assert [] + stack == stack;
      ShapeAgain([], stack, above);
    }
  }

  /** A collapsed body collapses to itself, with a slash at either end or none. */
  lemma BodyAgain(stack: seq<string>, above: bool)
    requires Shape(stack, above)
    ensures var body := Join(stack, "/");
      && Body(body, above) == body && Body(body + "/", above) == body
      && Body("/" + body, above) == body && Body("/" + body + "/", above) == body
  {
    var body := Join(stack, "/");
    CollapseJoined(stack, above);
    BodySlash(body, above);
    BodySlash("/" + body, above);
    hide Segments, Collapse, Join, Shape;
  }

  predicate Solid(segments: seq<string>) {
    forall i | 0 <= i < |segments| :: segments[i] != "" && '/' !in segments[i]
  }

  lemma {:induction false} JoinEnds(segments: seq<string>)
    requires segments != [] && Solid(segments)
    ensures var body := Join(segments, "/");
      body != "" && body[0] != '/' && body[|body| - 1] != '/'
    ensures forall c | c in Join(segments, "/") :: c == '/' || exists i | 0 <= i < |segments| :: c in segments[i]
    decreases |segments|
  {
    if |segments| > 1 {
      var rest := segments[1..];
      JoinEnds(rest);
      var body := Join(segments, "/");
      assert body == segments[0] + "/" + Join(rest, "/");
      forall c | c in body ensures c == '/' || exists i | 0 <= i < |segments| :: c in segments[i] {
        if c in Join(rest, "/") && c != '/' {
          var i :| 0 <= i < |rest| && c in rest[i];
          assert c in segments[i + 1];
        }
      }
    }
  }

  lemma BodyWeight(path: string, above: bool)
    requires path != ""
    ensures Weight(Collapse([], Segments(path), above)) <= |path| + (if Trailing(path) then 0 else 1)
  {
    NoWeight();
    hide Segments, Collapse, Weight, Step;
    CollapseWeight([], Segments(path), above);
    SegmentsWeight(path);
    if Trailing(path) {
      LastSlash(path);
      ShortWeight(path[..|path| - 1], above);
    }
  }

  lemma LastSlash(path: string)
    requires Trailing(path)
    ensures path == path[..|path| - 1] + "/"
  {
  }

  lemma ShortWeight(short: string, above: bool)
    ensures Weight(Collapse([], Segments(short + "/"), above)) <= |short| + 1
  {
    NoWeight();
    hide Segments, Collapse, Weight, Step;
    BodySlash(short, above);
    CollapseWeight([], Segments(short), above);
    SegmentsWeight(short);
  }

  lemma NoWeight()
    ensures Weight([]) == 0
  {
  }

  /** A body begins and ends with a segment, has only letters of the path, and is no longer. */
  lemma BodyOf(path: string, above: bool)
    requires path != ""
    ensures var body := Body(path, above);
      && (body != "" ==> body[0] != '/' && body[|body| - 1] != '/')
      && (body != "" ==> |body| + (if Trailing(path) then 1 else 0) <= |path|)
      && forall c | c in body :: c == '/' || c in path
  {
    var stack := Collapse([], Segments(path), above);
    StackOf(path, above);
    BodyWeight(path, above);
    if stack != [] {
      JoinEnds(stack);
      JoinLength(stack);
    }
  }

  /** Resolving an absolute path again changes nothing, and no path gets longer. */
  lemma ResolveTwice(path: string)
    requires IsAbsolute(path)
    ensures IsAbsolute(Resolve(path)) && Resolve(Resolve(path)) == Resolve(path)
    ensures |Resolve(path)| <= |path|
  {
    AbsoluteBody(path);
    StackOf(path, false);
    BodyAgain(Collapse([], Segments(path), false), false);
  }

  lemma AbsoluteBody(path: string)
    requires IsAbsolute(path)
    ensures var body := Body(path, false);
      && (body != "" ==> body[0] != '/' && body[|body| - 1] != '/')
      && 1 + |body| + (if body != "" && Trailing(path) then 1 else 0) <= |path|
      && forall c | c in body :: c == '/' || c in path
  {
    var rest := path[1..];
    assert path == "/" + rest;
    BodySlash(rest, false);
    assert Segments("") == [""] && Collapse([], [""], false) == Collapse([], [""][1..], false) == [];
    hide Segments, Collapse;
    if rest != "" {
      BodyOf(rest, false);
      assert Trailing(path) == Trailing(rest);
    }
  }

  lemma {:induction false} StaysFilled(stack: seq<string>, segments: seq<string>, above: bool)
    requires stack != [] && ".." !in segments
    ensures Collapse(stack, segments, above) != []
    decreases |segments|
  {
    if segments != [] {
      StaysFilled(Step(stack, segments[0], above), segments[1..], above);
    }
  }

  /** Only dots make a relative path's body empty. */
  lemma EmptyBody(path: string)
    requires path != "" && !IsAbsolute(path) && '.' !in path
    ensures Body(path, true) != ""
  {
    SegmentsOf(path);
    var segments := Segments(path);
    forall i | 0 <= i < |segments| ensures segments[i] != "." && segments[i] != ".." {
      assert segments[i] != "" ==> segments[i][0] in segments[i];
    }
    assert segments[0] != "" && [] + [segments[0]] == [segments[0]];
    StaysFilled([segments[0]], segments[1..], true);
    StackOf(path, true);
    JoinEnds(Collapse([], segments, true));
  }

  lemma BodyTwice(path: string, above: bool)
    ensures var body := Body(path, above);
      && Body(body, above) == body && Body(body + "/", above) == body
      && Body("/" + body, above) == body && Body("/" + body + "/", above) == body
  {
    StackOf(path, above);
    hide Segments, Collapse, Join, Shape;
    BodyAgain(Collapse([], Segments(path), above), above);
  }

  lemma DotAgain()
    ensures Normalize(".") == "." && Normalize("./") == "./"
  {
    SegmentsJoin(["."]);
    assert Collapse([], ["."], true) == Collapse([], ["."][1..], true) == [];
    BodySlash(".", true);
    assert "." + "/" == "./";
  }

  lemma AbsoluteTwice(path: string)
    requires IsAbsolute(path)
    ensures var n := Normalize(path);
      && IsAbsolute(n) && Normalize(n) == n && |n| <= |path|
      && forall c | c in n :: c == '/' || c in path
  {
    AbsoluteBody(path);
    BodyTwice(path, false);
    hide Body;
    AbsoluteForm(Body(path, false), Trailing(path));
  }

  lemma RelativeTwice(path: string)
    requires path != "" && !IsAbsolute(path)
    ensures var n := Normalize(path);
      && n != "" && !IsAbsolute(n) && Normalize(n) == n && |n| <= |path|
      && forall c | c in n :: c == '/' || c in path
  {
    var body := Body(path, true);
    BodyOf(path, true);
    BodyTwice(path, true);
    DotAgain();
    if body == "" {
      if '.' !in path {
        EmptyBody(path);
      }
      DotForm(path);
    } else {
      hide Body;
      RelativeForm(body, Trailing(path));
    }
  }

  lemma DotForm(path: string)
    requires path != "" && !IsAbsolute(path) && Body(path, true) == ""
    ensures Normalize(path) == (if Trailing(path) then "./" else ".") && |Normalize(path)| <= |path|
  {
    hide Body;
    assert "." + "" == "." && "." + "/" == "./";
  }

  /** Normalising again changes nothing, for every path. The result is absolute exactly when
      the path is, no longer, and of the path's letters and slashes, but for the dot that the
      empty path becomes. */
  lemma NormalizeTwice(path: string)
    ensures var n := Normalize(path);
      && n != "" && IsAbsolute(n) == IsAbsolute(path) && Normalize(n) == n
      && (path != "" ==> |n| <= |path| && forall c | c in n :: c == '/' || c in path)
  {
    DotAgain();
    if path != "" {
      hide Normalize;
      if IsAbsolute(path) {
        AbsoluteTwice(path);
      } else {
        RelativeTwice(path);
      }
    }
  }

  lemma RelativeForm(body: string, slash: bool)
    requires body != "" && body[0] != '/' && body[|body| - 1] != '/'
    requires Body(body, true) == body && Body(body + "/", true) == body
    ensures var n := body + (if slash then "/" else "");
      Normalize(n) == n && !IsAbsolute(n)
  {
    hide Body;
    assert body + "" == body;
  }

  lemma AbsoluteForm(body: string, slash: bool)
    requires body != "" ==> body[0] != '/' && body[|body| - 1] != '/'
    requires Body("/" + body, false) == body && Body("/" + body + "/", false) == body
    ensures var n := "/" + body + (if body != "" && slash then "/" else "");
      Normalize(n) == n && IsAbsolute(n)
  {
    hide Body;
    assert "/" + body + "" == "/" + body && "/" + "" == "/";
  }
}
