/**
  Strings and POSIX paths as the planner and the provisioner daemon use them:
  splitting at a character, stripping trailing slashes, and Node's path.posix.join,
  which concatenates the non-empty parts with '/' and then resolves empty, "." and
  ".." segments against a stack.
 */
module Paths {

  // ---- Splitting and joining --------------------------------------------------

  function Split(s: string, c: char): (segs: seq<string>)
    ensures |segs| >= 1
  {
    if s == "" then [""] else Prepend(s[0], c, Split(s[1..], c))
  }

  /** Puts one more character in front of a split string. */
  function Prepend(h: char, c: char, segs: seq<string>): (r: seq<string>)
    requires |segs| >= 1
    ensures |r| >= 1
  {
    if h == c then [""] + segs else [[h] + segs[0]] + segs[1..]
  }

  function Join(segs: seq<string>, c: char): string
    requires |segs| >= 1
  {
    if |segs| == 1 then segs[0] else segs[0] + [c] + Join(segs[1..], c)
  }

  lemma {:induction false} SplitFree(s: string, c: char)
    ensures forall seg | seg in Split(s, c) :: c !in seg
  {
    if s != "" {
      SplitFree(s[1..], c);
    }
  }

  lemma {:induction false} SplitWhole(s: string, c: char)
    requires c !in s
    ensures Split(s, c) == [s]
  {
    if s != "" {
      SplitWhole(s[1..], c);
      assert [s[0]] + s[1..] == s;
    }
  }

  lemma {:induction false} SplitConcat(a: string, b: string, c: char)
    ensures Split(a + [c] + b, c) == Split(a, c) + Split(b, c)
  {
    var whole := a + [c] + b;
    if a == "" {
      assert whole[1..] == b;
    } else {
      SplitConcat(a[1..], b, c);
      assert whole[0] == a[0] && whole[1..] == a[1..] + [c] + b;
      PrependConcat(a[0], c, Split(a[1..], c), Split(b, c));
    }
  }

  lemma PrependConcat(h: char, c: char, x: seq<string>, y: seq<string>)
    requires |x| >= 1
    ensures Prepend(h, c, x + y) == Prepend(h, c, x) + y
  {
    assert (x + y)[1..] == x[1..] + y;
  }

  lemma {:induction false} SplitJoin(segs: seq<string>, c: char)
    requires |segs| >= 1
    requires forall seg | seg in segs :: c !in seg
    ensures Split(Join(segs, c), c) == segs
  {
    SplitWhole(segs[0], c);
    if |segs| == 1 {
      assert segs == [segs[0]];
    } else {
      SplitConcat(segs[0], Join(segs[1..], c), c);
      SplitJoin(segs[1..], c);
      assert segs == [segs[0]] + segs[1..];
    }
  }

  lemma {:induction false} JoinSplit(s: string, c: char)
    ensures Join(Split(s, c), c) == s
  {
    if s != "" {
      JoinSplit(s[1..], c);
      var rest := Split(s[1..], c);
      if s[0] == c {
        assert Split(s, c)[1..] == rest;
      } else {
        assert Split(s, c)[1..] == rest[1..];
        if |rest| > 1 {
          assert s == [s[0]] + (rest[0] + [c] + Join(rest[1..], c));
        }
      }
    }
  }

  lemma {:induction false} JoinConcat(a: seq<string>, b: seq<string>, c: char)
    requires |a| >= 1 && |b| >= 1
    ensures Join(a + b, c) == Join(a, c) + [c] + Join(b, c)
  {
    if |a| == 1 {
      assert (a + b)[1..] == b;
    } else {
      assert (a + b)[1..] == a[1..] + b;
      JoinConcat(a[1..], b, c);
    }
  }

  // ---- Resolving segments -----------------------------------------------------

  predicate Plain(seg: string) {
    seg != "" && seg != "." && seg != ".."
  }

  predicate AllPlain(segs: seq<string>) {
    forall seg | seg in segs :: Plain(seg)
  }

  /** A relative path written the way the resolver would write it, never climbing. */
  predicate PlainPath(p: string) {
    AllPlain(Split(p, '/'))
  }

  function Push(stack: seq<string>, seg: string, absolute: bool): seq<string> {
    if seg == "" || seg == "." then stack
    else if seg == ".." then
      if |stack| > 0 && stack[|stack| - 1] != ".." then stack[..|stack| - 1]
      else if absolute then stack
      else stack + [".."]
    else stack + [seg]
  }

  function Resolve(stack: seq<string>, segs: seq<string>, absolute: bool): seq<string>
    decreases |segs|
  {
    if segs == [] then stack else Resolve(Push(stack, segs[0], absolute), segs[1..], absolute)
  }

  predicate IsAbsolute(p: string) {
    p != "" && p[0] == '/'
  }

  /** The segments a path resolves to. */
  function Stack(p: string): seq<string> {
    Resolve([], Split(p, '/'), IsAbsolute(p))
  }

  function Render(absolute: bool, stack: seq<string>): string
    requires |stack| >= 1
  {
    (if absolute then "/" else "") + Join(stack, '/')
  }

  function Normalize(p: string): string {
    var trailing := p != "" && p[|p| - 1] == '/';
    var stack := Stack(p);
    if stack == [] then
      if IsAbsolute(p) then "/" else if trailing then "./" else "."
    else
      Render(IsAbsolute(p), stack) + (if trailing then "/" else "")
  }

  function NonEmpty(parts: seq<string>): (r: seq<string>)
    ensures forall p | p in r :: p != ""
  {
    if parts == [] then [] else (if parts[0] == "" then [] else [parts[0]]) + NonEmpty(parts[1..])
  }

  /** path.posix.join */
  function PathJoin(parts: seq<string>): string {
    var kept := NonEmpty(parts);
    if kept == [] then "." else Normalize(Join(kept, '/'))
  }

  /** Drops every trailing slash. */
  function Clean(p: string): (r: string)
    ensures r == "" || r[|r| - 1] != '/'
    ensures r <= p && forall i | |r| <= i < |p| :: p[i] == '/'
  {
    if p != "" && p[|p| - 1] == '/' then Clean(p[..|p| - 1]) else p
  }

  function CleanAll(parts: seq<string>): seq<string> {
    if parts == [] then [] else [Clean(parts[0])] + CleanAll(parts[1..])
  }

  /** joinPosix of the application and pathJoinPosix of the daemon. */
  function JoinPosix(parts: seq<string>): string {
    PathJoin(CleanAll(parts))
  }

  // ---- What the resolver produces ---------------------------------------------

  /** No empty or "." segment, and ".." only in an initial run. */
  predicate Resolved(stack: seq<string>) {
    && (forall seg | seg in stack :: seg != "" && seg != "." && '/' !in seg)
    && forall i, j :: 0 <= i < j < |stack| && stack[j] == ".." ==> stack[i] == ".."
  }

  lemma {:induction false} ResolveResolved(stack: seq<string>, segs: seq<string>, absolute: bool)
    requires Resolved(stack)
    requires forall seg | seg in segs :: '/' !in seg
    ensures Resolved(Resolve(stack, segs, absolute))
    decreases |segs|
  {
    if segs != [] {
      var next := Push(stack, segs[0], absolute);
      assert forall seg | seg in next :: seg in stack || seg == segs[0];
      ResolveResolved(next, segs[1..], absolute);
    }
  }

  lemma {:induction false} ResolveConcat(stack: seq<string>, a: seq<string>, b: seq<string>, absolute: bool)
    ensures Resolve(stack, a + b, absolute) == Resolve(Resolve(stack, a, absolute), b, absolute)
    decreases |a|
  {
    if a == [] {
      assert a + b == b;
    } else {
      assert (a + b)[1..] == a[1..] + b;
      ResolveConcat(Push(stack, a[0], absolute), a[1..], b, absolute);
    }
  }

  lemma {:induction false} ResolvePlain(stack: seq<string>, segs: seq<string>, absolute: bool)
    requires AllPlain(segs)
    ensures Resolve(stack, segs, absolute) == stack + segs
    decreases |segs|
  {
    if segs == [] {
      assert stack + segs == stack;
    } else {
      assert Plain(segs[0]);
      ResolvePlain(stack + [segs[0]], segs[1..], absolute);
      assert stack + segs == stack + [segs[0]] + segs[1..];
    }
  }

  /** Below "/" there is nothing to climb to. */
  lemma {:induction false} ResolveAbsolute(stack: seq<string>, segs: seq<string>)
    requires AllPlain(stack)
    ensures AllPlain(Resolve(stack, segs, true))
    decreases |segs|
  {
    if segs != [] {
      assert forall seg | seg in Push(stack, segs[0], true) :: seg in stack || seg == segs[0];
      ResolveAbsolute(Push(stack, segs[0], true), segs[1..]);
    }
  }

  /** What is resolved already is pushed as it is. */
  lemma {:induction false} ResolveFixed(stack: seq<string>, segs: seq<string>)
    requires Resolved(stack + segs)
    ensures Resolve(stack, segs, false) == stack + segs
    decreases |segs|
  {
    if segs == [] {
      assert stack + segs == stack;
    } else {
      var all := stack + segs;
      assert segs[0] == all[|stack|] && all[|stack|] in all;
      assert stack != [] ==> all[|stack| - 1] == stack[|stack| - 1];
      assert stack + [segs[0]] + segs[1..] == all;
      ResolveFixed(stack + [segs[0]], segs[1..]);
    }
  }

  lemma ResolveAgain(stack: seq<string>, absolute: bool)
    requires Resolved(stack) && (absolute ==> AllPlain(stack))
    ensures Resolve([], stack, absolute) == stack
  {
    assert [] + stack == stack;
    if absolute {
      ResolvePlain([], stack, true);
    } else {
      ResolveFixed([], stack);
    }
  }

  /** Empty segments, from leading or trailing slashes, resolve to nothing. */
  lemma ResolveSlashes(stack: seq<string>, segs: seq<string>, absolute: bool)
    ensures Resolve(stack, [""] + segs, absolute) == Resolve(stack, segs, absolute)
    ensures Resolve(stack, segs + [""], absolute) == Resolve(stack, segs, absolute)
  {
    assert ([""] + segs)[1..] == segs;
    ResolveConcat(stack, segs, [""], absolute);
    var end := Resolve(stack, segs, absolute);
    assert [""][1..] == [];
    assert Resolve(end, [""], absolute) == end;
  }

  lemma RenderStack(stack: seq<string>, absolute: bool, trailing: bool)
    requires stack != [] && Resolved(stack) && (absolute ==> AllPlain(stack))
    ensures var p := Render(absolute, stack) + (if trailing then "/" else "");
            Stack(p) == stack && IsAbsolute(p) == absolute && p != "" && (p[|p| - 1] == '/' <==> trailing)
  {
    hide Resolve, Split;
    var body := Join(stack, '/');
    JoinEnds(stack);
    SplitJoin(stack, '/');
    ResolveAgain(stack, absolute);
    var p := Render(absolute, stack);
    if absolute {
      SplitConcat("", body, '/');
      assert "" + ['/'] + body == p;
      assert Split("", '/') == [""] by { SplitWhole("", '/'); }
      ResolveSlashes([], stack, absolute);
    } else {
      assert p == body;
    }
    if trailing {
      SplitConcat(p, "", '/');
      assert p + ['/'] + "" == p + "/";
      SplitWhole("", '/');
      ResolveSlashes([], Split(p, '/'), absolute);
      assert Split(p + "/", '/') == Split(p, '/') + [""] && IsAbsolute(p + "/") == absolute;
    } else {
      assert p + "" == p;
    }
  }

  lemma {:induction false} JoinEnds(stack: seq<string>)
    requires stack != [] && forall seg | seg in stack :: seg != "" && '/' !in seg
    ensures var j := Join(stack, '/'); j != "" && j[0] != '/' && j[|j| - 1] != '/'
  {
    assert stack[0] in stack && stack[0][0] in stack[0] && stack[0][|stack[0]| - 1] in stack[0];
    if |stack| > 1 {
      assert forall seg | seg in stack[1..] :: seg in stack;
      JoinEnds(stack[1..]);
    }
  }

  lemma {:induction false} NothingResolves(segs: seq<string>)
    requires forall seg | seg in segs :: seg == "" || seg == "."
    ensures Resolve([], segs, true) == [] && Resolve([], segs, false) == []
    decreases |segs|
  {
    if segs != [] {
      assert segs[0] in segs && forall seg | seg in segs[1..] :: seg in segs;
      NothingResolves(segs[1..]);
    }
  }

  lemma NoStack()
    ensures Stack("/") == [] && Stack(".") == [] && Stack("./") == []
  {
    hide Resolve;
    SplitWhole("", '/');
    SplitWhole(".", '/');
    SplitConcat("", "", '/');
    SplitConcat(".", "", '/');
    hide Split;
    assert "" + ['/'] + "" == "/" && "." + ['/'] + "" == "./";
    assert Split("/", '/') == ["", ""] && Split("./", '/') == [".", ""] && Split(".", '/') == ["."];
    NothingResolves(["", ""]);
    NothingResolves([".", ""]);
    NothingResolves(["."]);
  }

  /** Normalising a path changes neither what it resolves to nor, a second time, the path. */
  lemma NormalizeTwice(p: string)
    ensures Stack(Normalize(p)) == Stack(p) && IsAbsolute(Normalize(p)) == IsAbsolute(p)
    ensures Normalize(Normalize(p)) == Normalize(p)
  {
    var stack, absolute := Stack(p), IsAbsolute(p);
    if stack != [] {
      hide Split, Resolve;
      SplitFree(p, '/');
      ResolveResolved([], Split(p, '/'), absolute);
      if absolute {
        ResolveAbsolute([], Split(p, '/'));
      }
      RenderStack(stack, absolute, p != "" && p[|p| - 1] == '/');
    } else {
      hide Split, Resolve;
      NoStack();
    }
  }

  /** Appending plain segments to a path appends them to what it resolves to. */
  lemma StackAppend(p: string, q: string)
    requires p != "" && PlainPath(q)
    ensures Stack(p + "/" + q) == Stack(p) + Split(q, '/')
  {
    SplitConcat(p, q, '/');
    var absolute := IsAbsolute(p);
    ResolveConcat([], Split(p, '/'), Split(q, '/'), absolute);
    ResolvePlain(Resolve([], Split(p, '/'), absolute), Split(q, '/'), absolute);
  }

  lemma PlainPathTail(q: string)
    requires PlainPath(q)
    ensures q != "" && q[|q| - 1] != '/' && q[0] != '/'
  {
    var segs := Split(q, '/');
    assert Plain(segs[0]) && Plain(segs[|segs| - 1]);
    if q != "" && q[|q| - 1] == '/' {
      var a := q[..|q| - 1];
      assert q == a + ['/'] + "";
      SplitConcat(a, "", '/');
    }
  }

  lemma RenderAppend(absolute: bool, stack: seq<string>, q: string)
    ensures stack != [] ==>
              Render(absolute, stack + Split(q, '/')) == Render(absolute, stack) + "/" + q
    ensures Render(absolute, Split(q, '/')) == (if absolute then "/" else "") + q
  {
    JoinSplit(q, '/');
    if stack != [] {
      JoinConcat(stack, Split(q, '/'), '/');
    }
  }

  lemma NormalizeStack(p: string)
    requires p != "" && p[|p| - 1] != '/' && Stack(p) != []
    ensures Normalize(p) == Render(IsAbsolute(p), Stack(p))
  {
  }

  /** The normal form of a path extended by plain segments. */
  lemma NormalizeAppend(p: string, q: string)
    requires p != "" && PlainPath(q)
    ensures Stack(p) != [] ==> Normalize(p + "/" + q) == Render(IsAbsolute(p), Stack(p)) + "/" + q
    ensures Stack(p) == [] ==> Normalize(p + "/" + q) == (if IsAbsolute(p) then "/" else "") + q
  {
    StackAppend(p, q);
    PlainPathTail(q);
    var full := p + "/" + q;
    assert full[|full| - 1] == q[|q| - 1];
    assert IsAbsolute(full) == IsAbsolute(p);
    NormalizeStack(full);
    RenderAppend(IsAbsolute(p), Stack(p), q);
    assert [] + Split(q, '/') == Split(q, '/');
  }

  lemma PlainConcat(a: string, b: string)
    requires PlainPath(a) && PlainPath(b)
    ensures PlainPath(a + "/" + b)
  {
    SplitConcat(a, b, '/');
  }

  // ---- The tenant home directory ----------------------------------------------

  /** What the configured home root resolves to, with its trailing slashes dropped. */
  function RootStack(root: string): seq<string> {
    Stack(Clean(root))
  }

  lemma CleanPlain(q: string)
    requires PlainPath(q)
    ensures Clean(q) == q && q != ""
  {
    PlainPathTail(q);
  }

  lemma JoinPosixRoot(root: string)
    ensures RootStack(root) != [] ==>
              Clean(root) != "" && JoinPosix([root]) == Render(IsAbsolute(Clean(root)), RootStack(root))
    ensures RootStack(root) == [] ==> JoinPosix([root]) == "." || JoinPosix([root]) == "/"
  {
    assert CleanAll([root]) == [Clean(root)];
    assert NonEmpty([Clean(root)]) == if Clean(root) == "" then [] else [Clean(root)];
    if Clean(root) == "" {
      assert Stack("") == [];
    }
  }

  /** The root followed by plain segments, in the two cases of what the root resolves to. */
  lemma JoinPosixUnder(root: string, parts: seq<string>)
    requires |parts| >= 1
    requires forall p | p in parts :: PlainPath(p)
    ensures RootStack(root) != [] ==> JoinPosix([root] + parts) == JoinPosix([root]) + "/" + Join(parts, '/')
    ensures RootStack(root) == [] ==>
              JoinPosix([root] + parts) == (if IsAbsolute(Clean(root)) then "/" else "") + Join(parts, '/')
  {
    CleanAllPlain(parts);
    var tail := Join(parts, '/');
    JoinPlain(parts);
    PlainPathTail(tail);
    JoinPosixRoot(root);
    var base := Clean(root);
    assert ([root] + parts)[1..] == parts;
    assert CleanAll([root] + parts) == [base] + parts;
    assert ([base] + parts)[1..] == parts;
    if base == "" {
      assert NonEmpty([base] + parts) == parts;
      StackPlain(tail);
      JoinSplit(tail, '/');
      assert Stack(base) == [];
    } else {
      assert NonEmpty([base] + parts) == [base] + parts;
      assert Join([base] + parts, '/') == base + "/" + tail;
      NormalizeAppend(base, tail);
    }
  }

  lemma {:induction false} CleanAllPlain(parts: seq<string>)
    requires forall p | p in parts :: PlainPath(p)
    ensures CleanAll(parts) == parts && NonEmpty(parts) == parts
  {
    if parts != [] {
      CleanPlain(parts[0]);
      CleanAllPlain(parts[1..]);
      assert parts == [parts[0]] + parts[1..];
    }
  }

  lemma {:induction false} JoinPlain(parts: seq<string>)
    requires |parts| >= 1
    requires forall p | p in parts :: PlainPath(p)
    ensures PlainPath(Join(parts, '/'))
  {
    if |parts| > 1 {
      JoinPlain(parts[1..]);
      PlainConcat(parts[0], Join(parts[1..], '/'));
    }
  }

  lemma StackPlain(q: string)
    requires PlainPath(q)
    ensures Stack(q) == Split(q, '/') && !IsAbsolute(q) && Normalize(q) == q
  {
    hide Split, Resolve, Join;
    PlainPathTail(q);
    ResolvePlain([], Split(q, '/'), false);
    assert [] + Split(q, '/') == Split(q, '/');
    JoinSplit(q, '/');
  }

  /** Stepping into a directory and out of it again leads nowhere new. */
  lemma StackClimb(p: string, user: string, q: string)
    requires p != "" && PlainPath(user) && '/' !in user && PlainPath(q)
    ensures Stack(p + "/" + (user + "/" + ("../" + q))) == Stack(p) + Split(q, '/')
  {
    hide Split;
    var absolute, home := IsAbsolute(p), Stack(p);
    var steps := [user, ".."] + Split(q, '/');
    SplitWhole(user, '/');
    SplitWhole("..", '/');
    SplitConcat("..", q, '/');
    assert "../" + q == ".." + ['/'] + q;
    SplitConcat(user, "../" + q, '/');
    SplitConcat(p, user + "/" + ("../" + q), '/');
    assert Split(user + "/" + ("../" + q), '/') == steps;
    ResolveConcat([], Split(p, '/'), steps, absolute);
    assert Plain(user);
    assert Push(home, user, absolute) == home + [user];
    assert Push(home + [user], "..", absolute) == home;
    assert steps[1..] == [".."] + Split(q, '/');
    assert steps[1..][1..] == Split(q, '/');
    assert Resolve(home, steps, absolute) == Resolve(home, Split(q, '/'), absolute);
    ResolvePlain(home, Split(q, '/'), absolute);
  }

  /** A last part that climbs out of the second one is joined to the root itself. */
  lemma JoinPosixClimb(root: string, user: string, q: string)
    requires RootStack(root) != []
    requires PlainPath(user) && '/' !in user && PlainPath(q)
    ensures JoinPosix([root, user, "../" + q]) == JoinPosix([root]) + "/" + q
  {
    hide Split, Resolve;
    var base, ws := Clean(root), "../" + q;
    JoinPosixRoot(root);
    CleanPlain(user);
    PlainPathTail(q);
    assert ws[|ws| - 1] == q[|q| - 1] != '/';
    var parts := [base, user, ws];
    assert CleanAll([root, user, ws]) == parts by {
      assert CleanAll([ws]) == [ws];
      assert CleanAll([user, ws]) == [user, ws];
    }
    assert NonEmpty(parts) == parts by {
      assert NonEmpty([ws]) == [ws];
      assert NonEmpty([user, ws]) == [user, ws];
    }
    var full := base + "/" + (user + "/" + ws);
    assert Join(parts, '/') == full by {
      assert Join([user, ws], '/') == user + "/" + ws;
    }
    StackClimb(base, user, q);
    assert full[|full| - 1] == ws[|ws| - 1] && IsAbsolute(full) == IsAbsolute(base);
    NormalizeStack(full);
    RenderAppend(IsAbsolute(base), Stack(base), q);
  }

  /** path.join distributes over a plain last part. */
  lemma PathJoinExtend(first: string, parts: seq<string>, last: string)
    requires |parts| >= 1 && PlainPath(last)
    requires forall p | p in parts :: PlainPath(p)
    ensures PathJoin([first] + parts + [last]) == PathJoin([first] + parts) + "/" + last
  {
    hide DirPrefix, PathJoin;
    var tail := Join(parts, '/');
    JoinPlain(parts);
    PlainConcat(tail, last);
    JoinConcat(parts, [last], '/');
    assert [first] + parts + [last] == [first] + (parts + [last]);
    PathJoinTail(first, parts);
    PathJoinTail(first, parts + [last]);
  }

  /** What path.join puts before plain parts: the directory in normal form with one slash after it. */
  function DirPrefix(first: string): string {
    if first == "" then ""
    else if Stack(first) != [] then Render(IsAbsolute(first), Stack(first)) + "/"
    else if IsAbsolute(first) then "/" else ""
  }

  lemma PathJoinTail(first: string, parts: seq<string>)
    requires |parts| >= 1
    requires forall p | p in parts :: PlainPath(p)
    ensures PathJoin([first] + parts) ==
            DirPrefix(first) + Join(parts, '/')
  {
    var tail := Join(parts, '/');
    JoinPlain(parts);
    CleanAllPlain(parts);
    assert ([first] + parts)[1..] == parts;
    if first == "" {
      assert NonEmpty([first] + parts) == parts;
      StackPlain(tail);
    } else {
      assert NonEmpty([first] + parts) == [first] + parts;
      assert Join([first] + parts, '/') == first + "/" + tail;
      NormalizeAppend(first, tail);
    }
  }
}
