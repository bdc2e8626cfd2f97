/** Lexical slash-path processing as Go's filepath.Clean and filepath.Join do it on Unix. */
module Paths {
  import opened Text

  /** A name that is one path segment: what a ConfigMap key, a directory entry and a base
      directory have in common. */
  predicate Segment(s: string) {
    s != "" && s != "." && s != ".." && '/' !in s
  }

  ghost predicate Segments(p: seq<string>) {
    forall i :: 0 <= i < |p| ==> Segment(p[i])
  }

  // ---- filepath.Clean ----

  function Push(rooted: bool, stack: seq<string>, s: string): seq<string> {
    if s == "" || s == "." then stack
    else if s != ".." then stack + [s]
    else if |stack| > 0 && stack[|stack| - 1] != ".." then stack[..|stack| - 1]
    else if rooted then stack
    else stack + [".."]
  }

  function Resolve(rooted: bool, stack: seq<string>, segs: seq<string>): seq<string>
    decreases |segs|
  {
    if segs == [] then stack else Resolve(rooted, Push(rooted, stack, segs[0]), segs[1..])
  }

  function Render(rooted: bool, stack: seq<string>): string {
    if rooted then "/" + Join(stack, '/')
    else if stack == [] then "." else Join(stack, '/')
  }

  predicate Rooted(p: string) {
    p != "" && p[0] == '/'
  }

  /** The resolved segments of a path, the part of it that cleaning keeps. */
  function Resolved(p: string): seq<string> {
    Resolve(Rooted(p), [], Split(p, '/'))
  }

  function Clean(p: string): string {
    Render(Rooted(p), Resolved(p))
  }

  /** filepath.Join of a cleaned, hence non-empty, directory and a file name. */
  function JoinPath(dir: string, name: string): string {
    Clean(dir + "/" + name)
  }

  /** Resolved stacks: slash-free segments, with ".." only in front and never under a root. */
  ghost predicate Settled(rooted: bool, stack: seq<string>) {
    && (forall i :: 0 <= i < |stack| ==> stack[i] != "" && stack[i] != "." && '/' !in stack[i])
    && (forall i :: 0 <= i < |stack| && stack[i] == ".." ==> !rooted)
    && (forall i :: 0 < i < |stack| && stack[i] == ".." ==> stack[i - 1] == "..")
  }

  lemma {:induction false} ResolveSettled(rooted: bool, stack: seq<string>, segs: seq<string>)
    requires Settled(rooted, stack) && AllFree(segs, '/')
    ensures Settled(rooted, Resolve(rooted, stack, segs))
    decreases |segs|
  {
    if segs != [] { ResolveSettled(rooted, Push(rooted, stack, segs[0]), segs[1..]); }
  }

  lemma {:induction false} ResolveConcat(rooted: bool, stack: seq<string>, a: seq<string>, b: seq<string>)
    ensures Resolve(rooted, stack, a + b) == Resolve(rooted, Resolve(rooted, stack, a), b)
    decreases |a|
  {
    if a == [] {
      assert a + b == b;
    } else {
      assert (a + b)[1..] == a[1..] + b;
      ResolveConcat(rooted, Push(rooted, stack, a[0]), a[1..], b);
    }
  }

  /** Resolving what is already resolved changes nothing. */
  lemma {:induction false} ResolveFixed(rooted: bool, stack: seq<string>, segs: seq<string>)
    requires Settled(rooted, stack + segs)
    ensures Resolve(rooted, stack, segs) == stack + segs
    decreases |segs|
  {
    if segs == [] {
      assert stack + segs == stack;
    } else {
      var all := stack + segs;
      assert all[|stack|] == segs[0];
      assert |stack| > 0 ==> all[|stack| - 1] == stack[|stack| - 1];
      assert Push(rooted, stack, segs[0]) == stack + [segs[0]];
      assert (stack + [segs[0]]) + segs[1..] == all;
      ResolveFixed(rooted, stack + [segs[0]], segs[1..]);
    }
  }

  lemma {:induction false} JoinStart(stack: seq<string>)
    requires Settled(false, stack) && stack != []
    ensures Join(stack, '/') != "" && !Rooted(Join(stack, '/'))
  {
    assert stack[0] != "" && stack[0][0] != '/';
    assert Join(stack, '/')[0] == stack[0][0];
  }

  /** A rendered stack reads back as itself: Clean's output is a normal form. */
  lemma {:induction false} RenderReadsBack(rooted: bool, stack: seq<string>)
    requires Settled(rooted, stack)
    ensures Render(rooted, stack) != ""
    ensures Rooted(Render(rooted, stack)) == rooted
    ensures Resolved(Render(rooted, stack)) == stack
  {
    var text := Render(rooted, stack);
    if !rooted && stack == [] {
      SplitFree(".", '/');
      assert Split(text, '/') == ["."];
      assert Resolve(false, [], ["."]) == Resolve(false, [], []);
    } else {
      var body := Join(stack, '/');
      var parts := Split(body, '/');
      if rooted {
        assert text == "" + ['/'] + body;
        SplitAtSeparator("", '/', body);
        assert Split(text, '/') == [""] + parts;
        ResolveConcat(true, [], [""], parts);
        assert Resolve(true, [], [""]) == Resolve(true, [], []);
      } else {
        JoinStart(stack);
      }
      if stack == [] {
        assert parts == [""];
        assert Resolve(rooted, [], [""]) == Resolve(rooted, [], []);
      } else {
        SplitJoin(stack, '/');
        assert [] + stack == stack;
        ResolveFixed(rooted, [], stack);
      }
    }
  }

  lemma {:induction false} ResolvedSettled(p: string)
    ensures Settled(Rooted(p), Resolved(p))
  {
    SplitPartsFree(p, '/');
    ResolveSettled(Rooted(p), [], Split(p, '/'));
  }

  lemma {:induction false} CleanIdempotent(p: string)
    ensures Clean(Clean(p)) == Clean(p)
  {
    ResolvedSettled(p);
    RenderReadsBack(Rooted(p), Resolved(p));
  }

  lemma {:induction false} CleanSegment(s: string)
    requires Segment(s)
    ensures Clean(s) == s
  {
    SplitFree(s, '/');
    assert Settled(false, [s]);
    ResolveFixed(false, [], [s]);
    assert [] + [s] == [s];
    JoinStart([s]);
  }

  /** Joining a segment to a cleaned directory appends exactly that segment. */
  lemma {:induction false} JoinAppends(dir: string, name: string)
    requires Segment(name)
    ensures JoinPath(Clean(dir), name) == Render(Rooted(dir), Resolved(dir) + [name])
    ensures Settled(Rooted(dir), Resolved(dir) + [name])
  {
    var base := Clean(dir);
    ResolvedSettled(dir);
    RenderReadsBack(Rooted(dir), Resolved(dir));
    var text := base + "/" + name;
    assert text == base + ['/'] + name;
    SplitAtSeparator(base, '/', name);
    SplitFree(name, '/');
    ResolveConcat(Rooted(dir), [], Split(base, '/'), [name]);
    assert Resolve(Rooted(dir), Resolved(dir), [name]) == Resolve(Rooted(dir), Resolved(dir) + [name], []);
  }

  lemma {:induction false} RenderInjective(r1: bool, s1: seq<string>, r2: bool, s2: seq<string>)
    requires Settled(r1, s1) && Settled(r2, s2)
    requires Render(r1, s1) == Render(r2, s2)
    ensures r1 == r2 && s1 == s2
  {
    RenderReadsBack(r1, s1);
    RenderReadsBack(r2, s2);
  }

  /** A joined path determines the cleaned directory and the name it was made from. */
  lemma {:induction false} JoinPathInjective(d1: string, n1: string, d2: string, n2: string)
    requires Segment(n1) && Segment(n2)
    requires JoinPath(Clean(d1), n1) == JoinPath(Clean(d2), n2)
    ensures Clean(d1) == Clean(d2) && n1 == n2
  {
    JoinAppends(d1, n1);
    JoinAppends(d2, n2);
    var s1, s2 := Resolved(d1) + [n1], Resolved(d2) + [n2];
    RenderInjective(Rooted(d1), s1, Rooted(d2), s2);
    assert Resolved(d1) == s1[..|s1| - 1] && Resolved(d2) == s2[..|s2| - 1];
    assert s1[|s1| - 1] == n1 && s2[|s2| - 1] == n2;
  }
}
