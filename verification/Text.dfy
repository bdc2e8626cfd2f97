/** Splitting and joining text on a one-character separator, as Go's strings.Split and
    strings.Join do.  The two directions of the round trip are what path cleaning, archive
    entry names and the olm.targetNamespaces annotation rest on. */
module Text {

  datatype Option<+T> = None | Some(value: T)

  datatype Result<+T, +E> = Success(value: T) | Failure(error: E)

  /** No part contains the separator. */
  ghost predicate AllFree(parts: seq<string>, c: char) {
    forall i :: 0 <= i < |parts| ==> c !in parts[i]
  }

  function Join(parts: seq<string>, c: char): string {
    if |parts| == 0 then ""
    else if |parts| == 1 then parts[0]
    else parts[0] + [c] + Join(parts[1..], c)
  }

  function Split(s: string, c: char): (parts: seq<string>)
    ensures |parts| > 0
  {
    if s == "" then [""] else Prepend(s[0], c, Split(s[1..], c))
  }

  /** One character in front of parts already split. */
  function Prepend(x: char, c: char, rest: seq<string>): (parts: seq<string>)
    requires |rest| > 0
    ensures |parts| > 0
  {
    if x == c then [""] + rest else rest[0 := [x] + rest[0]]
  }

  lemma {:induction false} PrependAppend(x: char, c: char, a: seq<string>, b: seq<string>)
    requires |a| > 0
    ensures Prepend(x, c, a + b) == Prepend(x, c, a) + b
  {
    if x == c {
      assert [""] + (a + b) == ([""] + a) + b;
    } else {
      assert (a + b)[0 := [x] + a[0]] == a[0 := [x] + a[0]] + b;
    }
  }

  lemma {:induction false} SplitFree(s: string, c: char)
    requires c !in s
    ensures Split(s, c) == [s]
  {
    if s != "" {
      SplitFree(s[1..], c);
      assert [s[0]] + s[1..] == s;
    }
  }

  /** Splitting distributes over a separator, wherever it stands. */
  lemma {:induction false} SplitAtSeparator(a: string, c: char, b: string)
    ensures Split(a + [c] + b, c) == Split(a, c) + Split(b, c)
  {
    var s := a + [c] + b;
    if a == "" {
      assert s[1..] == b;
    } else {
      SplitAtSeparator(a[1..], c, b);
      assert s[1..] == a[1..] + [c] + b && s[0] == a[0];
      PrependAppend(a[0], c, Split(a[1..], c), Split(b, c));
    }
  }

  lemma {:induction false} SplitPartsFree(s: string, c: char)
    ensures AllFree(Split(s, c), c)
  {
    if s != "" { SplitPartsFree(s[1..], c); }
  }

  /** strings.Split undoes strings.Join on a non-empty list of separator-free parts. */
  lemma {:induction false} SplitJoin(parts: seq<string>, c: char)
    requires |parts| > 0 && AllFree(parts, c)
    ensures Split(Join(parts, c), c) == parts
  {
    SplitFree(parts[0], c);
    if |parts| > 1 {
      SplitJoin(parts[1..], c);
      SplitAtSeparator(parts[0], c, Join(parts[1..], c));
    }
  }

  /** strings.Join undoes strings.Split. */
  lemma {:induction false} JoinSplit(s: string, c: char)
    ensures Join(Split(s, c), c) == s
  {
    if s != "" {
      JoinSplit(s[1..], c);
      var rest := Split(s[1..], c);
      assert s == [s[0]] + s[1..];
      if s[0] == c {
        assert ([""] + rest)[1..] == rest;
      } else if |rest| > 1 {
        assert rest[0 := [s[0]] + rest[0]][1..] == rest[1..];
        assert ([s[0]] + rest[0]) + [c] + Join(rest[1..], c) == [s[0]] + (rest[0] + [c] + Join(rest[1..], c));
      }
    }
  }
}
