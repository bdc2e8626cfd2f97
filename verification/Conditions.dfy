/** Status conditions, as meta.SetStatusCondition maintains them. */
module Conditions {
  import opened Text

  datatype Truth = Yes | No | Unknown

  /** A condition and the time its status last changed. */
  datatype Condition = Condition(kind: string, status: Truth, reason: string, message: string, since: nat)

  /** Replaces the condition of the same kind, keeping its time unless the status changes, or
      appends a new one. */
  function Set(cs: seq<Condition>, c: Condition): seq<Condition> {
    if cs == [] then [c]
    else if cs[0].kind == c.kind then [c.(since := if cs[0].status == c.status then cs[0].since else c.since)] + cs[1..]
    else [cs[0]] + Set(cs[1..], c)
  }

  function Find(cs: seq<Condition>, kind: string): Option<Condition> {
    if cs == [] then None else if cs[0].kind == kind then Some(cs[0]) else Find(cs[1..], kind)
  }

  predicate Is(cs: seq<Condition>, kind: string, status: Truth) {
    Find(cs, kind).Some? && Find(cs, kind).value.status == status
  }

  /** The condition of a kind says this, whenever it came to say so. */
  predicate Says(cs: seq<Condition>, kind: string, status: Truth, reason: string, message: string) {
    var c := Find(cs, kind);
    c.Some? && c.value.status == status && c.value.reason == reason && c.value.message == message
  }

  ghost predicate Once(cs: seq<Condition>) {
    forall i, j :: 0 <= i < j < |cs| ==> cs[i].kind != cs[j].kind
  }

  /** Setting a condition is seen under its kind and nowhere else; its time is that of the last change
      of its status. */
  lemma {:induction false} FindSet(cs: seq<Condition>, c: Condition, kind: string)
    ensures kind != c.kind ==> Find(Set(cs, c), kind) == Find(cs, kind)
    ensures Find(Set(cs, c), c.kind)
            == Some(if Is(cs, c.kind, c.status) then c.(since := Find(cs, c.kind).value.since) else c)
    ensures Says(Set(cs, c), c.kind, c.status, c.reason, c.message)
  {
    if cs != [] && cs[0].kind != c.kind {
      FindSet(cs[1..], c, kind);
      assert Set(cs, c)[1..] == Set(cs[1..], c);
    } else if cs != [] {
      assert Set(cs, c)[1..] == cs[1..];
    }
  }

  /** Saying again what is already said changes nothing, not even the time. */
  lemma {:induction false} SetAgain(cs: seq<Condition>, c: Condition)
    requires Says(cs, c.kind, c.status, c.reason, c.message)
    ensures Set(cs, c) == cs
  {
    assert cs == [cs[0]] + cs[1..];
    if cs[0].kind != c.kind { SetAgain(cs[1..], c); }
  }

  lemma {:induction false} SetKinds(cs: seq<Condition>, c: Condition, i: nat)
    requires i < |Set(cs, c)|
    ensures |Set(cs, c)| >= |cs|
    ensures Set(cs, c)[i].kind == if i < |cs| then cs[i].kind else c.kind
    ensures |cs| <= i ==> i == |cs| && forall k :: 0 <= k < |cs| ==> cs[k].kind != c.kind
  {
    if cs != [] && cs[0].kind != c.kind && i > 0 { SetKinds(cs[1..], c, i - 1); }
    else if cs != [] && cs[0].kind != c.kind { SetGrows(cs[1..], c); }
  }

  lemma {:induction false} SetGrows(cs: seq<Condition>, c: Condition)
    ensures |Set(cs, c)| >= |cs|
  {
    if cs != [] { SetGrows(cs[1..], c); }
  }

  /** Each kind appears at most once, before and after. */
  lemma {:induction false} SetKeepsOnce(cs: seq<Condition>, c: Condition)
    requires Once(cs)
    ensures Once(Set(cs, c))
  {
    forall i, j | 0 <= i < j < |Set(cs, c)| ensures Set(cs, c)[i].kind != Set(cs, c)[j].kind {
      SetKinds(cs, c, i);
      SetKinds(cs, c, j);
    }
  }
}
