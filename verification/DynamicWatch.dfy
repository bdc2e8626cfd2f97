/** Concurrent reconciles of one controller creating watches.  Every thread goes through the
    objects of its release manifest; for each that can be decoded it takes the mutex, looks the kind up,
    watches it if it is not there, records it, and gives the mutex back.  Each of these is a step of its own,
    and the steps of all threads interleave freely. */
module DynamicWatch {

  type GVK = string

  /** Where a thread is within the locked section, or outside it. */
  datatype Point = Idle | Locked | Missing | Watched | Present | Aborting

  /** The kinds a thread has to watch, how many it has dealt with, and how it ended. */
  datatype Thread = Thread(kinds: seq<GVK>, next: nat, at: Point, failed: bool, installed: bool)

  /** recorded is the controller's set of watched kinds; watches logs the successful Watch calls. */
  datatype State = State(threads: map<nat, Thread>, holder: set<nat>, recorded: set<GVK>, watches: seq<GVK>)

  datatype Step =
    | Start(id: nat, kinds: seq<GVK>)
    | Lock(id: nat)
    | Check(id: nat)
    | CallWatch(id: nat, ok: bool)
    | Record(id: nat)
    | Unlock(id: nat)
    | Finish(id: nat)
    | GiveUp(id: nat)  // the next object cannot be decoded

  predicate Running(s: State, id: nat) {
    id in s.threads && !s.threads[id].failed && !s.threads[id].installed
  }

  predicate HasNext(t: Thread) {
    t.next < |t.kinds|
  }

  /** Which steps a thread may take now: the code runs in order, and the mutex admits one. */
  predicate Enabled(s: State, step: Step) {
    if step.Start? then step.id !in s.threads
    else
      && Running(s, step.id)
      && var t := s.threads[step.id];
         match step
         case Start(_, _) => true
         case Lock(_) => t.at.Idle? && HasNext(t) && s.holder == {}
         case Check(_) => t.at.Locked? && HasNext(t)
         case CallWatch(_, _) => t.at.Missing? && HasNext(t)
         case Record(_) => t.at.Watched? && HasNext(t)
         case Unlock(_) => t.at.Present? || t.at.Aborting?
         case Finish(_) => t.at.Idle? && !HasNext(t)
         case GiveUp(_) => t.at.Idle? && HasNext(t)
  }

  function Move(s: State, id: nat, t: Thread): State {
    s.(threads := s.threads[id := t])
  }

  function Next(s: State, step: Step): State
    requires Enabled(s, step)
  {
    match step
    case Start(id, kinds) => Move(s, id, Thread(kinds, 0, Idle, false, false))
    case Lock(id) => Move(s.(holder := {id}), id, s.threads[id].(at := Locked))
    case Check(id) =>
      var t := s.threads[id];
      Move(s, id, t.(at := if t.kinds[t.next] in s.recorded then Present else Missing))
    case CallWatch(id, ok) =>
      var t := s.threads[id];
      if ok then Move(s.(watches := s.watches + [t.kinds[t.next]]), id, t.(at := Watched))
      else Move(s, id, t.(at := Aborting))
    case Record(id) =>
      var t := s.threads[id];
      Move(s.(recorded := s.recorded + {t.kinds[t.next]}), id, t.(at := Present))
    case Unlock(id) =>
      var t := s.threads[id];
      Move(s.(holder := {}), id,
           if t.at.Aborting? then t.(at := Idle, failed := true) else t.(at := Idle, next := t.next + 1))
    case Finish(id) => Move(s, id, s.threads[id].(installed := true))
    case GiveUp(id) => Move(s, id, s.threads[id].(failed := true))
  }

  ghost predicate Valid(s: State, steps: seq<Step>)
    decreases |steps|
  {
    steps != [] ==> Enabled(s, steps[0]) && Valid(Next(s, steps[0]), steps[1..])
  }

  function Run(s: State, steps: seq<Step>): State
    requires Valid(s, steps)
    decreases |steps|
  {
    if steps == [] then s else Run(Next(s, steps[0]), steps[1..])
  }

  const INITIAL := State(map[], {}, {}, [])

  // ---- what every interleaving keeps ----

  ghost predicate NoRepeats(ws: seq<GVK>) {
    forall i, j :: 0 <= i < j < |ws| ==> ws[i] != ws[j]
  }

  /** The kind a thread has watched but not recorded yet. */
  ghost predicate Unrecorded(s: State, id: nat, g: GVK) {
    id in s.threads && s.threads[id].at.Watched? && HasNext(s.threads[id])
      && s.threads[id].kinds[s.threads[id].next] == g
  }

  ghost predicate ThreadOk(s: State, id: nat)
    requires id in s.threads
  {
    var t := s.threads[id];
    && t.next <= |t.kinds|
    && (!t.at.Idle? ==> s.holder == {id} && HasNext(t) && !t.failed && !t.installed)
    && (forall k :: 0 <= k < t.next ==> t.kinds[k] in s.recorded)
    && (t.at.Missing? ==> t.kinds[t.next] !in s.recorded)
    && (t.at.Present? ==> t.kinds[t.next] in s.recorded)
    && (t.at.Watched? ==> t.kinds[t.next] !in s.recorded && t.kinds[t.next] in s.watches)
    && (t.installed ==> t.next == |t.kinds|)
  }

  ghost predicate Inv(s: State) {
    && NoRepeats(s.watches)
    && (forall id :: id in s.threads ==> ThreadOk(s, id))
    && (forall g :: g in s.recorded ==> g in s.watches)
    && (forall g :: g in s.watches && g !in s.recorded ==> exists id :: Unrecorded(s, id, g))
    && (forall id :: id in s.holder ==> id in s.threads && !s.threads[id].at.Idle?)
  }

  /** A kind watched but not yet recorded is in the hands of the thread that holds the mutex. */
  lemma {:induction false} PendingHeld(s: State)
    requires Inv(s)
    ensures forall g :: g in s.watches && g !in s.recorded ==>
            exists id: nat :: Unrecorded(s, id, g) && s.holder == {id}
  {
    forall g | g in s.watches && g !in s.recorded ensures exists id: nat :: Unrecorded(s, id, g) && s.holder == {id} {
      var id :| Unrecorded(s, id, g);
      assert ThreadOk(s, id);
    }
  }

  lemma {:induction false} StepPending(s: State, step: Step, g: GVK)
    requires Inv(s) && Enabled(s, step)
    requires g in Next(s, step).watches && g !in Next(s, step).recorded
    ensures exists id :: Unrecorded(Next(s, step), id, g)
  {
    var s' := Next(s, step);
    if g in s.watches {
      var id :| Unrecorded(s, id, g);
      assert ThreadOk(s, id);
      assert step.id in s.threads ==> ThreadOk(s, step.id);
      assert Unrecorded(s', id, g);
    } else {
      assert Unrecorded(s', step.id, g);
    }
  }

  lemma {:induction false} StepThread(s: State, step: Step, id: nat)
    requires Inv(s) && Enabled(s, step) && id in Next(s, step).threads
    ensures ThreadOk(Next(s, step), id)
  {
    assert id in s.threads ==> ThreadOk(s, id);
    assert step.id in s.threads ==> ThreadOk(s, step.id);
  }

  lemma {:induction false} StepNoRepeats(s: State, step: Step)
    requires Inv(s) && Enabled(s, step)
    ensures NoRepeats(Next(s, step).watches)
    ensures forall g :: g in Next(s, step).recorded ==> g in Next(s, step).watches
  {
    PendingHeld(s);
    assert step.id in s.threads ==> ThreadOk(s, step.id);
    if step.CallWatch? && step.ok {
      assert s.threads[step.id].kinds[s.threads[step.id].next] !in s.watches;
    }
  }

  lemma {:induction false} StepKeepsInv(s: State, step: Step)
    requires Inv(s) && Enabled(s, step)
    ensures Inv(Next(s, step)) && s.recorded <= Next(s, step).recorded
  {
    var s' := Next(s, step);
    StepNoRepeats(s, step);
    forall g | g in s'.watches && g !in s'.recorded
      ensures exists id :: Unrecorded(s', id, g)
    {
      StepPending(s, step, g);
    }
    forall id | id in s'.threads ensures ThreadOk(s', id) { StepThread(s, step, id); }
    assert step.id in s.threads ==> ThreadOk(s, step.id);
  }

  lemma {:induction false} RunKeepsInv(s: State, steps: seq<Step>)
    requires Inv(s) && Valid(s, steps)
    ensures Inv(Run(s, steps)) && s.recorded <= Run(s, steps).recorded
    decreases |steps|
  {
    if steps != [] {
      StepKeepsInv(s, steps[0]);
      RunKeepsInv(Next(s, steps[0]), steps[1..]);
    }
  }

  /** In every interleaving, each kind is successfully watched at most once; when nobody holds the
      mutex the recorded kinds are exactly those watched; a thread is installed only once every
      kind of its manifest is recorded; and at most one thread is ever inside the locked section. */
  lemma {:induction false} WatchesOnce(steps: seq<Step>)
    requires Valid(INITIAL, steps)
    ensures var s := Run(INITIAL, steps);
            && NoRepeats(s.watches)
            && (s.holder == {} ==> s.recorded == set g | g in s.watches)
            && (forall id :: id in s.threads && s.threads[id].installed ==>
                  forall k :: 0 <= k < |s.threads[id].kinds| ==> s.threads[id].kinds[k] in s.recorded)
            && (forall a, b :: a in s.threads && b in s.threads && !s.threads[a].at.Idle? && !s.threads[b].at.Idle?
                  ==> a == b)
  {
    RunKeepsInv(INITIAL, steps);
    var s := Run(INITIAL, steps);
    PendingHeld(s);
    forall id | id in s.threads && s.threads[id].installed
      ensures forall k :: 0 <= k < |s.threads[id].kinds| ==> s.threads[id].kinds[k] in s.recorded
    {
      assert ThreadOk(s, id);
    }
    forall a, b | a in s.threads && b in s.threads && !s.threads[a].at.Idle? && !s.threads[b].at.Idle? ensures a == b {
      assert ThreadOk(s, a) && ThreadOk(s, b);
      assert a in s.holder && b in s.holder;
    }
  }

  /** The recorded set never shrinks, from any point of a run to any later one. */
  lemma {:induction false} RecordedOnlyGrows(before: seq<Step>, after: seq<Step>)
    requires Valid(INITIAL, before) && Valid(Run(INITIAL, before), after)
    ensures Run(INITIAL, before).recorded <= Run(Run(INITIAL, before), after).recorded
  {
    RunKeepsInv(INITIAL, before);
    RunKeepsInv(Run(INITIAL, before), after);
  }

  // ---- what a run does ----

  /** The kinds of the successful Watch calls among the steps, in order. */
  function Called(s: State, steps: seq<Step>): seq<GVK>
    requires Valid(s, steps)
    decreases |steps|
  {
    if steps == [] then []
    else
      var rest := Called(Next(s, steps[0]), steps[1..]);
      match steps[0]
      case CallWatch(id, true) => [s.threads[id].kinds[s.threads[id].next]] + rest
      case _ => rest
  }

  /** The log holds the successful calls and nothing else. */
  lemma {:induction false} WatchesAreCalls(s: State, steps: seq<Step>)
    requires Valid(s, steps)
    ensures Run(s, steps).watches == s.watches + Called(s, steps)
    decreases |steps|
  {
    if steps != [] { WatchesAreCalls(Next(s, steps[0]), steps[1..]); }
  }

  /** No interleaving deadlocks: while some thread has not ended, some thread that has not ended can
      take a step. */
  lemma {:induction false} NeverStuck(steps: seq<Step>, id: nat) returns (step: Step)
    requires Valid(INITIAL, steps)
    requires var s := Run(INITIAL, steps); id in s.threads && !s.threads[id].failed && !s.threads[id].installed
    ensures var s := Run(INITIAL, steps);
            && step.id in s.threads && !s.threads[step.id].failed && !s.threads[step.id].installed
            && Enabled(s, step)
  {
    RunKeepsInv(INITIAL, steps);
    var s := Run(INITIAL, steps);
    assert ThreadOk(s, id);
    if s.holder == {} {
      assert s.threads[id].at.Idle?;
      step := if HasNext(s.threads[id]) then Lock(id) else Finish(id);
    } else {
      var holder :| holder in s.holder;
      assert ThreadOk(s, holder);
      step := match s.threads[holder].at
        case Locked => Check(holder)
        case Missing => CallWatch(holder, true)
        case Watched => Record(holder)
        case _ => Unlock(holder);
    }
  }
}
