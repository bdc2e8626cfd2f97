/** The watching of one reconcile is the protocol run by one thread: what is proved of every
    interleaving speaks of the controller's own loop. */
module SoloWatch {
  import opened Text
  import opened Reconciler
  import opened DynamicWatch

  /** The state once a thread has dealt with its next kind, watching it if that is new. */
  function Handled(s: State, id: nat): State
    requires id in s.threads && HasNext(s.threads[id])
  {
    var t := s.threads[id];
    var g := t.kinds[t.next];
    var s1 := s.(threads := s.threads[id := t.(next := t.next + 1)]);
    if g in s.recorded then s1 else s1.(recorded := s.recorded + {g}, watches := s.watches + [g])
  }

  /** The steps of a thread that runs alone, with the answers of one reconcile. */
  function Alone(s: State, id: nat, e: Env): seq<Step>
    requires id in s.threads
    decreases if HasNext(s.threads[id]) then |s.threads[id].kinds| - s.threads[id].next else 0
  {
    var t := s.threads[id];
    if !HasNext(t) then [Finish(id)]
    else if t.next in e.objectErrors then [GiveUp(id)]
    else if t.kinds[t.next] in s.recorded then [Lock(id), Check(id), Unlock(id)] + Alone(Handled(s, id), id, e)
    else if t.kinds[t.next] in e.watchErrors then [Lock(id), Check(id), CallWatch(id, false), Unlock(id)]
    else [Lock(id), Check(id), CallWatch(id, true), Record(id), Unlock(id)] + Alone(Handled(s, id), id, e)
  }

  lemma {:induction false} RunConcat(s: State, a: seq<Step>, b: seq<Step>)
    requires Valid(s, a) && Valid(DynamicWatch.Run(s, a), b)
    ensures Valid(s, a + b) && DynamicWatch.Run(s, a + b) == DynamicWatch.Run(DynamicWatch.Run(s, a), b)
    decreases |a|
  {
    if a == [] {
      assert a + b == b;
    } else {
      assert (a + b)[1..] == a[1..] + b;
      RunConcat(Next(s, a[0]), a[1..], b);
    }
  }

  lemma {:induction false} OneStep(s: State, step: Step, steps: seq<Step>)
    requires Enabled(s, step) && Valid(Next(s, step), steps)
    ensures Valid(s, [step] + steps)
    ensures DynamicWatch.Run(s, [step] + steps) == DynamicWatch.Run(Next(s, step), steps)
  {
    assert ([step] + steps)[1..] == steps;
  }

  /** A thread that may run, outside the locked section, with the mutex free. */
  predicate Ready(s: State, id: nat) {
    Running(s, id) && s.threads[id].at.Idle? && s.threads[id].next <= |s.threads[id].kinds| && s.holder == {}
  }

  lemma {:induction false} PresentRuns(s: State, id: nat)
    requires Ready(s, id) && HasNext(s.threads[id]) && s.threads[id].kinds[s.threads[id].next] in s.recorded
    ensures var steps := [Lock(id), Check(id), Unlock(id)];
            Valid(s, steps) && DynamicWatch.Run(s, steps) == Handled(s, id)
  {
    var s1 := Next(s, Lock(id));
    var s2 := Next(s1, Check(id));
    var s3 := Next(s2, Unlock(id));
    OneStep(s2, Unlock(id), []);
    OneStep(s1, Check(id), [Unlock(id)]);
    OneStep(s, Lock(id), [Check(id), Unlock(id)]);
    assert s3.threads == Handled(s, id).threads;
  }

  lemma {:induction false} MissingRuns(s: State, id: nat)
    requires Ready(s, id) && HasNext(s.threads[id]) && s.threads[id].kinds[s.threads[id].next] !in s.recorded
    ensures var steps := [Lock(id), Check(id), CallWatch(id, true), Record(id), Unlock(id)];
            Valid(s, steps) && DynamicWatch.Run(s, steps) == Handled(s, id)
  {
    var s1 := Next(s, Lock(id));
    var s2 := Next(s1, Check(id));
    var s3 := Next(s2, CallWatch(id, true));
    var s4 := Next(s3, Record(id));
    var s5 := Next(s4, Unlock(id));
    OneStep(s4, Unlock(id), []);
    OneStep(s3, Record(id), [Unlock(id)]);
    OneStep(s2, CallWatch(id, true), [Record(id), Unlock(id)]);
    OneStep(s1, Check(id), [CallWatch(id, true), Record(id), Unlock(id)]);
    OneStep(s, Lock(id), [Check(id), CallWatch(id, true), Record(id), Unlock(id)]);
    assert s5.threads == Handled(s, id).threads;
  }

  lemma {:induction false} FailingRuns(s: State, id: nat)
    requires Ready(s, id) && HasNext(s.threads[id]) && s.threads[id].kinds[s.threads[id].next] !in s.recorded
    ensures var steps := [Lock(id), Check(id), CallWatch(id, false), Unlock(id)];
            Valid(s, steps)
            && DynamicWatch.Run(s, steps) == s.(threads := s.threads[id := s.threads[id].(failed := true)])
  {
    var s1 := Next(s, Lock(id));
    var s2 := Next(s1, Check(id));
    var s3 := Next(s2, CallWatch(id, false));
    var s4 := Next(s3, Unlock(id));
    OneStep(s3, Unlock(id), []);
    OneStep(s2, CallWatch(id, false), [Unlock(id)]);
    OneStep(s1, Check(id), [CallWatch(id, false), Unlock(id)]);
    OneStep(s, Lock(id), [Check(id), CallWatch(id, false), Unlock(id)]);
    assert s4.threads == s.threads[id := s.threads[id].(failed := true)];
  }

  /** Whatever other threads did before, a thread that finds the mutex free and then runs alone always
      ends, gives the mutex back, and does what the watch stage of a reconcile does: the same kinds are
      watched, it is installed exactly when the stage goes on, and it fails exactly when that stops. */
  lemma {:induction false} AloneIsWatchStage(s: State, id: nat, w: World, e: Env)
    requires Ready(s, id) && s.recorded == w.watched
    ensures Valid(s, Alone(s, id, e))
    ensures var t := DynamicWatch.Run(s, Alone(s, id, e));
            var p := WatchStage(w, e, s.threads[id].kinds, s.threads[id].next);
            && t.holder == {} && t.recorded == p.world.watched
            && t.threads.Keys == s.threads.Keys
            && t.threads[id].installed == p.Go? && t.threads[id].failed == p.Stop?
            && forall other :: other in s.threads && other != id ==> t.threads[other] == s.threads[other]
    decreases |s.threads[id].kinds| - s.threads[id].next
  {
    var t := s.threads[id];
    if !HasNext(t) {
      OneStep(s, Finish(id), []);
    } else if t.next in e.objectErrors {
      OneStep(s, GiveUp(id), []);
    } else if t.kinds[t.next] in s.recorded {
      PresentRuns(s, id);
      AloneIsWatchStage(Handled(s, id), id, WatchOne(w, e, t.next, t.kinds[t.next]).world, e);
      RunConcat(s, [Lock(id), Check(id), Unlock(id)], Alone(Handled(s, id), id, e));
    } else if t.kinds[t.next] in e.watchErrors {
      FailingRuns(s, id);
    } else {
      MissingRuns(s, id);
      AloneIsWatchStage(Handled(s, id), id, WatchOne(w, e, t.next, t.kinds[t.next]).world, e);
      RunConcat(s, [Lock(id), Check(id), CallWatch(id, true), Record(id), Unlock(id)], Alone(Handled(s, id), id, e));
    }
  }
}
