/** What every reconcile, and every run of reconciles, keeps. */
module ReconcilerRuns {
  import opened Text
  import opened Reconciler

  // ---- order of effects ----

  predicate Acting(c: Call) {
    c.Install? || c.Upgrade? || c.Reconcile?
  }

  ghost predicate Quiet(t: seq<Effect>) {
    forall i :: 0 <= i < |t| ==> !Acting(t[i].call)
  }

  function PassedPreflights(state: ReleaseState, from: nat, n: nat): seq<Effect>
    requires from <= n
  {
    if state.NeedsInstall? || state.NeedsUpgrade? then
      seq(n - from, i requires 0 <= i < n - from => Effect(Preflight(state, from + i), true))
    else []
  }

  const UNPACK_READY := [Effect(Unpack, true), Effect(Store, true), Effect(ContentURL, true)]
  const LOAD_READY := [Effect(Load, true), Effect(Render, true), Effect(GetClient, true)]
  const CONTENT_READY := [Effect(Finalize, true)] + UNPACK_READY + LOAD_READY

  /** Everything that has to have succeeded, in order, before the release is touched: the bundle
      finalized, unpacked, stored, given a URL, loaded and rendered, the client and the release
      obtained, the dry run for the same kind of change, and every preflight. */
  function Ready(state: ReleaseState, preflights: nat): seq<Effect> {
    CONTENT_READY + DeployReady(state, preflights)
  }

  function DeployReady(state: ReleaseState, preflights: nat): seq<Effect> {
    var dryRun := DryRun(if state.NeedsInstall? then NeedsInstall else NeedsUpgrade);
    [Effect(GetRelease, true), Effect(dryRun, true)] + PassedPreflights(state, 0, preflights)
  }

  lemma {:induction false} PreflightsQuiet(w: World, e: Env, state: ReleaseState, from: nat)
    requires from <= |e.preflights|
    ensures Quiet(PreflightStage(w, e, state, from).trace)
    decreases |e.preflights| - from
  {
    if from < |e.preflights| { PreflightsQuiet(w, e, state, from + 1); }
  }

  lemma {:induction false} PreflightsPassed(w: World, e: Env, state: ReleaseState, from: nat)
    requires from <= |e.preflights| && PreflightStage(w, e, state, from).Go?
    ensures PreflightStage(w, e, state, from).trace == PassedPreflights(state, from, |e.preflights|)
    decreases |e.preflights| - from
  {
    if from < |e.preflights| {
      PreflightsPassed(w, e, state, from + 1);
      if state.NeedsInstall? || state.NeedsUpgrade? { PassedFirst(state, from, |e.preflights|); }
    }
  }

  lemma {:induction false} PassedFirst(state: ReleaseState, from: nat, n: nat)
    requires from < n && (state.NeedsInstall? || state.NeedsUpgrade?)
    ensures PassedPreflights(state, from, n)
            == [Effect(Preflight(state, from), true)] + PassedPreflights(state, from + 1, n)
  {
  }

  lemma {:induction false} WatchTrace(w: World, e: Env, objects: seq<GVK>, from: nat)
    requires from <= |objects|
    ensures Quiet(WatchStage(w, e, objects, from).trace)
    decreases |objects| - from
  {
    if from < |objects| {
      WatchTrace(w, e, objects, from + 1);
      WatchTrace(w.(watched := w.watched + {objects[from]}), e, objects, from + 1);
    }
  }

  lemma {:induction false} UnpackTrace(w: World, e: Env)
    ensures var p := UnpackStage(w, e);
            && Quiet(p.trace) && (p.Go? ==> p.trace == UNPACK_READY)
            && p.world.release == w.release && p.world.watched == w.watched && p.world.name == w.name
  {
  }

  lemma {:induction false} LoadTrace(w: World, e: Env)
    ensures var p := LoadStage(w, e);
            && Quiet(p.trace) && (p.Go? ==> p.trace == LOAD_READY)
            && p.world.release == w.release && p.world.watched == w.watched && p.world.name == w.name
  {
  }

  lemma {:induction false} ContentTrace(w: World, e: Env)
    ensures Quiet(Content(w, e).trace) && (Content(w, e).Go? ==> Content(w, e).trace == CONTENT_READY)
  {
    var p := FinalizeStage(w, e);
    if p.Go? {
      UnpackTrace(p.world, e);
      var q := UnpackStage(p.world, e);
      if q.Go? { LoadTrace(q.world, e); }
    }
  }

  /** A deployment is quiet, or gets ready and then acts once, last. */
  lemma {:induction false} DeployTrace(w: World, e: Env)
    ensures var p := Deploy(w, e);
            var state := Classify(w.release, e).0;
            || (Quiet(p.trace) && p.Stop?)
            || (!state.StateError?
               && exists ok :: p.trace == DeployReady(state, |e.preflights|) + [Effect(CallFor(state), ok)])
    ensures Quiet(DeployReady(Classify(w.release, e).0, |e.preflights|))
  {
    var c := ClassifyStage(w, e);
    var state := Classify(w.release, e).0;
    PreflightsQuiet(w, e, state, 0);
    var q := PreflightStage(w, e, state, 0);
    if c.Go? && q.Go? {
      PreflightsPassed(w, e, state, 0);
      assert c.trace + q.trace == DeployReady(state, |e.preflights|);
      assert Deploy(w, e).trace == DeployReady(state, |e.preflights|) + [Effect(CallFor(state), e.action.Done?)];
    }
  }

  /** A trace that never acts, or gets ready, acts once, and is quiet from then on. */
  ghost predicate Shape(t: seq<Effect>, state: ReleaseState, n: nat) {
    || Quiet(t)
    || (!state.StateError? && Quiet(Ready(state, n)) && exists ok, rest :: Shaped(t, state, n, ok, rest))
  }

  ghost predicate Shaped(t: seq<Effect>, state: ReleaseState, n: nat, ok: bool, rest: seq<Effect>) {
    t == Ready(state, n) + [Effect(CallFor(state), ok)] + rest && Quiet(rest)
  }

  lemma {:induction false} ShapeAppend(t: seq<Effect>, state: ReleaseState, n: nat, more: seq<Effect>)
    requires Shape(t, state, n) && Quiet(more)
    ensures Shape(t + more, state, n)
  {
    if !Quiet(t) {
      var ok, rest :| Shaped(t, state, n, ok, rest);
      assert Shaped(t + more, state, n, ok, rest + more);
    }
  }

  lemma {:induction false} ShapeMeans(t: seq<Effect>, state: ReleaseState, n: nat, i: nat)
    requires Shape(t, state, n) && i < |t| && Acting(t[i].call)
    ensures !state.StateError? && t[i].call == CallFor(state) && t[..i] == Ready(state, n)
    ensures forall j :: 0 <= j < |t| && j != i ==> !Acting(t[j].call)
  {
    var ok, rest :| Shaped(t, state, n, ok, rest);
    var k := |Ready(state, n)|;
    forall j | 0 <= j < |t| && j != k ensures !Acting(t[j].call) {
      if j < k { assert t[j] == Ready(state, n)[j]; } else { assert t[j] == rest[j - k - 1]; }
    }
    assert t[..k] == Ready(state, n);
  }

  lemma {:induction false} InnerShape(w: World, e: Env)
    ensures Shape(Inner(w, e).trace, Classify(w.release, e).0, |e.preflights|)
  {
    var p, state := Content(w, e), Classify(w.release, e).0;
    ContentTrace(w, e);
    if p.Go? {
      ContentKeepsRelease(w, e);
      InnerPrefix(w, e);
      DeployTrace(p.world, e);
      var q := Deploy(p.world, e);
      var t := p.trace + q.trace;
      assert Shape(t, state, |e.preflights|) by {
        if !(Quiet(q.trace) && q.Stop?) {
          var ok :| q.trace == DeployReady(state, |e.preflights|) + [Effect(CallFor(state), ok)];
          assert Shaped(t, state, |e.preflights|, ok, []);
          assert Quiet(Ready(state, |e.preflights|));
        }
      }
      var inner := Inner(w, e).trace;
      ShapeAppend(t, state, |e.preflights|, inner[|t|..]);
      assert inner == t + inner[|t|..];
    }
  }

  lemma {:induction false} OuterTrace(w: World, e: Env)
    ensures exists more :: Quiet(more) && Outer(w, e).trace == Inner(w, e).trace + more
  {
    assert Quiet(WriteTrace(w, Inner(w, e).world, e));
  }

  /** A release is installed, upgraded or reconciled only after everything before it succeeded in
      this same reconcile, and only once: whatever the environment does, the calls before an
      acting one are exactly those that make it ready, and no other call acts. */
  lemma {:induction false} ActsOnceWhenReady(w: World, e: Env, i: nat)
    requires i < |Outer(w, e).trace| && Acting(Outer(w, e).trace[i].call)
    ensures var t := Outer(w, e).trace;
            var state := Classify(w.release, e).0;
            && !state.StateError? && t[i].call == CallFor(state)
            && t[..i] == Ready(state, |e.preflights|)
            && (forall j :: 0 <= j < |t| && j != i ==> !Acting(t[j].call))
  {
    InnerShape(w, e);
    OuterTrace(w, e);
    var more :| Quiet(more) && Outer(w, e).trace == Inner(w, e).trace + more;
    ShapeAppend(Inner(w, e).trace, Classify(w.release, e).0, |e.preflights|, more);
    ShapeMeans(Outer(w, e).trace, Classify(w.release, e).0, |e.preflights|, i);
  }

  lemma {:induction false} ContentKeepsRelease(w: World, e: Env)
    ensures Content(w, e).world.release == w.release && Content(w, e).world.watched == w.watched
    ensures Content(w, e).world.name == w.name
  {
    var p := FinalizeStage(w, e);
    if p.Go? {
      UnpackTrace(p.world, e);
      var q := UnpackStage(p.world, e);
      if q.Go? { LoadTrace(q.world, e); }
    }
  }

  /** The inner trace begins with the content and the deployment, and ends quietly. */
  lemma {:induction false} InnerPrefix(w: World, e: Env)
    ensures var p := Content(w, e);
            p.Go? ==> var q := Deploy(p.world, e);
                      && p.trace + q.trace <= Inner(w, e).trace
                      && Quiet(Inner(w, e).trace[|p.trace + q.trace|..])
  {
    var p := Content(w, e);
    if p.Go? {
      var q := Deploy(p.world, e);
      if q.Go? {
        ConcludeTrace(q.world, e);
        var t, more := p.trace + q.trace, Conclude(q.world, e).trace;
        assert (t + more)[|t|..] == more;
      }
    }
  }

  lemma {:induction false} ConcludeTrace(w: World, e: Env)
    requires w.release.Some?
    ensures Quiet(Conclude(w, e).trace)
  {
    if e.parse(w.release.value.manifest).Success? {
      WatchTrace(w, e, e.parse(w.release.value.manifest).value, 0);
    }
  }

  /** The controller never reports an unexpected release state. */
  lemma {:induction false} StateErrorUnreachable(w: World, e: Env)
    ensures Outer(w, e).error != Some(UnexpectedState)
  {
    var p := Content(w, e);
    if p.Go? {
      PreflightErrors(p.world, e, Classify(p.world.release, e).0, 0);
      var q := Deploy(p.world, e);
      if q.Go? && e.parse(q.world.release.value.manifest).Success? {
        WatchErrors(q.world, e, e.parse(q.world.release.value.manifest).value, 0);
      }
    }
  }

  lemma {:induction false} PreflightErrors(w: World, e: Env, state: ReleaseState, from: nat)
    requires from <= |e.preflights|
    ensures var p := PreflightStage(w, e, state, from); p.Stop? ==> p.error.Some? && p.error != Some(UnexpectedState)
    decreases |e.preflights| - from
  {
    if from < |e.preflights| { PreflightErrors(w, e, state, from + 1); }
  }

  lemma {:induction false} WatchErrors(w: World, e: Env, objects: seq<GVK>, from: nat)
    requires from <= |objects|
    ensures var p := WatchStage(w, e, objects, from);
            && (p.Stop? ==> p.error.Some? && p.error != Some(UnexpectedState))
            && (p.Go? ==> p.world == w.(watched := p.world.watched) && w.watched <= p.world.watched
                          && forall i :: from <= i < |objects| ==> objects[i] in p.world.watched)
    decreases |objects| - from
  {
    if from < |objects| {
      WatchErrors(w, e, objects, from + 1);
      WatchErrors(w.(watched := w.watched + {objects[from]}), e, objects, from + 1);
    }
  }
}
