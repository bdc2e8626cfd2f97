/** Installed and the watches, within one reconcile. */
module ReconcilerWatches {
  import opened Reconciler
  import opened ReconcilerRuns
  import opened ReconcilerFixpoint
  import opened ReconcilerReports

  lemma {:induction false} PreflightWatched(w: World, e: Env, state: ReleaseState, from: nat)
    requires from <= |e.preflights|
    ensures PreflightStage(w, e, state, from).world.watched == w.watched
    decreases |e.preflights| - from
  {
    if from < |e.preflights| { PreflightWatched(w, e, state, from + 1); }
  }

  lemma {:induction false} WatchGrows(w: World, e: Env, objects: seq<GVK>, from: nat)
    requires from <= |objects|
    ensures w.watched <= WatchStage(w, e, objects, from).world.watched
    decreases |objects| - from
  {
    if from < |objects| { WatchGrows(WatchOne(w, e, from, objects[from]).world, e, objects, from + 1); }
  }

  /** From v to w a trace watches exactly the kinds that are new, each with one successful call. */
  ghost predicate WatchesAre(v: set<GVK>, w: set<GVK>, t: seq<Effect>) {
    && v <= w
    && (forall g :: g in w - v <==> Effect(Watch(g), true) in t)
    && (forall i, j :: 0 <= i < j < |t| && t[i].call.Watch? && t[i].ok && t[j].call.Watch? && t[j].ok ==>
          t[i].call != t[j].call)
    && (forall i :: 0 <= i < |t| && t[i].call.Watch? ==> t[i].call.gvk !in v)
  }

  lemma {:induction false} WatchesConcat(u: set<GVK>, v: set<GVK>, w: set<GVK>, s: seq<Effect>, t: seq<Effect>)
    requires WatchesAre(u, v, s) && WatchesAre(v, w, t)
    ensures WatchesAre(u, w, s + t)
  {
    forall g ensures g in w - u <==> Effect(Watch(g), true) in s + t {
      if g in w - v { assert Effect(Watch(g), true) in t; }
    }
    forall i, j | 0 <= i < j < |s + t| && (s + t)[i].call.Watch? && (s + t)[i].ok
                  && (s + t)[j].call.Watch? && (s + t)[j].ok
      ensures (s + t)[i].call != (s + t)[j].call
    {
      if i < |s| <= j {
        assert s[i] == Effect(Watch(s[i].call.gvk), true) && s[i] in s;
        assert t[j - |s|].call.gvk !in v;
      }
    }
  }

  lemma {:induction false} PlainWatches(v: set<GVK>, t: seq<Effect>)
    requires Plain(t)
    ensures WatchesAre(v, v, t)
  {
  }

  lemma {:induction false} WatchOneWatches(w: World, e: Env, index: nat, gvk: GVK)
    ensures var p := WatchOne(w, e, index, gvk); WatchesAre(w.watched, p.world.watched, p.trace)
  {
    var p := WatchOne(w, e, index, gvk);
    if index !in e.objectErrors && gvk !in w.watched {
      assert p.trace[1] == Effect(Watch(gvk), gvk !in e.watchErrors);
    }
  }

  lemma {:induction false} StageWatches(w: World, e: Env, objects: seq<GVK>, from: nat)
    requires from <= |objects|
    ensures var p := WatchStage(w, e, objects, from); WatchesAre(w.watched, p.world.watched, p.trace)
    decreases |objects| - from
  {
    if from < |objects| {
      WatchOneWatches(w, e, from, objects[from]);
      var p := WatchOne(w, e, from, objects[from]);
      if p.Go? {
        StageWatches(p.world, e, objects, from + 1);
        var q := WatchStage(p.world, e, objects, from + 1);
        WatchesConcat(w.watched, p.world.watched, q.world.watched, p.trace, q.trace);
      }
    }
  }

  lemma {:induction false} ConcludeWatchesAre(w: World, e: Env)
    requires w.release.Some?
    ensures var p := Conclude(w, e); WatchesAre(w.watched, p.world.watched, p.trace)
  {
    var p := ManifestStage(w, e);
    var head := [Effect(ParseManifest, e.parse(w.release.value.manifest).Success?)];
    PlainWatches(w.watched, head);
    match e.parse(w.release.value.manifest) {
      case Failure(_) =>
      case Success(objects) =>
        StageWatches(w, e, objects, 0);
        WatchesConcat(w.watched, w.watched, p.world.watched, head, WatchStage(w, e, objects, 0).trace);
        if p.Go? {
          var q := ConditionStage(p.world, e);
          PlainWatches(p.world.watched, q.trace);
          WatchesConcat(w.watched, p.world.watched, q.world.watched, p.trace, q.trace);
        }
    }
  }

  lemma {:induction false} InnerWatches(w: World, e: Env)
    ensures WatchesAre(w.watched, Inner(w, e).world.watched, Inner(w, e).trace)
  {
    ContentIsPlain(w, e);
    ContentKeepsRelease(w, e);
    var p := Content(w, e);
    PlainWatches(w.watched, p.trace);
    if p.Go? {
      DeployIsPlain(p.world, e);
      DeployReports(p.world, e);
      PreflightWatched(p.world, e, Classify(p.world.release, e).0, 0);
      var q := Deploy(p.world, e);
      PlainWatches(w.watched, q.trace);
      WatchesConcat(w.watched, w.watched, w.watched, p.trace, q.trace);
      if q.Go? {
        var r := Conclude(q.world, e);
        ConcludeWatchesAre(q.world, e);
        WatchesConcat(w.watched, w.watched, r.world.watched, p.trace + q.trace, r.trace);
      }
    }
  }

  /** A reconcile's Watch calls and the watched set agree: a kind is new exactly when one call, and no
      more than one, watched it, and no kind that was watched before is watched again. */
  lemma {:induction false} WatchedIsCalled(w: World, e: Env)
    ensures WatchesAre(w.watched, Outer(w, e).world.watched, Outer(w, e).trace)
  {
    InnerWatches(w, e);
    var inner := Inner(w, e);
    var writes := WriteTrace(w, inner.world, e);
    assert WatchesAre(inner.world.watched, inner.world.watched, writes);
    WatchesConcat(w.watched, inner.world.watched, inner.world.watched, inner.trace, writes);
  }

  /** Every kind of the release manifest is watched. */
  ghost predicate AllWatched(w: World, e: Env) {
    && w.release.Some? && e.parse(w.release.value.manifest).Success?
    && forall gvk :: gvk in e.parse(w.release.value.manifest).value ==> gvk in w.watched
  }

  lemma {:induction false} ConcludeWatches(w: World, e: Env)
    requires w.release.Some?
    ensures w.watched <= Conclude(w, e).world.watched
    ensures ManifestFails(w.watched, e, w.release.value.manifest) || AllWatched(Conclude(w, e).world, e)
  {
    match e.parse(w.release.value.manifest) {
      case Failure(_) =>
      case Success(objects) =>
        WatchGrows(w, e, objects, 0);
        WatchReports(w, e, objects, 0);
        WatchErrors(w, e, objects, 0);
    }
  }

  /** A reconcile drops no watch, and turns Installed True only with every kind of the release
      manifest watched. */
  lemma {:induction false} InstalledMeansWatched(w: World, e: Env)
    ensures w.watched <= Inner(w, e).world.watched
    ensures !IsInstalled(w.status) && IsInstalled(Inner(w, e).world.status) ==> AllWatched(Inner(w, e).world, e)
  {
    ContentReports(w, e);
    ContentKeepsRelease(w, e);
    var p := Content(w, e);
    if p.Go? {
      DeployReports(p.world, e);
      PreflightWatched(p.world, e, Classify(p.world.release, e).0, 0);
      var q := Deploy(p.world, e);
      if q.Go? {
        ConcludeReports(q.world, e);
        ConcludeWatches(q.world, e);
      }
    }
  }
}
