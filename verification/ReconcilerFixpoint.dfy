/** With bundle content and rendering fixed, success is a fixed point of reconciling. */
module ReconcilerFixpoint {
  import opened Text
  import opened Conditions
  import opened Reconciler
  import opened ReconcilerRuns
  import ReconcilerStatus

  /** What the environment keeps answering where it answers at all. */
  datatype Desired = Desired(generation: nat, finalizers: seq<string>, source: string, message: string, url: string,
                             manifest: Manifest, objects: Result<seq<GVK>, string>, healthGate: bool)

  /** The answers of e agree with d.  Anything may still fail. */
  ghost predicate Follows(e: Env, d: Desired) {
    && e.generation == d.generation && e.healthGate == d.healthGate
    && e.finalize.finalizers == d.finalizers
    && (e.unpack.UnpackResult? && e.unpack.state == STATE_UNPACKED ==>
       e.unpack.resolvedSource == Some(d.source) && e.unpack.message == d.message)
    && (e.url.Success? ==> e.url.value == d.url)
    && (e.dryRun.Success? ==> e.dryRun.value == d.manifest)
    && (e.action.Done? ==> e.action.manifest == d.manifest)
    && e.parse(d.manifest) == d.objects
  }

  /** A reconcile that got through to the end. */
  ghost predicate Succeeds(w: World, e: Env) {
    && e.unpack.UnpackResult? && e.unpack.state == STATE_UNPACKED
    && Inner(w, e) == Stop(Inner(w, e).world, Inner(w, e).trace, None)
  }

  // ---- the release ----

  ghost predicate ReleaseSettled(r: Option<Release>, d: Desired) {
    r.Some? && r.value.manifest == d.manifest && !r.value.status.Failed? && !r.value.status.Superseded?
  }

  lemma {:induction false} DeployRelease(w: World, e: Env, d: Desired)
    requires Follows(e, d)
    ensures ReleaseSettled(w.release, d) ==> Deploy(w, e).world.release == w.release
    ensures Deploy(w, e).Go? ==> ReleaseSettled(Deploy(w, e).world.release, d)
  {
    PreflightWorld(w, e, Classify(w.release, e).0, 0);
  }

  lemma {:induction false} PreflightWorld(w: World, e: Env, state: ReleaseState, from: nat)
    requires from <= |e.preflights|
    ensures PreflightStage(w, e, state, from).world.release == w.release
    decreases |e.preflights| - from
  {
    if from < |e.preflights| { PreflightWorld(w, e, state, from + 1); }
  }

  lemma {:induction false} WatchRelease(w: World, e: Env, objects: seq<GVK>, from: nat)
    requires from <= |objects|
    ensures WatchStage(w, e, objects, from).world.release == w.release
    decreases |objects| - from
  {
    if from < |objects| {
      WatchRelease(w, e, objects, from + 1);
      WatchRelease(w.(watched := w.watched + {objects[from]}), e, objects, from + 1);
    }
  }

  lemma {:induction false} ConcludeRelease(w: World, e: Env)
    requires w.release.Some?
    ensures Conclude(w, e).world.release == w.release
  {
    if e.parse(w.release.value.manifest).Success? { WatchRelease(w, e, e.parse(w.release.value.manifest).value, 0); }
  }

  /** Once the release is settled no reconcile, successful or not, changes it or issues an
      install or an upgrade. */
  lemma {:induction false} SettledReleaseStays(w: World, e: Env, d: Desired)
    requires Follows(e, d) && ReleaseSettled(w.release, d)
    ensures Outer(w, e).world.release == w.release
    ensures ChangesNothing(Outer(w, e).trace)
    ensures Classify(w.release, e).0.Unchanged? || Classify(w.release, e).0.StateError?
  {
    ContentKeepsRelease(w, e);
    var p := Content(w, e);
    if p.Go? {
      DeployRelease(p.world, e, d);
      var q := Deploy(p.world, e);
      if q.Go? { ConcludeRelease(q.world, e); }
    }
    forall i | 0 <= i < |Outer(w, e).trace|
      ensures !Outer(w, e).trace[i].call.Install? && !Outer(w, e).trace[i].call.Upgrade?
    {
      if Acting(Outer(w, e).trace[i].call) {
        ActsOnceWhenReady(w, e, i);
        assert Classify(w.release, e).0.Unchanged?;
      }
    }
  }

  /** Every call of a run, in order. */
  function RunTrace(w: World, es: seq<Env>): seq<Effect>
    decreases |es|
  {
    if es == [] then [] else Outer(w, es[0]).trace + RunTrace(Outer(w, es[0]).world, es[1..])
  }

  ghost predicate ChangesNothing(t: seq<Effect>) {
    forall i :: 0 <= i < |t| ==> !t[i].call.Install? && !t[i].call.Upgrade?
  }

  lemma {:induction false} SettledReleaseStaysThroughRuns(w: World, es: seq<Env>, d: Desired)
    requires ReleaseSettled(w.release, d) && forall i :: 0 <= i < |es| ==> Follows(es[i], d)
    ensures Run(w, es).release == w.release && ChangesNothing(RunTrace(w, es))
    decreases |es|
  {
    if es != [] {
      SettledReleaseStays(w, es[0], d);
      SettledReleaseStaysThroughRuns(Outer(w, es[0]).world, es[1..], d);
    }
  }

  /** After the first success, for as long as content and rendering stay, the release keeps the
      desired manifest and no call of any further run, failing or not, installs or upgrades. */
  lemma {:induction false} SuccessFreezesRelease(w: World, e: Env, es: seq<Env>, d: Desired)
    requires Follows(e, d) && Succeeds(w, e) && forall i :: 0 <= i < |es| ==> Follows(es[i], d)
    ensures var w1 := Outer(w, e).world;
            ReleaseSettled(w1.release, d) && Run(w1, es).release == w1.release && ChangesNothing(RunTrace(w1, es))
  {
    SuccessSettlesRelease(w, e, d);
    SettledReleaseStaysThroughRuns(Outer(w, e).world, es, d);
  }

  lemma {:induction false} SuccessSettlesRelease(w: World, e: Env, d: Desired)
    requires Follows(e, d) && Succeeds(w, e)
    ensures ReleaseSettled(Outer(w, e).world.release, d)
  {
    SuccessSettles(w, e, d);
  }

  // ---- the whole world ----

  /** The world a success leaves. */
  ghost predicate Settled(w: World, d: Desired) {
    && StatusSettled(w.status, w.name, d)
    && ReleaseSettled(w.release, d)
    && d.objects.Success?
    && forall i :: 0 <= i < |d.objects.value| ==> d.objects.value[i] in w.watched
  }

  ghost predicate UnpackSettled(s: Status, d: Desired) {
    && s.observedGeneration == d.generation && s.resolvedSource == Some(d.source) && s.contentURL == d.url
    && Says(s.conditions, UNPACKED, Yes, "UnpackSuccessful", d.message)
  }

  ghost predicate StatusSettled(s: Status, name: string, d: Desired) {
    && UnpackSettled(s, d)
    && Says(s.conditions, "Installed", Yes, "InstallationSucceeded", "Instantiated bundle " + name + " successfully")
    && (d.healthGate ==> Says(s.conditions, "Healthy", Yes, "Healthy", "BundleDeployment is healthy"))
  }

  lemma {:induction false} ContentSettles(w: World, e: Env, d: Desired)
    requires Follows(e, d) && Content(w, e).Go?
    ensures UnpackSettled(Content(w, e).world.status, d)
    ensures Content(w, e).world == w.(status := Content(w, e).world.status, finalizers := d.finalizers)
    ensures UnpackSettled(w.status, d) ==> Content(w, e).world.status == w.status
  {
    var c := Condition(UNPACKED, Yes, "UnpackSuccessful", d.message, e.now);
    FindSet(w.status.conditions, c, UNPACKED);
    if UnpackSettled(w.status, d) { SetAgain(w.status.conditions, c); }
  }

  lemma {:induction false} ConditionsSettle(w: World, e: Env, d: Desired)
    requires Follows(e, d) && UnpackSettled(w.status, d) && ConditionStage(w, e).error.None?
    ensures StatusSettled(ConditionStage(w, e).world.status, w.name, d)
    ensures ConditionStage(w, e).world == w.(status := ConditionStage(w, e).world.status)
    ensures StatusSettled(w.status, w.name, d) ==> ConditionStage(w, e).world == w
  {
    ReconcilerStatus.KindsApart();
    var c := Condition(INSTALLED, Yes, "InstallationSucceeded", InstalledMessage(w.name), e.now);
    var h := Condition(HEALTHY, Yes, "Healthy", HEALTHY_MESSAGE, e.now);
    var cs := Set(w.status.conditions, c);
    FindSet(w.status.conditions, c, UNPACKED);
    FindSet(cs, h, UNPACKED);
    FindSet(cs, h, INSTALLED);
    if StatusSettled(w.status, w.name, d) {
      SetAgain(w.status.conditions, c);
      if d.healthGate { SetAgain(w.status.conditions, h); }
    }
  }

  lemma {:induction false} WatchNothing(w: World, e: Env, objects: seq<GVK>, from: nat)
    requires from <= |objects| && WatchStage(w, e, objects, from).Go?
    requires forall i :: 0 <= i < |objects| ==> objects[i] in w.watched
    ensures WatchStage(w, e, objects, from).world == w
    decreases |objects| - from
  {
    if from < |objects| { WatchNothing(w, e, objects, from + 1); }
  }

  lemma {:induction false} ConcludeSettles(w: World, e: Env, d: Desired)
    requires Follows(e, d) && ReleaseSettled(w.release, d) && UnpackSettled(w.status, d)
    requires Conclude(w, e).Stop? && Conclude(w, e).error.None?
    ensures Settled(Conclude(w, e).world, d)
    ensures Conclude(w, e).world == w.(status := Conclude(w, e).world.status, watched := Conclude(w, e).world.watched)
    ensures Settled(w, d) ==> Conclude(w, e).world == w
  {
    var p := ManifestStage(w, e);
    var objects := d.objects;
    if objects.Success? {
      WatchErrors(w, e, objects.value, 0);
      ConditionsSettle(p.world, e, d);
      if Settled(w, d) { WatchNothing(w, e, objects.value, 0); }
    }
  }

  lemma {:induction false} SuccessStages(w: World, e: Env)
    requires Succeeds(w, e)
    ensures var p := Content(w, e);
            && p.Go? && Deploy(p.world, e).Go?
            && Conclude(Deploy(p.world, e).world, e).Stop? && Conclude(Deploy(p.world, e).world, e).error.None?
            && Inner(w, e).world == Conclude(Deploy(p.world, e).world, e).world
            && Inner(w, e).trace == p.trace + Deploy(p.world, e).trace + Conclude(Deploy(p.world, e).world, e).trace
  {
    var p := Content(w, e);
    if p.Go? {
      PreflightErrors(p.world, e, Classify(p.world.release, e).0, 0);
    }
  }

  lemma {:induction false} DeployGo(w: World, e: Env, d: Desired)
    requires Follows(e, d) && Deploy(w, e).Go?
    ensures ReleaseSettled(Deploy(w, e).world.release, d)
    ensures Deploy(w, e).world == w.(release := Deploy(w, e).world.release)
    ensures ReleaseSettled(w.release, d) ==> Deploy(w, e).world == w
  {
    DeployRelease(w, e, d);
  }

  /** A successful reconcile, from any world, settles it: the release manifest is the desired one
      and neither failed nor superseded, every kind in it is watched, and the status says so. */
  lemma {:induction false} SuccessSettles(w: World, e: Env, d: Desired)
    requires Follows(e, d) && Succeeds(w, e)
    ensures Settled(Inner(w, e).world, d) && Inner(w, e).world.finalizers == d.finalizers
  {
    SuccessStages(w, e);
    ContentSettles(w, e, d);
    var p := Content(w, e);
    DeployGo(p.world, e, d);
    ConcludeSettles(Deploy(p.world, e).world, e, d);
  }

  /** From a settled world a successful reconcile changes nothing but, at most, the finalizers. */
  lemma {:induction false} SettledIsFixed(w: World, e: Env, d: Desired)
    requires Follows(e, d) && Succeeds(w, e) && Settled(w, d)
    ensures Classify(w.release, e).0.Unchanged?
    ensures Inner(w, e).world == w.(finalizers := d.finalizers)
  {
    SuccessStages(w, e);
    ContentSettles(w, e, d);
    var p := Content(w, e);
    DeployGo(p.world, e, d);
    assert Settled(p.world, d);
    ConcludeSettles(p.world, e, d);
    ContentKeepsRelease(w, e);
  }

  // ---- what is written ----

  /** A reconcile that got through to the end and whose writes were not refused. */
  ghost predicate Clean(w: World, e: Env, d: Desired) {
    Follows(e, d) && Succeeds(w, e) && Outer(w, e).error.None?
  }

  ghost predicate CleanRun(w: World, es: seq<Env>, d: Desired)
    decreases |es|
  {
    es != [] ==> Clean(w, es[0], d) && CleanRun(Outer(w, es[0]).world, es[1..], d)
  }

  predicate IsWrite(c: Call) {
    c.WriteStatus? || c.WriteFinalizers?
  }

  /** No write and no watch. */
  ghost predicate Plain(t: seq<Effect>) {
    forall i :: 0 <= i < |t| ==> !IsWrite(t[i].call) && !t[i].call.Watch?
  }

  ghost predicate WritesNothing(t: seq<Effect>) {
    forall i :: 0 <= i < |t| ==> !IsWrite(t[i].call)
  }

  function FinalizerWrites(t: seq<Effect>): nat {
    if t == [] then 0 else (if t[0].call.WriteFinalizers? then 1 else 0) + FinalizerWrites(t[1..])
  }

  ghost predicate NoStatusWrite(t: seq<Effect>) {
    forall i :: 0 <= i < |t| ==> !t[i].call.WriteStatus?
  }

  lemma {:induction false} FinalizerWritesConcat(a: seq<Effect>, b: seq<Effect>)
    ensures FinalizerWrites(a + b) == FinalizerWrites(a) + FinalizerWrites(b)
  {
    if a == [] {
      assert a + b == b;
    } else {
      assert (a + b)[1..] == a[1..] + b;
      FinalizerWritesConcat(a[1..], b);
    }
  }

  lemma {:induction false} NoFinalizerWrites(t: seq<Effect>)
    requires WritesNothing(t)
    ensures FinalizerWrites(t) == 0
  {
    if t != [] {
      assert !IsWrite(t[0].call);
      NoFinalizerWrites(t[1..]);
    }
  }

  lemma {:induction false} PreflightIsPlain(w: World, e: Env, state: ReleaseState, from: nat)
    requires from <= |e.preflights|
    ensures Plain(PreflightStage(w, e, state, from).trace)
    decreases |e.preflights| - from
  {
    if from < |e.preflights| { PreflightIsPlain(w, e, state, from + 1); }
  }

  lemma {:induction false} WatchWrites(w: World, e: Env, objects: seq<GVK>, from: nat)
    requires from <= |objects|
    ensures WritesNothing(WatchStage(w, e, objects, from).trace)
    decreases |objects| - from
  {
    if from < |objects| { WatchWrites(WatchOne(w, e, from, objects[from]).world, e, objects, from + 1); }
  }

  lemma {:induction false} ContentIsPlain(w: World, e: Env)
    ensures Plain(Content(w, e).trace)
  {
    var p := FinalizeStage(w, e);
    UnpackIsPlain(p.world, e);
    LoadIsPlain(UnpackStage(p.world, e).world, e);
  }

  lemma {:induction false} UnpackIsPlain(w: World, e: Env)
    ensures Plain(UnpackStage(w, e).trace)
  {
  }

  lemma {:induction false} LoadIsPlain(w: World, e: Env)
    ensures Plain(LoadStage(w, e).trace)
  {
  }

  lemma {:induction false} DeployIsPlain(w: World, e: Env)
    ensures Plain(Deploy(w, e).trace)
  {
    PreflightIsPlain(w, e, Classify(w.release, e).0, 0);
  }

  lemma {:induction false} ConcludeWrites(w: World, e: Env)
    requires w.release.Some?
    ensures WritesNothing(Conclude(w, e).trace)
  {
    if e.parse(w.release.value.manifest).Success? {
      WatchWrites(w, e, e.parse(w.release.value.manifest).value, 0);
    }
  }

  /** The inner reconcile writes nothing back. */
  lemma {:induction false} InnerWrites(w: World, e: Env)
    ensures WritesNothing(Inner(w, e).trace)
  {
    ContentIsPlain(w, e);
    var p := Content(w, e);
    if p.Go? {
      DeployIsPlain(p.world, e);
      var q := Deploy(p.world, e);
      if q.Go? { ConcludeWrites(q.world, e); }
    }
  }

  lemma {:induction false} SettledStep(w: World, e: Env, d: Desired)
    requires Settled(w, d) && Clean(w, e, d)
    ensures Outer(w, e).world == w.(finalizers := d.finalizers)
    ensures NoStatusWrite(Outer(w, e).trace)
    ensures FinalizerWrites(Outer(w, e).trace) == if w.finalizers == d.finalizers then 0 else 1
  {
    SettledIsFixed(w, e, d);
    InnerWrites(w, e);
    NoFinalizerWrites(Inner(w, e).trace);
    var writes := WriteTrace(w, Inner(w, e).world, e);
    FinalizerWritesConcat(Inner(w, e).trace, writes);
    assert writes == if w.finalizers == d.finalizers then [] else [Effect(WriteFinalizers, true)];
  }

  lemma {:induction false} SettledRun(w: World, es: seq<Env>, d: Desired)
    requires Settled(w, d) && CleanRun(w, es, d)
    ensures Run(w, es) == if es == [] then w else w.(finalizers := d.finalizers)
    ensures NoStatusWrite(RunTrace(w, es))
    ensures FinalizerWrites(RunTrace(w, es)) == if es == [] || w.finalizers == d.finalizers then 0 else 1
    decreases |es|
  {
    if es != [] {
      var w1 := Outer(w, es[0]).world;
      SettledStep(w, es[0], d);
      SettledRun(w1, es[1..], d);
      FinalizerWritesConcat(Outer(w, es[0]).trace, RunTrace(w1, es[1..]));
    }
  }

  /** Success is a fixed point.  From any world, after the first clean success, however many clean
      successes follow: the world changes in its finalizers at most, the status is never written
      again, and the finalizers are written once if the first success did not leave them right
      and otherwise never. */
  lemma {:induction false} CleanSuccessesWriteAtMostOnce(w: World, e: Env, es: seq<Env>, d: Desired)
    requires Clean(w, e, d) && CleanRun(Outer(w, e).world, es, d)
    ensures var w1 := Outer(w, e).world;
            && Run(w1, es) == (if es == [] then w1 else w1.(finalizers := d.finalizers))
            && NoStatusWrite(RunTrace(w1, es))
            && FinalizerWrites(RunTrace(w1, es)) == if es == [] || w1.finalizers == d.finalizers then 0 else 1
  {
    CleanSettles(w, e, d);
    SettledRun(Outer(w, e).world, es, d);
  }

  lemma {:induction false} CleanSettles(w: World, e: Env, d: Desired)
    requires Clean(w, e, d)
    ensures Settled(Outer(w, e).world, d)
  {
    SuccessSettles(w, e, d);
    assert Outer(w, e).world == Inner(w, e).world.(finalizers := Outer(w, e).world.finalizers);
  }

  // ---- the finalizers ----

  /** What the API server answers to a status write: the object as stored, whose finalizers a
      status write does not change.  Where there are none the field is absent from the answer and
      the copy it is decoded into keeps its own. */
  ghost predicate AnswersStored(w: World, e: Env) {
    e.statusWrite.Written? ==>
      e.statusWrite.finalizers == if w.finalizers == [] then e.finalize.finalizers else w.finalizers
  }

  /** A success leaves the status as it was exactly when it said all this already. */
  lemma {:induction false} StatusUnchanged(w: World, e: Env, d: Desired)
    requires Follows(e, d) && Succeeds(w, e)
    ensures Inner(w, e).world.status == w.status <==> StatusSettled(w.status, w.name, d)
  {
    SuccessSettles(w, e, d);
    SuccessStages(w, e);
    ContentSettles(w, e, d);
    ContentKeepsRelease(w, e);
    var p := Content(w, e);
    DeployGo(p.world, e, d);
    var q := Deploy(p.world, e);
    ConcludeSettles(q.world, e, d);
    assert Inner(w, e).world.name == w.name;
    if StatusSettled(w.status, w.name, d) { StatusStays(q.world, e, d); }
  }

  lemma {:induction false} StatusStays(w: World, e: Env, d: Desired)
    requires Follows(e, d) && ReleaseSettled(w.release, d) && StatusSettled(w.status, w.name, d)
    requires Conclude(w, e).Stop? && Conclude(w, e).error.None?
    ensures Conclude(w, e).world.status == w.status
  {
    var p := ManifestStage(w, e);
    if d.objects.Success? {
      WatchErrors(w, e, d.objects.value, 0);
      ConditionsSettle(p.world, e, d);
    }
  }

  /** Whether a clean success has its finalizers: unless the status and the finalizers changed
      together and the answer to the status write brought other finalizers back. */
  lemma {:induction false} FinalizersAfterSuccess(w: World, e: Env, d: Desired)
    requires Clean(w, e, d)
    ensures Outer(w, e).world.finalizers == d.finalizers <==>
            || w.finalizers == d.finalizers
            || StatusSettled(w.status, w.name, d)
            || (e.statusWrite.Written? && e.statusWrite.finalizers == d.finalizers)
    ensures AnswersStored(w, e) ==>
              (Outer(w, e).world.finalizers == d.finalizers <==>
               w.finalizers == d.finalizers || w.finalizers == [] || StatusSettled(w.status, w.name, d))
  {
    SuccessSettles(w, e, d);
    StatusUnchanged(w, e, d);
  }

  // ---- an example ----

  /** Everything outside answers, with an empty manifest and no finalizers. */
  function Smooth(gate: bool, answered: seq<string>): Env {
    Env(1, 1, Finalized([], None), UnpackResult(STATE_UNPACKED, Some("source"), "unpacked"),
        None, Success("url"), None, None, None, None, Success(""), [], Done(""), _ => Success([]),
        map[], map[], gate, None, Written(answered), true)
  }

  function SmoothDesired(gate: bool): Desired {
    Desired(1, [], "source", "unpacked", "url", "", Success([]), gate)
  }

  lemma {:induction false} SmoothIsClean(w: World, gate: bool, answered: seq<string>)
    requires w.release.None?
    ensures Clean(w, Smooth(gate, answered), SmoothDesired(gate))
  {
    var e := Smooth(gate, answered);
    var p := Content(w, e);
    assert p.Go?;
    ContentKeepsRelease(w, e);
    var q := Deploy(p.world, e);
    assert q.Go? && q.world.release == Some(Release("", Deployed));
    assert Conclude(q.world, e).Stop? && Conclude(q.world, e).error.None?;
  }

  /** A first success that is to drop a finalizer, and does not. */
  lemma {:induction false} LostFinalizersExist()
    ensures exists w: World, e: Env, d: Desired ::
      Clean(w, e, d) && AnswersStored(w, e) && Outer(w, e).world.finalizers != d.finalizers
  {
    var w := World("bundle", EMPTY_STATUS, ["cleanup"], None, {});
    var e, d := Smooth(false, ["cleanup"]), SmoothDesired(false);
    SmoothIsClean(w, false, ["cleanup"]);
    assert AnswersStored(w, e) && !StatusSettled(w.status, w.name, d);
    FinalizersAfterSuccess(w, e, d);
  }
}
