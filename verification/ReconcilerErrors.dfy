/** What a reconcile returns: the first outcome that failed, in the order of the calls, and whether the
    writes back went through. */
module ReconcilerErrors {
  import opened Text
  import opened Conditions
  import opened Reconciler
  import opened ReconcilerRuns
  import opened ReconcilerReports
  import ReconcilerFixpoint
  import ReconcilerStatus

  // ---- the first failure, as a table ----

  /** The unpack has not finished yet, which is no error. */
  predicate Waits(e: Env) {
    && e.finalize.error.None? && e.unpack.UnpackResult?
    && (e.unpack.state == "Pending" || e.unpack.state == "Unpacking")
  }

  function First(a: Option<string>, b: Option<string>): Option<string> {
    if a.Some? then a else b
  }

  function ErrorOf<T>(r: Result<T, string>): Option<string> {
    match r case Success(_) => None case Failure(m) => Some(m)
  }

  /** A message with what was being done in front. */
  function While(doing: string, m: Option<string>): Option<string> {
    match m case None => None case Some(text) => Some(doing + text)
  }

  function UnpackFailure(e: Env): Option<string> {
    match e.unpack
    case UnpackError(m) => Some("source bundle content: " + m)
    case UnpackResult(state, _, _) => if state == "Unpacked" then None else Some("unknown unpack state " + state)
  }

  function ContentFailure(e: Env): Option<string> {
    First(UnpackFailure(e),
          First(While("persist bundle content: ", e.storeError),
                First(While("get content URL: ", ErrorOf(e.url)),
                      First(e.loadError, First(e.handleError, e.clientError)))))
  }

  /** Preflights are run for an install or an upgrade only. */
  function PreflightFailure(w: World, e: Env): Option<string> {
    if Changes(w, e) then FirstOf(e.preflights) else None
  }

  function FirstOf(errors: seq<Option<string>>): Option<string> {
    if errors == [] then None else First(errors[0], FirstOf(errors[1..]))
  }

  /** There is no release, it failed or was superseded, or its manifest is not the desired one. */
  predicate Changes(w: World, e: Env) {
    w.release == None || w.release.value.status in [Failed, Superseded]
    || e.dryRun != Success(w.release.value.manifest)
  }

  function ActionFailure(e: Env): Option<string> {
    match e.action case Done(_) => None case ActionError(m, _) => Some(m)
  }

  function DeployFailure(w: World, e: Env): Option<string> {
    First(e.getError, First(ErrorOf(e.dryRun), First(PreflightFailure(w, e), ActionFailure(e))))
  }

  /** An object that cannot be decoded, or whose kind is not watched yet and cannot be. */
  function ObjectFailure(watched: set<GVK>, e: Env, objects: seq<GVK>, i: nat): Option<string>
    requires i < |objects|
  {
    if i in e.objectErrors then Some(e.objectErrors[i])
    else if objects[i] !in watched && objects[i] in e.watchErrors then Some(e.watchErrors[objects[i]])
    else None
  }

  function WatchFailure(watched: set<GVK>, e: Env, objects: seq<GVK>, from: nat): Option<string>
    requires from <= |objects|
    decreases |objects| - from
  {
    if from == |objects| then None
    else First(ObjectFailure(watched, e, objects, from), WatchFailure(watched, e, objects, from + 1))
  }

  /** The manifest that is deployed when nothing up to the action failed. */
  function Deployed(w: World, e: Env): Manifest {
    if !Changes(w, e) || e.action.ActionError? then (if w.release.Some? then w.release.value.manifest else "")
    else e.action.manifest
  }

  function ManifestFailure(w: World, e: Env): Option<string> {
    match e.parse(Deployed(w, e))
    case Failure(m) => Some(m)
    case Success(objects) => WatchFailure(w.watched, e, objects, 0)
  }

  function HealthFailure(e: Env): Option<string> {
    if e.healthGate then e.healthError else None
  }

  /** The message of the first outcome that failed. */
  function FailureOf(w: World, e: Env): Option<string> {
    if Waits(e) then None
    else First(e.finalize.error,
               First(ContentFailure(e),
                     First(DeployFailure(w, e), First(ManifestFailure(w, e), HealthFailure(e)))))
  }

  function AsError(m: Option<string>): Option<Error> {
    match m case None => None case Some(text) => Some(External(text))
  }

  /** Everything up to the install, upgrade or reconcile of the release succeeded. */
  predicate ReachesAction(w: World, e: Env) {
    && !Waits(e) && First(e.finalize.error, ContentFailure(e)) == None
    && First(e.getError, First(ErrorOf(e.dryRun), PreflightFailure(w, e))) == None
  }

  /** The release after a reconcile that got to the action: as it was where nothing changes, else the
      deployed manifest or what the failure left. */
  function ReleaseAfter(w: World, e: Env): Option<Release> {
    if !Changes(w, e) then w.release
    else match e.action
      case Done(manifest) => Some(Release(manifest, ReleaseStatus.Deployed))
      case ActionError(_, leaves) => leaves
  }

  // ---- the stages against the table ----

  function ErrorIn(p: Progress): Option<Error> {
    if p.Stop? then p.error else None
  }

  lemma {:induction false} ContentFails(w: World, e: Env)
    ensures var p := Content(w, e);
            && (p.Go? <==> !Waits(e) && First(e.finalize.error, ContentFailure(e)) == None)
            && ErrorIn(p) == if Waits(e) then None else AsError(First(e.finalize.error, ContentFailure(e)))
  {
    assert STATE_PENDING[0] == 'P' && STATE_UNPACKING[6] == 'i' && STATE_UNPACKED[6] == 'e';
    var p := FinalizeStage(w, e);
    if p.Go? {
      UnpackFails(p.world, e);
      var q := UnpackStage(p.world, e);
      if q.Go? { LoadFails(q.world, e); }
    }
  }

  lemma {:induction false} UnpackFails(w: World, e: Env)
    requires e.finalize.error.None?
    ensures var p := UnpackStage(w, e);
            var failure := First(UnpackFailure(e), First(While("persist bundle content: ", e.storeError),
                                                         While("get content URL: ", ErrorOf(e.url))));
            && (p.Go? <==> !Waits(e) && failure == None)
            && ErrorIn(p) == if Waits(e) then None else AsError(failure)
  {
    assert STATE_UNPACKING[6] == 'i' && STATE_UNPACKED[6] == 'e';
  }

  lemma {:induction false} LoadFails(w: World, e: Env)
    ensures var p := LoadStage(w, e);
            var failure := First(e.loadError, First(e.handleError, e.clientError));
            (p.Go? <==> failure == None) && ErrorIn(p) == AsError(failure)
  {
  }

  lemma {:induction false} PreflightFailsWith(w: World, e: Env, state: ReleaseState, from: nat)
    requires from <= |e.preflights|
    ensures var p := PreflightStage(w, e, state, from);
            var failure := if state.NeedsInstall? || state.NeedsUpgrade? then FirstOf(e.preflights[from..]) else None;
            (p.Go? <==> failure == None) && ErrorIn(p) == AsError(failure) && (p.Go? ==> p.world == w)
    decreases |e.preflights| - from
  {
    if from < |e.preflights| {
      PreflightFailsWith(w, e, state, from + 1);
      assert e.preflights[from..][1..] == e.preflights[from + 1..];
    }
  }

  lemma {:induction false} DeployFailsWith(w: World, e: Env)
    ensures var p := Deploy(w, e);
            && (p.Go? <==> DeployFailure(w, e) == None) && ErrorIn(p) == AsError(DeployFailure(w, e))
            && (p.Go? ==> p.world.watched == w.watched && p.world.release.value.manifest == Deployed(w, e))
            && p.world.release == if First(e.getError, First(ErrorOf(e.dryRun), PreflightFailure(w, e))) == None
                                  then ReleaseAfter(w, e) else w.release
  {
    ReconcilerFixpoint.PreflightWorld(w, e, Classify(w.release, e).0, 0);
    var state := Classify(w.release, e).0;
    PreflightFailsWith(w, e, state, 0);
    assert e.preflights[0..] == e.preflights;
  }

  lemma {:induction false} WatchFailsWith(w: World, e: Env, objects: seq<GVK>, from: nat)
    requires from <= |objects|
    ensures var p := WatchStage(w, e, objects, from);
            var failure := WatchFailure(w.watched, e, objects, from);
            (p.Go? <==> failure == None) && ErrorIn(p) == AsError(failure)
    decreases |objects| - from
  {
    if from < |objects| {
      var p := WatchOne(w, e, from, objects[from]);
      if p.Go? {
        WatchFailsWith(p.world, e, objects, from + 1);
        WatchFailureStays(w.watched, p.world.watched, e, objects, from + 1);
      }
    }
  }

  /** Watching a kind that can be watched changes nothing for the objects after it. */
  lemma {:induction false} WatchFailureStays(v: set<GVK>, w: set<GVK>, e: Env, objects: seq<GVK>, from: nat)
    requires from <= |objects| && v <= w && forall g :: g in w && g !in v ==> g !in e.watchErrors
    ensures WatchFailure(v, e, objects, from) == WatchFailure(w, e, objects, from)
    decreases |objects| - from
  {
    if from < |objects| { WatchFailureStays(v, w, e, objects, from + 1); }
  }

  lemma {:induction false} ConcludeFailsWith(w: World, e: Env)
    requires w.release.Some?
    ensures var failure := match e.parse(w.release.value.manifest)
                           case Failure(m) => Some(m)
                           case Success(objects) => First(WatchFailure(w.watched, e, objects, 0), HealthFailure(e));
            ErrorIn(Conclude(w, e)) == AsError(failure)
  {
    match e.parse(w.release.value.manifest) {
      case Failure(_) =>
      case Success(objects) => WatchFailsWith(w, e, objects, 0);
    }
  }

  /** The inner reconcile returns the first outcome that failed, and nothing else. */
  lemma {:induction false} InnerReturns(w: World, e: Env)
    ensures Inner(w, e).Stop? && Inner(w, e).error == AsError(FailureOf(w, e))
  {
    ContentFails(w, e);
    ContentKeepsRelease(w, e);
    var p := Content(w, e);
    if p.Go? {
      DeployFailsWith(p.world, e);
      var q := Deploy(p.world, e);
      if q.Go? { ConcludeFailsWith(q.world, e); }
    }
    FailedCallIsLastAndNamed(w, e);
  }

  // ---- the outer reconcile ----

  /** Every outcome a reconcile depends on is good: the bundle is loaded and rendered, the release
      deployed, its manifest watched and, with the gate on, healthy. */
  predicate Completes(w: World, e: Env) {
    && LoadedOk(e) && e.handleError.None? && !FailsAfterRendering(w, e)
    && (e.healthGate ==> e.healthError.None?)
  }

  ghost predicate WriteFailed(t: seq<Effect>) {
    exists i :: 0 <= i < |t| && (t[i].call.WriteStatus? || t[i].call.WriteFinalizers?) && !t[i].ok
  }

  /** A reconcile returns no error exactly when it waits for its unpack or completes, and no write it
      made was refused.  Where none was, the error is the message of the first outcome that failed;
      where one was, it comes with that error. */
  lemma {:induction false} ReconcileReturns(w: World, e: Env)
    ensures var o := Outer(w, e);
            && (o.error == None <==> (Waits(e) || Completes(w, e)) && !WriteFailed(o.trace))
            && (!WriteFailed(o.trace) ==> o.error == AsError(FailureOf(w, e)))
            && (WriteFailed(o.trace) ==> o.error == Some(WriteRefused(AsError(FailureOf(w, e)))))
  {
    InnerReturns(w, e);
    CompletesIff(w, e);
    ReconcilerFixpoint.InnerWrites(w, e);
    WriteFailedAfter(Inner(w, e).trace, WriteTrace(w, Inner(w, e).world, e));
    OuterReturns(w, e);
  }

  lemma {:induction false} WriteFailedAfter(t: seq<Effect>, writes: seq<Effect>)
    requires ReconcilerFixpoint.WritesNothing(t)
    ensures WriteFailed(t + writes) <==> WriteFailed(writes)
  {
    if i :| 0 <= i < |t + writes| && ReconcilerFixpoint.IsWrite((t + writes)[i].call) && !(t + writes)[i].ok {
      assert writes[i - |t|] == (t + writes)[i];
    }
    if i :| 0 <= i < |writes| && ReconcilerFixpoint.IsWrite(writes[i].call) && !writes[i].ok {
      assert (t + writes)[|t| + i] == writes[i];
    }
  }

  lemma {:induction false} OuterReturns(w: World, e: Env)
    ensures var writes := WriteTrace(w, Inner(w, e).world, e);
            Outer(w, e).error
            == if WriteFailed(writes) then Some(WriteRefused(ErrorIn(Inner(w, e)))) else ErrorIn(Inner(w, e))
  {
    var v := Inner(w, e).world;
    var writes := WriteTrace(w, v, e);
    if v.status != w.status {
      assert writes[0] == Effect(WriteStatus, e.statusWrite.Written?);
    }
    if v.finalizers != w.finalizers && !(v.status != w.status && e.statusWrite.Refused?) {
      assert writes[|writes| - 1] == Effect(WriteFinalizers, e.finalizerWriteOk);
    }
  }

  lemma {:induction false} CompletesIff(w: World, e: Env)
    ensures FailureOf(w, e) == None <==> Waits(e) || Completes(w, e)
  {
    InnerReturns(w, e);
    ContentReports(w, e);
    ContentKeepsRelease(w, e);
    ContentFails(w, e);
    var p := Content(w, e);
    if p.Go? {
      DeployReports(p.world, e);
      DeployFailsWith(p.world, e);
      var q := Deploy(p.world, e);
      if q.Go? { WatchFailsIff(q.world, e); }
    }
  }

  lemma {:induction false} WatchFailsIff(w: World, e: Env)
    requires w.release.Some?
    ensures ErrorIn(Conclude(w, e)) == None
            <==> !ManifestFails(w.watched, e, w.release.value.manifest) && (e.healthGate ==> e.healthError.None?)
  {
    ConcludeFailsWith(w, e);
    match e.parse(w.release.value.manifest) {
      case Failure(_) =>
      case Success(objects) =>
        WatchFailsWith(w, e, objects, 0);
        WatchReports(w, e, objects, 0);
    }
  }

  // ---- the release ----

  /** What a reconcile makes of the release, writes refused or not. */
  lemma {:induction false} ReleaseIs(w: World, e: Env)
    ensures Outer(w, e).world.release == if ReachesAction(w, e) then ReleaseAfter(w, e) else w.release
  {
    ContentFails(w, e);
    ContentKeepsRelease(w, e);
    var p := Content(w, e);
    if p.Go? {
      DeployFailsWith(p.world, e);
      var q := Deploy(p.world, e);
      if q.Go? { ReconcilerFixpoint.ConcludeRelease(q.world, e); }
    }
  }

  // ---- the writes ----

  lemma {:induction false} WritesAre(w: World, v: World, e: Env, ok: bool)
    ensures Effect(WriteStatus, ok) in WriteTrace(w, v, e) <==> v.status != w.status && ok == e.statusWrite.Written?
    ensures Effect(WriteFinalizers, ok) in WriteTrace(w, v, e)
            <==> v.finalizers != w.finalizers && (v.status == w.status || e.statusWrite.Written?)
                 && ok == e.finalizerWriteOk
  {
    var writes := WriteTrace(w, v, e);
    if v.status != w.status { assert writes[0] == Effect(WriteStatus, e.statusWrite.Written?); }
    if v.finalizers != w.finalizers && (v.status == w.status || e.statusWrite.Written?) {
      assert writes[|writes| - 1] == Effect(WriteFinalizers, e.finalizerWriteOk);
    }
  }

  /** The writes in the trace of a reconcile are those made at its end. */
  lemma {:induction false} OuterWrites(w: World, e: Env, f: Effect)
    requires f.call.WriteStatus? || f.call.WriteFinalizers?
    ensures f in Outer(w, e).trace <==> f in WriteTrace(w, Inner(w, e).world, e)
  {
    ReconcilerFixpoint.InnerWrites(w, e);
    var t := Inner(w, e).trace;
    forall i | 0 <= i < |t| ensures t[i] != f { assert !ReconcilerFixpoint.IsWrite(t[i].call); }
    assert Outer(w, e).trace == t + WriteTrace(w, Inner(w, e).world, e);
  }

  /** A status that changed is written, and stored unless the write is refused; one that did not is
      not written.  Finalizers are written only after the status is. */
  lemma {:induction false} StatusIsStored(w: World, e: Env)
    ensures var p, o := Inner(w, e), Outer(w, e);
            && o.world.release == p.world.release && o.world.watched == p.world.watched
            && ((exists ok :: Effect(WriteStatus, ok) in o.trace) <==> p.world.status != w.status)
            && (Effect(WriteStatus, false) in o.trace ==>
                  o.world == p.world.(status := w.status, finalizers := w.finalizers))
            && (Effect(WriteStatus, false) !in o.trace ==> o.world.status == p.world.status)
            && (Effect(WriteFinalizers, true) !in o.trace ==> o.world.finalizers == w.finalizers)
  {
    forall ok
      ensures Effect(WriteStatus, ok) in Outer(w, e).trace
              <==> Inner(w, e).world.status != w.status && ok == e.statusWrite.Written?
    {
      OuterWrites(w, e, Effect(WriteStatus, ok));
      WritesAre(w, Inner(w, e).world, e, ok);
    }
    OuterWrites(w, e, Effect(WriteFinalizers, true));
    WritesAre(w, Inner(w, e).world, e, true);
    assert Effect(WriteStatus, e.statusWrite.Written?) in Outer(w, e).trace <==> Inner(w, e).world.status != w.status;
  }
}
