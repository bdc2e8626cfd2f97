/** How a reconcile reports what happened: every failed call is named in the status, and when
    Healthy can be True without Installed. */
module ReconcilerReports {
  import opened Text
  import opened Conditions
  import opened Reconciler
  import opened ReconcilerRuns
  import opened ReconcilerFixpoint
  import ReconcilerStatus

  // ---- which call failed ----

  /** The condition and the reason that stand for a failed call. */
  function Blame(c: Call): (string, string) {
    match c
    case Finalize => (UNPACKED, "ProcessingFinalizerFailed")
    case Unpack => (UNPACKED, "UnpackFailed")
    case Store => (UNPACKED, "UnpackFailed")
    case ContentURL => (UNPACKED, "UnpackFailed")
    case Load => (HAS_VALID_BUNDLE, "BundleLoadFailed")
    case Render => (INSTALLED, "InstallFailed")
    case GetClient => (INSTALLED, "ErrorGettingClient")
    case GetRelease => (INSTALLED, "ErrorGettingReleaseState")
    case DryRun(_) => (INSTALLED, "ErrorGettingReleaseState")
    case Preflight(_, _) => (INSTALLED, "InstallFailed")
    case Install => (INSTALLED, "InstallFailed")
    case Upgrade => (INSTALLED, "UpgradeFailed")
    case Reconcile => (INSTALLED, "ReconcileFailed")
    case CheckHealth => (HEALTHY, "Unhealthy")
    case _ => (INSTALLED, "CreateDynamicWatchFailed")
  }

  /** A condition of this kind is not True, for this reason and with this message. */
  ghost predicate Blamed(s: Status, kind: string, reason: string, message: string) {
    var c := Find(s.conditions, kind);
    c.Some? && !c.value.status.Yes? && c.value.reason == reason && c.value.message == message
  }

  /** The status names the failed call and carries its message.  An unpack that has merely not
      finished is no error; Unpacked is then not True. */
  ghost predicate Named(s: Status, c: Call, error: Option<Error>) {
    if c.Unpack? && error.None? then Find(s.conditions, UNPACKED).Some? && !Is(s.conditions, UNPACKED, Yes)
    else error.Some? && error.value.External? && Blamed(s, Blame(c).0, Blame(c).1, error.value.message)
  }

  ghost predicate AllOk(t: seq<Effect>) {
    forall i :: 0 <= i < |t| ==> t[i].ok
  }

  /** A failed call is the last one, ends the reconcile and is named; an outside error comes with
      a failed call. */
  ghost predicate Reports(p: Progress) {
    && (p.Go? ==> AllOk(p.trace))
    && (p.Stop? && p.error.Some? && p.error.value.External? ==>
          p.trace != [] && !p.trace[|p.trace| - 1].ok)
    && (forall i :: 0 <= i < |p.trace| && !p.trace[i].ok ==>
          i == |p.trace| - 1 && p.Stop? && Named(p.world.status, p.trace[i].call, p.error))
  }

  lemma {:induction false} ReportsAfter(t: seq<Effect>, p: Progress)
    requires AllOk(t) && Reports(p)
    ensures Reports(After(t, p))
  {
    var all := t + p.trace;
    forall i | 0 <= i < |all| && !all[i].ok
      ensures i == |all| - 1 && p.Stop? && Named(p.world.status, all[i].call, p.error)
    {
      assert all[i] == p.trace[i - |t|];
    }
    assert p.trace != [] ==> all[|all| - 1] == p.trace[|p.trace| - 1];
  }

  // ---- Healthy and Installed ----

  predicate IsHealthy(s: Status) {
    Is(s.conditions, HEALTHY, Yes)
  }

  predicate IsInstalled(s: Status) {
    Is(s.conditions, INSTALLED, Yes)
  }

  ghost predicate SameTruth(s: Status, t: Status) {
    IsHealthy(s) == IsHealthy(t) && IsInstalled(s) == IsInstalled(t)
  }

  /** What the status says of unpacking is left alone. */
  ghost predicate SameUnpack(s: Status, t: Status) {
    t == s.(conditions := t.conditions) && Find(t.conditions, UNPACKED) == Find(s.conditions, UNPACKED)
  }

  /** Installed is not True any more, and Healthy still is only where it is left alone. */
  ghost predicate Cleared(s: Status, t: Status, leavesHealthy: bool) {
    !IsInstalled(t) && (IsHealthy(t) <==> IsHealthy(s) && leavesHealthy)
  }

  ghost predicate Clears(s: Status, t: Status, leavesHealthy: bool) {
    Cleared(s, t, leavesHealthy) && SameUnpack(s, t)
  }

  lemma {:induction false} MarkReports(w: World, e: Env, kind: string, status: Truth, reason: string, message: string)
    ensures var t := Mark(w, e, kind, status, reason, message).status;
            && (status != Yes ==> Blamed(t, kind, reason, message) && !Is(t.conditions, kind, Yes))
            && (kind != UNPACKED ==> SameUnpack(w.status, t))
            && (IsInstalled(t) <==> if kind == INSTALLED then status.Yes? else IsInstalled(w.status))
            && (IsHealthy(t) <==> if kind == HEALTHY then status.Yes? else IsHealthy(w.status))
  {
    var c := Condition(kind, status, reason, message, e.now);
    FindSet(w.status.conditions, c, INSTALLED);
    FindSet(w.status.conditions, c, HEALTHY);
    FindSet(w.status.conditions, c, UNPACKED);
  }

  lemma {:induction false} FalseReports(w: World, e: Env, reason: string, message: string)
    ensures var t := InstalledAndHealthyFalse(w, e, reason, message).status;
            Blamed(t, INSTALLED, reason, message) && Clears(w.status, t, !e.healthGate)
  {
    ReconcilerStatus.KindsApart();
    MarkReports(w, e, INSTALLED, No, reason, message);
    var w1 := Mark(w, e, INSTALLED, No, reason, message);
    var c := Condition(HEALTHY, No, "InstallationStatusFalse", "Installed condition is false", e.now);
    FindSet(w1.status.conditions, c, INSTALLED);
    MarkReports(w1, e, HEALTHY, No, c.reason, c.message);
  }

  // ---- the stages ----

  /** Everything up to and including loading the bundle succeeded. */
  predicate LoadedOk(e: Env) {
    && e.finalize.error.None?
    && e.unpack.UnpackResult? && e.unpack.state == STATE_UNPACKED && e.storeError.None? && e.url.Success?
    && e.loadError.None?
  }

  lemma {:induction false} FinalizeReports(w: World, e: Env)
    ensures var p := FinalizeStage(w, e); Reports(p) && SameTruth(w.status, p.world.status)
  {
    ReconcilerStatus.KindsApart();
    if e.finalize.error.Some? {
      var status := w.status.(observedGeneration := e.generation, resolvedSource := None, contentURL := "");
      var w1 := w.(status := status, finalizers := e.finalize.finalizers);
      MarkReports(w1, e, UNPACKED, Unknown, "ProcessingFinalizerFailed", e.finalize.error.value);
    }
  }

  lemma {:induction false} UnpackReports(w: World, e: Env)
    ensures var p := UnpackStage(w, e); Reports(p) && SameTruth(w.status, p.world.status)
  {
    ReconcilerStatus.KindsApart();
    var p := UnpackStage(w, e);
    var s := p.world.status;
    var w1 := w.(status := w.status.(resolvedSource := s.resolvedSource, contentURL := s.contentURL));
    if p.Go? {
      MarkReports(w1, e, UNPACKED, Yes, "UnpackSuccessful", e.unpack.message);
    } else if p.error.Some? {
      MarkReports(w1, e, UNPACKED, No, "UnpackFailed", p.error.value.message);
    } else {
      var reason := if e.unpack.state == STATE_PENDING then "UnpackPending" else "Unpacking";
      MarkReports(w1, e, UNPACKED, No, reason, e.unpack.message);
    }
  }

  lemma {:induction false} LoadReports(w: World, e: Env)
    ensures var p := LoadStage(w, e);
            && Reports(p)
            && SameUnpack(w.status, p.world.status)
            && (e.loadError.Some? || p.Go? ==> SameTruth(w.status, p.world.status))
            && (e.loadError.None? && p.Stop? ==>
                  Clears(w.status, p.world.status, e.handleError.Some? || !e.healthGate))
  {
    ReconcilerStatus.KindsApart();
    if e.loadError.Some? {
      MarkReports(w, e, HAS_VALID_BUNDLE, No, "BundleLoadFailed", e.loadError.value);
    } else if e.handleError.Some? {
      MarkReports(w, e, INSTALLED, No, "InstallFailed", e.handleError.value);
    } else if e.clientError.Some? {
      FalseReports(w, e, "ErrorGettingClient", e.clientError.value);
    }
  }

  lemma {:induction false} ContentReports(w: World, e: Env)
    ensures var p := Content(w, e);
            && Reports(p)
            && (p.Go? <==> LoadedOk(e) && e.handleError.None? && e.clientError.None?)
            && (p.Go? || !LoadedOk(e) ==> SameTruth(w.status, p.world.status))
            && (LoadedOk(e) && p.Stop? ==>
                  Cleared(w.status, p.world.status, e.handleError.Some? || !e.healthGate))
  {
    FinalizeReports(w, e);
    var p := FinalizeStage(w, e);
    if p.Go? {
      UnpackReports(p.world, e);
      ReportsAfter(p.trace, UnpackStage(p.world, e));
      var q := After(p.trace, UnpackStage(p.world, e));
      if q.Go? {
        LoadReports(q.world, e);
        ReportsAfter(q.trace, LoadStage(q.world, e));
      }
    }
  }

  /** A stage after rendering that stops turns Installed False, and Healthy too if the gate is on;
      one that goes on leaves the status alone. */
  ghost predicate FailsClosed(s: Status, p: Progress, e: Env) {
    && Reports(p)
    && (p.Stop? ==> Clears(s, p.world.status, !e.healthGate))
    && (p.Go? ==> p.world.status == s)
  }

  predicate PreflightFails(state: ReleaseState, e: Env, from: nat) {
    (state.NeedsInstall? || state.NeedsUpgrade?) && exists i :: from <= i < |e.preflights| && e.preflights[i].Some?
  }

  lemma {:induction false} PreflightReports(w: World, e: Env, state: ReleaseState, from: nat)
    requires from <= |e.preflights|
    ensures var p := PreflightStage(w, e, state, from);
            FailsClosed(w.status, p, e) && (p.Stop? <==> PreflightFails(state, e, from))
    decreases |e.preflights| - from
  {
    if from < |e.preflights| {
      PreflightReports(w, e, state, from + 1);
      if e.preflights[from].Some? {
        FalseReports(w, e, "InstallFailed", e.preflights[from].value);
      } else if state.NeedsInstall? || state.NeedsUpgrade? {
        ReportsAfter([Effect(Preflight(state, from), true)], PreflightStage(w, e, state, from + 1));
      }
    }
  }

  lemma {:induction false} ActReports(w: World, e: Env, state: ReleaseState)
    requires !state.StateError? && (state.Unchanged? ==> w.release.Some?)
    ensures FailsClosed(w.status, ActStage(w, e, state), e)
  {
    if e.action.ActionError? {
      var left := if state.Unchanged? then w else w.(release := e.action.leaves);
      FalseReports(left, e, FailureReason(state), e.action.error);
    }
  }

  predicate DeployFails(w: World, e: Env) {
    || e.getError.Some? || e.dryRun.Failure?
    || PreflightFails(Classify(w.release, e).0, e, 0)
    || e.action.ActionError?
  }

  /** The manifest a deployment that goes through leaves: the current one where nothing changes. */
  function DeployedManifest(w: World, e: Env): Manifest
    requires e.action.Done?
  {
    if w.release.Some? && Classify(w.release, e).0.Unchanged? then w.release.value.manifest else e.action.manifest
  }

  lemma {:induction false} DeployReports(w: World, e: Env)
    ensures var p := Deploy(w, e);
            && FailsClosed(w.status, p, e) && (p.Stop? <==> DeployFails(w, e))
            && (p.Go? ==> p.world.watched == w.watched && p.world.release.value.manifest == DeployedManifest(w, e))
  {
    var (state, error) := Classify(w.release, e);
    var p := ClassifyStage(w, e);
    if error.Some? {
      FalseReports(w, e, "ErrorGettingReleaseState", error.value);
    } else {
      PreflightReports(w, e, state, 0);
      ReportsAfter(p.trace, PreflightStage(w, e, state, 0));
      var q := After(p.trace, PreflightStage(w, e, state, 0));
      if q.Go? {
        ActReports(w, e, state);
        ReportsAfter(q.trace, ActStage(w, e, state));
      }
    }
  }

  /** An object cannot be decoded, or its kind is not watched yet and cannot be. */
  predicate WatchingFails(watched: set<GVK>, e: Env, objects: seq<GVK>, from: nat) {
    exists i :: from <= i < |objects| && ObjectFails(watched, e, objects, i)
  }

  predicate ObjectFails(watched: set<GVK>, e: Env, objects: seq<GVK>, i: nat)
    requires i < |objects|
  {
    i in e.objectErrors || (objects[i] !in watched && objects[i] in e.watchErrors)
  }

  lemma {:induction false} WatchOneReports(w: World, e: Env, index: nat, gvk: GVK)
    ensures FailsClosed(w.status, WatchOne(w, e, index, gvk), e)
  {
    if index in e.objectErrors {
      FalseReports(w, e, "CreateDynamicWatchFailed", e.objectErrors[index]);
    } else if gvk in e.watchErrors {
      FalseReports(w, e, "CreateDynamicWatchFailed", e.watchErrors[gvk]);
    }
  }

  lemma {:induction false} WatchReports(w: World, e: Env, objects: seq<GVK>, from: nat)
    requires from <= |objects|
    ensures var p := WatchStage(w, e, objects, from);
            FailsClosed(w.status, p, e) && (p.Stop? <==> WatchingFails(w.watched, e, objects, from))
    decreases |objects| - from
  {
    if from < |objects| {
      var p := WatchOne(w, e, from, objects[from]);
      WatchOneReports(w, e, from, objects[from]);
      if p.Go? {
        WatchReports(p.world, e, objects, from + 1);
        ReportsAfter(p.trace, WatchStage(p.world, e, objects, from + 1));
        assert forall i :: from < i < |objects| ==>
          (ObjectFails(w.watched, e, objects, i) <==> ObjectFails(p.world.watched, e, objects, i));
      } else {
        assert ObjectFails(w.watched, e, objects, from);
      }
    }
  }

  predicate ManifestFails(watched: set<GVK>, e: Env, m: Manifest) {
    e.parse(m).Failure? || WatchingFails(watched, e, e.parse(m).value, 0)
  }

  lemma {:induction false} ConditionReports(w: World, e: Env)
    ensures var p := ConditionStage(w, e);
            && Reports(p) && IsInstalled(p.world.status) && SameUnpack(w.status, p.world.status)
            && (IsHealthy(p.world.status) <==> if e.healthGate then e.healthError.None? else IsHealthy(w.status))
  {
    ReconcilerStatus.KindsApart();
    MarkReports(w, e, INSTALLED, Yes, "InstallationSucceeded", InstalledMessage(w.name));
    var w1 := Mark(w, e, INSTALLED, Yes, "InstallationSucceeded", InstalledMessage(w.name));
    if e.healthError.Some? { MarkReports(w1, e, HEALTHY, No, "Unhealthy", e.healthError.value); }
    MarkReports(w1, e, HEALTHY, Yes, "Healthy", HEALTHY_MESSAGE);
  }

  /** The end of a reconcile: Installed is True unless watching failed. */
  lemma {:induction false} ConcludeReports(w: World, e: Env)
    requires w.release.Some?
    ensures var p := Conclude(w, e);
            && p.Stop? && Reports(p)
            && (if ManifestFails(w.watched, e, w.release.value.manifest)
               then Clears(w.status, p.world.status, !e.healthGate)
               else IsInstalled(p.world.status) && SameUnpack(w.status, p.world.status))
  {
    match e.parse(w.release.value.manifest) {
      case Failure(m) =>
        FalseReports(w, e, "CreateDynamicWatchFailed", m);
      case Success(objects) =>
        WatchReports(w, e, objects, 0);
        ReportsAfter([Effect(ParseManifest, true)], WatchStage(w, e, objects, 0));
        var p := ManifestStage(w, e);
        if p.Go? {
          ConditionReports(p.world, e);
          ReportsAfter(p.trace, ConditionStage(p.world, e));
        }
    }
  }

  // ---- unpacking ----

  /** The bundle is unpacked, stored and given a URL. */
  predicate UnpackedOk(e: Env) {
    && e.finalize.error.None?
    && e.unpack.UnpackResult? && e.unpack.state == STATE_UNPACKED && e.storeError.None? && e.url.Success?
  }

  /** What the status says of unpacking: where the bundle got a URL, its source, URL and message;
      otherwise no source and no URL, and why. */
  ghost predicate UnpackRecorded(s: Status, e: Env) {
    && s.observedGeneration == e.generation
    && (if UnpackedOk(e) then
          && s.resolvedSource == e.unpack.resolvedSource && s.contentURL == e.url.value
          && Says(s.conditions, UNPACKED, Yes, "UnpackSuccessful", e.unpack.message)
        else s.resolvedSource == None && s.contentURL == "" && !Is(s.conditions, UNPACKED, Yes))
    && (e.finalize.error.Some? ==>
          Says(s.conditions, UNPACKED, Unknown, "ProcessingFinalizerFailed", e.finalize.error.value))
    && (e.finalize.error.None? && e.unpack.UnpackResult? && e.unpack.state == "Pending" ==>
          Says(s.conditions, UNPACKED, No, "UnpackPending", e.unpack.message))
    && (e.finalize.error.None? && e.unpack.UnpackResult? && e.unpack.state == "Unpacking" ==>
          Says(s.conditions, UNPACKED, No, "Unpacking", e.unpack.message))
  }

  lemma {:induction false} UnpackStageRecords(w: World, e: Env)
    requires w.status.observedGeneration == e.generation && e.finalize.error.None?
    ensures UnpackRecorded(UnpackStage(w, e).world.status, e) && (UnpackStage(w, e).Go? <==> UnpackedOk(e))
  {
    assert STATE_PENDING[0] == 'P' && STATE_UNPACKING[6] == 'i' && STATE_UNPACKED[6] == 'e';
    var p := UnpackStage(w, e);
    if p.Go? {
      FindSet(w.status.conditions, Condition(UNPACKED, Yes, "UnpackSuccessful", e.unpack.message, e.now), UNPACKED);
    } else if p.error.Some? {
      FindSet(w.status.conditions, Condition(UNPACKED, No, "UnpackFailed", p.error.value.message, e.now), UNPACKED);
    } else {
      var reason := if e.unpack.state == STATE_PENDING then "UnpackPending" else "Unpacking";
      FindSet(w.status.conditions, Condition(UNPACKED, No, reason, e.unpack.message, e.now), UNPACKED);
    }
  }

  lemma {:induction false} ContentRecords(w: World, e: Env)
    ensures UnpackRecorded(Content(w, e).world.status, e)
    ensures Content(w, e).world.finalizers == e.finalize.finalizers
  {
    var p := FinalizeStage(w, e);
    if p.Go? {
      UnpackStageRecords(p.world, e);
      var q := UnpackStage(p.world, e);
      if q.Go? { LoadReports(q.world, e); }
    } else {
      var c := Condition(UNPACKED, Unknown, "ProcessingFinalizerFailed", e.finalize.error.value, e.now);
      FindSet(w.status.conditions, c, UNPACKED);
    }
  }

  /** Whatever comes after it, a reconcile records how unpacking went and takes over the finalizers. */
  lemma {:induction false} UnpackIsRecorded(w: World, e: Env)
    ensures UnpackRecorded(Inner(w, e).world.status, e) && Inner(w, e).world.finalizers == e.finalize.finalizers
  {
    ContentRecords(w, e);
    var p := Content(w, e);
    if p.Go? {
      DeployReports(p.world, e);
      DeployFinalizers(p.world, e);
      var q := Deploy(p.world, e);
      if q.Go? {
        ConcludeReports(q.world, e);
        ConcludeFinalizers(q.world, e);
      }
    }
  }

  lemma {:induction false} DeployFinalizers(w: World, e: Env)
    ensures Deploy(w, e).world.finalizers == w.finalizers
  {
    PreflightFinalizers(w, e, Classify(w.release, e).0, 0);
  }

  lemma {:induction false} ConcludeFinalizers(w: World, e: Env)
    requires w.release.Some?
    ensures Conclude(w, e).world.finalizers == w.finalizers
  {
    match e.parse(w.release.value.manifest) {
      case Failure(_) =>
      case Success(objects) => WatchFinalizers(w, e, objects, 0);
    }
  }

  lemma {:induction false} PreflightFinalizers(w: World, e: Env, state: ReleaseState, from: nat)
    requires from <= |e.preflights|
    ensures PreflightStage(w, e, state, from).world.finalizers == w.finalizers
    decreases |e.preflights| - from
  {
    if from < |e.preflights| { PreflightFinalizers(w, e, state, from + 1); }
  }

  lemma {:induction false} WatchFinalizers(w: World, e: Env, objects: seq<GVK>, from: nat)
    requires from <= |objects|
    ensures WatchStage(w, e, objects, from).world.finalizers == w.finalizers
    decreases |objects| - from
  {
    if from < |objects| { WatchFinalizers(WatchOne(w, e, from, objects[from]).world, e, objects, from + 1); }
  }

  // ---- the whole reconcile ----

  /** No call follows a failed one.  The status then names the call that failed and carries its
      message, and every error that comes from outside is reported in this way. */
  lemma {:induction false} FailedCallIsLastAndNamed(w: World, e: Env)
    ensures Inner(w, e).Stop? && Reports(Inner(w, e))
  {
    ContentReports(w, e);
    var p := Content(w, e);
    if p.Go? {
      DeployReports(p.world, e);
      ReportsAfter(p.trace, Deploy(p.world, e));
      var q := After(p.trace, Deploy(p.world, e));
      if q.Go? {
        ConcludeReports(q.world, e);
        ReportsAfter(q.trace, Conclude(q.world, e));
      }
    }
  }

  /** Every error that comes from outside is shown: the condition that stands for the last call of
      the reconcile is not True and carries the error's message. */
  lemma {:induction false} ErrorsAreShown(w: World, e: Env, m: string)
    requires Inner(w, e).Stop? && Inner(w, e).error == Some(External(m))
    ensures var t := Inner(w, e).trace;
            t != [] && Blamed(Inner(w, e).world.status, Blame(t[|t| - 1].call).0, Blame(t[|t| - 1].call).1, m)
  {
    FailedCallIsLastAndNamed(w, e);
  }

  ghost predicate HealthyOnlyIfInstalled(s: Status) {
    IsHealthy(s) ==> IsInstalled(s)
  }

  /** Something after rendering fails: the client, the release state, a preflight, the change to
      the release, its manifest, or a watch. */
  predicate FailsAfterRendering(w: World, e: Env) {
    || e.clientError.Some?
    || DeployFails(w, e)
    || ManifestFails(w.watched, e, DeployedManifest(w, e))
  }

  /** Healthy does not imply Installed.  A reconcile breaks the implication exactly when Healthy was
      True, the bundle was loaded, and then either rendering fails, which clears Installed alone,
      or anything later fails while the health gate is off. */
  lemma {:induction false} WhenHealthyOutlivesInstalled(w: World, e: Env)
    requires HealthyOnlyIfInstalled(w.status)
    ensures !HealthyOnlyIfInstalled(Inner(w, e).world.status) <==>
            IsHealthy(w.status) && LoadedOk(e) && (e.handleError.Some? || (!e.healthGate && FailsAfterRendering(w, e)))
  {
    ContentReports(w, e);
    ContentKeepsRelease(w, e);
    var p := Content(w, e);
    if p.Go? {
      DeployReports(p.world, e);
      var q := Deploy(p.world, e);
      if q.Go? { ConcludeReports(q.world, e); }
    }
  }

  /** After a clean success with the gate on, a failure to render leaves Healthy True and Installed
      not, as soon as the status is written. */
  lemma {:induction false} RenderFailureAfterSuccess(w: World, e: Env, d: Desired, f: Env)
    requires Clean(w, e, d) && d.healthGate
    requires LoadedOk(f) && f.handleError.Some? && f.statusWrite.Written?
    ensures var s := Run(w, [e, f]).status; IsHealthy(s) && !IsInstalled(s)
  {
    CleanSettles(w, e, d);
    var w1 := Outer(w, e).world;
    WhenHealthyOutlivesInstalled(w1, f);
    assert [e, f][1..] == [f] && [f][1..] == [];
    assert Run(w, [e, f]) == Run(w1, [f]) == Run(Outer(w1, f).world, []);
  }

  /** It happens, in two reconciles of a new BundleDeployment. */
  lemma {:induction false} HealthyWithoutInstalledExists()
    ensures exists e: Env, f: Env ::
      var s := Run(World("bundle", EMPTY_STATUS, [], None, {}), [e, f]).status; IsHealthy(s) && !IsInstalled(s)
  {
    var w := World("bundle", EMPTY_STATUS, [], None, {});
    var e := Smooth(true, []);
    SmoothIsClean(w, true, []);
    RenderFailureAfterSuccess(w, e, SmoothDesired(true), e.(handleError := Some("cannot render")));
  }
}
