/** The controller as it runs: a stored object, a working copy of its status and finalizers that
    the reconcile mutates step by step, the release, and the watches.  Each method is proved to
    do what the stage of the same name in Reconciler says. */
module Controller {
  import opened Text
  import opened Conditions
  import opened Reconciler

  lemma {:induction false} Associate(t: seq<Effect>, a: seq<Effect>, b: seq<Effect>, c: seq<Effect>)
    ensures (t + a) + b == t + (a + b) && ((t + a) + b) + c == t + ((a + b) + c)
  {
  }

  class Controller {
    const name: string
    // the stored object
    var storedStatus: Status
    var storedFinalizers: seq<string>
    // the working copy
    var status: Status
    var finalizers: seq<string>
    // the rest of the world
    var release: Option<Release>
    var watched: set<GVK>
    // every call made, in order
    var trace: seq<Effect>

    constructor (name: string)
      ensures this.name == name && Stored() == World(name, EMPTY_STATUS, [], None, {}) && trace == []
    {
      this.name := name;
      storedStatus, storedFinalizers, status, finalizers := EMPTY_STATUS, [], EMPTY_STATUS, [];
      release, watched, trace := None, {}, [];
    }

    ghost function Working(): World
      reads this
    {
      World(name, status, finalizers, release, watched)
    }

    ghost function Stored(): World
      reads this
    {
      World(name, storedStatus, storedFinalizers, release, watched)
    }

    /** This stage took the working copy from w to where p says. */
    ghost predicate Did(p: Progress, before: seq<Effect>, stop: bool, error: Option<Error>)
      reads this
    {
      Working() == p.world && trace == before + p.trace && stop == p.Stop? && (stop ==> error == p.error)
    }

    method Log(call: Call, ok: bool)
      modifies this`trace
      ensures trace == old(trace) + [Effect(call, ok)]
    {
      trace := trace + [Effect(call, ok)];
    }

    method SetCondition(e: Env, kind: string, value: Truth, reason: string, message: string)
      modifies this`status
      ensures Working() == Mark(old(Working()), e, kind, value, reason, message)
    {
      status := status.(conditions := Set(status.conditions, Condition(kind, value, reason, message, e.now)));
    }

    method SetNotUnpacked(e: Env, value: Truth, reason: string, message: string)
      modifies this`status
      ensures Working() == NotUnpacked(old(Working()), e, value, reason, message)
    {
      status := status.(resolvedSource := None, contentURL := "");
      SetCondition(e, UNPACKED, value, reason, message);
    }

    method SetInstalledAndHealthyFalse(e: Env, reason: string, message: string)
      modifies this`status
      ensures Working() == InstalledAndHealthyFalse(old(Working()), e, reason, message)
    {
      SetCondition(e, INSTALLED, No, reason, message);
      if e.healthGate {
        SetCondition(e, HEALTHY, No, "InstallationStatusFalse", "Installed condition is false");
      }
    }

    method FinalizeBundle(e: Env) returns (stop: bool, error: Option<Error>)
      modifies this`status, this`finalizers, this`trace
      ensures Did(FinalizeStage(old(Working()), e), old(trace), stop, error)
    {
      stop, error := false, None;
      status := status.(observedGeneration := e.generation);
      finalizers := e.finalize.finalizers;
      Log(Finalize, e.finalize.error.None?);
      if e.finalize.error.Some? {
        SetNotUnpacked(e, Unknown, "ProcessingFinalizerFailed", e.finalize.error.value);
        stop, error := true, Some(External(e.finalize.error.value));
      }
    }

    method UnpackBundle(e: Env) returns (stop: bool, error: Option<Error>)
      modifies this`status, this`trace
      ensures Did(UnpackStage(old(Working()), e), old(trace), stop, error)
    {
      stop, error := true, None;
      var failure: Option<string> := None;
      match e.unpack {
        case UnpackError(m) =>
          Log(Unpack, false);
          failure := Some("source bundle content: " + m);
        case UnpackResult(state, source, message) =>
          if state == STATE_PENDING {
            Log(Unpack, false);
            SetNotUnpacked(e, No, "UnpackPending", message);
            return;
          } else if state == STATE_UNPACKING {
            Log(Unpack, false);
            SetNotUnpacked(e, No, "Unpacking", message);
            return;
          } else if state != STATE_UNPACKED {
            Log(Unpack, false);
            failure := Some("unknown unpack state " + state);
          } else {
            Log(Unpack, true);
            Log(Store, e.storeError.None?);
            if e.storeError.Some? {
              failure := Some("persist bundle content: " + e.storeError.value);
            } else {
              Log(ContentURL, e.url.Success?);
              if e.url.Failure? {
                failure := Some("get content URL: " + e.url.error);
              }
            }
            if failure.None? {
              status := status.(resolvedSource := source, contentURL := e.url.value);
              SetCondition(e, UNPACKED, Yes, "UnpackSuccessful", message);
              stop := false;
              return;
            }
          }
      }
      SetNotUnpacked(e, No, "UnpackFailed", failure.value);
      error := Some(External(failure.value));
    }

    method LoadBundle(e: Env) returns (stop: bool, error: Option<Error>)
      modifies this`status, this`trace
      ensures Did(LoadStage(old(Working()), e), old(trace), stop, error)
    {
      stop, error := true, None;
      Log(Load, e.loadError.None?);
      if e.loadError.Some? {
        SetCondition(e, HAS_VALID_BUNDLE, No, "BundleLoadFailed", e.loadError.value);
        return true, Some(External(e.loadError.value));
      }
      Log(Render, e.handleError.None?);
      if e.handleError.Some? {
        SetCondition(e, INSTALLED, No, "InstallFailed", e.handleError.value);
        return true, Some(External(e.handleError.value));
      }
      Log(GetClient, e.clientError.None?);
      if e.clientError.Some? {
        SetInstalledAndHealthyFalse(e, "ErrorGettingClient", e.clientError.value);
        return true, Some(External(e.clientError.value));
      }
      stop := false;
    }

    method GetReleaseState(e: Env) returns (state: ReleaseState, error: Option<string>)
      modifies this`trace
      ensures (state, error) == Classify(release, e) && trace == old(trace) + DryRunEffects(release, e)
      ensures state.StateError? <==> error.Some?
    {
      Log(GetRelease, e.getError.None?);
      if e.getError.Some? { return StateError, e.getError; }
      Log(DryRun(if release.None? then NeedsInstall else NeedsUpgrade), e.dryRun.Success?);
      if e.dryRun.Failure? { return StateError, Some(e.dryRun.error); }
      if release.None? { return NeedsInstall, None; }
      state, error := Unchanged, None;
      var current := release.value;
      if e.dryRun.value != current.manifest || current.status.Failed? || current.status.Superseded? {
        state := NeedsUpgrade;
      }
    }

    method ClassifyRelease(e: Env) returns (state: ReleaseState, stop: bool, error: Option<Error>)
      modifies this`status, this`trace
      ensures Did(ClassifyStage(old(Working()), e), old(trace), stop, error)
      ensures state == Classify(old(release), e).0
    {
      var m;
      state, m := GetReleaseState(e);
      stop, error := m.Some?, None;
      if stop {
        SetInstalledAndHealthyFalse(e, "ErrorGettingReleaseState", m.value);
        error := Some(External(m.value));
      }
    }

    method RunPreflights(e: Env, state: ReleaseState) returns (stop: bool, error: Option<Error>)
      modifies this`status, this`trace
      ensures Did(PreflightStage(old(Working()), e, state, 0), old(trace), stop, error)
    {
      stop, error := false, None;
      ghost var w := Working();
      for i := 0 to |e.preflights|
        invariant Working() == w
        invariant After(trace, PreflightStage(w, e, state, i)) == After(old(trace), PreflightStage(w, e, state, 0))
      {
        if state.NeedsInstall? || state.NeedsUpgrade? {
          Log(Preflight(state, i), e.preflights[i].None?);
          Associate(trace[..|trace| - 1], [trace[|trace| - 1]], PreflightStage(w, e, state, i + 1).trace, []);
          if e.preflights[i].Some? {
            SetInstalledAndHealthyFalse(e, "InstallFailed", e.preflights[i].value);
            return true, Some(External(e.preflights[i].value));
          }
        }
      }
    }

    method Act(e: Env, state: ReleaseState) returns (stop: bool, error: Option<Error>)
      requires state.Unchanged? ==> release.Some?
      modifies this`status, this`release, this`trace
      ensures Did(ActStage(old(Working()), e, state), old(trace), stop, error)
    {
      stop, error := false, None;
      match state {
        case NeedsInstall =>
          Log(Install, e.action.Done?);
          release := if e.action.Done? then Some(Release(e.action.manifest, Deployed)) else e.action.leaves;
        case NeedsUpgrade =>
          Log(Upgrade, e.action.Done?);
          release := if e.action.Done? then Some(Release(e.action.manifest, Deployed)) else e.action.leaves;
        case Unchanged =>
          Log(Reconcile, e.action.Done?);
        case StateError =>
          return true, Some(UnexpectedState);
      }
      if e.action.ActionError? {
        SetInstalledAndHealthyFalse(e, FailureReason(state), e.action.error);
        return true, Some(External(e.action.error));
      }
    }

    method WatchObjects(e: Env) returns (stop: bool, error: Option<Error>)
      requires release.Some?
      modifies this`status, this`watched, this`trace
      ensures Did(ManifestStage(old(Working()), e), old(trace), stop, error)
    {
      stop, error := false, None;
      Log(ParseManifest, e.parse(release.value.manifest).Success?);
      if e.parse(release.value.manifest).Failure? {
        SetInstalledAndHealthyFalse(e, "CreateDynamicWatchFailed", e.parse(release.value.manifest).error);
        return true, Some(External(e.parse(release.value.manifest).error));
      }
      var objects := e.parse(release.value.manifest).value;
      stop, error := WatchAll(e, objects);
    }

    /** The loop over the objects of the manifest. */
    method WatchAll(e: Env, objects: seq<GVK>) returns (stop: bool, error: Option<Error>)
      modifies this`status, this`watched, this`trace
      ensures Did(WatchStage(old(Working()), e, objects, 0), old(trace), stop, error)
    {
      stop, error := false, None;
      ghost var w := Working();
      for i := 0 to |objects|
        invariant Working() == w.(watched := watched)
        invariant After(trace, WatchStage(Working(), e, objects, i)) == After(old(trace), WatchStage(w, e, objects, 0))
      {
        ghost var t, p := trace, WatchOne(Working(), e, i, objects[i]);
        stop, error := WatchObject(e, i, objects[i]);
        if stop { return; }
        Associate(t, p.trace, WatchStage(p.world, e, objects, i + 1).trace, []);
      }
    }

    /** The locked section for one object. */
    method WatchObject(e: Env, index: nat, gvk: GVK) returns (stop: bool, error: Option<Error>)
      modifies this`status, this`watched, this`trace
      ensures Did(WatchOne(old(Working()), e, index, gvk), old(trace), stop, error)
    {
      stop, error := false, None;
      Log(Decode(index), index !in e.objectErrors);
      if index in e.objectErrors {
        SetInstalledAndHealthyFalse(e, "CreateDynamicWatchFailed", e.objectErrors[index]);
        return true, Some(External(e.objectErrors[index]));
      }
      if gvk !in watched {
        Log(Watch(gvk), gvk !in e.watchErrors);
        if gvk in e.watchErrors {
          SetInstalledAndHealthyFalse(e, "CreateDynamicWatchFailed", e.watchErrors[gvk]);
          return true, Some(External(e.watchErrors[gvk]));
        }
        watched := watched + {gvk};
      }
    }

    method SetFinalConditions(e: Env) returns (error: Option<Error>)
      modifies this`status, this`trace
      ensures Did(ConditionStage(old(Working()), e), old(trace), true, error)
    {
      error := None;
      SetCondition(e, INSTALLED, Yes, "InstallationSucceeded", InstalledMessage(name));
      if e.healthGate {
        Log(CheckHealth, e.healthError.None?);
        if e.healthError.Some? {
          SetCondition(e, HEALTHY, No, "Unhealthy", e.healthError.value);
          return Some(External(e.healthError.value));
        }
        SetCondition(e, HEALTHY, Yes, "Healthy", HEALTHY_MESSAGE);
      }
    }

    method ObtainContent(e: Env) returns (stop: bool, error: Option<Error>)
      modifies this`status, this`finalizers, this`trace
      ensures Did(Content(old(Working()), e), old(trace), stop, error)
    {
      stop, error := FinalizeBundle(e);
      if stop { return; }
      stop, error := UnpackBundle(e);
      if stop { return; }
      stop, error := LoadBundle(e);
    }

    method DeployRelease(e: Env) returns (stop: bool, error: Option<Error>)
      modifies this`status, this`release, this`trace
      ensures Did(Deploy(old(Working()), e), old(trace), stop, error)
    {
      ghost var t := trace;
      ghost var p := ClassifyStage(Working(), e);
      var state;
      state, stop, error := ClassifyRelease(e);
      if stop { return; }
      ghost var q := PreflightStage(p.world, e, state, 0);
      stop, error := RunPreflights(e, state);
      Associate(t, p.trace, q.trace, []);
      if stop { return; }
      ghost var r := ActStage(q.world, e, state);
      stop, error := Act(e, state);
      Associate(t, p.trace, q.trace, r.trace);
    }

    method ConcludeReconcile(e: Env) returns (error: Option<Error>)
      requires release.Some?
      modifies this`status, this`watched, this`trace
      ensures Did(Conclude(old(Working()), e), old(trace), true, error)
    {
      var stop;
      stop, error := WatchObjects(e);
      if stop { return; }
      error := SetFinalConditions(e);
    }

    /** controller.reconcile. */
    method ReconcileCopy(e: Env) returns (error: Option<Error>)
      modifies this`status, this`finalizers, this`release, this`watched, this`trace
      ensures Did(Inner(old(Working()), e), old(trace), true, error)
    {
      ghost var t := trace;
      ghost var p := Content(Working(), e);
      var stop;
      stop, error := ObtainContent(e);
      if stop { return; }
      ghost var q := Deploy(p.world, e);
      stop, error := DeployRelease(e);
      Associate(t, p.trace, q.trace, []);
      if stop { return; }
      ghost var r := Conclude(q.world, e);
      error := ConcludeReconcile(e);
      Associate(t, p.trace, q.trace, r.trace);
    }

    /** controller.Reconcile. */
    method ReconcileBundleDeployment(e: Env) returns (error: Option<Error>)
      modifies this
      ensures Outcome(Stored(), trace, error)
              == Outer(old(Stored()), e).(trace := old(trace) + Outer(old(Stored()), e).trace)
    {
      status, finalizers := storedStatus, storedFinalizers;
      error := ReconcileCopy(e);
      var updateStatus, updateFinalizers := status != storedStatus, finalizers != storedFinalizers;
      if updateStatus {
        Log(WriteStatus, e.statusWrite.Written?);
        if e.statusWrite.Refused? { return Some(WriteRefused(error)); }
        storedStatus, finalizers := status, e.statusWrite.finalizers;
      }
      if updateFinalizers {
        Log(WriteFinalizers, e.finalizerWriteOk);
        if !e.finalizerWriteOk { return Some(WriteRefused(error)); }
        storedFinalizers := finalizers;
      }
    }
  }
}
