/** One reconcile of a BundleDeployment: finalize, unpack, store, load, render, dry run,
    preflight, install or upgrade or reconcile, watch, then conditions.  Every call that leaves
    the controller is an outcome chosen by the environment, and is recorded as an effect. */
module Reconciler {
  import opened Text
  import opened Conditions

  type GVK = string

  const UNPACKED := "Unpacked"
  const INSTALLED := "Installed"
  const HEALTHY := "Healthy"
  const HAS_VALID_BUNDLE := "HasValidBundle"

  datatype Status = Status(conditions: seq<Condition>, resolvedSource: Option<string>, contentURL: string,
                           observedGeneration: nat)

  const EMPTY_STATUS := Status([], None, "", 0)

  /** The text of a release manifest. */
  type Manifest = string

  datatype ReleaseStatus = Deployed | Failed | Superseded | Pending

  datatype Release = Release(manifest: Manifest, status: ReleaseStatus)

  /** The BundleDeployment's status and finalizers, its release, and the watches of the controller. */
  datatype World = World(name: string, status: Status, finalizers: seq<string>, release: Option<Release>,
                         watched: set<GVK>)

  // ---- the environment ----

  datatype Finalized = Finalized(finalizers: seq<string>, error: Option<string>)

  datatype UnpackOutcome =
    | UnpackError(error: string)
    | UnpackResult(state: string, resolvedSource: Option<string>, message: string)

  /** An install, upgrade or reconcile: done with a manifest, or failed leaving some release. */
  datatype Action = Done(manifest: Manifest) | ActionError(error: string, leaves: Option<Release>)

  /** A status update is refused, or answered with an object that carries these finalizers. */
  datatype StatusWrite = Refused | Written(finalizers: seq<string>)

  /** How everything outside answers; parse gives the kinds of a manifest's objects, in order. */
  datatype Env = Env(
    generation: nat, now: nat,
    finalize: Finalized, unpack: UnpackOutcome,
    storeError: Option<string>, url: Result<string, string>, loadError: Option<string>,
    handleError: Option<string>, clientError: Option<string>,
    getError: Option<string>, dryRun: Result<Manifest, string>,
    preflights: seq<Option<string>>, action: Action,
    parse: Manifest -> Result<seq<GVK>, string>,
    objectErrors: map<nat, string>, watchErrors: map<GVK, string>,
    healthGate: bool, healthError: Option<string>,
    statusWrite: StatusWrite, finalizerWriteOk: bool)

  const STATE_PENDING := "Pending"
  const STATE_UNPACKING := "Unpacking"
  const STATE_UNPACKED := "Unpacked"

  datatype ReleaseState = NeedsInstall | NeedsUpgrade | Unchanged | StateError

  datatype Call =
    | Finalize | Unpack | Store | ContentURL | Load | Render | GetClient | GetRelease
    | DryRun(state: ReleaseState) | Preflight(state: ReleaseState, index: nat)
    | Install | Upgrade | Reconcile | ParseManifest | Decode(index: nat) | Watch(gvk: GVK) | CheckHealth
    | WriteStatus | WriteFinalizers

  datatype Effect = Effect(call: Call, ok: bool)

  /** A refused write is reported together with what the reconcile itself returned. */
  datatype Error = External(message: string) | UnexpectedState | WriteRefused(reconcile: Option<Error>)

  // ---- status updates ----

  function Mark(w: World, e: Env, kind: string, status: Truth, reason: string, message: string): World {
    w.(status := w.status.(conditions := Set(w.status.conditions, Condition(kind, status, reason, message, e.now))))
  }

  /** updateStatusUnpackFailing, -Pending and -Unpacking, and the finalizer failure. */
  function NotUnpacked(w: World, e: Env, status: Truth, reason: string, message: string): World {
    Mark(w.(status := w.status.(resolvedSource := None, contentURL := "")), e, UNPACKED, status, reason, message)
  }

  function UnpackedWith(w: World, e: Env, source: Option<string>, url: string, message: string): World {
    Mark(w.(status := w.status.(resolvedSource := source, contentURL := url)), e, UNPACKED, Yes, "UnpackSuccessful",
         message)
  }

  function InstalledAndHealthyFalse(w: World, e: Env, reason: string, message: string): World {
    var w1 := Mark(w, e, INSTALLED, No, reason, message);
    if e.healthGate then Mark(w1, e, HEALTHY, No, "InstallationStatusFalse", "Installed condition is false") else w1
  }

  function InstalledMessage(name: string): string {
    "Instantiated bundle " + name + " successfully"
  }

  const HEALTHY_MESSAGE := "BundleDeployment is healthy"

  // ---- the stages ----

  /** A stage either ends the reconcile or hands on. */
  datatype Progress =
    | Stop(world: World, trace: seq<Effect>, error: Option<Error>)
    | Go(world: World, trace: seq<Effect>)

  function After(trace: seq<Effect>, p: Progress): Progress {
    p.(trace := trace + p.trace)
  }

  function FinalizeStage(w: World, e: Env): Progress {
    var w1 := w.(status := w.status.(observedGeneration := e.generation), finalizers := e.finalize.finalizers);
    match e.finalize.error
    case Some(m) =>
      Stop(NotUnpacked(w1, e, Unknown, "ProcessingFinalizerFailed", m), [Effect(Finalize, false)], Some(External(m)))
    case None => Go(w1, [Effect(Finalize, true)])
  }

  function UnpackFailing(w: World, e: Env, trace: seq<Effect>, message: string): Progress {
    Stop(NotUnpacked(w, e, No, "UnpackFailed", message), trace, Some(External(message)))
  }

  function UnpackStage(w: World, e: Env): Progress {
    match e.unpack
    case UnpackError(m) => UnpackFailing(w, e, [Effect(Unpack, false)], "source bundle content: " + m)
    case UnpackResult(state, source, message) =>
      if state == STATE_PENDING then
        Stop(NotUnpacked(w, e, No, "UnpackPending", message), [Effect(Unpack, false)], None)
      else if state == STATE_UNPACKING then
        Stop(NotUnpacked(w, e, No, "Unpacking", message), [Effect(Unpack, false)], None)
      else if state != STATE_UNPACKED then UnpackFailing(w, e, [Effect(Unpack, false)], "unknown unpack state " + state)
      else if e.storeError.Some? then
        UnpackFailing(w, e, [Effect(Unpack, true), Effect(Store, false)],
                      "persist bundle content: " + e.storeError.value)
      else
        var trace := [Effect(Unpack, true), Effect(Store, true), Effect(ContentURL, e.url.Success?)];
        match e.url
        case Failure(m) => UnpackFailing(w, e, trace, "get content URL: " + m)
        case Success(url) => Go(UnpackedWith(w, e, source, url, message), trace)
  }

  function LoadStage(w: World, e: Env): Progress {
    if e.loadError.Some? then
      Stop(Mark(w, e, HAS_VALID_BUNDLE, No, "BundleLoadFailed", e.loadError.value), [Effect(Load, false)],
           Some(External(e.loadError.value)))
    else if e.handleError.Some? then
      Stop(Mark(w, e, INSTALLED, No, "InstallFailed", e.handleError.value), [Effect(Load, true), Effect(Render, false)],
           Some(External(e.handleError.value)))
    else
      var trace := [Effect(Load, true), Effect(Render, true), Effect(GetClient, e.clientError.None?)];
      if e.clientError.Some? then
        Stop(InstalledAndHealthyFalse(w, e, "ErrorGettingClient", e.clientError.value), trace,
             Some(External(e.clientError.value)))
      else Go(w, trace)
  }

  /** getReleaseState: the class of the release, and the error that comes with StateError. */
  function Classify(current: Option<Release>, e: Env): (ReleaseState, Option<string>) {
    if e.getError.Some? then (StateError, e.getError)
    else match e.dryRun
      case Failure(m) => (StateError, Some(m))
      case Success(desired) =>
        if current.None? then (NeedsInstall, None)
        else if desired != current.value.manifest then (NeedsUpgrade, None)
        else if current.value.status.Failed? || current.value.status.Superseded? then (NeedsUpgrade, None)
        else (Unchanged, None)
  }

  /** The calls getReleaseState makes: the lookup, then a dry run, of an install where there is no
      release, else an upgrade. */
  function DryRunEffects(current: Option<Release>, e: Env): seq<Effect> {
    if e.getError.Some? then [Effect(GetRelease, false)]
    else [Effect(GetRelease, true),
          Effect(DryRun(if current.None? then NeedsInstall else NeedsUpgrade), e.dryRun.Success?)]
  }

  function ClassifyStage(w: World, e: Env): Progress {
    var (state, error) := Classify(w.release, e);
    var trace := DryRunEffects(w.release, e);
    match error
    case Some(m) => Stop(InstalledAndHealthyFalse(w, e, "ErrorGettingReleaseState", m), trace, Some(External(m)))
    case None => Go(w, trace)
  }

  function PreflightStage(w: World, e: Env, state: ReleaseState, from: nat): (p: Progress)
    requires from <= |e.preflights|
    ensures p.Go? ==> p.world == w
    decreases |e.preflights| - from
  {
    if from == |e.preflights| then Go(w, [])
    else if !state.NeedsInstall? && !state.NeedsUpgrade? then PreflightStage(w, e, state, from + 1)
    else match e.preflights[from]
      case Some(m) =>
        Stop(InstalledAndHealthyFalse(w, e, "InstallFailed", m), [Effect(Preflight(state, from), false)],
             Some(External(m)))
      case None => After([Effect(Preflight(state, from), true)], PreflightStage(w, e, state, from + 1))
  }

  function CallFor(state: ReleaseState): Call {
    match state
    case NeedsInstall => Install
    case NeedsUpgrade => Upgrade
    case Unchanged => Reconcile
    case StateError => Reconcile
  }

  function FailureReason(state: ReleaseState): string {
    match state case NeedsInstall => "InstallFailed" case NeedsUpgrade => "UpgradeFailed" case _ => "ReconcileFailed"
  }

  function ActStage(w: World, e: Env, state: ReleaseState): (p: Progress)
    requires state.Unchanged? ==> w.release.Some?
    ensures p.Go? ==> p.world.release.Some?
  {
    if state.StateError? then Stop(w, [], Some(UnexpectedState))
    else match e.action
      case Done(manifest) =>
        Go(if state.Unchanged? then w else w.(release := Some(Release(manifest, Deployed))),
           [Effect(CallFor(state), true)])
      case ActionError(m, leaves) =>
        Stop(InstalledAndHealthyFalse(if state.Unchanged? then w else w.(release := leaves), e,
                                      FailureReason(state), m),
             [Effect(CallFor(state), false)], Some(External(m)))
  }

  function WatchFailed(w: World, e: Env, trace: seq<Effect>, m: string): Progress {
    Stop(InstalledAndHealthyFalse(w, e, "CreateDynamicWatchFailed", m), trace, Some(External(m)))
  }

  /** One object: decode it, and watch its kind unless that is watched. */
  function WatchOne(w: World, e: Env, index: nat, gvk: GVK): Progress {
    if index in e.objectErrors then WatchFailed(w, e, [Effect(Decode(index), false)], e.objectErrors[index])
    else if gvk in w.watched then Go(w, [Effect(Decode(index), true)])
    else if gvk in e.watchErrors then
      WatchFailed(w, e, [Effect(Decode(index), true), Effect(Watch(gvk), false)], e.watchErrors[gvk])
    else Go(w.(watched := w.watched + {gvk}), [Effect(Decode(index), true), Effect(Watch(gvk), true)])
  }

  function WatchStage(w: World, e: Env, objects: seq<GVK>, from: nat): Progress
    requires from <= |objects|
    decreases |objects| - from
  {
    if from == |objects| then Go(w, [])
    else
      var p := WatchOne(w, e, from, objects[from]);
      if p.Stop? then p else After(p.trace, WatchStage(p.world, e, objects, from + 1))
  }

  /** Parsing the release manifest, then watching what is in it. */
  function ManifestStage(w: World, e: Env): Progress
    requires w.release.Some?
  {
    match e.parse(w.release.value.manifest)
    case Failure(m) => WatchFailed(w, e, [Effect(ParseManifest, false)], m)
    case Success(objects) => After([Effect(ParseManifest, true)], WatchStage(w, e, objects, 0))
  }

  function ConditionStage(w: World, e: Env): Progress {
    var w1 := Mark(w, e, INSTALLED, Yes, "InstallationSucceeded", InstalledMessage(w.name));
    if !e.healthGate then Stop(w1, [], None)
    else match e.healthError
      case Some(m) => Stop(Mark(w1, e, HEALTHY, No, "Unhealthy", m), [Effect(CheckHealth, false)], Some(External(m)))
      case None => Stop(Mark(w1, e, HEALTHY, Yes, "Healthy", HEALTHY_MESSAGE), [Effect(CheckHealth, true)], None)
  }

  // ---- putting the stages together ----

  function Content(w: World, e: Env): Progress {
    var p := FinalizeStage(w, e);
    if p.Stop? then p
    else
      var q := After(p.trace, UnpackStage(p.world, e));
      if q.Stop? then q else After(q.trace, LoadStage(q.world, e))
  }

  function Deploy(w: World, e: Env): (p: Progress)
    ensures p.Go? ==> p.world.release.Some?
  {
    var p := ClassifyStage(w, e);
    if p.Stop? then p
    else
      var state := Classify(w.release, e).0;
      var q := After(p.trace, PreflightStage(p.world, e, state, 0));
      if q.Stop? then q else After(q.trace, ActStage(q.world, e, state))
  }

  function Conclude(w: World, e: Env): Progress
    requires w.release.Some?
  {
    var p := ManifestStage(w, e);
    if p.Stop? then p else After(p.trace, ConditionStage(p.world, e))
  }

  /** controller.reconcile, on the copy. */
  function Inner(w: World, e: Env): Progress {
    var p := Content(w, e);
    if p.Stop? then p
    else
      var q := After(p.trace, Deploy(p.world, e));
      if q.Stop? then q else After(q.trace, Conclude(q.world, e))
  }

  datatype Outcome = Outcome(world: World, trace: seq<Effect>, error: Option<Error>)

  /** The writes back of what changed from w to v: the finalizers only if the status write, where
      there is one, went through. */
  function WriteTrace(w: World, v: World, e: Env): seq<Effect> {
    var status := if v.status != w.status then [Effect(WriteStatus, e.statusWrite.Written?)] else [];
    if v.finalizers == w.finalizers || (v.status != w.status && e.statusWrite.Refused?) then status
    else status + [Effect(WriteFinalizers, e.finalizerWriteOk)]
  }

  /** controller.Reconcile: release and watches are as the inner reconcile left them; the stored
      status and finalizers change only where their writes succeed. */
  function Outer(w: World, e: Env): Outcome {
    var p := Inner(w, e);
    var error := if p.Stop? then p.error else None;
    var kept := p.world.(status := w.status, finalizers := w.finalizers);
    var statusChanged := p.world.status != w.status;
    var finalizersChanged := p.world.finalizers != w.finalizers;
    var trace := p.trace + WriteTrace(w, p.world, e);
    if statusChanged && e.statusWrite.Refused? then Outcome(kept, trace, Some(WriteRefused(error)))
    else
      var stored := kept.(status := p.world.status);
      if !finalizersChanged then Outcome(stored, trace, error)
      else if !e.finalizerWriteOk then Outcome(stored, trace, Some(WriteRefused(error)))
      else
        // the answer to a status write replaces the copy whose finalizers are sent next
        var sent := if statusChanged then e.statusWrite.finalizers else p.world.finalizers;
        Outcome(stored.(finalizers := sent), trace, error)
  }

  function Run(w: World, es: seq<Env>): World
    decreases |es|
  {
    if es == [] then w else Run(Outer(w, es[0]).world, es[1..])
  }
}
