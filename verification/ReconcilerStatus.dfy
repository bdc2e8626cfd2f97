/** What the status of a BundleDeployment says in every state that any run can reach. */
module ReconcilerStatus {
  import opened Text
  import opened Conditions
  import opened Reconciler

  /** Unpacked is True exactly when there is a content URL and exactly when there is a resolved
      source, each kind of condition appears once, and HasValidBundle, if there, is False. */
  ghost predicate Consistent(s: Status) {
    && Once(s.conditions)
    && (Is(s.conditions, UNPACKED, Yes) <==> s.contentURL != "")
    && (Is(s.conditions, UNPACKED, Yes) <==> s.resolvedSource.Some?)
    && (Find(s.conditions, HAS_VALID_BUNDLE).Some? ==> Find(s.conditions, HAS_VALID_BUNDLE).value.status.No?)
  }

  /** A condition that has been set stays. */
  ghost predicate StillThere(s: Status, t: Status) {
    Find(s.conditions, HAS_VALID_BUNDLE).Some? ==> Find(t.conditions, HAS_VALID_BUNDLE).Some?
  }

  /** A step of the status from s to t that every stage makes. */
  ghost predicate Kept(s: Status, t: Status) {
    (Consistent(s) ==> Consistent(t)) && StillThere(s, t)
  }

  /** A finished unpack has a resolved source, and content URLs are not empty: what the sources
      and BundleStorage.LocalDirectory.URLFor give. */
  ghost predicate Honest(e: Env) {
    && (e.unpack.UnpackResult? && e.unpack.state == STATE_UNPACKED ==> e.unpack.resolvedSource.Some?)
    && (e.url.Success? ==> e.url.value != "")
  }

  lemma {:induction false} KindsApart()
    ensures UNPACKED != INSTALLED && UNPACKED != HEALTHY && UNPACKED != HAS_VALID_BUNDLE
    ensures INSTALLED != HEALTHY && INSTALLED != HAS_VALID_BUNDLE && HEALTHY != HAS_VALID_BUNDLE
  {
    assert UNPACKED[0] == 'U' && INSTALLED[0] == 'I' && HEALTHY[1] == 'e' && HAS_VALID_BUNDLE[1] == 'a';
    assert HEALTHY[0] == 'H' && HAS_VALID_BUNDLE[0] == 'H';
  }

  lemma {:induction false} MarkKeeps(w: World, e: Env, kind: string, status: Truth, reason: string, message: string)
    requires kind != UNPACKED && (kind == HAS_VALID_BUNDLE ==> status == No)
    ensures Kept(w.status, Mark(w, e, kind, status, reason, message).status)
  {
    var c := Condition(kind, status, reason, message, e.now);
    FindSet(w.status.conditions, c, UNPACKED);
    FindSet(w.status.conditions, c, HAS_VALID_BUNDLE);
    if Consistent(w.status) { SetKeepsOnce(w.status.conditions, c); }
  }

  lemma {:induction false} UnpackMarkKeeps(w: World, e: Env, status: Truth, reason: string, message: string,
                                           source: Option<string>, url: string)
    requires (status == Yes) == source.Some? == (url != "")
    ensures Kept(w.status,
                 Mark(w.(status := w.status.(resolvedSource := source, contentURL := url)), e, UNPACKED, status,
                      reason, message).status)
  {
    var c := Condition(UNPACKED, status, reason, message, e.now);
    KindsApart();
    FindSet(w.status.conditions, c, HAS_VALID_BUNDLE);
    if Consistent(w.status) { SetKeepsOnce(w.status.conditions, c); }
  }

  lemma {:induction false} FalseKeeps(w: World, e: Env, reason: string, message: string)
    ensures Kept(w.status, InstalledAndHealthyFalse(w, e, reason, message).status)
  {
    KindsApart();
    MarkKeeps(w, e, INSTALLED, No, reason, message);
    MarkKeeps(Mark(w, e, INSTALLED, No, reason, message), e, HEALTHY, No, "InstallationStatusFalse",
              "Installed condition is false");
  }

  lemma {:induction false} ContentKeeps(w: World, e: Env)
    requires Honest(e)
    ensures Kept(w.status, Content(w, e).world.status)
    ensures Content(w, e).world.status.observedGeneration == e.generation
  {
    KindsApart();
    var p := FinalizeStage(w, e);
    if p.Stop? {
      var w1 := w.(status := w.status.(observedGeneration := e.generation), finalizers := e.finalize.finalizers);
      UnpackMarkKeeps(w1, e, Unknown, "ProcessingFinalizerFailed", e.finalize.error.value, None, "");
    } else {
      UnpackKeeps(p.world, e);
      var q := UnpackStage(p.world, e);
      if q.Go? { LoadKeeps(q.world, e); }
    }
  }

  lemma {:induction false} UnpackKeeps(w: World, e: Env)
    requires Honest(e)
    ensures Kept(w.status, UnpackStage(w, e).world.status)
  {
    var p := UnpackStage(w, e);
    match e.unpack {
      case UnpackError(m) => UnpackMarkKeeps(w, e, No, "UnpackFailed", "source bundle content: " + m, None, "");
      case UnpackResult(state, source, message) =>
        if p.Go? {
          UnpackMarkKeeps(w, e, Yes, "UnpackSuccessful", message, source, e.url.value);
        } else if p.error.Some? {
          UnpackMarkKeeps(w, e, No, "UnpackFailed", p.error.value.message, None, "");
        } else {
          UnpackMarkKeeps(w, e, No, if state == STATE_PENDING then "UnpackPending" else "Unpacking", message, None, "");
        }
    }
  }

  lemma {:induction false} LoadKeeps(w: World, e: Env)
    ensures Kept(w.status, LoadStage(w, e).world.status)
  {
    KindsApart();
    if e.loadError.Some? {
      MarkKeeps(w, e, HAS_VALID_BUNDLE, No, "BundleLoadFailed", e.loadError.value);
    } else if e.handleError.Some? {
      MarkKeeps(w, e, INSTALLED, No, "InstallFailed", e.handleError.value);
    } else if e.clientError.Some? {
      FalseKeeps(w, e, "ErrorGettingClient", e.clientError.value);
    }
  }

  /** The rest of a reconcile changes only the Installed and Healthy conditions. */
  lemma {:induction false} PreflightKeeps(w: World, e: Env, state: ReleaseState, from: nat)
    requires from <= |e.preflights|
    ensures var t := PreflightStage(w, e, state, from).world.status;
            Kept(w.status, t) && t.observedGeneration == w.status.observedGeneration
    decreases |e.preflights| - from
  {
    if from < |e.preflights| {
      PreflightKeeps(w, e, state, from + 1);
      if e.preflights[from].Some? { FalseKeeps(w, e, "InstallFailed", e.preflights[from].value); }
    }
  }

  lemma {:induction false} DeployKeeps(w: World, e: Env)
    ensures var t := Deploy(w, e).world.status;
            Kept(w.status, t) && t.observedGeneration == w.status.observedGeneration
  {
    var (state, error) := Classify(w.release, e);
    if error.Some? {
      FalseKeeps(w, e, "ErrorGettingReleaseState", error.value);
    } else {
      PreflightKeeps(w, e, state, 0);
      if e.action.ActionError? {
        FalseKeeps(if state.Unchanged? then w else w.(release := e.action.leaves), e, FailureReason(state),
                   e.action.error);
      }
    }
  }

  lemma {:induction false} WatchKeeps(w: World, e: Env, objects: seq<GVK>, from: nat)
    requires from <= |objects|
    ensures var p := WatchStage(w, e, objects, from);
            && Kept(w.status, p.world.status) && p.world.status.observedGeneration == w.status.observedGeneration
            && (p.Go? ==> p.world.status == w.status)
    decreases |objects| - from
  {
    if from < |objects| {
      var gvk := objects[from];
      WatchKeeps(w, e, objects, from + 1);
      WatchKeeps(w.(watched := w.watched + {gvk}), e, objects, from + 1);
      if from in e.objectErrors { FalseKeeps(w, e, "CreateDynamicWatchFailed", e.objectErrors[from]); }
      if gvk in e.watchErrors { FalseKeeps(w, e, "CreateDynamicWatchFailed", e.watchErrors[gvk]); }
    }
  }

  lemma {:induction false} ConditionKeeps(w: World, e: Env)
    ensures Kept(w.status, ConditionStage(w, e).world.status)
  {
    KindsApart();
    MarkKeeps(w, e, INSTALLED, Yes, "InstallationSucceeded", InstalledMessage(w.name));
    var w1 := Mark(w, e, INSTALLED, Yes, "InstallationSucceeded", InstalledMessage(w.name));
    if e.healthError.Some? { MarkKeeps(w1, e, HEALTHY, No, "Unhealthy", e.healthError.value); }
    MarkKeeps(w1, e, HEALTHY, Yes, "Healthy", HEALTHY_MESSAGE);
  }

  lemma {:induction false} ConcludeKeeps(w: World, e: Env)
    requires w.release.Some?
    ensures var t := Conclude(w, e).world.status;
            Kept(w.status, t) && t.observedGeneration == w.status.observedGeneration
  {
    match e.parse(w.release.value.manifest) {
      case Failure(m) => FalseKeeps(w, e, "CreateDynamicWatchFailed", m);
      case Success(objects) =>
        WatchKeeps(w, e, objects, 0);
        ConditionKeeps(WatchStage(w, e, objects, 0).world, e);
    }
  }

  lemma {:induction false} InnerKeeps(w: World, e: Env)
    requires Honest(e)
    ensures Kept(w.status, Inner(w, e).world.status) && Inner(w, e).world.status.observedGeneration == e.generation
  {
    ContentKeeps(w, e);
    var p := Content(w, e);
    if p.Go? {
      DeployKeeps(p.world, e);
      var q := Deploy(p.world, e);
      if q.Go? { ConcludeKeeps(q.world, e); }
    }
  }

  // ---- runs ----

  /** Generations only grow from call to call, starting from g. */
  ghost predicate Growing(g: nat, es: seq<Env>)
    decreases |es|
  {
    es != [] ==> g <= es[0].generation && Growing(es[0].generation, es[1..])
  }

  ghost function Latest(g: nat, es: seq<Env>): nat
    decreases |es|
  {
    if es == [] then g else Latest(es[0].generation, es[1..])
  }

  /** In every run, under any outcomes and with status writes failing or not, the status stays
      consistent, a HasValidBundle condition once there is there for good and never True, and the
      observed generation never exceeds the object's. */
  lemma {:induction false} RunKeepsConsistent(w: World, es: seq<Env>, g: nat)
    requires Consistent(w.status) && w.status.observedGeneration <= g && Growing(g, es)
    requires forall i :: 0 <= i < |es| ==> Honest(es[i])
    ensures Consistent(Run(w, es).status) && StillThere(w.status, Run(w, es).status)
    ensures Run(w, es).status.observedGeneration <= Latest(g, es)
    decreases |es|
  {
    if es != [] {
      InnerKeeps(w, es[0]);
      var w1 := Outer(w, es[0]).world;
      assert w1.status == w.status || w1.status == Inner(w, es[0]).world.status;
      RunKeepsConsistent(w1, es[1..], es[0].generation);
    }
  }

  /** The same, from the empty status a BundleDeployment is created with. */
  lemma {:induction false} ReachableStatus(name: string, es: seq<Env>)
    requires Growing(0, es) && forall i :: 0 <= i < |es| ==> Honest(es[i])
    ensures var s := Run(World(name, EMPTY_STATUS, [], None, {}), es).status;
            Consistent(s) && s.observedGeneration <= Latest(0, es)
  {
    assert Once([]) && Find([], UNPACKED) == None && Find([], HAS_VALID_BUNDLE) == None;
    RunKeepsConsistent(World(name, EMPTY_STATUS, [], None, {}), es, 0);
  }
}
