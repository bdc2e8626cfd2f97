/** A BundleDeployment whose content comes from ConfigMaps, under admitted requests and reconciles in
    any order: the admission protocol keeps its content, so the first success freezes its release. */
module StableRelease {
  import opened ConfigMapSource
  import opened Reconciler
  import opened ReconcilerRuns
  import opened ReconcilerFixpoint
  import Admission

  type Files = map<string, ConfigMapSource.Content>

  /** A request to the API server, or a reconcile together with the files it unpacks. */
  datatype Step = Asked(request: Admission.Request) | Reconciled(env: Env, files: Files)

  function Envs(steps: seq<Step>): seq<Env>
    decreases |steps|
  {
    if steps == [] then []
    else (if steps[0].Reconciled? then [steps[0].env] else []) + Envs(steps[1..])
  }

  predicate Unpacks(e: Env) {
    e.unpack.UnpackResult? && e.unpack.state == STATE_UNPACKED
  }

  /** A reconcile that unpacks gets files the ConfigMaps hold at that moment, and everything after
      that answers as those files make it answer.  One that does not unpack is not constrained. */
  ghost predicate Unpacked(s: Admission.Cluster, src: Source, rendered: Files -> Desired, e: Env, fs: Files) {
    Unpacks(e) ==>
      && Unpackable(src, s.configMaps) && Realizes(AllFiles(s.configMaps, src.configMaps.value), fs)
      && Follows(e, rendered(fs))
  }

  /** The bundle keeps its source throughout, and every reconcile unpacks what is there. */
  ghost predicate Possible(s: Admission.Cluster, steps: seq<Step>, bundle: string, src: Source,
                           rendered: Files -> Desired)
    decreases |steps|
  {
    && bundle in s.bundles && s.bundles[bundle] == src
    && (steps != [] ==>
          match steps[0]
          case Asked(r) => Possible(Admission.Apply(s, r), steps[1..], bundle, src, rendered)
          case Reconciled(e, fs) =>
            Unpacked(s, src, rendered, e, fs) && Possible(s, steps[1..], bundle, src, rendered))
  }

  // ---- runs with one more request ----

  lemma {:induction false} KeepsAppend(s: Admission.Cluster, rs: seq<Admission.Request>, r: Admission.Request,
                                       bundle: string, src: Source)
    requires Admission.Keeps(s, rs, bundle, src)
    requires var t := Admission.Apply(Admission.Run(s, rs), r); bundle in t.bundles && t.bundles[bundle] == src
    ensures Admission.Keeps(s, rs + [r], bundle, src)
    ensures Admission.Run(s, rs + [r]) == Admission.Apply(Admission.Run(s, rs), r)
    decreases |rs|
  {
    if rs == [] {
      assert (rs + [r])[1..] == [];
      var t := Admission.Apply(s, r);
      assert Admission.Keeps(t, [], bundle, src) && Admission.Run(t, []) == t;
    } else {
      assert (rs + [r])[1..] == rs[1..] + [r];
      KeepsAppend(Admission.Apply(s, rs[0]), rs[1..], r, bundle, src);
    }
  }

  // ---- the release ----

  /** A reconcile that does not unpack ends there: the release stays and nothing acts on it. */
  lemma {:induction false} NotUnpackedLeavesRelease(w: World, e: Env)
    requires !Unpacks(e)
    ensures Outer(w, e).world.release == w.release && ChangesNothing(Outer(w, e).trace)
  {
    ContentTrace(w, e);
    ContentKeepsRelease(w, e);
    assert Reconciler.Content(w, e).Stop?;
    OuterTrace(w, e);
  }

  lemma {:induction false} Frozen(before: seq<Admission.Request>, since: seq<Admission.Request>, steps: seq<Step>,
                                  bundle: string, src: Source, rendered: Files -> Desired, fs: Files, w: World)
    requires var s := Admission.Run(Admission.EMPTY, before);
             && Unpackable(src, s.configMaps) && Realizes(AllFiles(s.configMaps, src.configMaps.value), fs)
             && Admission.Keeps(s, since, bundle, src)
             && Possible(Admission.Run(s, since), steps, bundle, src, rendered)
    requires ReleaseSettled(w.release, rendered(fs))
    ensures Run(w, Envs(steps)).release == w.release && ChangesNothing(RunTrace(w, Envs(steps)))
    decreases |steps|
  {
    if steps != [] {
      var s := Admission.Run(Admission.EMPTY, before);
      match steps[0] {
        case Asked(r) =>
          assert Envs(steps) == Envs(steps[1..]);
          KeepsAppend(s, since, r, bundle, src);
          Frozen(before, since + [r], steps[1..], bundle, src, rendered, fs, w);
        case Reconciled(e, now) =>
          var es := Envs(steps);
          assert es[0] == e && es[1..] == Envs(steps[1..]);
          if Unpacks(e) {
            Admission.BundleContentIsStable(before, since, bundle, src, fs, now);
            SettledReleaseStays(w, e, rendered(fs));
          } else {
            NotUnpackedLeavesRelease(w, e);
          }
          Frozen(before, since, steps[1..], bundle, src, rendered, fs, Outer(w, e).world);
      }
    }
  }

  /** After any requests, let a reconcile unpack files and succeed.  Then, for as long as the bundle
      keeps its source, whatever else is requested in between and whatever fails, the release keeps
      the manifest rendered from those files and no reconcile installs or upgrades. */
  lemma {:induction false} ContentFreezesRelease(before: seq<Admission.Request>, steps: seq<Step>, bundle: string,
                                                 src: Source, rendered: Files -> Desired, w: World, e: Env, fs: Files)
    requires var s := Admission.Run(Admission.EMPTY, before);
             Unpacked(s, src, rendered, e, fs) && Possible(s, steps, bundle, src, rendered)
    requires Succeeds(w, e)
    ensures var w1 := Outer(w, e).world;
            && ReleaseSettled(w1.release, rendered(fs))
            && Run(w1, Envs(steps)).release == w1.release && ChangesNothing(RunTrace(w1, Envs(steps)))
  {
    SuccessSettlesRelease(w, e, rendered(fs));
    Frozen(before, [], steps, bundle, src, rendered, fs, Outer(w, e).world);
  }
}
