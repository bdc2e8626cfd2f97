/** The ConfigMap immutability protocol: two admission webhooks and the API server's own rule
    about immutable ConfigMaps, as one state machine over the ConfigMaps of the system
    namespace and the BundleDeployments of the cluster.  Each admission check and the write it
    guards is one step. */
module Admission {
  import opened Text
  import opened Paths
  import opened ConfigMapSource

  const IMAGE := "image"
  const GIT := "git"

  datatype BundleDeployment = BundleDeployment(name: string, source: Source)

  datatype Cluster = Cluster(bundles: map<string, Source>, configMaps: map<string, ConfigMap>)

  // ---- what the webhooks decide ----

  predicate IsImmutable(cm: ConfigMap) {
    cm.immutable == Some(true)
  }

  /** The references a source holds, whatever its type. */
  function Refs(src: Source): seq<Ref> {
    match src.configMaps
    case Some(refs) => refs
    case None => []
  }

  predicate RefersTo(src: Source, configMap: string) {
    exists i :: 0 <= i < |Refs(src)| && Refs(src)[i].configMap == configMap
  }

  /** A bundle of type configMaps that names the ConfigMap. */
  predicate DrawsOn(src: Source, configMap: string) {
    src.sourceType == CONFIG_MAPS && RefersTo(src, configMap)
  }

  predicate OutsideRoot(path: string) {
    "../" <= Clean(path)
  }

  /** A list call returned the BundleDeployments there are, in some order. */
  ghost predicate Enumerates(items: seq<BundleDeployment>, bundles: map<string, Source>) {
    && (forall i :: 0 <= i < |items| ==> items[i].name in bundles && bundles[items[i].name] == items[i].source)
    && (forall n :: n in bundles ==> BundleDeployment(n, bundles[n]) in items)
  }

  /** ConfigMap creation: immutable, or named by no bundle of type configMaps. */
  ghost predicate CreateAdmitted(bundles: map<string, Source>, readsOk: bool, name: string, cm: ConfigMap) {
    || IsImmutable(cm)
    || (readsOk && forall n :: n in bundles && bundles[n].sourceType == CONFIG_MAPS ==> !RefersTo(bundles[n], name))
  }

  /** ConfigMap deletion: listed by no bundle, of whatever type. */
  ghost predicate DeleteAdmitted(bundles: map<string, Source>, readsOk: bool, name: string) {
    readsOk && forall n :: n in bundles ==> !RefersTo(bundles[n], name)
  }

  /** A reference is acceptable if its path stays inside and its ConfigMap, if there, is immutable. */
  predicate RefAdmitted(configMaps: map<string, ConfigMap>, readsOk: bool, ref: Ref) {
    && !OutsideRoot(ref.path)
    && readsOk
    && (ref.configMap in configMaps ==> IsImmutable(configMaps[ref.configMap]))
  }

  /** BundleDeployment creation and update. */
  predicate SourceAdmitted(configMaps: map<string, ConfigMap>, readsOk: bool, src: Source) {
    if src.sourceType == IMAGE then src.image.Some?
    else if src.sourceType == GIT then src.gitDirectory.Some? && !OutsideRoot(src.gitDirectory.value)
    else if src.sourceType == CONFIG_MAPS then
      |Refs(src)| > 0 && forall i :: 0 <= i < |Refs(src)| ==> RefAdmitted(configMaps, readsOk, Refs(src)[i])
    else true
  }

  /** A bundle, of whatever type, lists a reference to the ConfigMap. */
  ghost predicate Lists(src: Source, configMap: string) {
    src.configMaps.Some? && exists ref :: ref in src.configMaps.value && ref.configMap == configMap
  }

  lemma {:induction false} ListsIff(src: Source, configMap: string)
    ensures Lists(src, configMap) <==> RefersTo(src, configMap)
  {
    if Lists(src, configMap) {
      var ref :| ref in src.configMaps.value && ref.configMap == configMap;
      var i :| 0 <= i < |Refs(src)| && Refs(src)[i] == ref;
    }
  }

  lemma {:induction false} ConfigMapAnswers(bundles: map<string, Source>, readsOk: bool, name: string, cm: ConfigMap)
    ensures CreateAdmitted(bundles, readsOk, name, cm)
            <==> || cm.immutable == Some(true)
                 || (readsOk && forall n :: n in bundles && Lists(bundles[n], name) ==>
                       bundles[n].sourceType != "configMaps")
    ensures DeleteAdmitted(bundles, readsOk, name)
            <==> readsOk && forall n :: n in bundles ==> !Lists(bundles[n], name)
  {
    forall n | n in bundles ensures Lists(bundles[n], name) <==> RefersTo(bundles[n], name) {
      ListsIff(bundles[n], name);
    }
  }

  // ---- the webhooks ----

  /** webhook.ConfigMap.ValidateCreate.  The referrers it reports are the bundles that name the
      ConfigMap, once for each reference. */
  method ValidateConfigMapCreate(name: string, cm: ConfigMap, list: Option<seq<BundleDeployment>>,
                                 ghost bundles: map<string, Source>)
    returns (admitted: bool, referrers: seq<string>)
    requires list.Some? ==> Enumerates(list.value, bundles)
    ensures admitted <==> CreateAdmitted(bundles, list.Some?, name, cm)
    ensures admitted
            <==> || cm.immutable == Some(true)
                 || (list != None && forall n :: n in bundles && Lists(bundles[n], name) ==>
                       bundles[n].sourceType != "configMaps")
    ensures !IsImmutable(cm) && list.Some? ==>
              forall n :: n in referrers
                          <==> n in bundles && bundles[n].sourceType == CONFIG_MAPS && RefersTo(bundles[n], name)
    ensures !admitted && list.Some? ==> referrers != []
  {
    referrers := [];
    ConfigMapAnswers(bundles, list.Some?, name, cm);
    if IsImmutable(cm) { return true, []; }
    if list.None? { return false, []; }
    var items := list.value;
    for i := 0 to |items|
      invariant forall n :: n in referrers ==>
        n in bundles && bundles[n].sourceType == CONFIG_MAPS && RefersTo(bundles[n], name)
      invariant forall k :: 0 <= k < i && DrawsOn(items[k].source, name) ==> items[k].name in referrers
    {
      if items[i].source.sourceType == CONFIG_MAPS {
        var refs := Refs(items[i].source);
        for j := 0 to |refs|
          invariant forall n :: n in referrers ==>
            n in bundles && bundles[n].sourceType == CONFIG_MAPS && RefersTo(bundles[n], name)
          invariant forall k :: 0 <= k < i && DrawsOn(items[k].source, name) ==> items[k].name in referrers
          invariant (exists k :: 0 <= k < j && refs[k].configMap == name) ==> items[i].name in referrers
        {
          if refs[j].configMap == name { referrers := referrers + [items[i].name]; }
        }
      }
    }
    admitted := |referrers| == 0;
    forall n | n in bundles && bundles[n].sourceType == CONFIG_MAPS && RefersTo(bundles[n], name)
      ensures n in referrers
    {
      assert BundleDeployment(n, bundles[n]) in items;
    }
    if !admitted { assert referrers[0] in referrers; }
  }

  /** webhook.ConfigMap.ValidateDelete. */
  method ValidateConfigMapDelete(name: string, list: Option<seq<BundleDeployment>>, ghost bundles: map<string, Source>)
    returns (admitted: bool)
    requires list.Some? ==> Enumerates(list.value, bundles)
    ensures admitted <==> DeleteAdmitted(bundles, list.Some?, name)
    ensures admitted <==> list != None && forall n :: n in bundles ==> !Lists(bundles[n], name)
  {
    ConfigMapAnswers(bundles, list.Some?, name, ConfigMap(None, map[], map[]));
    if list.None? { return false; }
    var items := list.value;
    for i := 0 to |items|
      invariant forall k :: 0 <= k < i ==> !RefersTo(items[k].source, name)
    {
      var refs := Refs(items[i].source);
      for j := 0 to |refs|
        invariant forall k :: 0 <= k < j ==> refs[k].configMap != name
      {
        if refs[j].configMap == name { return false; }
      }
    }
    forall n | n in bundles ensures !RefersTo(bundles[n], name) {
      assert BundleDeployment(n, bundles[n]) in items;
    }
    admitted := true;
  }

  /** webhook.BundleDeployment.checkBundleDeploymentSource; errors holds the offending indices,
      twice where both the path and the ConfigMap are at fault. */
  method CheckBundleDeploymentSource(src: Source, configMaps: map<string, ConfigMap>, readsOk: bool)
    returns (admitted: bool, errors: seq<nat>)
    ensures admitted <==> SourceAdmitted(configMaps, readsOk, src)
    ensures src.sourceType == "image" ==> (admitted <==> src.image != None)
    ensures src.sourceType == "git" ==>
              (admitted <==> src.gitDirectory != None && !("../" <= Clean(src.gitDirectory.value)))
    ensures src.sourceType == "configMaps" ==> (admitted <==> Dependable(configMaps, readsOk, src.configMaps))
    ensures src.sourceType !in ["image", "git", "configMaps"] ==> admitted
    ensures forall e :: e in errors <==>
            src.sourceType == CONFIG_MAPS && 0 <= e < |Refs(src)| && !RefAdmitted(configMaps, readsOk, Refs(src)[e])
  {
    errors := [];
    AdmittedByType(configMaps, readsOk, src);
    if src.sourceType == IMAGE { return src.image.Some?, []; }
    if src.sourceType == GIT { return src.gitDirectory.Some? && !OutsideRoot(src.gitDirectory.value), []; }
    if src.sourceType != CONFIG_MAPS { return true, []; }
    var refs := Refs(src);
    if |refs| == 0 { return false, []; }
    for i := 0 to |refs|
      invariant forall e :: e in errors <==> 0 <= e < i && !RefAdmitted(configMaps, readsOk, refs[e])
    {
      if OutsideRoot(refs[i].path) { errors := errors + [i]; }
      if !readsOk || (refs[i].configMap in configMaps && !IsImmutable(configMaps[refs[i].configMap])) {
        errors := errors + [i];
      }
    }
    admitted := |errors| == 0;
    assert !admitted ==> errors[0] in errors;
    assert admitted ==> forall i :: 0 <= i < |refs| ==> i !in errors;
  }

  /** References are listed, reads work, every path stays inside, and every named ConfigMap that
      exists is immutable. */
  predicate Dependable(configMaps: map<string, ConfigMap>, readsOk: bool, refs: Option<seq<Ref>>) {
    && refs.Some? && refs.value != [] && readsOk
    && forall ref :: ref in refs.value ==>
         !("../" <= Clean(ref.path))
         && (ref.configMap in configMaps ==> configMaps[ref.configMap].immutable == Some(true))
  }

  /** The answer for each type of source. */
  lemma {:induction false} AdmittedByType(configMaps: map<string, ConfigMap>, readsOk: bool, src: Source)
    ensures src.sourceType == "image" ==> (SourceAdmitted(configMaps, readsOk, src) <==> src.image != None)
    ensures src.sourceType == "git" ==>
              (SourceAdmitted(configMaps, readsOk, src)
               <==> src.gitDirectory != None && !("../" <= Clean(src.gitDirectory.value)))
    ensures src.sourceType == "configMaps" ==>
              (SourceAdmitted(configMaps, readsOk, src) <==> Dependable(configMaps, readsOk, src.configMaps))
    ensures src.sourceType !in ["image", "git", "configMaps"] ==> SourceAdmitted(configMaps, readsOk, src)
  {
    TypesApart();
    var refs := Refs(src);
    if src.sourceType == "configMaps" && SourceAdmitted(configMaps, readsOk, src) {
      assert RefAdmitted(configMaps, readsOk, refs[0]);
      forall ref | ref in refs ensures RefAdmitted(configMaps, readsOk, ref) {
        var i :| 0 <= i < |refs| && refs[i] == ref;
      }
    }
  }

  lemma {:induction false} TypesApart()
    ensures IMAGE != GIT && IMAGE != CONFIG_MAPS && GIT != CONFIG_MAPS
  {
    assert IMAGE[0] == 'i' && GIT[0] == 'g' && CONFIG_MAPS[0] == 'c';
  }

  // ---- the state machine ----

  datatype Operation =
    | CreateBundle(name: string, source: Source)
    | UpdateBundle(name: string, source: Source)
    | DeleteBundle(name: string)
    | CreateConfigMap(name: string, cm: ConfigMap)
    | UpdateConfigMap(name: string, cm: ConfigMap)
    | DeleteConfigMap(name: string)

  /** A request, and whether the webhook's own reads succeed while it is decided. */
  datatype Request = Request(op: Operation, readsOk: bool)

  /** The API server never changes the flag or the data of an immutable ConfigMap. */
  predicate ImmutableKept(before: ConfigMap, after: ConfigMap) {
    IsImmutable(before) ==> IsImmutable(after) && SameData(before, after)
  }

  ghost predicate Allowed(s: Cluster, r: Request) {
    match r.op
    case CreateBundle(n, src) => n !in s.bundles && SourceAdmitted(s.configMaps, r.readsOk, src)
    case UpdateBundle(n, src) => n in s.bundles && SourceAdmitted(s.configMaps, r.readsOk, src)
    case DeleteBundle(n) => n in s.bundles
    case CreateConfigMap(n, cm) =>
      n !in s.configMaps && ValidConfigMap(cm) && CreateAdmitted(s.bundles, r.readsOk, n, cm)
    case UpdateConfigMap(n, cm) => n in s.configMaps && ValidConfigMap(cm) && ImmutableKept(s.configMaps[n], cm)
    case DeleteConfigMap(n) => n in s.configMaps && DeleteAdmitted(s.bundles, r.readsOk, n)
  }

  ghost function Apply(s: Cluster, r: Request): Cluster {
    if !Allowed(s, r) then s
    else match r.op
      case CreateBundle(n, src) => s.(bundles := s.bundles[n := src])
      case UpdateBundle(n, src) => s.(bundles := s.bundles[n := src])
      case DeleteBundle(n) => s.(bundles := s.bundles - {n})
      case CreateConfigMap(n, cm) => s.(configMaps := s.configMaps[n := cm])
      case UpdateConfigMap(n, cm) => s.(configMaps := s.configMaps[n := cm])
      case DeleteConfigMap(n) => s.(configMaps := s.configMaps - {n})
  }

  /** What a request on a bundle leads to: a new one and a new source are there exactly when the webhook
      admits the source, and a deletion always goes through.  Nothing else changes. */
  lemma {:induction false} BundleEffects(s: Cluster, readsOk: bool, n: string, src: Source)
    ensures n !in s.bundles ==>
              var t := Apply(s, Request(CreateBundle(n, src), readsOk));
              t == if SourceAdmitted(s.configMaps, readsOk, src) then s.(bundles := s.bundles[n := src]) else s
    ensures n in s.bundles ==>
              var t := Apply(s, Request(UpdateBundle(n, src), readsOk));
              t == if SourceAdmitted(s.configMaps, readsOk, src) then s.(bundles := s.bundles[n := src]) else s
    ensures Apply(s, Request(DeleteBundle(n), readsOk)) == s.(bundles := s.bundles - {n})
  {
    assert n !in s.bundles ==> s.bundles - {n} == s.bundles;
  }

  /** What a request on a ConfigMap leads to: a valid new one is there if it is immutable or no
      configMaps bundle names it; a mutable one may become anything valid, an immutable one only what
      keeps flag and data; one that no bundle names can go. */
  lemma {:induction false} ConfigMapEffects(s: Cluster, readsOk: bool, n: string, cm: ConfigMap)
    requires ValidConfigMap(cm)
    ensures n !in s.configMaps ==>
              var t := Apply(s, Request(CreateConfigMap(n, cm), readsOk));
              t == if CreateAdmitted(s.bundles, readsOk, n, cm) then s.(configMaps := s.configMaps[n := cm]) else s
    ensures n in s.configMaps ==>
              var t, was := Apply(s, Request(UpdateConfigMap(n, cm), readsOk)), s.configMaps[n];
              t == if was.immutable != Some(true) || (cm.immutable == Some(true) && SameData(was, cm))
                   then s.(configMaps := s.configMaps[n := cm]) else s
    ensures var t := Apply(s, Request(DeleteConfigMap(n), readsOk));
            t == if DeleteAdmitted(s.bundles, readsOk, n) then s.(configMaps := s.configMaps - {n}) else s
  {
    assert n !in s.configMaps ==> s.configMaps - {n} == s.configMaps;
  }

  ghost function Run(s: Cluster, rs: seq<Request>): Cluster
    decreases |rs|
  {
    if rs == [] then s else Run(Apply(s, rs[0]), rs[1..])
  }

  const EMPTY := Cluster(map[], map[])

  /** Every existing ConfigMap that a bundle of type configMaps names is immutable. */
  ghost predicate ReferencedAreImmutable(s: Cluster) {
    forall b, c :: b in s.bundles && c in s.configMaps && s.bundles[b].sourceType == CONFIG_MAPS
      && RefersTo(s.bundles[b], c)
      ==> IsImmutable(s.configMaps[c])
  }

  ghost predicate Sound(s: Cluster) {
    ReferencedAreImmutable(s) && ValidConfigMaps(s.configMaps)
  }

  lemma {:induction false} StepKeepsSound(s: Cluster, r: Request)
    requires Sound(s)
    ensures Sound(Apply(s, r))
  {
    var t := Apply(s, r);
    forall b, c | b in t.bundles && c in t.configMaps && t.bundles[b].sourceType == CONFIG_MAPS
      && RefersTo(t.bundles[b], c)
      ensures IsImmutable(t.configMaps[c])
    {
      if (r.op.CreateBundle? || r.op.UpdateBundle?) && r.op.name == b && Allowed(s, r) {
        var i :| 0 <= i < |Refs(t.bundles[b])| && Refs(t.bundles[b])[i].configMap == c;
        assert RefAdmitted(s.configMaps, r.readsOk, Refs(t.bundles[b])[i]);
      } else {
        assert b in s.bundles && s.bundles[b] == t.bundles[b];
      }
    }
  }

  /** In every run from the empty cluster, existing referenced ConfigMaps are immutable. */
  lemma {:induction false} RunKeepsSound(s: Cluster, rs: seq<Request>)
    requires Sound(s)
    ensures Sound(Run(s, rs))
    decreases |rs|
  {
    if rs != [] {
      StepKeepsSound(s, rs[0]);
      RunKeepsSound(Apply(s, rs[0]), rs[1..]);
    }
  }

  /** A bundle keeps one source at every point of a run. */
  ghost predicate Keeps(s: Cluster, rs: seq<Request>, bundle: string, src: Source)
    decreases |rs|
  {
    && bundle in s.bundles && s.bundles[bundle] == src
    && (rs != [] ==> Keeps(Apply(s, rs[0]), rs[1..], bundle, src))
  }

  /** One step neither deletes nor alters a ConfigMap that a configMaps bundle names. */
  lemma {:induction false} StepPinsConfigMap(s: Cluster, r: Request, bundle: string, c: string)
    requires Sound(s) && bundle in s.bundles
    requires s.bundles[bundle].sourceType == CONFIG_MAPS && RefersTo(s.bundles[bundle], c)
    requires c in s.configMaps
    ensures c in Apply(s, r).configMaps && SameData(s.configMaps[c], Apply(s, r).configMaps[c])
  {
    assert IsImmutable(s.configMaps[c]);
  }

  /** While a bundle's spec stands, the ConfigMaps it names that exist stay, with their data. */
  lemma {:induction false} RunPinsConfigMap(s: Cluster, rs: seq<Request>, bundle: string, src: Source, c: string)
    requires Sound(s) && Keeps(s, rs, bundle, src) && src.sourceType == CONFIG_MAPS && RefersTo(src, c)
    requires c in s.configMaps
    ensures c in Run(s, rs).configMaps && SameData(s.configMaps[c], Run(s, rs).configMaps[c])
    decreases |rs|
  {
    if rs != [] {
      StepPinsConfigMap(s, rs[0], bundle, c);
      StepKeepsSound(s, rs[0]);
      RunPinsConfigMap(Apply(s, rs[0]), rs[1..], bundle, src, c);
    }
  }

  /** The protocol's promise.  Take any run from the empty cluster, a bundle whose source could
      be unpacked at its end, and any continuation during which the bundle keeps that source:
      it can still be unpacked, and any two successful unpacks, one then and one now, return the
      same files. */
  lemma {:induction false} BundleContentIsStable(before: seq<Request>, after: seq<Request>, bundle: string, src: Source,
                              fs1: map<string, Content>, fs2: map<string, Content>)
    requires var s := Run(EMPTY, before);
             && Keeps(s, after, bundle, src) && Unpackable(src, s.configMaps)
             && Realizes(AllFiles(s.configMaps, src.configMaps.value), fs1)
    ensures var t := Run(Run(EMPTY, before), after);
            && Unpackable(src, t.configMaps)
            && (Realizes(AllFiles(t.configMaps, src.configMaps.value), fs2) ==> fs1 == fs2)
  {
    var s := Run(EMPTY, before);
    RunKeepsSound(EMPTY, before);
    var t := Run(s, after);
    var refs := src.configMaps.value;
    forall r | r in refs
      ensures r.configMap in t.configMaps && SameData(s.configMaps[r.configMap], t.configMaps[r.configMap])
    {
      var i :| 0 <= i < |refs| && refs[i] == r;
      assert Refs(src)[i].configMap == r.configMap;
      RunPinsConfigMap(s, after, bundle, src, r.configMap);
    }
    SameFiles(s.configMaps, refs, t.configMaps, refs);
    if Realizes(AllFiles(t.configMaps, refs), fs2) {
      UnpackDetermined(s.configMaps, refs, fs1, t.configMaps, refs, fs2);
    }
  }
}
