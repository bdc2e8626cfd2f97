/** Conversion of a registry+v1 bundle into plain objects: service accounts, RBAC objects named
    after the content of the permission they stand for, CRDs, other manifests and deployments. */
module Convert {
  import opened Text
  import opened Naming

  // ---- what the bundle says ----

  datatype PolicyRule = PolicyRule(verbs: seq<string>, apiGroups: seq<string>, resources: seq<string>,
                                   resourceNames: seq<string>, nonResourceURLs: seq<string>)

  datatype Permission = Permission(serviceAccountName: string, rules: seq<PolicyRule>)

  datatype InstallMode = InstallMode(modeType: string, supported: bool)

  /** A deployment of the install strategy; body stands for the parts conversion copies. */
  datatype DeploymentSpec = DeploymentSpec(name: string, labels: map<string, string>,
                                           templateAnnotations: map<string, string>,
                                           serviceAccountName: string, body: string)

  datatype CSV = CSV(name: string, annotations: map<string, string>, installModes: seq<InstallMode>,
                     ownedAPIServices: seq<string>, webhookDefinitions: seq<string>,
                     deployments: seq<DeploymentSpec>,
                     permissions: seq<Permission>, clusterPermissions: seq<Permission>)

  datatype Subject = Subject(namespace: string, name: string)

  /** What a manifest holds besides its kind and name.  Of RBAC manifests the rules, the service
      accounts bound and the role referred to are told apart; anything else is text. */
  datatype Body =
    | Plain(text: string)
    | RoleBody(rules: seq<PolicyRule>)
    | BindingBody(subjects: seq<Subject>, refKind: string, refName: string)

  datatype Resource = Resource(kind: string, name: string, namespace: string, body: Body)

  datatype RegistryV1 = RegistryV1(packageName: string, csv: CSV, crds: seq<Resource>, others: seq<Resource>)

  /** The two libraries conversion calls: hashing a permission (which may fail to encode), and
      the kinds a bundle may hold, each marked namespaced or not. */
  datatype Library = Library(digest: Permission -> Option<Digest>, kinds: map<string, bool>)

  // ---- what conversion emits ----

  datatype Object =
    | ServiceAccount(namespace: string, name: string)
    | Role(namespace: string, name: string, rules: seq<PolicyRule>)
    | RoleBinding(namespace: string, name: string, subjects: seq<Subject>, roleRef: string)
    | ClusterRole(name: string, rules: seq<PolicyRule>)
    | ClusterRoleBinding(name: string, subjects: seq<Subject>, roleRef: string)
    | CRD(crd: Resource)
    | Other(resource: Resource)
    | Deployment(namespace: string, name: string, labels: map<string, string>,
                 annotations: map<string, string>, spec: DeploymentSpec)

  datatype Error = TargetsUnsupported | APIServicesUnsupported | WebhooksUnsupported | HashFailed | KindUnsupported

  const ALL_NAMESPACES := "AllNamespaces"
  const OWN_NAMESPACE := "OwnNamespace"
  const SINGLE_NAMESPACE := "SingleNamespace"
  const MULTI_NAMESPACE := "MultiNamespace"
  const SUGGESTED_NAMESPACE := "operatorframework.io/suggested-namespace"
  const TARGET_NAMESPACES := "olm.targetNamespaces"
  const DEFAULT_ACCOUNT := "default"

  // ---- install namespace, modes and targets ----

  function InstallNamespace(b: RegistryV1, requested: string): (ns: string)
    ensures ns != ""
    ensures requested != "" ==> ns == requested
    ensures var a := b.csv.annotations;
            var key := "operatorframework.io/suggested-namespace";
            && (requested == "" && key in a && a[key] != "" ==> ns == a[key])
            && (requested == "" && (key !in a || a[key] == "") ==> ns == b.packageName + "-system")
  {
    if requested != "" then requested
    else if Suggested(b) != "" then Suggested(b)
    else b.packageName + "-system"
  }

  /** The suggested-namespace annotation; a missing one reads as empty. */
  function Suggested(b: RegistryV1): string {
    if SUGGESTED_NAMESPACE in b.csv.annotations then b.csv.annotations[SUGGESTED_NAMESPACE] else ""
  }

  function SupportedModes(modes: seq<InstallMode>): set<string> {
    set m | m in modes && m.supported :: m.modeType
  }

  function EffectiveTargets(modes: set<string>, ns: string, targets: seq<string>): seq<string> {
    if targets != [] then targets
    else if ALL_NAMESPACES in modes then [""]
    else if OWN_NAMESPACE in modes then [ns]
    else []
  }

  /** convert.validateTargetNamespaces: true where the source returns nil. */
  predicate TargetsAccepted(modes: set<string>, ns: string, targets: seq<string>) {
    var names := set t | t in targets;
    if |names| == 0 || (|names| == 1 && "" in names) then ALL_NAMESPACES in modes
    else if |names| == 1 && "" !in names then
      SINGLE_NAMESPACE in modes || (OWN_NAMESPACE in modes && |targets| > 0 && targets[0] == ns)
    else MULTI_NAMESPACE in modes && "" !in names
  }

  /** The bundle supports an install mode. */
  ghost predicate Supports(b: RegistryV1, mode: string) {
    exists m :: m in b.csv.installModes && m.modeType == mode && m.supported
  }

  /** The target lists some install mode allows, said without set sizes: only "", only one other
      namespace, or several, none of them "". */
  ghost predicate ModeAllows(b: RegistryV1, ns: string, ts: seq<string>) {
    || ((forall t :: t in ts ==> t == "") && Supports(b, ALL_NAMESPACES))
    || (exists a :: a != "" && a in ts && (forall t :: t in ts ==> t == a)
          && (Supports(b, SINGLE_NAMESPACE) || (Supports(b, OWN_NAMESPACE) && a == ns)))
    || ((exists a, c :: a in ts && c in ts && a != c) && "" !in ts && Supports(b, MULTI_NAMESPACE))
  }

  lemma {:induction false} SupportedModesAre(b: RegistryV1, mode: string)
    ensures mode in SupportedModes(b.csv.installModes) <==> Supports(b, mode)
  {
  }

  /** A set of names has one element exactly when the list repeats one name. */
  lemma {:induction false} OneName(ts: seq<string>)
    ensures var names := set t | t in ts;
            && (|names| == 0 <==> ts == [])
            && (|names| == 1 <==> ts != [] && forall t :: t in ts ==> t == ts[0])
  {
    var names := set t | t in ts;
    if ts != [] {
      assert ts[0] in names;
      if forall t :: t in ts ==> t == ts[0] { assert names == {ts[0]}; }
      if |names| == 1 {
        assert |names - {ts[0]}| == 0;
        forall t | t in ts ensures t == ts[0] { assert t in names && t !in names - {ts[0]}; }
      }
    } else {
      assert names == {};
    }
  }

  /** A target list is accepted exactly when some supported install mode allows it; the empty list
      counts as all namespaces. */
  lemma {:induction false} AcceptedTargets(b: RegistryV1, ns: string, ts: seq<string>)
    ensures TargetsAccepted(SupportedModes(b.csv.installModes), ns, ts) <==> ModeAllows(b, ns, ts)
  {
    OneName(ts);
    SupportedModesAre(b, ALL_NAMESPACES);
    SupportedModesAre(b, SINGLE_NAMESPACE);
    SupportedModesAre(b, OWN_NAMESPACE);
    SupportedModesAre(b, MULTI_NAMESPACE);
    if ts != [] { assert ts[0] in ts; }
  }

  /** The targets conversion works for: the requested ones; with none requested, every namespace if
      AllNamespaces is supported, else the install namespace if OwnNamespace is, else none. */
  lemma {:induction false} TargetsAre(b: RegistryV1, requested: string, targets: seq<string>)
    ensures var ns, ts := InstallNamespace(b, requested), Targets(b, requested, targets);
            && (targets != [] ==> ts == targets)
            && (targets == [] && Supports(b, ALL_NAMESPACES) ==> ts == [""])
            && (targets == [] && !Supports(b, ALL_NAMESPACES) && Supports(b, OWN_NAMESPACE) ==> ts == [ns])
            && (targets == [] && !Supports(b, ALL_NAMESPACES) && !Supports(b, OWN_NAMESPACE) ==>
                  ts == [] && !TargetsAccepted(SupportedModes(b.csv.installModes), ns, ts))
            && (TargetsAccepted(SupportedModes(b.csv.installModes), ns, ts) ==> ts != [])
  {
    SupportedModesAre(b, ALL_NAMESPACES);
    SupportedModesAre(b, OWN_NAMESPACE);
    OneName(Targets(b, requested, targets));
  }

  // ---- names and accounts ----

  function AccountName(name: string): string {
    if name == "" then DEFAULT_ACCOUNT else name
  }

  function Account(p: Permission): string {
    AccountName(p.serviceAccountName)
  }

  /** The generated name of a permission; the empty text where hashing failed, in which case
      conversion fails as a whole. */
  function NameOf(b: RegistryV1, lib: Library, p: Permission): string {
    match lib.digest(p)
    case Some(d) => GenerateName(b.csv.name + "-" + Account(p), d)
    case None => ""
  }

  ghost function DeploymentAccounts(ds: seq<DeploymentSpec>): set<string> {
    set d | d in ds :: AccountName(d.serviceAccountName)
  }

  ghost function PermissionAccounts(ps: seq<Permission>): set<string> {
    set p | p in ps :: Account(p)
  }

  ghost function AccountNames(b: RegistryV1): set<string> {
    DeploymentAccounts(b.csv.deployments) + PermissionAccounts(b.csv.permissions + b.csv.clusterPermissions)
  }

  ghost function NamedAccounts(ns: string, names: set<string>): set<Object> {
    set n | n in names && n != DEFAULT_ACCOUNT :: ServiceAccount(ns, n)
  }

  /** The service accounts that are emitted: all that are mentioned but "default". */
  ghost function EmittedAccounts(b: RegistryV1, ns: string): set<Object> {
    NamedAccounts(ns, AccountNames(b))
  }

  // ---- RBAC objects ----

  predicate Promoted(ts: seq<string>) {
    ts == [""]
  }

  /** Permissions emitted per target namespace, and cluster-wide. */
  function Namespaced(b: RegistryV1, ts: seq<string>): seq<Permission> {
    if Promoted(ts) then [] else b.csv.permissions
  }

  function ClusterWide(b: RegistryV1, ts: seq<string>): seq<Permission> {
    b.csv.clusterPermissions + (if Promoted(ts) then b.csv.permissions else [])
  }

  datatype Grant = Grant(namespace: string, permission: Permission)

  function GrantsIn(ns: string, ps: seq<Permission>): seq<Grant> {
    seq(|ps|, i requires 0 <= i < |ps| => Grant(ns, ps[i]))
  }

  function AllGrants(ts: seq<string>, ps: seq<Permission>): seq<Grant> {
    if ts == [] then [] else AllGrants(ts[..|ts| - 1], ps) + GrantsIn(ts[|ts| - 1], ps)
  }

  function NewRole(b: RegistryV1, lib: Library, g: Grant): Object {
    Role(g.namespace, NameOf(b, lib, g.permission), g.permission.rules)
  }

  function NewRoleBinding(b: RegistryV1, lib: Library, ns: string, g: Grant): Object {
    var name := NameOf(b, lib, g.permission);
    RoleBinding(g.namespace, name, [Subject(ns, Account(g.permission))], name)
  }

  function NewClusterRole(b: RegistryV1, lib: Library, p: Permission): Object {
    ClusterRole(NameOf(b, lib, p), p.rules)
  }

  function NewClusterRoleBinding(b: RegistryV1, lib: Library, ns: string, p: Permission): Object {
    var name := NameOf(b, lib, p);
    ClusterRoleBinding(name, [Subject(ns, Account(p))], name)
  }

  function Roles(b: RegistryV1, lib: Library, gs: seq<Grant>): seq<Object> {
    seq(|gs|, i requires 0 <= i < |gs| => NewRole(b, lib, gs[i]))
  }

  function RoleBindings(b: RegistryV1, lib: Library, ns: string, gs: seq<Grant>): seq<Object> {
    seq(|gs|, i requires 0 <= i < |gs| => NewRoleBinding(b, lib, ns, gs[i]))
  }

  function ClusterRoles(b: RegistryV1, lib: Library, ps: seq<Permission>): seq<Object> {
    seq(|ps|, i requires 0 <= i < |ps| => NewClusterRole(b, lib, ps[i]))
  }

  function ClusterRoleBindings(b: RegistryV1, lib: Library, ns: string, ps: seq<Permission>): seq<Object> {
    seq(|ps|, i requires 0 <= i < |ps| => NewClusterRoleBinding(b, lib, ns, ps[i]))
  }

  // ---- the other objects ----

  function NewOther(lib: Library, ns: string, r: Resource): Object {
    if r.kind in lib.kinds && lib.kinds[r.kind] then Other(r.(namespace := ns)) else Other(r)
  }

  function NewDeployment(b: RegistryV1, ns: string, ts: seq<string>, d: DeploymentSpec): Object {
    var merged := b.csv.annotations + d.templateAnnotations;
    Deployment(ns, d.name, d.labels, merged[TARGET_NAMESPACES := Join(ts, ',')], d)
  }

  function CRDs(crds: seq<Resource>): seq<Object> {
    seq(|crds|, i requires 0 <= i < |crds| => CRD(crds[i]))
  }

  function Others(lib: Library, ns: string, others: seq<Resource>): seq<Object> {
    seq(|others|, i requires 0 <= i < |others| => NewOther(lib, ns, others[i]))
  }

  function Deployments(b: RegistryV1, ns: string, ts: seq<string>, ds: seq<DeploymentSpec>): seq<Object> {
    seq(|ds|, i requires 0 <= i < |ds| => NewDeployment(b, ns, ts, ds[i]))
  }

  /** Everything emitted after the service accounts, in order. */
  function Rbac(b: RegistryV1, lib: Library, ns: string, ts: seq<string>): seq<Object> {
    var gs := AllGrants(ts, Namespaced(b, ts));
    var ps := ClusterWide(b, ts);
    Roles(b, lib, gs) + RoleBindings(b, lib, ns, gs) + ClusterRoles(b, lib, ps) + ClusterRoleBindings(b, lib, ns, ps)
  }

  function Content(b: RegistryV1, lib: Library, ns: string, ts: seq<string>): seq<Object> {
    CRDs(b.crds) + Others(lib, ns, b.others) + Deployments(b, ns, ts, b.csv.deployments)
  }

  // ---- the contract of Convert ----

  predicate Hashable(lib: Library, ps: seq<Permission>) {
    forall i :: 0 <= i < |ps| ==> lib.digest(ps[i]).Some?
  }

  predicate Supported(lib: Library, rs: seq<Resource>) {
    forall i :: 0 <= i < |rs| ==> rs[i].kind in lib.kinds
  }

  /** When conversion succeeds. */
  ghost predicate Convertible(b: RegistryV1, lib: Library, ns: string, ts: seq<string>) {
    && TargetsAccepted(SupportedModes(b.csv.installModes), ns, ts)
    && b.csv.ownedAPIServices == [] && b.csv.webhookDefinitions == []
    && Hashable(lib, b.csv.permissions) && Hashable(lib, b.csv.clusterPermissions)
    && Supported(lib, b.others)
  }

  /** The outputs of a successful conversion: the emitted service accounts in any order, each
      once, then the rest in a fixed order. */
  ghost predicate IsOutput(b: RegistryV1, lib: Library, ns: string, ts: seq<string>, objs: seq<Object>) {
    var n := |EmittedAccounts(b, ns)|;
    && n <= |objs|
    && multiset(objs[..n]) == multiset(EmittedAccounts(b, ns))
    && objs[n..] == Rbac(b, lib, ns, ts) + Content(b, lib, ns, ts)
  }

  ghost function Targets(b: RegistryV1, requested: string, targets: seq<string>): seq<string> {
    EffectiveTargets(SupportedModes(b.csv.installModes), InstallNamespace(b, requested), targets)
  }

  // ---- the conversion itself ----

  /** accounts holds, under each of the names, that service account. */
  ghost predicate HoldsAccounts(accounts: map<string, Object>, ns: string, names: set<string>) {
    accounts.Keys == names && forall n :: n in accounts ==> accounts[n] == ServiceAccount(ns, n)
  }

  lemma {:induction false} DeploymentAccountsAppend(ds: seq<DeploymentSpec>, i: nat)
    requires i < |ds|
    ensures DeploymentAccounts(ds[..i + 1]) == DeploymentAccounts(ds[..i]) + {AccountName(ds[i].serviceAccountName)}
  {
    assert ds[..i + 1] == ds[..i] + [ds[i]];
  }

  lemma {:induction false} PermissionAccountsAppend(ps: seq<Permission>, i: nat)
    requires i < |ps|
    ensures PermissionAccounts(ps[..i + 1]) == PermissionAccounts(ps[..i]) + {Account(ps[i])}
  {
    assert ps[..i + 1] == ps[..i] + [ps[i]];
  }

  /** The deployment loop. */
  method CollectDeployments(b: RegistryV1, ns: string, ts: seq<string>)
    returns (deployments: seq<Object>, accounts: map<string, Object>)
    ensures deployments == Deployments(b, ns, ts, b.csv.deployments)
    ensures HoldsAccounts(accounts, ns, DeploymentAccounts(b.csv.deployments))
  {
    deployments, accounts := [], map[];
    var ds := b.csv.deployments;
    for i := 0 to |ds|
      invariant deployments == Deployments(b, ns, ts, ds[..i])
      invariant HoldsAccounts(accounts, ns, DeploymentAccounts(ds[..i]))
    {
      DeploymentAccountsAppend(ds, i);
      deployments := deployments + [NewDeployment(b, ns, ts, ds[i])];
      var name := AccountName(ds[i].serviceAccountName);
      accounts := accounts[name := ServiceAccount(ns, name)];
    }
    assert ds[..|ds|] == ds;
  }

  /** The service-account loop over all permissions. */
  method CollectAccounts(b: RegistryV1, ns: string, collected: map<string, Object>)
    returns (accounts: map<string, Object>)
    requires HoldsAccounts(collected, ns, DeploymentAccounts(b.csv.deployments))
    ensures HoldsAccounts(accounts, ns, AccountNames(b))
  {
    accounts := collected;
    ghost var names := DeploymentAccounts(b.csv.deployments);
    var all := b.csv.permissions + b.csv.clusterPermissions;
    for i := 0 to |all|
      invariant HoldsAccounts(accounts, ns, names + PermissionAccounts(all[..i]))
    {
      PermissionAccountsAppend(all, i);
      var name := Account(all[i]);
      if name !in accounts {
        accounts := accounts[name := ServiceAccount(ns, name)];
      }
    }
    assert all[..|all|] == all;
  }

  ghost predicate Distinct(objs: seq<Object>) {
    forall i, j :: 0 <= i < j < |objs| ==> objs[i] != objs[j]
  }

  /** Ranging over the account map in an order of the runtime's choosing. */
  method EmitAccounts(accounts: map<string, Object>, ghost ns: string) returns (objs: seq<Object>)
    requires HoldsAccounts(accounts, ns, accounts.Keys)
    ensures Distinct(objs)
    ensures forall o :: o in objs <==> o in NamedAccounts(ns, accounts.Keys)
  {
    objs := [];
    var todo := accounts.Keys;
    while todo != {}
      invariant todo <= accounts.Keys && Distinct(objs)
      invariant forall o :: o in objs ==>
        o.ServiceAccount? && o.name in accounts.Keys - todo && o.name != DEFAULT_ACCOUNT && o == accounts[o.name]
      invariant forall n :: n in accounts && n !in todo && n != DEFAULT_ACCOUNT ==> accounts[n] in objs
    {
      var name :| name in todo;
      todo := todo - {name};
      if name != DEFAULT_ACCOUNT { objs := objs + [accounts[name]]; }
    }
  }

  /** A list of distinct objects with the members of a set holds each of them once. */
  lemma {:induction false} DistinctAsMultiset(objs: seq<Object>, members: set<Object>)
    requires Distinct(objs) && forall o :: o in objs <==> o in members
    ensures multiset(objs) == multiset(members) && |objs| == |members|
  {
    if objs == [] {
      assert members == {};
    } else {
      var n := |objs| - 1;
      var last, init := objs[n], objs[..n];
      assert objs == init + [last];
      forall o ensures o in init <==> o in members - {last} {
        if o in init { assert o in objs; }
      }
      DistinctAsMultiset(init, members - {last});
      assert members == (members - {last}) + {last};
    }
  }

  method EmitNamespaced(b: RegistryV1, lib: Library, ns: string, ts: seq<string>, ps: seq<Permission>)
    returns (failed: bool, roles: seq<Object>, bindings: seq<Object>)
    ensures failed <==> ts != [] && !Hashable(lib, ps)
    ensures !failed ==> roles == Roles(b, lib, AllGrants(ts, ps))
    ensures !failed ==> bindings == RoleBindings(b, lib, ns, AllGrants(ts, ps))
  {
    failed, roles, bindings := false, [], [];
    for i := 0 to |ts|
      invariant i > 0 ==> Hashable(lib, ps)
      invariant roles == Roles(b, lib, AllGrants(ts[..i], ps))
      invariant bindings == RoleBindings(b, lib, ns, AllGrants(ts[..i], ps))
    {
      ghost var before := AllGrants(ts[..i], ps);
      for j := 0 to |ps|
        invariant Hashable(lib, ps[..j])
        invariant roles == Roles(b, lib, before + GrantsIn(ts[i], ps[..j]))
        invariant bindings == RoleBindings(b, lib, ns, before + GrantsIn(ts[i], ps[..j]))
      {
        if lib.digest(ps[j]).None? {
          failed := true;
          return;
        }
        assert ps[..j + 1] == ps[..j] + [ps[j]];
        var g := Grant(ts[i], ps[j]);
        assert before + GrantsIn(ts[i], ps[..j + 1]) == (before + GrantsIn(ts[i], ps[..j])) + [g];
        roles := roles + [NewRole(b, lib, g)];
        bindings := bindings + [NewRoleBinding(b, lib, ns, g)];
      }
      assert ps[..|ps|] == ps;
      assert ts[..i + 1][..i] == ts[..i];
    }
    assert ts[..|ts|] == ts;
  }

  method EmitClusterWide(b: RegistryV1, lib: Library, ns: string, ps: seq<Permission>)
    returns (failed: bool, roles: seq<Object>, bindings: seq<Object>)
    ensures failed <==> !Hashable(lib, ps)
    ensures !failed ==> roles == ClusterRoles(b, lib, ps) && bindings == ClusterRoleBindings(b, lib, ns, ps)
  {
    failed, roles, bindings := false, [], [];
    for j := 0 to |ps|
      invariant Hashable(lib, ps[..j])
      invariant roles == ClusterRoles(b, lib, ps[..j])
      invariant bindings == ClusterRoleBindings(b, lib, ns, ps[..j])
    {
      if lib.digest(ps[j]).None? {
        failed := true;
        return;
      }
      assert ps[..j + 1] == ps[..j] + [ps[j]];
      roles := roles + [NewClusterRole(b, lib, ps[j])];
      bindings := bindings + [NewClusterRoleBinding(b, lib, ns, ps[j])];
    }
    assert ps[..|ps|] == ps;
  }

  method EmitOthers(lib: Library, ns: string, others: seq<Resource>) returns (failed: bool, objs: seq<Object>)
    ensures failed <==> !Supported(lib, others)
    ensures !failed ==> objs == Others(lib, ns, others)
  {
    failed, objs := false, [];
    for i := 0 to |others|
      invariant Supported(lib, others[..i])
      invariant objs == Others(lib, ns, others[..i])
    {
      if others[i].kind !in lib.kinds {
        failed := true;
        return;
      }
      objs := objs + [NewOther(lib, ns, others[i])];
    }
    assert others[..|others|] == others;
  }

  /** convert.Convert. */
  method Convert(b: RegistryV1, lib: Library, requested: string, targets: seq<string>)
    returns (r: Result<seq<Object>, Error>)
    ensures r.Success? <==> Convertible(b, lib, InstallNamespace(b, requested), Targets(b, requested, targets))
    ensures r.Success? ==> IsOutput(b, lib, InstallNamespace(b, requested), Targets(b, requested, targets), r.value)
    ensures r != Failure(TargetsUnsupported)
            <==> TargetsAccepted(SupportedModes(b.csv.installModes), InstallNamespace(b, requested),
                                 Targets(b, requested, targets))
    // which error, where targets are accepted: the first thing in order that is not supported
    ensures r.Failure? && r.error != TargetsUnsupported ==>
              r.error == (if b.csv.ownedAPIServices != [] then APIServicesUnsupported
                          else if b.csv.webhookDefinitions != [] then WebhooksUnsupported
                          else if exists p :: p in b.csv.permissions + b.csv.clusterPermissions && lib.digest(p) == None
                          then HashFailed else KindUnsupported)
    // when and for which targets, in the bundle's own terms
    ensures r.Success?
            <==> && TargetsAllowed(b, InstallNamespace(b, requested), targets)
                 && b.csv.ownedAPIServices == [] && b.csv.webhookDefinitions == []
                 && (forall p :: p in b.csv.permissions + b.csv.clusterPermissions ==> lib.digest(p) != None)
                 && (forall m :: m in b.others ==> m.kind in lib.kinds)
    ensures r.Success? && targets != [] ==> IsOutput(b, lib, InstallNamespace(b, requested), targets, r.value)
    ensures r.Success? && targets == [] && Supports(b, ALL_NAMESPACES) ==>
              IsOutput(b, lib, InstallNamespace(b, requested), [""], r.value)
    ensures r.Success? && targets == [] && !Supports(b, ALL_NAMESPACES) ==>
              Supports(b, OWN_NAMESPACE)
              && IsOutput(b, lib, InstallNamespace(b, requested), [InstallNamespace(b, requested)], r.value)
    ensures targets == [] && !Supports(b, ALL_NAMESPACES) && !Supports(b, OWN_NAMESPACE) ==>
              r == Failure(TargetsUnsupported)
    ensures targets != [] && !ModeAllows(b, InstallNamespace(b, requested), targets) ==>
              r == Failure(TargetsUnsupported)
  {
    var ns := InstallNamespace(b, requested);
    var modes := SupportedModes(b.csv.installModes);
    var ts := EffectiveTargets(modes, ns, targets);
    TargetsAre(b, requested, targets);
    AcceptedTargets(b, ns, ts);
    AllowedIff(b, requested, targets);
    AllHashable(b, lib);
    AllSupported(lib, b.others);
    if !TargetsAccepted(modes, ns, ts) { return Failure(TargetsUnsupported); }
    if |b.csv.ownedAPIServices| > 0 { return Failure(APIServicesUnsupported); }
    if |b.csv.webhookDefinitions| > 0 { return Failure(WebhooksUnsupported); }

    r := Emit(b, lib, ns, ts);
  }

  /** The rest of Convert, once the bundle and its targets are found acceptable. */
  method Emit(b: RegistryV1, lib: Library, ns: string, ts: seq<string>) returns (r: Result<seq<Object>, Error>)
    requires ts != []
    ensures r.Success?
            <==> Hashable(lib, b.csv.permissions) && Hashable(lib, b.csv.clusterPermissions) && Supported(lib, b.others)
    ensures r.Success? ==> IsOutput(b, lib, ns, ts, r.value)
    ensures r.Failure? ==>
              r.error == if exists p :: p in b.csv.permissions + b.csv.clusterPermissions && lib.digest(p) == None
                         then HashFailed else KindUnsupported
  {
    var deployments, accounts := CollectDeployments(b, ns, ts);
    accounts := CollectAccounts(b, ns, accounts);
    AllHashable(b, lib);
    var failed, rbac := EmitRbac(b, lib, ns, ts);
    if failed { return Failure(HashFailed); }
    var objs := EmitAccounts(accounts, ns);
    var others;
    failed, others := EmitOthers(lib, ns, b.others);
    if failed { return Failure(KindUnsupported); }
    var rest := rbac + (CRDs(b.crds) + others + deployments);
    AccountsThenRest(b, lib, ns, ts, objs, rest);
    r := Success(objs + rest);
  }

  /** A supported mode allows the requested targets or, with none requested, provides some. */
  ghost predicate TargetsAllowed(b: RegistryV1, ns: string, targets: seq<string>) {
    if targets != [] then ModeAllows(b, ns, targets) else Supports(b, ALL_NAMESPACES) || Supports(b, OWN_NAMESPACE)
  }

  lemma {:induction false} AllowedIff(b: RegistryV1, requested: string, targets: seq<string>)
    ensures var ns := InstallNamespace(b, requested);
            TargetsAllowed(b, ns, targets)
            <==> TargetsAccepted(SupportedModes(b.csv.installModes), ns, Targets(b, requested, targets))
  {
    var ns, ts := InstallNamespace(b, requested), Targets(b, requested, targets);
    TargetsAre(b, requested, targets);
    AcceptedTargets(b, ns, ts);
    if targets == [] && !Supports(b, ALL_NAMESPACES) && Supports(b, OWN_NAMESPACE) {
      assert ts == [ns] && ns in ts && forall t :: t in ts ==> t == ns;
    }
  }

  lemma {:induction false} AllSupported(lib: Library, rs: seq<Resource>)
    ensures Supported(lib, rs) <==> forall m :: m in rs ==> m.kind in lib.kinds
  {
  }

  lemma {:induction false} AllHashable(b: RegistryV1, lib: Library)
    ensures Hashable(lib, b.csv.permissions) && Hashable(lib, b.csv.clusterPermissions)
            <==> !exists p :: p in b.csv.permissions + b.csv.clusterPermissions && lib.digest(p) == None
  {
    var ps, cs := b.csv.permissions, b.csv.clusterPermissions;
    if i :| 0 <= i < |ps| && lib.digest(ps[i]).None? { assert ps[i] in ps + cs; }
    if i :| 0 <= i < |cs| && lib.digest(cs[i]).None? { assert cs[i] in ps + cs; }
  }

  /** Promotion of permissions to cluster scope, and the two role loops. */
  method EmitRbac(b: RegistryV1, lib: Library, ns: string, ts: seq<string>) returns (failed: bool, objs: seq<Object>)
    requires ts != []
    ensures failed <==> !(Hashable(lib, b.csv.permissions) && Hashable(lib, b.csv.clusterPermissions))
    ensures !failed ==> objs == Rbac(b, lib, ns, ts)
  {
    objs := [];
    SplitHashable(lib, b, ts);
    var permissions, clusterPermissions := b.csv.permissions, b.csv.clusterPermissions;
    if |ts| == 1 && ts[0] == "" {
      clusterPermissions := clusterPermissions + permissions;
      permissions := [];
    }
    assert permissions == Namespaced(b, ts) && clusterPermissions == ClusterWide(b, ts);
    var roles, roleBindings, clusterRoles, clusterRoleBindings;
    failed, roles, roleBindings := EmitNamespaced(b, lib, ns, ts, permissions);
    if failed { return; }
    failed, clusterRoles, clusterRoleBindings := EmitClusterWide(b, lib, ns, clusterPermissions);
    if failed { return; }
    objs := roles + roleBindings + clusterRoles + clusterRoleBindings;
  }

  lemma {:induction false} AccountsThenRest(b: RegistryV1, lib: Library, ns: string, ts: seq<string>,
                                            objs: seq<Object>, rest: seq<Object>)
    requires Distinct(objs) && forall o :: o in objs <==> o in EmittedAccounts(b, ns)
    requires rest == Rbac(b, lib, ns, ts) + Content(b, lib, ns, ts)
    ensures IsOutput(b, lib, ns, ts, objs + rest)
  {
    var n := |EmittedAccounts(b, ns)|;
    DistinctAsMultiset(objs, EmittedAccounts(b, ns));
    assert (objs + rest)[..n] == objs && (objs + rest)[n..] == rest;
  }

  lemma {:induction false} SplitHashable(lib: Library, b: RegistryV1, ts: seq<string>)
    ensures Hashable(lib, Namespaced(b, ts)) && Hashable(lib, ClusterWide(b, ts))
            <==> Hashable(lib, b.csv.permissions) && Hashable(lib, b.csv.clusterPermissions)
  {
    var c, p := b.csv.clusterPermissions, b.csv.permissions;
    if Promoted(ts) {
      assert forall i :: 0 <= i < |c| ==> (c + p)[i] == c[i];
      assert forall i :: 0 <= i < |p| ==> (c + p)[|c| + i] == p[i];
    } else {
      assert c + [] == c;
    }
  }
}
