/** RBAC manifests that a bundle carries beside its CSV are emitted too, after the generated objects,
    and replace those of the same identity.  This is what the cluster grants after the whole output
    is applied, when that is more than the CSV lists, and when it is less. */
module BundledRbac {
  import opened Text
  import opened Naming
  import opened Convert
  import opened RbacSemantics
  import opened RbacMeaning

  // ---- generated roles and bindings, either kind alike ----

  /** A permission takes effect cluster-wide, or in one target namespace. */
  predicate Effective(b: RegistryV1, ts: seq<string>, p: Permission, cluster: bool, at: string) {
    if cluster then p in ClusterWide(b, ts) else p in Namespaced(b, ts) && at in ts
  }

  function GenRole(b: RegistryV1, lib: Library, p: Permission, cluster: bool, at: string): Object {
    if cluster then NewClusterRole(b, lib, p) else NewRole(b, lib, Grant(at, p))
  }

  function GenBinding(b: RegistryV1, lib: Library, ns: string, p: Permission, cluster: bool, at: string): Object {
    if cluster then NewClusterRoleBinding(b, lib, ns, p) else NewRoleBinding(b, lib, ns, Grant(at, p))
  }

  lemma {:induction false} RoleGenerated(b: RegistryV1, lib: Library, ns: string, ts: seq<string>,
                                         p: Permission, cluster: bool, at: string)
    requires Effective(b, ts, p, cluster, at)
    ensures GenRole(b, lib, p, cluster, at) in Rbac(b, lib, ns, ts)
    ensures GenBinding(b, lib, ns, p, cluster, at) in Rbac(b, lib, ns, ts)
  {
    GrantMembers(ts, Namespaced(b, ts), Grant(at, p));
    RbacFamilies(b, lib, ns, ts, GenRole(b, lib, p, cluster, at));
    RbacFamilies(b, lib, ns, ts, GenBinding(b, lib, ns, p, cluster, at));
  }

  lemma {:induction false} RoleOrigin(b: RegistryV1, lib: Library, ns: string, ts: seq<string>, o: Object)
    returns (p: Permission, cluster: bool, at: string)
    requires o in Rbac(b, lib, ns, ts) && RoleOf(o).Some?
    ensures Effective(b, ts, p, cluster, at) && o == GenRole(b, lib, p, cluster, at)
  {
    RbacParts(b, lib, ns, ts, o);
    RbacFamilies(b, lib, ns, ts, o);
    if o.Role? {
      var g :| g in AllGrants(ts, Namespaced(b, ts)) && o == NewRole(b, lib, g);
      GrantMembers(ts, Namespaced(b, ts), g);
      p, cluster, at := g.permission, false, g.namespace;
    } else {
      p :| p in ClusterWide(b, ts) && o == NewClusterRole(b, lib, p);
      cluster, at := true, "";
    }
  }

  lemma {:induction false} BindingOrigin(b: RegistryV1, lib: Library, ns: string, ts: seq<string>, o: Object)
    returns (p: Permission, cluster: bool, at: string)
    requires o in Rbac(b, lib, ns, ts) && BindingOf(o).Some?
    ensures Effective(b, ts, p, cluster, at) && o == GenBinding(b, lib, ns, p, cluster, at)
  {
    RbacParts(b, lib, ns, ts, o);
    RbacFamilies(b, lib, ns, ts, o);
    if o.RoleBinding? {
      var g :| g in AllGrants(ts, Namespaced(b, ts)) && o == NewRoleBinding(b, lib, ns, g);
      GrantMembers(ts, Namespaced(b, ts), g);
      p, cluster, at := g.permission, false, g.namespace;
    } else {
      p :| p in ClusterWide(b, ts) && o == NewClusterRoleBinding(b, lib, ns, p);
      cluster, at := true, "";
    }
  }

  /** The CSV's reading in these terms. */
  lemma {:induction false} RequestedIff(b: RegistryV1, ts: seq<string>, account: string, rule: PolicyRule, at: string)
    ensures Requested(b.csv, ts, account, rule, at)
            <==> exists p, cluster :: Effective(b, ts, p, cluster, at) && Account(p) == account && rule in p.rules
  {
    if Requested(b.csv, ts, account, rule, at) {
      if Lists(b.csv.clusterPermissions, account, rule) {
        var p :| p in b.csv.clusterPermissions && Account(p) == account && rule in p.rules;
        assert Effective(b, ts, p, true, at);
      } else {
        var p :| p in b.csv.permissions && Account(p) == account && rule in p.rules;
        assert Effective(b, ts, p, Promoted(ts), at);
      }
    }
  }

  // ---- what is left of the output ----

  /** A bundled manifest has this identity. */
  ghost predicate Taken(b: RegistryV1, lib: Library, ns: string, id: Identity) {
    exists m :: m in b.others && IdentityOf(NewOther(lib, ns, m)) == id
  }

  ghost predicate RoleTaken(b: RegistryV1, lib: Library, ns: string, p: Permission, cluster: bool, at: string) {
    Taken(b, lib, ns, IdentityOf(GenRole(b, lib, p, cluster, at)))
  }

  ghost predicate BindingTaken(b: RegistryV1, lib: Library, ns: string, p: Permission, cluster: bool, at: string) {
    Taken(b, lib, ns, IdentityOf(GenBinding(b, lib, ns, p, cluster, at)))
  }

  lemma {:induction false} OtherObjects(b: RegistryV1, lib: Library, ns: string, o: Object)
    ensures o in Others(lib, ns, b.others) <==> exists m :: m in b.others && o == NewOther(lib, ns, m)
  {
    if o in Others(lib, ns, b.others) {
      var i :| 0 <= i < |b.others| && Others(lib, ns, b.others)[i] == o;
      assert b.others[i] in b.others;
    }
    forall m | m in b.others ensures NewOther(lib, ns, m) in Others(lib, ns, b.others) {
      OtherMembers(b, lib, ns, m);
    }
  }

  lemma {:induction false} TakenIff(b: RegistryV1, lib: Library, ns: string, id: Identity)
    ensures Taken(b, lib, ns, id) <==> id in Applied(Others(lib, ns, b.others))
  {
    AppliedIdentities(Others(lib, ns, b.others), id);
    if Taken(b, lib, ns, id) {
      var m :| m in b.others && IdentityOf(NewOther(lib, ns, m)) == id;
      OtherMembers(b, lib, ns, m);
    }
    if o :| o in Others(lib, ns, b.others) && IdentityOf(o) == id { OtherObjects(b, lib, ns, o); }
  }

  lemma {:induction false} OutputApplied(b: RegistryV1, lib: Library, ns: string, ts: seq<string>, objs: seq<Object>)
    requires IsOutput(b, lib, ns, ts, objs)
    ensures var n := |EmittedAccounts(b, ns)|;
            n <= |objs| && Applied(objs)
            == Applied(objs[..n]) + Applied(Rbac(b, lib, ns, ts)) + Applied(CRDs(b.crds))
               + Applied(Others(lib, ns, b.others)) + Applied(Deployments(b, ns, ts, b.csv.deployments))
  {
    var n := |EmittedAccounts(b, ns)|;
    var out, crds, others := Rbac(b, lib, ns, ts), CRDs(b.crds), Others(lib, ns, b.others);
    var ds := Deployments(b, ns, ts, b.csv.deployments);
    Regroup(objs, n, out, crds, others, ds);
    AppliedParts(objs[..n], out, crds, others, ds);
  }

  lemma {:induction false} Regroup(objs: seq<Object>, n: nat, a: seq<Object>, b: seq<Object>, c: seq<Object>,
                                   d: seq<Object>)
    requires n <= |objs| && objs[n..] == a + (b + c + d)
    ensures objs == objs[..n] + a + b + c + d
  {
    assert objs == objs[..n] + objs[n..];
    assert a + (b + c + d) == a + b + c + d;
    assert objs[..n] + (a + b + c + d) == objs[..n] + a + b + c + d;
  }

  lemma {:induction false} AppliedParts(a: seq<Object>, b: seq<Object>, c: seq<Object>, d: seq<Object>, e: seq<Object>)
    ensures Applied(a + b + c + d + e) == Applied(a) + Applied(b) + Applied(c) + Applied(d) + Applied(e)
  {
    AppliedConcat(a + b + c + d, e);
    AppliedConcat(a + b + c, d);
    AppliedConcat(a + b, c);
    AppliedConcat(a, b);
  }

  predicate RbacKind(kind: string) {
    kind == ROLE || kind == ROLE_BINDING || kind == CLUSTER_ROLE || kind == CLUSTER_ROLE_BINDING
  }

  lemma {:induction false} KindsApart()
    ensures !RbacKind(SERVICE_ACCOUNT) && !RbacKind(CUSTOM_RESOURCE_DEFINITION) && !RbacKind(DEPLOYMENT)
  {
    assert SERVICE_ACCOUNT[0] == 'S' && CUSTOM_RESOURCE_DEFINITION[1] == 'u' && DEPLOYMENT[0] == 'D';
    assert ROLE[0] == 'R' && ROLE_BINDING[0] == 'R' && CLUSTER_ROLE[0] == 'C' && CLUSTER_ROLE_BINDING[0] == 'C';
    assert ROLE[1] == 'o' && ROLE_BINDING[1] == 'o' && CLUSTER_ROLE[1] == 'l' && CLUSTER_ROLE_BINDING[1] == 'l';
  }

  lemma {:induction false} NotApplied(objs: seq<Object>, id: Identity)
    requires RbacKind(id.kind) && forall o :: o in objs ==> o.ServiceAccount? || o.CRD? || o.Deployment?
    ensures id !in Applied(objs)
  {
    KindsApart();
    AppliedIdentities(objs, id);
  }

  /** The other parts of the output have no RBAC identities. */
  lemma {:induction false} OnlyThere(b: RegistryV1, lib: Library, ns: string, ts: seq<string>, objs: seq<Object>,
                                     id: Identity)
    requires IsOutput(b, lib, ns, ts, objs) && RbacKind(id.kind)
    ensures id !in Applied(objs[..|EmittedAccounts(b, ns)|]) && id !in Applied(CRDs(b.crds))
    ensures id !in Applied(Deployments(b, ns, ts, b.csv.deployments))
  {
    var accounts := objs[..|EmittedAccounts(b, ns)|];
    forall o | o in accounts ensures o.ServiceAccount? {
      assert o in multiset(accounts);
    }
    NotApplied(accounts, id);
    NotApplied(CRDs(b.crds), id);
    NotApplied(Deployments(b, ns, ts, b.csv.deployments), id);
  }

  /** A role or binding is there in the end if it was generated and no manifest took its place, or
      it is a manifest that no later manifest replaced. */
  lemma {:induction false} HeldIff(b: RegistryV1, lib: Library, ns: string, ts: seq<string>, objs: seq<Object>,
                                   o: Object)
    requires Convertible(b, lib, ns, ts) && IsOutput(b, lib, ns, ts, objs) && CollisionFree(lib, b.csv)
    requires RbacKind(IdentityOf(o).kind)
    ensures Held(objs, o)
            <==> || (o in Rbac(b, lib, ns, ts) && !Taken(b, lib, ns, IdentityOf(o)))
                 || Held(Others(lib, ns, b.others), o)
  {
    var id := IdentityOf(o);
    OutputApplied(b, lib, ns, ts, objs);
    OnlyThere(b, lib, ns, ts, objs, id);
    TakenIff(b, lib, ns, id);
    GeneratedHeld(b, lib, ns, ts, o);
  }

  // ---- generated binding, generated role ----

  /** A permission grants a rule by its own role and binding, both of which are still there. */
  ghost predicate Kept(b: RegistryV1, lib: Library, ns: string, ts: seq<string>,
                       who: Subject, rule: PolicyRule, at: string) {
    exists p, cluster ::
      && Effective(b, ts, p, cluster, at) && who == Subject(ns, Account(p)) && rule in p.rules
      && !RoleTaken(b, lib, ns, p, cluster, at) && !BindingTaken(b, lib, ns, p, cluster, at)
  }

  ghost predicate Standing(b: RegistryV1, lib: Library, ns: string, ts: seq<string>, o: Object) {
    o in Rbac(b, lib, ns, ts) && !Taken(b, lib, ns, IdentityOf(o))
  }

  lemma {:induction false} PairGrants(b: RegistryV1, lib: Library, ns: string, p: Permission, q: Permission,
                                      c: bool, d: bool, s: string, t: string,
                                      who: Subject, rule: PolicyRule, at: string)
    ensures Grants(GenBinding(b, lib, ns, p, c, s), GenRole(b, lib, q, d, t), who, rule, at)
            <==> && c == d && NameOf(b, lib, p) == NameOf(b, lib, q) && (c || s == t == at)
                 && who == Subject(ns, Account(p)) && rule in q.rules
  {
    NamespacedPair(b, lib, ns, Grant(s, p), Grant(t, q), who, rule, at);
    ClusterPair(b, lib, ns, p, q, who, rule, at);
  }

  lemma {:induction false} StandingPairKept(b: RegistryV1, lib: Library, ns: string, ts: seq<string>,
                                            x: Object, r: Object, who: Subject, rule: PolicyRule, at: string)
    requires Convertible(b, lib, ns, ts) && CollisionFree(lib, b.csv)
    requires Standing(b, lib, ns, ts, x) && Standing(b, lib, ns, ts, r) && Grants(x, r, who, rule, at)
    ensures Kept(b, lib, ns, ts, who, rule, at)
  {
    var p, c, s := BindingOrigin(b, lib, ns, ts, x);
    var q, d, t := RoleOrigin(b, lib, ns, ts, r);
    PairGrants(b, lib, ns, p, q, c, d, s, t, who, rule, at);
    NamesDeterminePermissions(b, lib, p, q);
    assert Effective(b, ts, p, c, at);
  }

  lemma {:induction false} KeptIff(b: RegistryV1, lib: Library, ns: string, ts: seq<string>,
                                   who: Subject, rule: PolicyRule, at: string)
    requires Convertible(b, lib, ns, ts) && CollisionFree(lib, b.csv)
    ensures Kept(b, lib, ns, ts, who, rule, at)
            <==> exists x, r :: Standing(b, lib, ns, ts, x) && Standing(b, lib, ns, ts, r)
                                && Grants(x, r, who, rule, at)
  {
    if x, r :| Standing(b, lib, ns, ts, x) && Standing(b, lib, ns, ts, r) && Grants(x, r, who, rule, at) {
      StandingPairKept(b, lib, ns, ts, x, r, who, rule, at);
    }
    if p, c :|
      && Effective(b, ts, p, c, at) && who == Subject(ns, Account(p)) && rule in p.rules
      && !RoleTaken(b, lib, ns, p, c, at) && !BindingTaken(b, lib, ns, p, c, at)
    {
      RoleGenerated(b, lib, ns, ts, p, c, at);
      PairGrants(b, lib, ns, p, p, c, c, at, at, who, rule, at);
      assert Standing(b, lib, ns, ts, GenRole(b, lib, p, c, at));
      assert Standing(b, lib, ns, ts, GenBinding(b, lib, ns, p, c, at));
    }
  }

  // ---- generated binding, bundled role ----

  /** A manifest that no later manifest replaces. */
  ghost predicate Lasting(b: RegistryV1, lib: Library, ns: string, m: Resource) {
    m in b.others && Held(Others(lib, ns, b.others), NewOther(lib, ns, m))
  }

  /** A bundled role stands where a permission's own role stood, and the binding is still there. */
  ghost predicate Replaces(b: RegistryV1, lib: Library, ns: string, ts: seq<string>, m: Resource, p: Permission,
                           cluster: bool, who: Subject, rule: PolicyRule, at: string) {
    && Lasting(b, lib, ns, m) && m.body.RoleBody? && Effective(b, ts, p, cluster, at)
    && IdentityOf(NewOther(lib, ns, m)) == IdentityOf(GenRole(b, lib, p, cluster, at))
    && !BindingTaken(b, lib, ns, p, cluster, at)
    && who == Subject(ns, Account(p)) && rule in m.body.rules
  }

  ghost predicate ReplacedRules(b: RegistryV1, lib: Library, ns: string, ts: seq<string>,
                                who: Subject, rule: PolicyRule, at: string) {
    exists m, p, cluster :: Replaces(b, lib, ns, ts, m, p, cluster, who, rule, at)
  }

  lemma {:induction false} ManifestRole(b: RegistryV1, lib: Library, ns: string, m: Resource, p: Permission,
                                        c: bool, s: string, who: Subject, rule: PolicyRule, at: string)
    ensures Grants(GenBinding(b, lib, ns, p, c, s), NewOther(lib, ns, m), who, rule, at)
            <==> && m.body.RoleBody? && (c || s == at)
                 && IdentityOf(NewOther(lib, ns, m)) == IdentityOf(GenRole(b, lib, p, c, s))
                 && who == Subject(ns, Account(p)) && rule in m.body.rules
  {
    var x := GenBinding(b, lib, ns, p, c, s);
    assert x.subjects[0] == Subject(ns, Account(p));
  }

  lemma {:induction false} ReplacedRulesIff(b: RegistryV1, lib: Library, ns: string, ts: seq<string>,
                                            who: Subject, rule: PolicyRule, at: string)
    ensures ReplacedRules(b, lib, ns, ts, who, rule, at)
            <==> exists x, r :: Standing(b, lib, ns, ts, x) && Held(Others(lib, ns, b.others), r)
                                && Grants(x, r, who, rule, at)
  {
    var others := Others(lib, ns, b.others);
    if x, r :| Standing(b, lib, ns, ts, x) && Held(others, r) && Grants(x, r, who, rule, at) {
      var p, c, s := BindingOrigin(b, lib, ns, ts, x);
      var m := ManifestOf(b, lib, ns, r);
      ManifestRole(b, lib, ns, m, p, c, s, who, rule, at);
      assert Replaces(b, lib, ns, ts, m, p, c, who, rule, at);
    }
    if m, p, c :| Replaces(b, lib, ns, ts, m, p, c, who, rule, at) {
      RoleGenerated(b, lib, ns, ts, p, c, at);
      ManifestRole(b, lib, ns, m, p, c, at, who, rule, at);
      assert Standing(b, lib, ns, ts, GenBinding(b, lib, ns, p, c, at));
    }
  }

  lemma {:induction false} ManifestOf(b: RegistryV1, lib: Library, ns: string, o: Object) returns (m: Resource)
    requires Held(Others(lib, ns, b.others), o)
    ensures Lasting(b, lib, ns, m) && o == NewOther(lib, ns, m)
  {
    AppliedIdentities(Others(lib, ns, b.others), IdentityOf(o));
    OtherObjects(b, lib, ns, o);
    m :| m in b.others && o == NewOther(lib, ns, m);
  }

  // ---- bundled binding, generated role ----

  /** The namespace a manifest is emitted in. */
  function Placed(lib: Library, ns: string, m: Resource): string {
    if m.kind in lib.kinds && lib.kinds[m.kind] then ns else m.namespace
  }

  /** A bundled binding refers to the role generated for a permission, which is still there. */
  ghost predicate Binds(b: RegistryV1, lib: Library, ns: string, ts: seq<string>, m: Resource, p: Permission,
                        cluster: bool, who: Subject, rule: PolicyRule, at: string) {
    && Lasting(b, lib, ns, m) && m.body.BindingBody? && Effective(b, ts, p, cluster, at)
    && m.body.refName == NameOf(b, lib, p) && (m.body.refKind == CLUSTER_ROLE <==> cluster)
    && ((m.kind == ROLE_BINDING && Placed(lib, ns, m) == at) || (m.kind == CLUSTER_ROLE_BINDING && cluster))
    && !RoleTaken(b, lib, ns, p, cluster, at)
    && who in m.body.subjects && rule in p.rules
  }

  ghost predicate AddedSubjects(b: RegistryV1, lib: Library, ns: string, ts: seq<string>,
                                who: Subject, rule: PolicyRule, at: string) {
    exists m, p, cluster :: Binds(b, lib, ns, ts, m, p, cluster, who, rule, at)
  }

  lemma {:induction false} ManifestBinding(b: RegistryV1, lib: Library, ns: string, m: Resource, p: Permission,
                                           c: bool, s: string, who: Subject, rule: PolicyRule, at: string)
    ensures Grants(NewOther(lib, ns, m), GenRole(b, lib, p, c, s), who, rule, at)
            <==> && m.body.BindingBody? && (c || s == at)
                 && m.body.refName == NameOf(b, lib, p) && (m.body.refKind == CLUSTER_ROLE <==> c)
                 && ((m.kind == ROLE_BINDING && Placed(lib, ns, m) == at) || (m.kind == CLUSTER_ROLE_BINDING && c))
                 && who in m.body.subjects && rule in p.rules
  {
  }

  lemma {:induction false} AddedSubjectsIff(b: RegistryV1, lib: Library, ns: string, ts: seq<string>,
                                            who: Subject, rule: PolicyRule, at: string)
    ensures AddedSubjects(b, lib, ns, ts, who, rule, at)
            <==> exists x, r :: Held(Others(lib, ns, b.others), x) && Standing(b, lib, ns, ts, r)
                                && Grants(x, r, who, rule, at)
  {
    var others := Others(lib, ns, b.others);
    if x, r :| Held(others, x) && Standing(b, lib, ns, ts, r) && Grants(x, r, who, rule, at) {
      var m := ManifestOf(b, lib, ns, x);
      var p, c, s := RoleOrigin(b, lib, ns, ts, r);
      ManifestBinding(b, lib, ns, m, p, c, s, who, rule, at);
      assert Binds(b, lib, ns, ts, m, p, c, who, rule, at);
    }
    if m, p, c :| Binds(b, lib, ns, ts, m, p, c, who, rule, at) {
      RoleGenerated(b, lib, ns, ts, p, c, at);
      ManifestBinding(b, lib, ns, m, p, c, at, who, rule, at);
      assert Standing(b, lib, ns, ts, GenRole(b, lib, p, c, at));
    }
  }

  // ---- the whole output ----

  lemma {:induction false} GrantSources(b: RegistryV1, lib: Library, ns: string, ts: seq<string>, objs: seq<Object>,
                                        x: Object, r: Object, who: Subject, rule: PolicyRule, at: string)
    requires Convertible(b, lib, ns, ts) && IsOutput(b, lib, ns, ts, objs) && CollisionFree(lib, b.csv)
    requires Grants(x, r, who, rule, at)
    ensures var others := Others(lib, ns, b.others);
            Held(objs, x) && Held(objs, r)
            <==> && (Standing(b, lib, ns, ts, x) || Held(others, x))
                 && (Standing(b, lib, ns, ts, r) || Held(others, r))
  {
    HeldIff(b, lib, ns, ts, objs, x);
    HeldIff(b, lib, ns, ts, objs, r);
  }

  /** After the whole output is applied, the cluster grants a rule exactly when a permission's own
      role and binding are still there and grant it, the manifests grant it by themselves, a bundled
      role that replaced a generated one holds it, or a bundled binding refers to a generated role. */
  lemma {:induction false} OutputMeaning(b: RegistryV1, lib: Library, ns: string, ts: seq<string>, objs: seq<Object>,
                                         who: Subject, rule: PolicyRule, at: string)
    requires Convertible(b, lib, ns, ts) && IsOutput(b, lib, ns, ts, objs) && CollisionFree(lib, b.csv)
    ensures Granted(objs, who, rule, at)
            <==> || Kept(b, lib, ns, ts, who, rule, at)
                 || Granted(Others(lib, ns, b.others), who, rule, at)
                 || ReplacedRules(b, lib, ns, ts, who, rule, at)
                 || AddedSubjects(b, lib, ns, ts, who, rule, at)
  {
    KeptIff(b, lib, ns, ts, who, rule, at);
    ReplacedRulesIff(b, lib, ns, ts, who, rule, at);
    AddedSubjectsIff(b, lib, ns, ts, who, rule, at);
    forall x, r | Grants(x, r, who, rule, at)
      ensures var others := Others(lib, ns, b.others);
              Held(objs, x) && Held(objs, r)
              <==> && (Standing(b, lib, ns, ts, x) || Held(others, x))
                   && (Standing(b, lib, ns, ts, r) || Held(others, r))
    {
      GrantSources(b, lib, ns, ts, objs, x, r, who, rule, at);
    }
  }

  ghost predicate Listed(b: RegistryV1, ns: string, ts: seq<string>, who: Subject, rule: PolicyRule, at: string) {
    who.namespace == ns && Requested(b.csv, ts, who.name, rule, at)
  }

  /** No manifest has the identity of a generated role or binding. */
  ghost predicate NothingTaken(b: RegistryV1, lib: Library, ns: string, ts: seq<string>) {
    forall o :: o in Rbac(b, lib, ns, ts) ==> !Taken(b, lib, ns, IdentityOf(o))
  }

  /** Without a manifest of a generated identity nothing of the CSV is lost, and what comes on top is
      what manifests grant by themselves and to whom they bind generated roles. */
  lemma {:induction false} MeaningWithoutReplacement(b: RegistryV1, lib: Library, ns: string, ts: seq<string>,
                                                     objs: seq<Object>, who: Subject, rule: PolicyRule, at: string)
    requires Convertible(b, lib, ns, ts) && IsOutput(b, lib, ns, ts, objs) && CollisionFree(lib, b.csv)
    requires NothingTaken(b, lib, ns, ts)
    ensures Granted(objs, who, rule, at)
            <==> || Listed(b, ns, ts, who, rule, at)
                 || Granted(Others(lib, ns, b.others), who, rule, at)
                 || AddedSubjects(b, lib, ns, ts, who, rule, at)
  {
    OutputMeaning(b, lib, ns, ts, objs, who, rule, at);
    RequestedIff(b, ts, who.name, rule, at);
    forall p, c | Effective(b, ts, p, c, at)
      ensures !RoleTaken(b, lib, ns, p, c, at) && !BindingTaken(b, lib, ns, p, c, at)
    {
      RoleGenerated(b, lib, ns, ts, p, c, at);
    }
    if m, p, c :| Replaces(b, lib, ns, ts, m, p, c, who, rule, at) {
      assert RoleTaken(b, lib, ns, p, c, at);
    }
  }

  /** Exactly when a grant that the CSV lists is lost: for every permission that lists it a manifest
      took the place of the role or of the binding, and nothing else grants it. */
  lemma {:induction false} ListedGrantLostIff(b: RegistryV1, lib: Library, ns: string, ts: seq<string>,
                                              objs: seq<Object>, who: Subject, rule: PolicyRule, at: string)
    requires Convertible(b, lib, ns, ts) && IsOutput(b, lib, ns, ts, objs) && CollisionFree(lib, b.csv)
    requires Listed(b, ns, ts, who, rule, at)
    ensures !Granted(objs, who, rule, at)
            <==> && (forall p, cluster ::
                       Effective(b, ts, p, cluster, at) && Account(p) == who.name && rule in p.rules ==>
                         RoleTaken(b, lib, ns, p, cluster, at) || BindingTaken(b, lib, ns, p, cluster, at))
                 && !Granted(Others(lib, ns, b.others), who, rule, at)
                 && !ReplacedRules(b, lib, ns, ts, who, rule, at)
                 && !AddedSubjects(b, lib, ns, ts, who, rule, at)
  {
    OutputMeaning(b, lib, ns, ts, objs, who, rule, at);
    assert who == Subject(ns, who.name);
  }

  /** Exactly when there is a grant that neither the CSV lists nor the manifests make by themselves:
      a bundled role in a generated one's place, or a bundled binding to a generated role, gives
      someone a rule that is neither. */
  lemma {:induction false} UnlistedGrantIff(b: RegistryV1, lib: Library, ns: string, ts: seq<string>, objs: seq<Object>)
    requires Convertible(b, lib, ns, ts) && IsOutput(b, lib, ns, ts, objs) && CollisionFree(lib, b.csv)
    ensures (exists who, rule, at :: Granted(objs, who, rule, at) && Unlisted(b, lib, ns, ts, who, rule, at))
            <==> exists m, p, cluster, who, rule, at ::
                   && Unlisted(b, lib, ns, ts, who, rule, at)
                   && (Replaces(b, lib, ns, ts, m, p, cluster, who, rule, at)
                       || Binds(b, lib, ns, ts, m, p, cluster, who, rule, at))
  {
    if who, rule, at :| Granted(objs, who, rule, at) && Unlisted(b, lib, ns, ts, who, rule, at) {
      OutputMeaning(b, lib, ns, ts, objs, who, rule, at);
      KeptIsListed(b, lib, ns, ts, who, rule, at);
    }
    if m, p, c, who, rule, at :|
      && Unlisted(b, lib, ns, ts, who, rule, at)
      && (Replaces(b, lib, ns, ts, m, p, c, who, rule, at) || Binds(b, lib, ns, ts, m, p, c, who, rule, at))
    {
      OutputMeaning(b, lib, ns, ts, objs, who, rule, at);
    }
  }

  ghost predicate Unlisted(b: RegistryV1, lib: Library, ns: string, ts: seq<string>,
                           who: Subject, rule: PolicyRule, at: string) {
    !Listed(b, ns, ts, who, rule, at) && !Granted(Others(lib, ns, b.others), who, rule, at)
  }

  lemma {:induction false} KeptIsListed(b: RegistryV1, lib: Library, ns: string, ts: seq<string>,
                                        who: Subject, rule: PolicyRule, at: string)
    ensures Kept(b, lib, ns, ts, who, rule, at) ==> Listed(b, ns, ts, who, rule, at)
  {
    RequestedIff(b, ts, who.name, rule, at);
  }

  // ---- two examples ----

  const READ_SECRETS := PolicyRule(["get"], [""], ["secrets"], [], [])
  const OPERATOR := Permission("operator", [READ_SECRETS])
  const OPERATOR_CSV := CSV("op", map[], [InstallMode(ALL_NAMESPACES, true)], [], [], [], [], [OPERATOR])
  const GUEST := Subject("elsewhere", "guest")

  function ExampleLibrary(digest: Digest): Library {
    Library(_ => Some(digest), map[CLUSTER_ROLE := false, CLUSTER_ROLE_BINDING := false])
  }

  function ExampleBundle(m: Resource): RegistryV1 {
    RegistryV1("op", OPERATOR_CSV, [], [m])
  }

  /** The name generated for the operator's permission. */
  function OperatorName(digest: Digest): string {
    GenerateName("op-operator", digest)
  }

  /** A cluster role binding of a guest to the generated cluster role. */
  function GuestBinding(digest: Digest): Resource {
    Resource(CLUSTER_ROLE_BINDING, "extra", "", BindingBody([GUEST], CLUSTER_ROLE, OperatorName(digest)))
  }

  /** A cluster role without rules under the generated name. */
  function EmptyRole(digest: Digest): Resource {
    Resource(CLUSTER_ROLE, OperatorName(digest), "", RoleBody([]))
  }

  lemma {:induction false} ExampleConverts(m: Resource, digest: Digest)
    requires m.kind == CLUSTER_ROLE || m.kind == CLUSTER_ROLE_BINDING
    ensures Convertible(ExampleBundle(m), ExampleLibrary(digest), "ns", [""])
    ensures CollisionFree(ExampleLibrary(digest), OPERATOR_CSV)
  {
    assert OPERATOR_CSV.permissions + OPERATOR_CSV.clusterPermissions == [OPERATOR];
    var modes := OPERATOR_CSV.installModes;
    assert modes[0] in modes;
    assert (set t | t in [""]) == {""};
  }

  lemma {:induction false} ExampleName(m: Resource, digest: Digest)
    ensures NameOf(ExampleBundle(m), ExampleLibrary(digest), OPERATOR) == OperatorName(digest)
  {
    assert "op" + "-" + "operator" == "op-operator";
  }

  lemma {:induction false} ExampleEffective(m: Resource, p: Permission, cluster: bool, at: string)
    ensures Effective(ExampleBundle(m), [""], p, cluster, at) <==> cluster && p == OPERATOR
  {
    assert ClusterWide(ExampleBundle(m), [""]) == [OPERATOR];
  }

  /** With one manifest, what manifests hold is that manifest, so they grant nothing by themselves. */
  lemma {:induction false} OneManifest(m: Resource, digest: Digest, who: Subject, rule: PolicyRule, at: string)
    requires m.kind == CLUSTER_ROLE || m.kind == CLUSTER_ROLE_BINDING
    ensures Lasting(ExampleBundle(m), ExampleLibrary(digest), "ns", m)
    ensures !Granted(Others(ExampleLibrary(digest), "ns", [m]), who, rule, at)
  {
    var others := Others(ExampleLibrary(digest), "ns", [m]);
    assert others == [Other(m)] && ExampleBundle(m).others[0] == m;
    assert Applied(others) == map[IdentityOf(Other(m)) := Other(m)] by {
      assert others[..0] == [] && Applied([]) == map[];
    }
  }

  /** More than listed: an account of another namespace is granted, everywhere, what the CSV asks
      for its own account only. */
  lemma {:induction false} UnlistedGrantExists(digest: Digest, objs: seq<Object>, at: string)
    requires IsOutput(ExampleBundle(GuestBinding(digest)), ExampleLibrary(digest), "ns", [""], objs)
    ensures var b, lib := ExampleBundle(GuestBinding(digest)), ExampleLibrary(digest);
            && Convertible(b, lib, "ns", [""]) && CollisionFree(lib, b.csv)
            && Granted(objs, GUEST, READ_SECRETS, at) && Unlisted(b, lib, "ns", [""], GUEST, READ_SECRETS, at)
  {
    var m, lib := GuestBinding(digest), ExampleLibrary(digest);
    var b := ExampleBundle(m);
    ExampleConverts(m, digest);
    OneManifest(m, digest, GUEST, READ_SECRETS, at);
    GuestBound(digest, at);
    OutputMeaning(b, lib, "ns", [""], objs, GUEST, READ_SECRETS, at);
    assert GUEST.namespace[0] != "ns"[0];
  }

  lemma {:induction false} GuestBound(digest: Digest, at: string)
    ensures var m := GuestBinding(digest);
            Binds(ExampleBundle(m), ExampleLibrary(digest), "ns", [""], m, OPERATOR, true, GUEST, READ_SECRETS, at)
  {
    var m := GuestBinding(digest);
    ExampleName(m, digest);
    ExampleEffective(m, OPERATOR, true, at);
    OneManifest(m, digest, GUEST, READ_SECRETS, at);
    assert m.body.subjects[0] == GUEST && OPERATOR.rules[0] == READ_SECRETS;
    assert |CLUSTER_ROLE| < |CLUSTER_ROLE_BINDING|;
  }

  /** Less than listed: a bundled cluster role without rules takes the generated one's place, and the
      operator is granted nothing of what the CSV lists. */
  lemma {:induction false} ListedGrantLostExists(digest: Digest, objs: seq<Object>, at: string)
    requires IsOutput(ExampleBundle(EmptyRole(digest)), ExampleLibrary(digest), "ns", [""], objs)
    ensures var b, lib := ExampleBundle(EmptyRole(digest)), ExampleLibrary(digest);
            var who := Subject("ns", "operator");
            && Convertible(b, lib, "ns", [""]) && CollisionFree(lib, b.csv)
            && Listed(b, "ns", [""], who, READ_SECRETS, at) && !Granted(objs, who, READ_SECRETS, at)
  {
    var m, lib, who := EmptyRole(digest), ExampleLibrary(digest), Subject("ns", "operator");
    var b := ExampleBundle(m);
    ExampleConverts(m, digest);
    OneManifest(m, digest, who, READ_SECRETS, at);
    OperatorListed(m, at);
    forall p, c | Effective(b, [""], p, c, at) ensures RoleTaken(b, lib, "ns", p, c, at) {
      ExampleEffective(m, p, c, at);
      ExampleName(m, digest);
      assert b.others[0] == m;
    }
    ListedGrantLostIff(b, lib, "ns", [""], objs, who, READ_SECRETS, at);
  }

  lemma {:induction false} OperatorListed(m: Resource, at: string)
    ensures Listed(ExampleBundle(m), "ns", [""], Subject("ns", "operator"), READ_SECRETS, at)
  {
    ExampleEffective(m, OPERATOR, true, at);
    assert OPERATOR.rules[0] == READ_SECRETS;
    RequestedIff(ExampleBundle(m), [""], "operator", READ_SECRETS, at);
  }
}
