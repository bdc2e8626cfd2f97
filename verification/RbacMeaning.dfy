/** What the generated objects mean: on a cluster they grant exactly what the CSV lists. */
module RbacMeaning {
  import opened Text
  import opened Naming
  import opened Convert
  import opened RbacSemantics

  // ---- what the CSV asks for ----

  ghost predicate Lists(ps: seq<Permission>, account: string, rule: PolicyRule) {
    exists p :: p in ps && Account(p) == account && rule in p.rules
  }

  /** The CSV's own reading: cluster permissions hold everywhere, permissions in each target
      namespace, and the target list [""] stands for every namespace. */
  ghost predicate Requested(csv: CSV, ts: seq<string>, account: string, rule: PolicyRule, ns: string) {
    || Lists(csv.clusterPermissions, account, rule)
    || (Lists(csv.permissions, account, rule) && (ns in ts || ts == [""]))
  }

  /** Distinct permissions of the bundle have distinct digests. */
  ghost predicate CollisionFree(lib: Library, csv: CSV) {
    var ps := csv.permissions + csv.clusterPermissions;
    forall p, q :: p in ps && q in ps && lib.digest(p) == lib.digest(q) ==> p == q
  }

  // ---- which RBAC objects are there ----

  lemma {:induction false} GrantMembers(ts: seq<string>, ps: seq<Permission>, g: Grant)
    ensures g in AllGrants(ts, ps) <==> g.namespace in ts && g.permission in ps
  {
    if ts != [] {
      var n := |ts| - 1;
      GrantMembers(ts[..n], ps, g);
      var last := GrantsIn(ts[n], ps);
      assert ts == ts[..n] + [ts[n]];
      if g.namespace == ts[n] && g.permission in ps {
        var i :| 0 <= i < |ps| && ps[i] == g.permission;
        assert last[i] == g;
      }
    }
  }

  ghost predicate IsRbac(o: Object) {
    o.Role? || o.RoleBinding? || o.ClusterRole? || o.ClusterRoleBinding?
  }

  lemma {:induction false} OutputMembers(b: RegistryV1, lib: Library, ns: string, ts: seq<string>, objs: seq<Object>,
                                         o: Object)
    requires IsOutput(b, lib, ns, ts, objs)
    ensures o in objs <==> o in EmittedAccounts(b, ns) || o in Rbac(b, lib, ns, ts) || o in Content(b, lib, ns, ts)
  {
    var n := |EmittedAccounts(b, ns)|;
    assert objs == objs[..n] + objs[n..];
    assert o in objs[..n] <==> o in multiset(objs[..n]);
    assert o in EmittedAccounts(b, ns) <==> o in multiset(EmittedAccounts(b, ns));
  }

  /** The emitted RBAC objects, one family at a time. */
  lemma {:induction false} RbacFamilies(b: RegistryV1, lib: Library, ns: string, ts: seq<string>, o: Object)
    ensures var out := Rbac(b, lib, ns, ts);
            var gs := AllGrants(ts, Namespaced(b, ts));
            var ps := ClusterWide(b, ts);
            && (o.Role? ==> (o in out <==> exists g :: g in gs && o == NewRole(b, lib, g)))
            && (o.RoleBinding? ==> (o in out <==> exists g :: g in gs && o == NewRoleBinding(b, lib, ns, g)))
            && (o.ClusterRole? ==> (o in out <==> exists p :: p in ps && o == NewClusterRole(b, lib, p)))
            && (o.ClusterRoleBinding? ==>
               (o in out <==> exists p :: p in ps && o == NewClusterRoleBinding(b, lib, ns, p)))
  {
    var gs, ps := AllGrants(ts, Namespaced(b, ts)), ClusterWide(b, ts);
    var r, rb := Roles(b, lib, gs), RoleBindings(b, lib, ns, gs);
    var cr, crb := ClusterRoles(b, lib, ps), ClusterRoleBindings(b, lib, ns, ps);
    assert o in Rbac(b, lib, ns, ts) <==> o in r || o in rb || o in cr || o in crb;
    NamespacedFamily(b, lib, ns, gs, o);
    ClusterFamily(b, lib, ns, ps, o);
  }

  lemma {:induction false} NamespacedFamily(b: RegistryV1, lib: Library, ns: string, gs: seq<Grant>, o: Object)
    ensures o in Roles(b, lib, gs) <==> exists g :: g in gs && o == NewRole(b, lib, g)
    ensures o in RoleBindings(b, lib, ns, gs) <==> exists g :: g in gs && o == NewRoleBinding(b, lib, ns, g)
  {
    var r, rb := Roles(b, lib, gs), RoleBindings(b, lib, ns, gs);
    forall g | g in gs ensures NewRole(b, lib, g) in r && NewRoleBinding(b, lib, ns, g) in rb {
      var i :| 0 <= i < |gs| && gs[i] == g;
      assert r[i] == NewRole(b, lib, g) && rb[i] == NewRoleBinding(b, lib, ns, g);
    }
    if o in r { var i :| 0 <= i < |gs| && r[i] == o; assert gs[i] in gs; }
    if o in rb { var i :| 0 <= i < |gs| && rb[i] == o; assert gs[i] in gs; }
  }

  lemma {:induction false} ClusterFamily(b: RegistryV1, lib: Library, ns: string, ps: seq<Permission>, o: Object)
    ensures o in ClusterRoles(b, lib, ps) <==> exists p :: p in ps && o == NewClusterRole(b, lib, p)
    ensures o in ClusterRoleBindings(b, lib, ns, ps)
            <==> exists p :: p in ps && o == NewClusterRoleBinding(b, lib, ns, p)
  {
    var r, rb := ClusterRoles(b, lib, ps), ClusterRoleBindings(b, lib, ns, ps);
    forall p | p in ps ensures NewClusterRole(b, lib, p) in r && NewClusterRoleBinding(b, lib, ns, p) in rb {
      var i :| 0 <= i < |ps| && ps[i] == p;
      assert r[i] == NewClusterRole(b, lib, p) && rb[i] == NewClusterRoleBinding(b, lib, ns, p);
    }
    if o in r { var i :| 0 <= i < |ps| && r[i] == o; assert ps[i] in ps; }
    if o in rb { var i :| 0 <= i < |ps| && rb[i] == o; assert ps[i] in ps; }
  }

  /** Two permissions of the bundle that get one name are one permission: names are told apart
      by their digests. */
  lemma {:induction false} NamesDeterminePermissions(b: RegistryV1, lib: Library, p: Permission, q: Permission)
    requires Hashable(lib, b.csv.permissions) && Hashable(lib, b.csv.clusterPermissions)
    requires CollisionFree(lib, b.csv)
    requires p in b.csv.permissions + b.csv.clusterPermissions
    requires q in b.csv.permissions + b.csv.clusterPermissions
    requires NameOf(b, lib, p) == NameOf(b, lib, q)
    ensures p == q
  {
    var all := b.csv.permissions + b.csv.clusterPermissions;
    var i :| 0 <= i < |all| && all[i] == p;
    var j :| 0 <= j < |all| && all[j] == q;
    assert lib.digest(p).Some? && lib.digest(q).Some?;
    NamesDetermineDigests(b.csv.name + "-" + Account(p), lib.digest(p).value,
                          b.csv.name + "-" + Account(q), lib.digest(q).value);
  }

  /** What a generated binding and a generated role of one family grant. */
  lemma {:induction false} NamespacedPair(b: RegistryV1, lib: Library, ns: string, g: Grant, h: Grant,
                                          who: Subject, rule: PolicyRule, at: string)
    ensures Grants(NewRoleBinding(b, lib, ns, g), NewRole(b, lib, h), who, rule, at)
            <==> && NameOf(b, lib, g.permission) == NameOf(b, lib, h.permission)
                 && g.namespace == h.namespace == at
                 && who == Subject(ns, Account(g.permission)) && rule in h.permission.rules
  {
    assert NewRoleBinding(b, lib, ns, g).subjects[0] == Subject(ns, Account(g.permission));
  }

  lemma {:induction false} ClusterPair(b: RegistryV1, lib: Library, ns: string, p: Permission, q: Permission,
                                       who: Subject, rule: PolicyRule, at: string)
    ensures Grants(NewClusterRoleBinding(b, lib, ns, p), NewClusterRole(b, lib, q), who, rule, at)
            <==> && NameOf(b, lib, p) == NameOf(b, lib, q)
                 && who == Subject(ns, Account(p)) && rule in q.rules
  {
    assert NewClusterRoleBinding(b, lib, ns, p).subjects[0] == Subject(ns, Account(p));
  }

  lemma {:induction false} RoleMeaning(b: RegistryV1, lib: Library, ns: string, ts: seq<string>,
                                       who: Subject, rule: PolicyRule, at: string)
    requires Convertible(b, lib, ns, ts) && CollisionFree(lib, b.csv)
    ensures var gs := AllGrants(ts, Namespaced(b, ts));
            Across(RoleBindings(b, lib, ns, gs), Roles(b, lib, gs), who, rule, at)
            <==> who.namespace == ns && at in ts && Lists(Namespaced(b, ts), who.name, rule)
  {
    var ps := Namespaced(b, ts);
    var gs := AllGrants(ts, ps);
    var roles, bindings := Roles(b, lib, gs), RoleBindings(b, lib, ns, gs);
    if x, r :| x in bindings && r in roles && Grants(x, r, who, rule, at) {
      NamespacedFamily(b, lib, ns, gs, x);
      NamespacedFamily(b, lib, ns, gs, r);
      var g :| g in gs && x == NewRoleBinding(b, lib, ns, g);
      var h :| h in gs && r == NewRole(b, lib, h);
      GrantMembers(ts, ps, g);
      GrantMembers(ts, ps, h);
      NamespacedPair(b, lib, ns, g, h, who, rule, at);
      NamesDeterminePermissions(b, lib, g.permission, h.permission);
    }
    if who.namespace == ns && at in ts && Lists(ps, who.name, rule) {
      var p :| p in ps && Account(p) == who.name && rule in p.rules;
      var g := Grant(at, p);
      GrantMembers(ts, ps, g);
      var x, r := NewRoleBinding(b, lib, ns, g), NewRole(b, lib, g);
      NamespacedFamily(b, lib, ns, gs, x);
      NamespacedFamily(b, lib, ns, gs, r);
      NamespacedPair(b, lib, ns, g, g, who, rule, at);
    }
  }

  lemma {:induction false} ClusterRoleMeaning(b: RegistryV1, lib: Library, ns: string, ts: seq<string>,
                                              who: Subject, rule: PolicyRule, at: string)
    requires Convertible(b, lib, ns, ts) && CollisionFree(lib, b.csv)
    ensures var ps := ClusterWide(b, ts);
            Across(ClusterRoleBindings(b, lib, ns, ps), ClusterRoles(b, lib, ps), who, rule, at)
            <==> who.namespace == ns && Lists(ps, who.name, rule)
  {
    var ps := ClusterWide(b, ts);
    var roles, bindings := ClusterRoles(b, lib, ps), ClusterRoleBindings(b, lib, ns, ps);
    if x, r :| x in bindings && r in roles && Grants(x, r, who, rule, at) {
      ClusterFamily(b, lib, ns, ps, x);
      ClusterFamily(b, lib, ns, ps, r);
      var p :| p in ps && x == NewClusterRoleBinding(b, lib, ns, p);
      var q :| q in ps && r == NewClusterRole(b, lib, q);
      ClusterPair(b, lib, ns, p, q, who, rule, at);
      NamesDeterminePermissions(b, lib, p, q);
    }
    if who.namespace == ns && Lists(ps, who.name, rule) {
      var p :| p in ps && Account(p) == who.name && rule in p.rules;
      var x, r := NewClusterRoleBinding(b, lib, ns, p), NewClusterRole(b, lib, p);
      ClusterFamily(b, lib, ns, ps, x);
      ClusterFamily(b, lib, ns, ps, r);
      ClusterPair(b, lib, ns, p, p, who, rule, at);
    }
  }

  /** Generated bindings refer to roles of their own kind, so no grant mixes the two families. */
  lemma {:induction false} GeneratedPairs(b: RegistryV1, lib: Library, ns: string, ts: seq<string>,
                                          who: Subject, rule: PolicyRule, at: string)
    ensures var gs := AllGrants(ts, Namespaced(b, ts));
            var ps := ClusterWide(b, ts);
            Across(Rbac(b, lib, ns, ts), Rbac(b, lib, ns, ts), who, rule, at)
            <==> Across(RoleBindings(b, lib, ns, gs), Roles(b, lib, gs), who, rule, at)
                 || Across(ClusterRoleBindings(b, lib, ns, ps), ClusterRoles(b, lib, ps), who, rule, at)
  {
    var out := Rbac(b, lib, ns, ts);
    var gs, ps := AllGrants(ts, Namespaced(b, ts)), ClusterWide(b, ts);
    if x, r :| x in out && r in out && Grants(x, r, who, rule, at) {
      RbacParts(b, lib, ns, ts, x);
      RbacParts(b, lib, ns, ts, r);
    }
    if x, r :| x in RoleBindings(b, lib, ns, gs) && r in Roles(b, lib, gs) && Grants(x, r, who, rule, at) {
      assert x in out && r in out;
    }
    var bindings, roles := ClusterRoleBindings(b, lib, ns, ps), ClusterRoles(b, lib, ps);
    if x, r :| x in bindings && r in roles && Grants(x, r, who, rule, at) {
      assert x in out && r in out;
    }
  }

  lemma {:induction false} RbacParts(b: RegistryV1, lib: Library, ns: string, ts: seq<string>, o: Object)
    requires o in Rbac(b, lib, ns, ts)
    ensures var gs := AllGrants(ts, Namespaced(b, ts));
            var ps := ClusterWide(b, ts);
            match o
            case Role(_, _, _) => o in Roles(b, lib, gs)
            case RoleBinding(_, _, _, _) => o in RoleBindings(b, lib, ns, gs)
            case ClusterRole(_, _) => o in ClusterRoles(b, lib, ps)
            case ClusterRoleBinding(_, _, _) => o in ClusterRoleBindings(b, lib, ns, ps)
            case _ => false
  {
  }

  // ---- identities ----

  /** A generated RBAC object is settled by its kind, namespace and name. */
  lemma {:induction false} GeneratedOnce(b: RegistryV1, lib: Library, ns: string, ts: seq<string>, x: Object, y: Object)
    requires Convertible(b, lib, ns, ts) && CollisionFree(lib, b.csv)
    requires x in Rbac(b, lib, ns, ts) && y in Rbac(b, lib, ns, ts) && IdentityOf(x) == IdentityOf(y)
    ensures x == y
  {
    RbacFamilies(b, lib, ns, ts, x);
    RbacFamilies(b, lib, ns, ts, y);
    OnlyRbac(b, lib, ns, ts);
    assert IsRbac(x) && IsRbac(y);
    var gs, ps := AllGrants(ts, Namespaced(b, ts)), ClusterWide(b, ts);
    if x.Role? || x.RoleBinding? {
      var g :| g in gs && x == if x.Role? then NewRole(b, lib, g) else NewRoleBinding(b, lib, ns, g);
      var h :| h in gs && y == if x.Role? then NewRole(b, lib, h) else NewRoleBinding(b, lib, ns, h);
      GrantMembers(ts, Namespaced(b, ts), g);
      GrantMembers(ts, Namespaced(b, ts), h);
      NamesDeterminePermissions(b, lib, g.permission, h.permission);
    } else {
      var cluster := x.ClusterRole?;
      var p :| p in ps && x == if cluster then NewClusterRole(b, lib, p) else NewClusterRoleBinding(b, lib, ns, p);
      var q :| q in ps && y == if cluster then NewClusterRole(b, lib, q) else NewClusterRoleBinding(b, lib, ns, q);
      NamesDeterminePermissions(b, lib, p, q);
    }
  }

  lemma {:induction false} GeneratedHeld(b: RegistryV1, lib: Library, ns: string, ts: seq<string>, o: Object)
    requires Convertible(b, lib, ns, ts) && CollisionFree(lib, b.csv)
    ensures Held(Rbac(b, lib, ns, ts), o) <==> o in Rbac(b, lib, ns, ts)
  {
    var out := Rbac(b, lib, ns, ts);
    forall x, y | x in out && y in out && IdentityOf(x) == IdentityOf(y) ensures x == y {
      GeneratedOnce(b, lib, ns, ts, x, y);
    }
    HeldIfSettled(out, o);
  }

  lemma {:induction false} OnlyRbac(b: RegistryV1, lib: Library, ns: string, ts: seq<string>)
    ensures forall o :: o in Rbac(b, lib, ns, ts) ==> IsRbac(o)
  {
  }

  /** The service accounts and RBAC objects that conversion makes up. */
  ghost predicate Generated(b: RegistryV1, lib: Library, ns: string, ts: seq<string>, o: Object) {
    o in EmittedAccounts(b, ns) || o in Rbac(b, lib, ns, ts)
  }

  /** Applying the output to a cluster has a generated object overwrite or be overwritten by a
      different one exactly when the bundle carries a manifest with that object's identity. */
  lemma {:induction false} NoOverwrites(b: RegistryV1, lib: Library, ns: string, ts: seq<string>, objs: seq<Object>,
                                        x: Object)
    requires Convertible(b, lib, ns, ts) && IsOutput(b, lib, ns, ts, objs) && CollisionFree(lib, b.csv)
    requires Generated(b, lib, ns, ts, x)
    ensures (exists y :: y in objs && y != x && IdentityOf(y) == IdentityOf(x))
            <==> exists m :: m in b.others && IdentityOf(NewOther(lib, ns, m)) == IdentityOf(x)
  {
    OnlyRbac(b, lib, ns, ts);
    if y :| y in objs && y != x && IdentityOf(y) == IdentityOf(x) {
      OnlyManifestsClash(b, lib, ns, ts, objs, x, y);
    }
    if m :| m in b.others && IdentityOf(NewOther(lib, ns, m)) == IdentityOf(x) {
      OtherMembers(b, lib, ns, m);
      OutputMembers(b, lib, ns, ts, objs, NewOther(lib, ns, m));
      assert NewOther(lib, ns, m) in Content(b, lib, ns, ts);
    }
  }

  lemma {:induction false} OnlyManifestsClash(b: RegistryV1, lib: Library, ns: string, ts: seq<string>,
                                              objs: seq<Object>, x: Object, y: Object)
    requires Convertible(b, lib, ns, ts) && IsOutput(b, lib, ns, ts, objs) && CollisionFree(lib, b.csv)
    requires Generated(b, lib, ns, ts, x) && y in objs && y != x && IdentityOf(y) == IdentityOf(x)
    ensures exists m :: m in b.others && y == NewOther(lib, ns, m)
  {
    OnlyRbac(b, lib, ns, ts);
    OutputMembers(b, lib, ns, ts, objs, y);
    ContentByIdentity(b, lib, ns, ts, y);
    if !y.Other? {
      KindTells(x, y);
      if x in Rbac(b, lib, ns, ts) { GeneratedOnce(b, lib, ns, ts, x, y); }
    }
  }

  lemma {:induction false} OtherMembers(b: RegistryV1, lib: Library, ns: string, m: Resource)
    requires m in b.others
    ensures NewOther(lib, ns, m) in Others(lib, ns, b.others)
  {
    var i :| 0 <= i < |b.others| && b.others[i] == m;
    assert Others(lib, ns, b.others)[i] == NewOther(lib, ns, m);
  }

  /** What follows the RBAC section is told from generated objects by its kind, but for manifests. */
  lemma {:induction false} ContentByIdentity(b: RegistryV1, lib: Library, ns: string, ts: seq<string>, y: Object)
    ensures y in Content(b, lib, ns, ts) ==>
              y.CRD? || y.Deployment? || exists m :: m in b.others && y == NewOther(lib, ns, m)
  {
    if y in Content(b, lib, ns, ts) && y in Others(lib, ns, b.others) {
      var i :| 0 <= i < |b.others| && Others(lib, ns, b.others)[i] == y;
      assert b.others[i] in b.others;
    }
  }

  // ---- meaning ----

  /** Conversion preserves meaning: by the generated objects an account of the install namespace may
      use a rule in a namespace exactly when the CSV asks for it, and no other account gets anything. */
  lemma {:induction false} MeaningPreserved(b: RegistryV1, lib: Library, ns: string, ts: seq<string>,
                                            who: Subject, rule: PolicyRule, at: string)
    requires Convertible(b, lib, ns, ts) && CollisionFree(lib, b.csv)
    ensures Granted(Rbac(b, lib, ns, ts), who, rule, at)
            <==> who.namespace == ns && Requested(b.csv, ts, who.name, rule, at)
  {
    var out := Rbac(b, lib, ns, ts);
    forall o ensures Held(out, o) <==> o in out { GeneratedHeld(b, lib, ns, ts, o); }
    assert Granted(out, who, rule, at) <==> Across(out, out, who, rule, at);
    GeneratedPairs(b, lib, ns, ts, who, rule, at);
    RoleMeaning(b, lib, ns, ts, who, rule, at);
    ClusterRoleMeaning(b, lib, ns, ts, who, rule, at);
    var c, p := b.csv.clusterPermissions, b.csv.permissions;
    ListsConcat(c, p, who.name, rule);
    assert c + [] == c;
  }

  lemma {:induction false} ListsConcat(c: seq<Permission>, p: seq<Permission>, account: string, rule: PolicyRule)
    ensures Lists(c + p, account, rule) <==> Lists(c, account, rule) || Lists(p, account, rule)
  {
    if Lists(c, account, rule) {
      var x :| x in c && Account(x) == account && rule in x.rules;
      assert x in c + p;
    }
    if Lists(p, account, rule) {
      var x :| x in p && Account(x) == account && rule in x.rules;
      assert x in c + p;
    }
  }

  // ---- all-namespaces targets ----

  /** A target list naming only "" is accepted as all-namespaces.  Its permissions then hold in
      an ordinary namespace exactly when the list is written once: [""] is promoted to cluster
      scope, ["", ""] is not. */
  lemma {:induction false} AllNamespacesNeedsOneTarget(b: RegistryV1, lib: Library, ns: string, ts: seq<string>,
                                                       account: string, rule: PolicyRule, at: string)
    requires Convertible(b, lib, ns, ts) && CollisionFree(lib, b.csv)
    requires ts != [] && forall t :: t in ts ==> t == ""
    requires at != "" && Lists(b.csv.permissions, account, rule) && !Lists(b.csv.clusterPermissions, account, rule)
    ensures Granted(Rbac(b, lib, ns, ts), Subject(ns, account), rule, at) <==> |ts| == 1
  {
    MeaningPreserved(b, lib, ns, ts, Subject(ns, account), rule, at);
    assert ts[0] in ts;
    assert |ts| == 1 ==> ts == [""];
  }

  lemma {:induction false} RepeatedEmptyTargetAccepted()
    ensures TargetsAccepted({ALL_NAMESPACES}, "ns", ["", ""]) && !Promoted(["", ""])
  {
    assert (set t | t in ["", ""]) == {""};
  }

  // ---- accounts, counts and annotations ----

  ghost predicate Names(o: Object, account: string) {
    || ((o.RoleBinding? || o.ClusterRoleBinding?) && exists s :: s in o.subjects && s.name == account)
    || (o.Deployment? && AccountName(o.spec.serviceAccountName) == account)
  }

  /** Whatever account a generated binding or a deployment names is "default" or generated, exactly
      once, in the install namespace; and every generated account is so named. */
  lemma {:induction false} AccountsEmitted(b: RegistryV1, lib: Library, ns: string, ts: seq<string>, objs: seq<Object>,
                                           account: string)
    requires Convertible(b, lib, ns, ts) && IsOutput(b, lib, ns, ts, objs) && ts != []
    ensures account != DEFAULT_ACCOUNT ==>
              multiset(objs)[ServiceAccount(ns, account)] == if exists o :: o in objs && Names(o, account) then 1 else 0
    ensures forall o :: o in objs && o.ServiceAccount? ==> o.namespace == ns && o.name != DEFAULT_ACCOUNT
  {
    NoAccountsInRest(b, lib, ns, ts);
    MentionedAccounts(b, lib, ns, ts, account);
    AccountOccurrences(b, lib, ns, ts, objs, ServiceAccount(ns, account));
    forall o
      ensures o in objs <==> o in EmittedAccounts(b, ns) || o in Rbac(b, lib, ns, ts) || o in Content(b, lib, ns, ts)
    {
      OutputMembers(b, lib, ns, ts, objs, o);
    }
    var rest := Rbac(b, lib, ns, ts) + Content(b, lib, ns, ts);
    assert forall o :: o in objs && Names(o, account) ==> o in rest;
    assert forall o :: o in rest ==> o in objs;
    assert account != DEFAULT_ACCOUNT ==>
      (ServiceAccount(ns, account) in EmittedAccounts(b, ns) <==> account in AccountNames(b));
  }

  lemma {:induction false} AccountOccurrences(b: RegistryV1, lib: Library, ns: string, ts: seq<string>,
                                              objs: seq<Object>, sa: Object)
    requires IsOutput(b, lib, ns, ts, objs) && sa.ServiceAccount?
    ensures multiset(objs)[sa] == if sa in EmittedAccounts(b, ns) then 1 else 0
  {
    var n := |EmittedAccounts(b, ns)|;
    NoAccountsInRest(b, lib, ns, ts);
    assert objs == objs[..n] + objs[n..];
    assert sa !in objs[n..];
    assert multiset(objs)[sa] == multiset(objs[..n])[sa] + multiset(objs[n..])[sa];
  }

  lemma {:induction false} NoAccountsInRest(b: RegistryV1, lib: Library, ns: string, ts: seq<string>)
    ensures forall o :: o in Rbac(b, lib, ns, ts) + Content(b, lib, ns, ts) ==> !o.ServiceAccount?
  {
    forall o | o in Rbac(b, lib, ns, ts) ensures !o.ServiceAccount? {}
    forall o | o in Content(b, lib, ns, ts) ensures !o.ServiceAccount? {}
  }

  lemma {:induction false} MentionedAccounts(b: RegistryV1, lib: Library, ns: string, ts: seq<string>, account: string)
    requires ts != []
    ensures (exists o :: o in Rbac(b, lib, ns, ts) + Content(b, lib, ns, ts) && Names(o, account))
            <==> account in AccountNames(b)
  {
    var out, rest := Rbac(b, lib, ns, ts), Content(b, lib, ns, ts);
    var gs, ps := AllGrants(ts, Namespaced(b, ts)), ClusterWide(b, ts);
    forall o | o in out + rest && Names(o, account) ensures account in AccountNames(b) {
      if o in out {
        RbacFamilies(b, lib, ns, ts, o);
        if o.RoleBinding? {
          var g :| g in gs && o == NewRoleBinding(b, lib, ns, g);
          GrantMembers(ts, Namespaced(b, ts), g);
          assert g.permission in b.csv.permissions + b.csv.clusterPermissions;
        } else {
          var p :| p in ps && o == NewClusterRoleBinding(b, lib, ns, p);
          assert p in b.csv.permissions + b.csv.clusterPermissions;
        }
      } else {
        DeploymentMembers(b, lib, ns, ts, o);
      }
    }
    if account in AccountNames(b) {
      if d :| d in b.csv.deployments && AccountName(d.serviceAccountName) == account {
        var o := NewDeployment(b, ns, ts, d);
        DeploymentMembers(b, lib, ns, ts, o);
        assert o in out + rest;
      } else {
        var p :| p in b.csv.permissions + b.csv.clusterPermissions && Account(p) == account;
        if p in ps {
          var o := NewClusterRoleBinding(b, lib, ns, p);
          RbacFamilies(b, lib, ns, ts, o);
          assert o.subjects[0].name == account && o in out + rest;
        } else {
          var g := Grant(ts[0], p);
          GrantMembers(ts, Namespaced(b, ts), g);
          var o := NewRoleBinding(b, lib, ns, g);
          RbacFamilies(b, lib, ns, ts, o);
          assert o.subjects[0].name == account && o in out + rest;
        }
      }
    }
  }

  lemma {:induction false} DeploymentMembers(b: RegistryV1, lib: Library, ns: string, ts: seq<string>, o: Object)
    requires o.Deployment?
    ensures o in Content(b, lib, ns, ts) <==> exists d :: d in b.csv.deployments && o == NewDeployment(b, ns, ts, d)
  {
    var ds := Deployments(b, ns, ts, b.csv.deployments);
    assert o in Content(b, lib, ns, ts) <==> o in ds;
    forall i | 0 <= i < |b.csv.deployments|
      ensures ds[i] in ds && ds[i] == NewDeployment(b, ns, ts, b.csv.deployments[i])
    {
    }
  }

  /** The account a permission or a deployment is for: the one it names, or "default". */
  predicate IsFor(account: string, named: string) {
    (named != "" && account == named) || (named == "" && account == "default")
  }

  /** Every generated binding binds, in the install namespace, the one account its permission is for,
      and every permission has its binding. */
  lemma {:induction false} BindingsCarried(b: RegistryV1, lib: Library, ns: string, ts: seq<string>, objs: seq<Object>)
    requires IsOutput(b, lib, ns, ts, objs)
    ensures forall o :: o in objs && o.RoleBinding? ==> exists p ::
              p in Namespaced(b, ts) && |o.subjects| == 1 && o.subjects[0].namespace == ns
              && IsFor(o.subjects[0].name, p.serviceAccountName) && o.name == o.roleRef == NameOf(b, lib, p)
    ensures forall o :: o in objs && o.ClusterRoleBinding? ==> exists p ::
              p in ClusterWide(b, ts) && |o.subjects| == 1 && o.subjects[0].namespace == ns
              && IsFor(o.subjects[0].name, p.serviceAccountName) && o.name == o.roleRef == NameOf(b, lib, p)
    ensures forall p, t :: p in Namespaced(b, ts) && t in ts ==>
              exists o :: o in objs && o.RoleBinding? && o.namespace == t && o.name == NameOf(b, lib, p)
    ensures forall p :: p in ClusterWide(b, ts) ==>
              exists o :: o in objs && o.ClusterRoleBinding? && o.name == NameOf(b, lib, p)
  {
    forall o | o in objs && (o.RoleBinding? || o.ClusterRoleBinding?) ensures o in Rbac(b, lib, ns, ts) {
      OutputMembers(b, lib, ns, ts, objs, o);
    }
    var gs := AllGrants(ts, Namespaced(b, ts));
    forall o | o in objs && o.RoleBinding? ensures exists g :: g in gs && o == NewRoleBinding(b, lib, ns, g) {
      RbacFamilies(b, lib, ns, ts, o);
    }
    forall g | g in gs ensures g.permission in Namespaced(b, ts) { GrantMembers(ts, Namespaced(b, ts), g); }
    forall o | o in objs && o.ClusterRoleBinding?
      ensures exists p :: p in ClusterWide(b, ts) && o == NewClusterRoleBinding(b, lib, ns, p)
    {
      RbacFamilies(b, lib, ns, ts, o);
    }
    forall p, t | p in Namespaced(b, ts) && t in ts
      ensures exists o :: o in objs && o.RoleBinding? && o.namespace == t && o.name == NameOf(b, lib, p)
    {
      var o := NewRoleBinding(b, lib, ns, Grant(t, p));
      GrantMembers(ts, Namespaced(b, ts), Grant(t, p));
      RbacFamilies(b, lib, ns, ts, o);
      OutputMembers(b, lib, ns, ts, objs, o);
    }
    forall p | p in ClusterWide(b, ts)
      ensures exists o :: o in objs && o.ClusterRoleBinding? && o.name == NameOf(b, lib, p)
    {
      var o := NewClusterRoleBinding(b, lib, ns, p);
      RbacFamilies(b, lib, ns, ts, o);
      OutputMembers(b, lib, ns, ts, objs, o);
    }
  }

  /** The CRDs of the output are the bundle's, unchanged. */
  lemma {:induction false} CRDsCarried(b: RegistryV1, lib: Library, ns: string, ts: seq<string>, objs: seq<Object>,
                                       r: Resource)
    requires IsOutput(b, lib, ns, ts, objs)
    ensures CRD(r) in objs <==> r in b.crds
  {
    OutputMembers(b, lib, ns, ts, objs, CRD(r));
    var crds := CRDs(b.crds);
    assert CRD(r) in Content(b, lib, ns, ts) <==> CRD(r) in crds;
    if r in b.crds {
      var i :| 0 <= i < |b.crds| && b.crds[i] == r;
      assert crds[i] == CRD(r);
    }
  }

  lemma {:induction false} GrantCount(ts: seq<string>, ps: seq<Permission>)
    ensures |AllGrants(ts, ps)| == |ts| * |ps|
  {
    if ts != [] {
      var n := |ts| - 1;
      GrantCount(ts[..n], ps);
      assert n * |ps| + |ps| == (n + 1) * |ps|;
    }
  }

  /** How many objects a conversion emits, in closed form. */
  lemma {:induction false} ObjectCount(b: RegistryV1, lib: Library, ns: string, ts: seq<string>, objs: seq<Object>)
    requires IsOutput(b, lib, ns, ts, objs)
    ensures |objs| == |EmittedAccounts(b, ns)|
                      + 2 * (if Promoted(ts) then |b.csv.permissions| else |ts| * |b.csv.permissions|)
                      + 2 * |b.csv.clusterPermissions| + |b.crds| + |b.others| + |b.csv.deployments|
  {
    GrantCount(ts, Namespaced(b, ts));
  }

  /** Two runs on one input differ at most in the order of the service accounts. */
  lemma {:induction false} OutputUniqueUpToOrder(b: RegistryV1, lib: Library, ns: string, ts: seq<string>,
                                                 x: seq<Object>, y: seq<Object>)
    requires IsOutput(b, lib, ns, ts, x) && IsOutput(b, lib, ns, ts, y)
    ensures multiset(x) == multiset(y)
  {
    var n := |EmittedAccounts(b, ns)|;
    assert x == x[..n] + x[n..] && y == y[..n] + y[n..];
  }

  /** Every emitted deployment carries the target list, and splitting its annotation gives the
      list back whenever the names are free of commas. */
  lemma {:induction false} TargetsAnnotated(b: RegistryV1, lib: Library, ns: string, ts: seq<string>,
                                            objs: seq<Object>, o: Object)
    requires Convertible(b, lib, ns, ts) && IsOutput(b, lib, ns, ts, objs) && ts != [] && AllFree(ts, ',')
    requires o in objs && o.Deployment?
    ensures TARGET_NAMESPACES in o.annotations && Split(o.annotations[TARGET_NAMESPACES], ',') == ts
  {
    OutputMembers(b, lib, ns, ts, objs, o);
    assert o !in Rbac(b, lib, ns, ts);
    DeploymentMembers(b, lib, ns, ts, o);
    SplitJoin(ts, ',');
  }

  /** Every emitted deployment is one of the bundle's, in the install namespace, with the CSV's
      annotations overridden by those of its own template. */
  lemma {:induction false} DeploymentsCarried(b: RegistryV1, lib: Library, ns: string, ts: seq<string>,
                                              objs: seq<Object>, o: Object)
    requires IsOutput(b, lib, ns, ts, objs) && o in objs && o.Deployment?
    ensures o.spec in b.csv.deployments && o.namespace == ns && o.name == o.spec.name && o.labels == o.spec.labels
    ensures forall k :: k != TARGET_NAMESPACES ==>
              (if k in o.spec.templateAnnotations
               then k in o.annotations && o.annotations[k] == o.spec.templateAnnotations[k]
               else if k in b.csv.annotations then k in o.annotations && o.annotations[k] == b.csv.annotations[k]
               else k !in o.annotations)
  {
    OutputMembers(b, lib, ns, ts, objs, o);
    assert o !in Rbac(b, lib, ns, ts);
    DeploymentMembers(b, lib, ns, ts, o);
  }

  /** Every other manifest of the bundle is emitted as it is but for its namespace, which becomes
      the install namespace where its kind is namespaced. */
  lemma {:induction false} OthersCarried(b: RegistryV1, lib: Library, ns: string, ts: seq<string>, objs: seq<Object>,
                                         r: Resource)
    requires IsOutput(b, lib, ns, ts, objs) && r in b.others && r.kind in lib.kinds
    ensures exists o :: o in objs && o.Other? && o.resource.(namespace := r.namespace) == r
                        && o.resource.namespace == if lib.kinds[r.kind] then ns else r.namespace
  {
    var i :| 0 <= i < |b.others| && b.others[i] == r;
    var o := NewOther(lib, ns, r);
    assert Others(lib, ns, b.others)[i] == o;
    assert o in Content(b, lib, ns, ts);
    OutputMembers(b, lib, ns, ts, objs, o);
  }
}
