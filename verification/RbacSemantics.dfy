/** What RBAC objects mean on a cluster: who may do what where, once a list of objects has been
    applied in order and a later object has replaced an earlier one of the same identity. */
module RbacSemantics {
  import opened Text
  import opened Convert

  // ---- roles and bindings ----

  const ROLE := "Role"
  const ROLE_BINDING := "RoleBinding"
  const CLUSTER_ROLE := "ClusterRole"
  const CLUSTER_ROLE_BINDING := "ClusterRoleBinding"

  /** A role or cluster role, generated or bundled. */
  datatype RoleView = RoleView(cluster: bool, namespace: string, name: string, rules: seq<PolicyRule>)

  /** A binding of either kind, generated or bundled, with the kind of role it refers to. */
  datatype BindingView =
    BindingView(cluster: bool, namespace: string, subjects: seq<Subject>, refCluster: bool, refName: string)

  function RoleOf(o: Object): Option<RoleView> {
    match o
    case Role(ns, name, rules) => Some(RoleView(false, ns, name, rules))
    case ClusterRole(name, rules) => Some(RoleView(true, "", name, rules))
    case Other(Resource(kind, name, ns, RoleBody(rules))) =>
      if kind == ROLE then Some(RoleView(false, ns, name, rules))
      else if kind == CLUSTER_ROLE then Some(RoleView(true, "", name, rules))
      else None
    case _ => None
  }

  function BindingOf(o: Object): Option<BindingView> {
    match o
    case RoleBinding(ns, _, subjects, ref) => Some(BindingView(false, ns, subjects, false, ref))
    case ClusterRoleBinding(_, subjects, ref) => Some(BindingView(true, "", subjects, true, ref))
    case Other(Resource(kind, _, ns, BindingBody(subjects, refKind, refName))) =>
      if kind == ROLE_BINDING then Some(BindingView(false, ns, subjects, refKind == CLUSTER_ROLE, refName))
      else if kind == CLUSTER_ROLE_BINDING then Some(BindingView(true, "", subjects, refKind == CLUSTER_ROLE, refName))
      else None
    case _ => None
  }

  /** A binding refers to a cluster role by name, and to a role by name in its own namespace. */
  predicate Refers(x: BindingView, r: RoleView) {
    x.refName == r.name && x.refCluster == r.cluster && (r.cluster || (!x.cluster && x.namespace == r.namespace))
  }

  /** A binding grants the rules of the role it refers to, everywhere or in its own namespace. */
  predicate Grants(x: Object, r: Object, who: Subject, rule: PolicyRule, at: string) {
    && BindingOf(x).Some? && RoleOf(r).Some? && Refers(BindingOf(x).value, RoleOf(r).value)
    && who in BindingOf(x).value.subjects && rule in RoleOf(r).value.rules
    && (BindingOf(x).value.cluster || BindingOf(x).value.namespace == at)
  }

  /** Some binding of one list and some role of another make the grant. */
  ghost predicate Across(bindings: seq<Object>, roles: seq<Object>, who: Subject, rule: PolicyRule, at: string) {
    exists x, r :: x in bindings && r in roles && Grants(x, r, who, rule, at)
  }

  // ---- applying objects to a cluster ----

  const SERVICE_ACCOUNT := "ServiceAccount"
  const CUSTOM_RESOURCE_DEFINITION := "CustomResourceDefinition"
  const DEPLOYMENT := "Deployment"

  /** What the cluster tells objects apart by; cluster roles and their bindings have no namespace. */
  datatype Identity = Identity(kind: string, namespace: string, name: string)

  function IdentityOf(o: Object): Identity {
    match o
    case ServiceAccount(ns, name) => Identity(SERVICE_ACCOUNT, ns, name)
    case Role(ns, name, _) => Identity(ROLE, ns, name)
    case RoleBinding(ns, name, _, _) => Identity(ROLE_BINDING, ns, name)
    case ClusterRole(name, _) => Identity(CLUSTER_ROLE, "", name)
    case ClusterRoleBinding(name, _, _) => Identity(CLUSTER_ROLE_BINDING, "", name)
    case CRD(r) => Identity(CUSTOM_RESOURCE_DEFINITION, "", r.name)
    case Other(r) =>
      Identity(r.kind, if r.kind == CLUSTER_ROLE || r.kind == CLUSTER_ROLE_BINDING then "" else r.namespace, r.name)
    case Deployment(ns, name, _, _, _) => Identity(DEPLOYMENT, ns, name)
  }

  /** Objects other than manifests are of one kind if they are of one identity. */
  lemma {:induction false} KindTells(x: Object, y: Object)
    requires !x.Other? && !y.Other? && IdentityOf(x).kind == IdentityOf(y).kind
    ensures x.ServiceAccount? == y.ServiceAccount? && x.CRD? == y.CRD? && x.Deployment? == y.Deployment?
    ensures x.Role? == y.Role? && x.RoleBinding? == y.RoleBinding?
    ensures x.ClusterRole? == y.ClusterRole? && x.ClusterRoleBinding? == y.ClusterRoleBinding?
  {
    assert |SERVICE_ACCOUNT| == 14 && |ROLE| == 4 && |ROLE_BINDING| == 11 && |CLUSTER_ROLE| == 11;
    assert |CLUSTER_ROLE_BINDING| == 18 && |CUSTOM_RESOURCE_DEFINITION| == 24 && |DEPLOYMENT| == 10;
    assert ROLE_BINDING[0] == 'R' && CLUSTER_ROLE[0] == 'C';
  }

  /** The cluster after applying objects in order: one object per identity, the last one. */
  function Applied(objs: seq<Object>): map<Identity, Object> {
    if objs == [] then map[]
    else
      var last := objs[|objs| - 1];
      Applied(objs[..|objs| - 1])[IdentityOf(last) := last]
  }

  predicate Held(objs: seq<Object>, o: Object) {
    IdentityOf(o) in Applied(objs) && Applied(objs)[IdentityOf(o)] == o
  }

  /** What the cluster grants after applying objects. */
  ghost predicate Granted(objs: seq<Object>, who: Subject, rule: PolicyRule, at: string) {
    exists x, r :: Held(objs, x) && Held(objs, r) && Grants(x, r, who, rule, at)
  }

  lemma {:induction false} AppliedConcat(a: seq<Object>, b: seq<Object>)
    ensures Applied(a + b) == Applied(a) + Applied(b)
    decreases |b|
  {
    if b == [] {
      assert a + b == a;
    } else {
      var n := |b| - 1;
      assert (a + b)[..|a + b| - 1] == a + b[..n];
      AppliedConcat(a, b[..n]);
    }
  }

  lemma {:induction false} AppliedIdentities(objs: seq<Object>, id: Identity)
    ensures id in Applied(objs) <==> exists o :: o in objs && IdentityOf(o) == id
    ensures id in Applied(objs) ==> Applied(objs)[id] in objs && IdentityOf(Applied(objs)[id]) == id
    decreases |objs|
  {
    if objs != [] {
      var n := |objs| - 1;
      AppliedIdentities(objs[..n], id);
      assert objs == objs[..n] + [objs[n]];
    }
  }

  /** Where an identity settles the object, everything in the list is held. */
  lemma {:induction false} HeldIfSettled(objs: seq<Object>, o: Object)
    requires forall x, y :: x in objs && y in objs && IdentityOf(x) == IdentityOf(y) ==> x == y
    ensures Held(objs, o) <==> o in objs
  {
    AppliedIdentities(objs, IdentityOf(o));
  }
}
