/** The apply helpers of ResourceApply, put behind the contract that the
    convergence results rest on. */
module OperandResources {
  import opened Wrappers
  import opened OwnerMerge
  import opened ObjectMeta
  import opened ResourceApply
  import opened Requests
  import opened Sync
  import opened Convergence

  /** `required` renders an asset for a custom resource, None when that fails;
      `admits` says which updates the server lets through. */
  datatype Operand = Operand(required: (Resource, CrView) -> Option<Required>, rules: Resource -> Rules,
                             admits: (Resource, Object, Object) -> bool)

  /** What is assumed of assets, comparisons and server. The Deployment's helper
      compares metadata and generation and never the spec itself. */
  ghost predicate WellFormed(operand: Operand) {
    && (forall r: Resource :: Settles(operand.rules(r).norm))
    && (forall r: Resource, view :: operand.required(r, view).Some? ==>
          WellFormedMeta(operand.required(r, view).value.meta))
    && (forall view :: operand.required(DEPLOYMENT, view).Some? ==> operand.required(DEPLOYMENT, view).value.spec.Some?)
    && (forall a, b :: operand.rules(DEPLOYMENT).same(a, b))
  }

  const NOTHING := Object(Meta("", "", map[], map[], []), map[])

  function ApplyOne(operand: Operand, r: Resource, view: CrView, x: Option<Object>, stale: bool): Object {
    var required := operand.required(r, view);
    if required.Some? then Apply(operand.rules(r), required.value, x, stale && r == DEPLOYMENT).0
    else if x.Some? then x.value
    else NOTHING
  }

  function EnvOf(operand: Operand, metaBumps: Bumps): Env {
    Env((r: Resource, view: CrView) => operand.required(r, view).Some?,
        (r: Resource, view: CrView, x: Option<Object>, stale: bool) => ApplyOne(operand, r, view, x, stale),
        operand.admits, metaBumps)
  }

  lemma OneApplySettles(operand: Operand, r: Resource, view: CrView, x: Option<Object>, stale: bool)
    requires WellFormed(operand)
    requires r == DEPLOYMENT ==> stale || x.None?
    ensures var y := ApplyOne(operand, r, view, x, stale);
            ApplyOne(operand, r, view, Some(y), r == DEPLOYMENT) == y
  {
    var required := operand.required(r, view);
    if required.Some? {
      var rules := operand.rules(r);
      var tracked := r == DEPLOYMENT;
      var y := ApplyOne(operand, r, view, x, stale);
      if tracked {
        TrackedApplyAgreesIff(rules, required.value, x, stale);
      } else {
        ApplyAgrees(rules, required.value, x);
      }
      assert Agrees(rules, required.value, y, tracked);
      AgreedObjectIsLeftAlone(rules, required.value, y, tracked, tracked);
    }
  }

  /** The helpers meet the contract. */
  lemma HelpersMeetContract(operand: Operand, metaBumps: Bumps)
    requires WellFormed(operand)
    ensures Contract(EnvOf(operand, metaBumps))
  {
    var env := EnvOf(operand, metaBumps);
    forall r: Resource, view, x, stale | r != DEPLOYMENT
      ensures Fixed(env, view, r, env.apply(r, view, x, stale))
    {
      OneApplySettles(operand, r, view, x, stale);
    }
    forall view, x: Option<Object>, stale | stale || x.None?
      ensures Fixed(env, view, DEPLOYMENT, env.apply(DEPLOYMENT, view, x, stale))
    {
      OneApplySettles(operand, DEPLOYMENT, view, x, stale);
    }
  }

  /** Being converged is what a reader would expect: the metadata holds everything
      asked for, and the spec passes the helper's comparison or is the server's
      normal form of the required one; for the Deployment only the latter will do. */
  lemma ConvergedIsAgreement(operand: Operand, metaBumps: Bumps, view: CrView, c: Cluster, r: Resource)
    requires WellFormed(operand) && operand.required(r, view).Some?
    ensures Converged(EnvOf(operand, metaBumps), view, c, r) <==>
            r in c.objects &&
            Agrees(operand.rules(r), operand.required(r, view).value, c.objects[r].content, r == DEPLOYMENT)
  {}

  /** One pass in which every request is answered, from any drift, in the helpers' own
      terms: it gets past a resource if none up to it is barred, and that resource then
      agrees with its asset, the Deployment unless the recorded generation matched one
      that had drifted under unchanged metadata. */
  lemma CleanPassAgrees(operand: Operand, metaBumps: Bumps, c: Cluster, replies: seq<Reply>,
                        r: Resource)
    requires WellFormed(operand) && |replies| == COMPLETED && AllAccepted(replies)
    requires c.cr.Some? && (forall q: Resource :: operand.required(q, c.cr.value.view).Some?)
    requires r == DEPLOYMENT ==> Honest(EnvOf(operand, metaBumps), c.cr.value, c)
    ensures var env, view := EnvOf(operand, metaBumps), c.cr.value.view;
            var (c', stop) := Pass(env, c, replies);
            && ((forall q: Resource :: q <= r ==> !Barred(env, view, c, q)) ==> stop > r)
            && (stop > r ==>
                  r in c'.objects
                  && Agrees(operand.rules(r), operand.required(r, view).value, c'.objects[r].content, r == DEPLOYMENT))
  {
    var env, cr := EnvOf(operand, metaBumps), c.cr.value;
    HelpersMeetContract(operand, metaBumps);
    PassEffect(env, c, replies);
    var (c', stop) := Pass(env, c, replies);
    if 1 <= stop <= r {
      AdmittedIff(env, c, cr, stop);
      assert !Accepts(env, cr, c, replies, stop) && replies[stop].Accepted? && env.renders(stop, cr.view);
    }
    assert Accepts(env, cr, c, replies, 0);
    assert Left(env, cr, c, c', 1, stop, r);
    ConvergedIsAgreement(operand, metaBumps, cr.view, c', r);
  }

  // ---- immutable fields ----------------------------------------------------------

  const ROLE_REF := "roleRef"

  predicate SameRoleRef(a: Spec, b: Spec) {
    (ROLE_REF in a <==> ROLE_REF in b) && (ROLE_REF in a ==> a[ROLE_REF] == b[ROLE_REF])
  }

  predicate IsBinding(r: Resource) { r == CLUSTER_ROLE_BINDING || r == ROLE_BINDING }

  /** The roleRef of a binding is compared by its helper, stored by the server as it is
      sent, and never changed by an update. */
  ghost predicate RoleRefsAreImmutable(operand: Operand) {
    forall r: Resource | IsBinding(r) ::
      && (forall a, b :: operand.rules(r).same(a, b) ==> SameRoleRef(a, b))
      && (forall prev, sent :: SameRoleRef(operand.rules(r).norm(prev, sent), sent))
      && (forall x, y :: operand.admits(r, x, y) ==> SameRoleRef(x.spec, y.spec))
  }

  /** So a binding that somebody else has created with another roleRef is barred: no
      number of passes repairs it or gets behind it, whatever the replies. */
  lemma ForeignRoleRefBlocks(operand: Operand, metaBumps: Bumps, c: Cluster, r: Resource,
                             passes: seq<seq<Reply>>)
    requires WellFormed(operand) && RoleRefsAreImmutable(operand) && IsBinding(r) && ArePasses(passes)
    requires c.cr.Some? && r in c.objects && operand.required(r, c.cr.value.view).Some?
    requires operand.required(r, c.cr.value.view).value.spec.Some?
    requires !SameRoleRef(c.objects[r].content.spec, operand.required(r, c.cr.value.view).value.spec.value)
    ensures var env := EnvOf(operand, metaBumps);
            && Barred(env, c.cr.value.view, c, r)
            && forall q: Resource :: q >= r ==> SameEntry(c, Passes(env, c, passes), q)
  {
    var env, view := EnvOf(operand, metaBumps), c.cr.value.view;
    var x, spec := c.objects[r].content, operand.required(r, view).value.spec.value;
    assert !operand.rules(r).same(x.spec, spec);
    assert SameRoleRef(operand.rules(r).norm(Some(x.spec), spec), spec);
    assert !SameRoleRef(x.spec, Rewritten(env, view, r, x).spec);
    HelpersMeetContract(operand, metaBumps);
    BarredForever(env, c, passes, r);
  }

  // An input of this kind: an operand that wants the same of every kind, and a cluster
  // in which a stranger's role binding is all there is.

  const OWNER := OwnerRef(Some("operator.openshift.io"), "v1", "CliManager", "cluster", "1")

  function WantsRole(role: string): Operand {
    Operand((r: Resource, view: CrView) =>
              Some(Required(Meta(view.namespace, "openshift-cli-manager", map[], map[], [OWNER]),
                            Some(map[ROLE_REF := role]))),
            (r: Resource) =>
              Rules((a: Spec, b: Spec) => r == DEPLOYMENT || a == b, (prev: Option<Spec>, sent: Spec) => sent),
            (r: Resource, x: Object, y: Object) => IsBinding(r) ==> SameRoleRef(x.spec, y.spec))
  }

  const STRANGERS_BINDING := Object(Meta("ns", "openshift-cli-manager", map[], map[], [OWNER]), map[ROLE_REF := "view"])

  const STRANGERS_CLUSTER :=
    Cluster(Some(Cr(CrView("cluster", "ns", "1", "Normal"), [], "", 1)),
            map[ROLE_BINDING := Entry(STRANGERS_BINDING, 1, 2)], 2)

  /** The Deployment is never created, in any number of passes. */
  lemma StrangersBindingBlocksTheDeployment(metaBumps: Bumps, passes: seq<seq<Reply>>)
    requires ArePasses(passes)
    ensures WellFormed(WantsRole("operand"))
    ensures DEPLOYMENT !in Passes(EnvOf(WantsRole("operand"), metaBumps), STRANGERS_CLUSTER, passes).objects
  {
    var operand := WantsRole("operand");
    forall r: Resource, view ensures WellFormedMeta(operand.required(r, view).value.meta) {
      assert operand.required(r, view).value.meta.owners == [OWNER] && OWNER.uid[0] == '1';
    }
    assert map[ROLE_REF := "view"][ROLE_REF] != map[ROLE_REF := "operand"][ROLE_REF];
    ForeignRoleRefBlocks(operand, metaBumps, STRANGERS_CLUSTER, ROLE_BINDING, passes);
    assert SameEntry(STRANGERS_CLUSTER, Passes(EnvOf(operand, metaBumps), STRANGERS_CLUSTER, passes), DEPLOYMENT);
  }
}
