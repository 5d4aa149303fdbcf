/** One reconcile pass: read the custom resource, apply eleven resources in a
    fixed order, record the Deployment's generation in the status. Every request
    may be refused, or be carried out with the reply lost. */
module Sync {
  import opened Wrappers
  import opened ResourceApply
  import opened Generations
  import opened Requests
  import opened LabelMerge

  /** A resource goes by the number of the step that manages it. Step 0 reads the
      custom resource and step 12 writes its status. */
  type Resource = r: nat | 1 <= r < STATUS_STEP witness 1

  const NETWORK_POLICY: Resource := 1
  const CLUSTER_ROLE: Resource := 2
  const CLUSTER_ROLE_BINDING: Resource := 3
  const ROLE: Resource := 4
  const ROLE_BINDING: Resource := 5
  const DEPLOYMENT: Resource := 6
  const ROUTE: Resource := 7
  const SERVICE: Resource := 8
  const SERVICE_METRICS: Resource := 9
  const SERVICE_ACCOUNT: Resource := 10
  const SERVICE_MONITOR: Resource := 11

  const STATUS_STEP := 12
  const COMPLETED := 13

  // ---- the cluster ------------------------------------------------------

  /** Uids are UUIDs, which do not end in a dash. */
  type Uid = uid: string | !IsRemoval(uid)

  /** The part of the custom resource that decides what is required. */
  datatype CrView = CrView(name: string, namespace: string, uid: Uid, logLevel: string)

  datatype Cr = Cr(view: CrView, generations: seq<GenerationStatus>, otherStatus: string, resourceVersion: nat)

  datatype Entry = Entry(content: Object, generation: nat, resourceVersion: nat)

  datatype Cluster = Cluster(cr: Option<Cr>, objects: map<Resource, Entry>, revision: nat)

  /** Whether a change from one object to another raises the generation although the
      spec stays the same. */
  type Bumps = (Object, Object) -> bool

  /** `renders` says whether the asset of a resource can be rendered for a custom
      resource. `apply` is what the server stores after one apply of it over what
      was stored; the flag is true when a helper that tracks generations sees an
      unexpected one. `admits` says whether the server lets an object be updated to
      another; some fields, as the roleRef of a binding, are immutable. */
  datatype Env = Env(renders: (Resource, CrView) -> bool,
                     apply: (Resource, CrView, Option<Object>, bool) -> Object,
                     admits: (Resource, Object, Object) -> bool,
                     metaBumps: Bumps)

  /** What an apply that writes makes of an object. */
  function Rewritten(env: Env, view: CrView, r: Resource, x: Object): Object {
    env.apply(r, view, Some(x), r == DEPLOYMENT)
  }

  /** A fixed point of the apply: rewriting it changes nothing on the server. */
  predicate Fixed(env: Env, view: CrView, r: Resource, x: Object) {
    Rewritten(env, view, r, x) == x
  }

  /** The helper contract. One apply reaches a fixed point; only the Deployment's
      helper looks at generations, and when the generation is the expected one it
      either skips the object as it is or does what it does otherwise. */
  ghost predicate Contract(env: Env) {
    && (forall r, view, x, stale :: r != DEPLOYMENT ==> Fixed(env, view, r, env.apply(r, view, x, stale)))
    && (forall r, view, x :: r != DEPLOYMENT ==> env.apply(r, view, x, true) == env.apply(r, view, x, false))
    && (forall view, x: Option<Object>, stale :: (stale || x.None?) ==>
          Fixed(env, view, DEPLOYMENT, env.apply(DEPLOYMENT, view, x, stale)))
    && (forall view, x :: Skips(env, view, x) || env.apply(DEPLOYMENT, view, Some(x), false)
                                                   == env.apply(DEPLOYMENT, view, Some(x), true))
    && (forall view, x :: Fixed(env, view, DEPLOYMENT, x) ==> Skips(env, view, x))
  }

  /** With the expected generation the Deployment would be left as it is. */
  predicate Skips(env: Env, view: CrView, x: Object) {
    env.apply(DEPLOYMENT, view, Some(x), false) == x
  }

  /** The server stores an object: a write that changes nothing is absorbed, any
      other takes a new revision, and a spec change raises the generation. */
  function Put(env: Env, c: Cluster, r: Resource, target: Object): Cluster {
    if r in c.objects && c.objects[r].content == target then c
    else
      var generation :=
        if r !in c.objects then 1
        else if c.objects[r].content.spec != target.spec || env.metaBumps(c.objects[r].content, target) then
          c.objects[r].generation + 1
        else c.objects[r].generation;
      c.(objects := c.objects[r := Entry(target, generation, c.revision + 1)], revision := c.revision + 1)
  }

  function Stored(c: Cluster, r: Resource): Option<Object> {
    if r in c.objects then Some(c.objects[r].content) else None
  }

  /** The generation the Deployment helper sees is not the recorded one. */
  predicate Stale(c: Cluster, cr: Cr, r: Resource) {
    r == DEPLOYMENT && r in c.objects &&
    c.objects[r].generation != Expected(cr.generations, DeploymentKey(cr.view.namespace))
  }

  function TargetOf(env: Env, c: Cluster, cr: Cr, r: Resource): Object {
    env.apply(r, cr.view, Stored(c, r), Stale(c, cr, r))
  }

  /** Nothing to update, or the server admits the update. */
  predicate Admitted(env: Env, c: Cluster, cr: Cr, r: Resource) {
    r in c.objects ==>
      TargetOf(env, c, cr, r) == c.objects[r].content
      || env.admits(r, c.objects[r].content, TargetOf(env, c, cr, r))
  }

  /** One manage function. The boolean is false when it returns an error. */
  function ManageStep(env: Env, c: Cluster, cr: Cr, r: Resource, reply: Reply): (Cluster, bool) {
    if !env.renders(r, cr.view) || reply.Refused? || !Admitted(env, c, cr, r) then (c, false)
    else (Put(env, c, r, TargetOf(env, c, cr, r)), reply.Accepted?)
  }

  /** The manage calls from step `k` on, each returning early on an error; the
      result names the step that failed, or STATUS_STEP when none did. */
  function RunFrom(env: Env, c: Cluster, cr: Cr, k: nat, replies: seq<Reply>): (result: (Cluster, nat))
    requires 1 <= k <= STATUS_STEP && |replies| == COMPLETED
    ensures k <= result.1 <= STATUS_STEP
    decreases |replies| - k
  {
    if k == STATUS_STEP then (c, k)
    else
      var (c', ok) := ManageStep(env, c, cr, k, replies[k]);
      if ok then RunFrom(env, c', cr, k + 1, replies) else (c', k)
  }

  function GenerationOf(c: Cluster): int {
    if DEPLOYMENT in c.objects then c.objects[DEPLOYMENT].generation else -1
  }

  /** The status write: nothing is sent when the list is already right. */
  function StatusStep(c: Cluster, view: CrView, generation: int, reply: Reply): (Cluster, bool) {
    if c.cr.None? then (c, false)
    else
      var now := c.cr.value;
      var generations := Recorded(now.generations, GenerationStatus(DeploymentKey(view.namespace), generation, ""));
      if generations == now.generations || reply.Refused? then (c, reply.Accepted?)
      else (c.(cr := Some(now.(generations := generations, resourceVersion := c.revision + 1)),
               revision := c.revision + 1),
            reply.Accepted?)
  }

  /** A whole pass: the resulting cluster and the step that failed, or COMPLETED. */
  function Pass(env: Env, c: Cluster, replies: seq<Reply>): (Cluster, nat)
    requires |replies| == COMPLETED
  {
    if c.cr.None? || !replies[0].Accepted? then (c, 0)
    else
      var cr := c.cr.value;
      var (managed, stop) := RunFrom(env, c, cr, 1, replies);
      if stop < STATUS_STEP then (managed, stop)
      else
        var (c', ok) := StatusStep(managed, cr.view, GenerationOf(managed), replies[STATUS_STEP]);
        (c', if ok then COMPLETED else STATUS_STEP)
  }

  /** `sync` as it stands: eleven calls in a row, each with an early return. */
  class TargetConfigReconciler {
    const env: Env
    var cluster: Cluster

    constructor (env: Env, cluster: Cluster)
      ensures this.env == env && this.cluster == cluster
    {
      this.env, this.cluster := env, cluster;
    }

    /** The call at step `r`: a pass goes on from here to step `r + 1`, or ends. */
    method ManageResource(cr: Cr, r: Resource, replies: seq<Reply>) returns (ok: bool)
      requires |replies| == COMPLETED
      modifies this
      ensures (cluster, ok) == ManageStep(env, old(cluster), cr, r, replies[r])
      ensures RunFrom(env, old(cluster), cr, r, replies)
           == if ok then RunFrom(env, cluster, cr, r + 1, replies) else (cluster, r)
      ensures r != DEPLOYMENT ==> GenerationOf(cluster) == GenerationOf(old(cluster))
    {
      if !env.renders(r, cr.view) || replies[r].Refused? {
        return false;
      }
      var target := env.apply(r, cr.view, Stored(cluster, r), Stale(cluster, cr, r));
      if r in cluster.objects && target != cluster.objects[r].content
         && !env.admits(r, cluster.objects[r].content, target)
      {
        return false;
      }
      cluster := Put(env, cluster, r, target);
      ok := replies[r].Accepted?;
    }

    method UpdateStatus(view: CrView, generation: int, reply: Reply) returns (ok: bool)
      modifies this
      ensures (cluster, ok) == StatusStep(old(cluster), view, generation, reply)
    {
      if cluster.cr.None? {
        return false;
      }
      var now := cluster.cr.value;
      var generations := SetGeneration(now.generations,
                                       GenerationStatus(DeploymentKey(view.namespace), generation, ""));
      if generations != now.generations && !reply.Refused? {
        var revision := cluster.revision + 1;
        cluster := cluster.(cr := Some(now.(generations := generations, resourceVersion := revision)),
                            revision := revision);
      }
      ok := reply.Accepted?;
    }

    method ManageAll(cr: Cr, replies: seq<Reply>) returns (step: nat, generation: int)
      requires |replies| == COMPLETED
      modifies this
      ensures (cluster, step) == RunFrom(env, old(cluster), cr, 1, replies)
      ensures step == STATUS_STEP ==> generation == GenerationOf(cluster)
    {
      generation := -1;
      var ok := ManageResource(cr, NETWORK_POLICY, replies);
      if !ok { return 1, generation; }
      ok := ManageResource(cr, CLUSTER_ROLE, replies);
      if !ok { return 2, generation; }
      ok := ManageResource(cr, CLUSTER_ROLE_BINDING, replies);
      if !ok { return 3, generation; }
      ok := ManageResource(cr, ROLE, replies);
      if !ok { return 4, generation; }
      ok := ManageResource(cr, ROLE_BINDING, replies);
      if !ok { return 5, generation; }
      ok := ManageResource(cr, DEPLOYMENT, replies);
      if !ok { return 6, generation; }
      generation := GenerationOf(cluster);
      ok := ManageResource(cr, ROUTE, replies);
      if !ok { return 7, generation; }
      ok := ManageResource(cr, SERVICE, replies);
      if !ok { return 8, generation; }
      ok := ManageResource(cr, SERVICE_METRICS, replies);
      if !ok { return 9, generation; }
      ok := ManageResource(cr, SERVICE_ACCOUNT, replies);
      if !ok { return 10, generation; }
      ok := ManageResource(cr, SERVICE_MONITOR, replies);
      if !ok { return 11, generation; }
      step := STATUS_STEP;
    }

    method Sync(replies: seq<Reply>) returns (step: nat)
      requires |replies| == COMPLETED
      modifies this
      ensures (cluster, step) == Pass(env, old(cluster), replies)
    {
      if cluster.cr.None? || !replies[0].Accepted? {
        return 0;
      }
      var cr := cluster.cr.value;
      var generation;
      step, generation := ManageAll(cr, replies);
      if step < STATUS_STEP {
        return;
      }
      var ok := UpdateStatus(cr.view, generation, replies[STATUS_STEP]);
      step := if ok then COMPLETED else STATUS_STEP;
    }
  }

  // ---- what is assumed of the server, and the order of the steps ---------------------

  /** A write that changes nothing is absorbed. Any other gives the object a version newer
      than everything before, and raises its generation if and only if its spec changes or
      the server says so; a new object has generation 1. Nothing else is touched. */
  lemma PutOutcome(env: Env, c: Cluster, r: Resource, target: Object)
    requires forall q: Resource | q in c.objects :: c.objects[q].resourceVersion <= c.revision
    ensures var c' := Put(env, c, r, target);
            && r in c'.objects && c'.objects[r].content == target && c'.cr == c.cr
            && (forall q: Resource :: q != r ==>
                  (q in c'.objects <==> q in c.objects) && (q in c.objects ==> c'.objects[q] == c.objects[q]))
            && (c' == c <==> r in c.objects && c.objects[r].content == target)
            && (c' != c ==> c'.objects[r].resourceVersion > c.revision && c'.objects[r].resourceVersion <= c'.revision)
            && (r !in c.objects ==> c'.objects[r].generation == 1)
            && (r in c.objects ==>
                  var e, e' := c.objects[r], c'.objects[r];
                  && e.generation <= e'.generation
                  && (e.generation < e'.generation <==>
                      e.content.spec != target.spec || (e.content != target && env.metaBumps(e.content, target))))
  {
    var c' := Put(env, c, r, target);
    if c' == c {
      assert r in c.objects;
    }
  }

  /** Without a custom resource, or when it cannot be read, a pass fails before it has
      done anything; so it will be retried. */
  lemma NothingWithoutCustomResource(env: Env, c: Cluster, replies: seq<Reply>)
    requires |replies| == COMPLETED && (c.cr.None? || !replies[0].Accepted?)
    ensures Pass(env, c, replies) == (c, 0)
  {}

  /** The status write of a pass changes the list of the custom resource that is there by
      then, which is not always the one it has read, and nothing else of it. */
  lemma StatusOutcome(c: Cluster, view: CrView, generation: int, reply: Reply)
    ensures var (c', ok) := StatusStep(c, view, generation, reply);
            && c'.objects == c.objects
            && (ok <==> c.cr.Some? && reply.Accepted?)
            && (reply.Refused? || c.cr.None? ==> c' == c)
            && (c.cr.Some? && !reply.Refused? ==>
                  && c'.cr.Some? && c'.cr.value.view == c.cr.value.view
                  && c'.cr.value.otherStatus == c.cr.value.otherStatus
                  && Expected(c'.cr.value.generations, DeploymentKey(view.namespace)) == generation)
  {
    if c.cr.Some? {
      RecordedReadsBack(c.cr.value.generations, GenerationStatus(DeploymentKey(view.namespace), generation, ""));
    }
  }
}
