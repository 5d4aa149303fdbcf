/** What a reconcile pass achieves: exact prefixes on failure, progress that is
    never undone, convergence after boundedly many failures, and silence after
    that. */
module Convergence {
  import opened Generations
  import opened Requests
  import opened Sync

  /** Applying the resource again would change nothing on the server. */
  predicate Converged(env: Env, view: CrView, c: Cluster, r: Resource) {
    r in c.objects && Fixed(env, view, r, c.objects[r].content)
  }

  /** The recorded generation does not vouch for a Deployment that has drifted. */
  predicate Honest(env: Env, cr: Cr, c: Cluster) {
    (DEPLOYMENT in c.objects && !Stale(c, cr, DEPLOYMENT) && Skips(env, cr.view, c.objects[DEPLOYMENT].content)) ==>
      Converged(env, cr.view, c, DEPLOYMENT)
  }

  predicate SameEntry(a: Cluster, b: Cluster, r: Resource) {
    (r in a.objects <==> r in b.objects) && (r in a.objects ==> a.objects[r] == b.objects[r])
  }

  /** The server does not admit the update that the object needs. */
  predicate Barred(env: Env, view: CrView, c: Cluster, r: Resource) {
    r in c.objects
    && var x := c.objects[r].content;
       !Fixed(env, view, r, x) && !env.admits(r, x, Rewritten(env, view, r, x))
  }

  ghost predicate NoneBarred(env: Env, view: CrView, c: Cluster) {
    forall r: Resource :: !Barred(env, view, c, r)
  }

  /** A barred object is refused, except for a Deployment that is not even looked at. */
  lemma AdmittedIff(env: Env, c: Cluster, cr: Cr, r: Resource)
    requires Contract(env)
    ensures Admitted(env, c, cr, r) <==> !Barred(env, cr.view, c, r) || (r == DEPLOYMENT && !Honest(env, cr, c))
  {}

  /** Everything a single manage call does and does not do. */
  lemma StepEffect(env: Env, c: Cluster, cr: Cr, r: Resource, reply: Reply)
    requires Contract(env)
    ensures var (c', ok) := ManageStep(env, c, cr, r, reply);
            && c'.cr == c.cr
            && (forall q: Resource :: q != r ==> SameEntry(c, c', q))
            && (ok <==> reply.Accepted? && env.renders(r, cr.view) && Admitted(env, c, cr, r))
            && (!Admitted(env, c, cr, r) ==> c' == c)
            && (SameEntry(c, c', r) || Converged(env, cr.view, c', r))
            && (Converged(env, cr.view, c, r) ==> c' == c)
            && (ok ==> r in c'.objects)
            && (ok ==> (Converged(env, cr.view, c', r) <==> (r == DEPLOYMENT ==> Honest(env, cr, c))))
  {}

  /** Whether request `j` of a pass over `c` goes through; nothing before it touches
      its object. */
  predicate Accepts(env: Env, cr: Cr, c: Cluster, replies: seq<Reply>, j: nat)
    requires |replies| == COMPLETED && j < COMPLETED
  {
    replies[j].Accepted? && (1 <= j < STATUS_STEP ==> env.renders(j, cr.view) && Admitted(env, c, cr, j))
  }

  /** How a run from step `k` that ended at `stop` leaves one resource. */
  predicate Left(env: Env, cr: Cr, c: Cluster, c': Cluster, k: nat, stop: nat, r: Resource) {
    && (SameEntry(c, c', r) || Converged(env, cr.view, c', r))
    && (r < k || r > stop || !Admitted(env, c, cr, r) ==> SameEntry(c, c', r))
    && (k <= r < stop ==>
          r in c'.objects && (Converged(env, cr.view, c', r) <==> (r == DEPLOYMENT ==> Honest(env, cr, c))))
    && (Converged(env, cr.view, c, r) ==> SameEntry(c, c', r))
  }

  lemma LaterRequestsSame(env: Env, c: Cluster, c1: Cluster, cr: Cr, k: nat, replies: seq<Reply>)
    requires |replies| == COMPLETED && (forall q: Resource :: q != k ==> SameEntry(c, c1, q))
    ensures forall j :: k < j < COMPLETED ==> Accepts(env, cr, c1, replies, j) == Accepts(env, cr, c, replies, j)
  {
    forall j | k < j < STATUS_STEP ensures Admitted(env, c1, cr, j) == Admitted(env, c, cr, j) {
      assert SameEntry(c, c1, j);
    }
  }

  lemma LeftChains(env: Env, c: Cluster, cr: Cr, k: Resource, reply: Reply, c': Cluster, stop: nat, r: Resource)
    requires Contract(env) && ManageStep(env, c, cr, k, reply).1 && k < stop
    requires Left(env, cr, ManageStep(env, c, cr, k, reply).0, c', k + 1, stop, r)
    ensures Left(env, cr, c, c', k, stop, r)
  {
    StepEffect(env, c, cr, k, reply);
    var c1 := ManageStep(env, c, cr, k, reply).0;
    assert r != k ==> SameEntry(c, c1, r);
    assert k != DEPLOYMENT ==> SameEntry(c, c1, DEPLOYMENT);
  }

  /** A run from step `k`, for any replies: where it stops and why, and how it
      leaves every resource. */
  lemma {:induction false} RunEffect(env: Env, c: Cluster, cr: Cr, k: nat, replies: seq<Reply>)
    requires Contract(env) && 1 <= k <= STATUS_STEP && |replies| == COMPLETED
    ensures var (c', stop) := RunFrom(env, c, cr, k, replies);
            && (forall j :: k <= j < stop ==> Accepts(env, cr, c, replies, j))
            && (stop < STATUS_STEP ==> !Accepts(env, cr, c, replies, stop))
            && c'.cr == c.cr
            && (forall r: Resource :: Left(env, cr, c, c', k, stop, r))
    decreases STATUS_STEP - k
  {
    if k < STATUS_STEP {
      StepEffect(env, c, cr, k, replies[k]);
      var (c1, ok) := ManageStep(env, c, cr, k, replies[k]);
      if ok {
        RunEffect(env, c1, cr, k + 1, replies);
        var (c', stop) := RunFrom(env, c1, cr, k + 1, replies);
        LaterRequestsSame(env, c, c1, cr, k, replies);
        forall r: Resource ensures Left(env, cr, c, c', k, stop, r) {
          assert Left(env, cr, c1, c', k + 1, stop, r);
          LeftChains(env, c, cr, k, replies[k], c', stop, r);
        }
      } else {
        forall r: Resource ensures Left(env, cr, c, c1, k, k, r) {
          assert r != k ==> SameEntry(c, c1, r);
        }
      }
    }
  }

  /** The status list says what the Deployment's generation is, and writing it
      again would change nothing. */
  predicate RecordIsRight(c: Cluster) {
    && c.cr.Some? && DEPLOYMENT in c.objects
    && var cr := c.cr.value;
       Recorded(cr.generations, GenerationStatus(DeploymentKey(cr.view.namespace), GenerationOf(c), ""))
       == cr.generations
  }

  lemma StatusStepEffect(c: Cluster, reply: Reply)
    requires c.cr.Some? && DEPLOYMENT in c.objects
    ensures var view := c.cr.value.view;
            var (c', ok) := StatusStep(c, view, GenerationOf(c), reply);
            && c'.objects == c.objects && c'.cr.Some? && c'.cr.value.view == view
            && (c'.cr == c.cr || RecordIsRight(c'))
            && (ok <==> reply.Accepted?) && (ok ==> RecordIsRight(c'))
  {
    var cr := c.cr.value;
    RecordedReadsBack(cr.generations, GenerationStatus(DeploymentKey(cr.view.namespace), GenerationOf(c), ""));
  }

  /** The same for a whole pass, with what becomes of the custom resource. */
  lemma PassEffect(env: Env, c: Cluster, replies: seq<Reply>)
    requires Contract(env) && |replies| == COMPLETED && c.cr.Some?
    ensures var cr := c.cr.value; var (c', stop) := Pass(env, c, replies);
            && (forall r: Resource :: Left(env, cr, c, c', 1, stop, r))
            && stop <= COMPLETED
            && (forall j :: 0 <= j < stop ==> Accepts(env, cr, c, replies, j))
            && (stop < COMPLETED ==> !Accepts(env, cr, c, replies, stop))
            && c'.cr.Some? && c'.cr.value.view == cr.view
            && (c'.cr == c.cr || (stop >= STATUS_STEP && RecordIsRight(c')))
            && (stop == COMPLETED ==> RecordIsRight(c'))
  {
    var cr := c.cr.value;
    if replies[0].Accepted? {
      RunEffect(env, c, cr, 1, replies);
      var (managed, stop) := RunFrom(env, c, cr, 1, replies);
      var c' := Pass(env, c, replies).0;
      if stop == STATUS_STEP {
        assert Left(env, cr, c, managed, 1, stop, DEPLOYMENT);
        StatusStepEffect(managed, replies[STATUS_STEP]);
      }
      forall r: Resource ensures Left(env, cr, c, c', 1, Pass(env, c, replies).1, r) {
        assert Left(env, cr, c, managed, 1, stop, r);
      }
    }
  }

  // ---- one pass ---------------------------------------------------------

  /** Exact prefix on failure. A pass that stops at step `stop` has brought every
      earlier resource to its required state and has not touched a later one; the
      status is untouched unless it stopped at the status write. It stops at the
      first request that fails, and nowhere else. */
  lemma PrefixOnFailure(env: Env, c: Cluster, replies: seq<Reply>)
    requires Contract(env) && |replies| == COMPLETED && c.cr.Some?
    requires Honest(env, c.cr.value, c)
    ensures var cr := c.cr.value; var (c', stop) := Pass(env, c, replies);
            && (forall r: Resource :: r < stop ==> Converged(env, cr.view, c', r))
            && (forall r: Resource :: r > stop ==> SameEntry(c, c', r))
            && (forall r: Resource :: r == stop ==> SameEntry(c, c', r) || Converged(env, cr.view, c', r))
            && (stop < STATUS_STEP ==> c'.cr == c.cr)
            && (forall j :: 0 <= j < stop ==> Accepts(env, cr, c, replies, j))
            && (stop < COMPLETED ==> !Accepts(env, cr, c, replies, stop))
  {
    PassEffect(env, c, replies);
    var (c', stop) := Pass(env, c, replies);
    forall r: Resource
      ensures r < stop ==> Converged(env, c.cr.value.view, c', r)
      ensures r > stop ==> SameEntry(c, c', r)
      ensures SameEntry(c, c', r) || Converged(env, c.cr.value.view, c', r)
    {
      assert Left(env, c.cr.value, c, c', 1, stop, r);
    }
  }

  /** A later pass, however it fails, never undoes what is already in place, and
      keeps the recorded generation honest. */
  lemma ProgressIsMonotone(env: Env, c: Cluster, replies: seq<Reply>)
    requires Contract(env) && |replies| == COMPLETED && c.cr.Some?
    ensures var cr := c.cr.value; var c' := Pass(env, c, replies).0;
            && c'.cr.Some? && c'.cr.value.view == cr.view
            && (forall r: Resource :: Converged(env, cr.view, c, r) ==>
                  SameEntry(c, c', r) && Converged(env, cr.view, c', r))
            && (Honest(env, cr, c) ==> Honest(env, c'.cr.value, c'))
  {
    PassEffect(env, c, replies);
    var cr := c.cr.value;
    var (c', stop) := Pass(env, c, replies);
    forall r: Resource | Converged(env, cr.view, c, r) ensures SameEntry(c, c', r) {
      assert Left(env, cr, c, c', 1, stop, r);
    }
    assert Left(env, cr, c, c', 1, stop, DEPLOYMENT);
  }

  ghost predicate Renders(env: Env, view: CrView) {
    forall r: Resource :: env.renders(r, view)
  }

  ghost predicate AllAccepted(replies: seq<Reply>) {
    forall j :: 0 <= j < |replies| ==> replies[j].Accepted?
  }

  /** Nothing left to do: every resource converged and the generation recorded. */
  ghost predicate Stable(env: Env, c: Cluster) {
    c.cr.Some? && (forall r: Resource :: Converged(env, c.cr.value.view, c, r)) && RecordIsRight(c)
  }

  /** One pass in which every request is answered completes if and only if the server
      admits every update it makes. Then everything has converged from any drift,
      except that the Deployment has if and only if the recorded generation was honest;
      so the result is stable if and only if that was so and no object was barred. */
  lemma CleanPassConvergesIff(env: Env, c: Cluster, replies: seq<Reply>)
    requires Contract(env) && |replies| == COMPLETED && c.cr.Some? && Renders(env, c.cr.value.view)
    requires AllAccepted(replies)
    ensures var cr := c.cr.value; var (c', stop) := Pass(env, c, replies);
            && c'.cr.Some? && c'.cr.value.view == cr.view
            && (stop == COMPLETED <==> forall r: Resource :: Admitted(env, c, cr, r))
            && (stop == COMPLETED ==>
                  RecordIsRight(c') && forall r: Resource :: r != DEPLOYMENT ==> Converged(env, cr.view, c', r))
            && (Stable(env, c') <==> Honest(env, cr, c) && NoneBarred(env, cr.view, c))
  {
    var cr := c.cr.value;
    PassEffect(env, c, replies);
    var (c', stop) := Pass(env, c, replies);
    forall r: Resource
      ensures Admitted(env, c, cr, r) <==> !Barred(env, cr.view, c, r) || (r == DEPLOYMENT && !Honest(env, cr, c))
      ensures !Admitted(env, c, cr, r) || (r == DEPLOYMENT && !Honest(env, cr, c)) ==> !Converged(env, cr.view, c', r)
      ensures stop == COMPLETED ==> (Converged(env, cr.view, c', r) <==> (r == DEPLOYMENT ==> Honest(env, cr, c)))
    {
      AdmittedIff(env, c, cr, r);
      assert Left(env, cr, c, c', 1, stop, r);
    }
    AnsweredPassCompletesIff(env, c, replies);
    if Stable(env, c') {
      forall r: Resource ensures !Barred(env, cr.view, c, r) && (r == DEPLOYMENT ==> Honest(env, cr, c)) {
        assert Converged(env, cr.view, c', r);
      }
      assert Honest(env, cr, c) by {
        assert DEPLOYMENT == DEPLOYMENT && !Barred(env, cr.view, c, DEPLOYMENT);
      }
    }
  }

  lemma AnsweredPassCompletesIff(env: Env, c: Cluster, replies: seq<Reply>)
    requires Contract(env) && |replies| == COMPLETED && c.cr.Some? && Renders(env, c.cr.value.view)
    requires AllAccepted(replies)
    ensures Pass(env, c, replies).1 == COMPLETED <==> forall r: Resource :: Admitted(env, c, c.cr.value, r)
  {
    var cr := c.cr.value;
    PassEffect(env, c, replies);
    var stop := Pass(env, c, replies).1;
    if stop == COMPLETED {
      forall r: Resource ensures Admitted(env, c, cr, r) {
        assert Accepts(env, cr, c, replies, r);
      }
    } else {
      assert !Accepts(env, cr, c, replies, stop) && replies[stop].Accepted?;
      assert 1 <= stop < STATUS_STEP && !Admitted(env, c, cr, stop);
    }
  }

  // ---- barred objects -----------------------------------------------------

  /** Whatever the replies, a pass stops at a barred object or before it. It touches
      neither that object nor any behind it, nor the status. */
  lemma BarredStopsThePass(env: Env, c: Cluster, replies: seq<Reply>, r: Resource)
    requires Contract(env) && |replies| == COMPLETED && c.cr.Some?
    requires Barred(env, c.cr.value.view, c, r) && (r == DEPLOYMENT ==> Honest(env, c.cr.value, c))
    ensures var (c', stop) := Pass(env, c, replies);
            && stop <= r && c'.cr == c.cr
            && (forall q: Resource :: q >= r ==> SameEntry(c, c', q))
  {
    var cr := c.cr.value;
    PassEffect(env, c, replies);
    AdmittedIff(env, c, cr, r);
    var (c', stop) := Pass(env, c, replies);
    assert !Accepts(env, cr, c, replies, r);
    forall q: Resource | q >= r ensures SameEntry(c, c', q) {
      assert Left(env, cr, c, c', 1, stop, q);
    }
  }

  /** And so it stays, over any number of passes. */
  lemma {:induction false} BarredForever(env: Env, c: Cluster, passes: seq<seq<Reply>>, r: Resource)
    requires Contract(env) && ArePasses(passes) && c.cr.Some?
    requires Barred(env, c.cr.value.view, c, r) && (r == DEPLOYMENT ==> Honest(env, c.cr.value, c))
    ensures var c' := Passes(env, c, passes);
            && c'.cr == c.cr && (forall q: Resource :: q >= r ==> SameEntry(c, c', q))
            && !Stable(env, c')
    decreases |passes|
  {
    if passes == [] {
      assert !Converged(env, c.cr.value.view, c, r);
    } else {
      var c1 := Pass(env, c, passes[0]).0;
      BarredStopsThePass(env, c, passes[0], r);
      assert SameEntry(c, c1, r) && (r <= DEPLOYMENT ==> SameEntry(c, c1, DEPLOYMENT));
      BarredForever(env, c1, passes[1..], r);
      var c' := Passes(env, c, passes);
      forall q: Resource | q >= r ensures SameEntry(c, c', q) {
        assert SameEntry(c, c1, q) && SameEntry(c1, c', q);
      }
    }
  }

  /** No pass bars what was not barred. */
  lemma NothingGetsBarred(env: Env, c: Cluster, replies: seq<Reply>)
    requires Contract(env) && |replies| == COMPLETED && c.cr.Some? && NoneBarred(env, c.cr.value.view, c)
    ensures NoneBarred(env, c.cr.value.view, Pass(env, c, replies).0)
  {
    PassEffect(env, c, replies);
    var cr := c.cr.value;
    var (c', stop) := Pass(env, c, replies);
    forall r: Resource ensures !Barred(env, cr.view, c', r) {
      assert Left(env, cr, c, c', 1, stop, r) && !Barred(env, cr.view, c, r);
    }
  }

  // ---- silence ----------------------------------------------------------

  lemma {:induction false} StableRunIsNoOp(env: Env, c: Cluster, k: nat, replies: seq<Reply>)
    requires Contract(env) && Stable(env, c) && 1 <= k <= STATUS_STEP && |replies| == COMPLETED
    ensures RunFrom(env, c, c.cr.value, k, replies).0 == c
    decreases STATUS_STEP - k
  {
    if k < STATUS_STEP {
      StepEffect(env, c, c.cr.value, k, replies[k]);
      assert Converged(env, c.cr.value.view, c, k);
      StableRunIsNoOp(env, c, k + 1, replies);
    }
  }

  /** From a stable cluster a pass changes nothing at all, whatever fails. */
  lemma StablePassIsNoOp(env: Env, c: Cluster, replies: seq<Reply>)
    requires Contract(env) && Stable(env, c) && |replies| == COMPLETED
    ensures Pass(env, c, replies).0 == c
  {
    if replies[0].Accepted? {
      StableRunIsNoOp(env, c, 1, replies);
    }
  }

  // ---- many passes ------------------------------------------------------

  ghost predicate ArePasses(passes: seq<seq<Reply>>) {
    forall i :: 0 <= i < |passes| ==> |passes[i]| == COMPLETED
  }

  function Passes(env: Env, c: Cluster, passes: seq<seq<Reply>>): Cluster
    requires ArePasses(passes)
    decreases |passes|
  {
    if passes == [] then c else Passes(env, Pass(env, c, passes[0]).0, passes[1..])
  }

  /** The pass ended at a request that was refused or whose reply was lost. */
  predicate IsUnlucky(env: Env, c: Cluster, replies: seq<Reply>)
    requires |replies| == COMPLETED
  {
    var stop := Pass(env, c, replies).1;
    stop < COMPLETED && !replies[stop].Accepted?
  }

  function UnluckyPasses(env: Env, c: Cluster, passes: seq<seq<Reply>>): nat
    requires ArePasses(passes)
    decreases |passes|
  {
    if passes == [] then 0
    else
      (if IsUnlucky(env, c, passes[0]) then 1 else 0) + UnluckyPasses(env, Pass(env, c, passes[0]).0, passes[1..])
  }

  lemma {:induction false} StableForever(env: Env, c: Cluster, passes: seq<seq<Reply>>)
    requires Contract(env) && Stable(env, c) && ArePasses(passes)
    ensures Passes(env, c, passes) == c
    decreases |passes|
  {
    if passes != [] {
      StablePassIsNoOp(env, c, passes[0]);
      StableForever(env, c, passes[1..]);
    }
  }

  /** From any drift that the record is honest about, with nobody else writing and at
      most `budget` passes cut short by a failing request, `budget + 1` passes lead to a
      stable cluster if and only if no object is barred. */
  lemma {:induction false} ConvergesWithinBudgetIff(env: Env, c: Cluster, passes: seq<seq<Reply>>, budget: nat)
    requires Contract(env) && ArePasses(passes) && c.cr.Some? && Renders(env, c.cr.value.view)
    requires Honest(env, c.cr.value, c)
    requires UnluckyPasses(env, c, passes) <= budget < |passes|
    ensures Stable(env, Passes(env, c, passes)) <==> NoneBarred(env, c.cr.value.view, c)
    decreases |passes|
  {
    var view := c.cr.value.view;
    if r: Resource :| Barred(env, view, c, r) {
      BarredForever(env, c, passes, r);
    } else {
      var c1 := Pass(env, c, passes[0]).0;
      ProgressIsMonotone(env, c, passes[0]);
      if IsUnlucky(env, c, passes[0]) {
        NothingGetsBarred(env, c, passes[0]);
        ConvergesWithinBudgetIff(env, c1, passes[1..], budget - 1);
      } else {
        LuckyPassConverges(env, c, passes[0]);
        StableForever(env, c1, passes[1..]);
      }
    }
  }

  lemma LuckyPassConverges(env: Env, c: Cluster, replies: seq<Reply>)
    requires Contract(env) && |replies| == COMPLETED && c.cr.Some? && Honest(env, c.cr.value, c)
    requires Renders(env, c.cr.value.view) && NoneBarred(env, c.cr.value.view, c) && !IsUnlucky(env, c, replies)
    ensures Stable(env, Pass(env, c, replies).0)
  {
    var cr := c.cr.value;
    PassEffect(env, c, replies);
    var stop := Pass(env, c, replies).1;
    forall r: Resource ensures Admitted(env, c, cr, r) {
      AdmittedIff(env, c, cr, r);
    }
    assert stop < COMPLETED ==> Accepts(env, cr, c, replies, stop);
    forall j | 0 <= j < |replies| ensures replies[j].Accepted? {
      assert Accepts(env, cr, c, replies, j);
    }
    CleanPassConvergesIff(env, c, replies);
  }

  /** The order, by name: a pass that fails at the Route, say, has brought about the network
      policy, the roles with their bindings and the Deployment, and has not touched the
      services, the service account and the ServiceMonitor. */
  lemma FailureAtRoute(env: Env, c: Cluster, replies: seq<Reply>)
    requires Contract(env) && |replies| == COMPLETED && c.cr.Some? && Honest(env, c.cr.value, c)
    requires Pass(env, c, replies).1 == ROUTE
    ensures var view, c' := c.cr.value.view, Pass(env, c, replies).0;
            && Converged(env, view, c', NETWORK_POLICY)
            && Converged(env, view, c', CLUSTER_ROLE) && Converged(env, view, c', CLUSTER_ROLE_BINDING)
            && Converged(env, view, c', ROLE) && Converged(env, view, c', ROLE_BINDING)
            && Converged(env, view, c', DEPLOYMENT)
            && SameEntry(c, c', SERVICE) && SameEntry(c, c', SERVICE_METRICS)
            && SameEntry(c, c', SERVICE_ACCOUNT) && SameEntry(c, c', SERVICE_MONITOR)
            && c'.cr == c.cr
  {
    PrefixOnFailure(env, c, replies);
  }

  /** The whole order. */
  lemma OrderOfSteps()
    ensures 1 == NETWORK_POLICY < CLUSTER_ROLE < CLUSTER_ROLE_BINDING < ROLE < ROLE_BINDING < DEPLOYMENT < ROUTE
            < SERVICE < SERVICE_METRICS < SERVICE_ACCOUNT < SERVICE_MONITOR == STATUS_STEP - 1
  {}
}
