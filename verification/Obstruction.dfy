/** What an object that the server does not let the operator update does to it, and
    that nothing else but failing requests keeps it from its goal. */
module Obstruction {
  import opened Requests
  import opened Sync
  import opened Convergence
  import opened Controller
  import opened Quiescence

  // ---- without barred objects -------------------------------------------------------

  /** A sync fails at a request that was refused or whose reply was lost. */
  function UnluckySyncs(env: Env, s: State, run: seq<Action>): nat
    requires Executes(env, s, run)
    decreases |run|
  {
    if run == [] then 0
    else
      (if Fails(env, s, run[0]) && !run[0].reply.Accepted? then 1 else 0)
      + UnluckySyncs(env, Next(env, s, run[0]), run[1..])
  }

  lemma UnbarredRequest(env: Env, c: Cluster, p: Phase, reply: Reply)
    requires Contract(env) && Ready(env, c) && NoneBarred(env, c.cr.value.view, c)
    requires p.Taken? || (p.Managing? && Fair(env, c, p))
    ensures var (c', p') := Request(env, c, p, reply);
            && (p' == Synced(false) ==> !reply.Accepted?)
            && c'.cr.Some? && c'.cr.value.view == c.cr.value.view && NoneBarred(env, c.cr.value.view, c')
  {
    var c' := Request(env, c, p, reply).0;
    if p.Managing? && p.step < STATUS_STEP {
      StepEffect(env, c, p.cr, p.step, reply);
      AdmittedIff(env, c, p.cr, p.step);
      assert !Barred(env, p.cr.view, c, p.step) && env.renders(p.step, p.cr.view);
    }
    forall r: Resource ensures !Barred(env, c.cr.value.view, c', r) {
      assert !Barred(env, c.cr.value.view, c, r);
    }
  }

  lemma {:induction false} FailuresAreBadLuck(env: Env, s: State, run: seq<Action>)
    requires Contract(env) && Inv(s) && Ready(env, s.cluster) && FairSyncs(env, s)
    requires NoneBarred(env, s.cluster.cr.value.view, s.cluster)
    requires Executes(env, s, run) && AllInternal(run)
    ensures FailedSyncs(env, s, run) == UnluckySyncs(env, s, run)
    decreases |run|
  {
    if run != [] {
      var a := run[0];
      assert Internal(a);
      if a.Send? {
        UnbarredRequest(env, s.cluster, s.workers[a.w], a.reply);
      }
      StepKeepsInv(env, s, a);
      StepStaysReady(env, s, a);
      FailuresAreBadLuck(env, Next(env, s, a), run[1..]);
    }
  }

  /** When no object is barred, nothing but failing requests counts: with at most
      `budget` of them the run is bounded, and at rest the cluster is stable. */
  lemma {:induction false} ConvergesUnlessBarred(env: Env, s: State, run: seq<Action>, budget: nat)
    requires Contract(env) && Inv(s) && !s.q.shuttingDown && s.workers != [] && Pending(env, s)
    requires Ready(env, s.cluster) && FairSyncs(env, s) && NoneBarred(env, s.cluster.cr.value.view, s.cluster)
    requires Executes(env, s, run) && AllInternal(run) && UnluckySyncs(env, s, run) <= budget
    ensures |run| <= Measure(env, s, budget)
    ensures AtRest(After(env, s, run)) ==> Stable(env, After(env, s, run).cluster)
  {
    FailuresAreBadLuck(env, s, run);
    FreshStartStaysReady(env, s, run);
    ChatterEndsConverged(env, s, run, budget);
  }

  // ---- with a barred object -----------------------------------------------------------

  /** No sync under way is past this resource. */
  ghost predicate NonePast(s: State, r: Resource) {
    forall w :: 0 <= w < |s.workers| && s.workers[w].Managing? ==> s.workers[w].step <= r
  }

  /** Nothing has been done to this resource, to any behind it, or to the status. */
  ghost predicate IsKept(c: Cluster, c': Cluster, r: Resource) {
    c'.cr == c.cr && forall q: Resource :: q >= r ==> SameEntry(c, c', q)
  }

  lemma BarredRequest(env: Env, c: Cluster, p: Phase, reply: Reply, r: Resource)
    requires Contract(env) && Ready(env, c) && Barred(env, c.cr.value.view, c, r)
    requires p.Taken? || (p.Managing? && Fair(env, c, p) && p.step <= r)
    ensures var (c', p') := Request(env, c, p, reply);
            IsKept(c, c', r) && (p'.Managing? ==> p'.step <= r)
  {
    if p.Managing? {
      StepEffect(env, c, p.cr, p.step, reply);
      AdmittedIff(env, c, p.cr, p.step);
    }
  }

  lemma BarredStep(env: Env, s: State, a: Action, r: Resource)
    requires Contract(env) && Inv(s) && Ready(env, s.cluster) && FairSyncs(env, s)
    requires Barred(env, s.cluster.cr.value.view, s.cluster, r) && NonePast(s, r)
    requires Enabled(s, a) && Internal(a)
    ensures var s' := Next(env, s, a); IsKept(s.cluster, s'.cluster, r) && NonePast(s', r)
  {
    var s' := Next(env, s, a);
    if a.Send? {
      BarredRequest(env, s.cluster, s.workers[a.w], a.reply, r);
    }
    assert forall w :: 0 <= w < |s.workers| && (!a.Send? || w != a.w) && s'.workers[w].Managing? ==>
             s'.workers[w] == s.workers[w];
  }

  /** However often it tries, the operator neither gets past a barred object nor ever
      comes to rest. */
  lemma {:induction false} BarredNeverRests(env: Env, s: State, run: seq<Action>, r: Resource)
    requires Contract(env) && Inv(s) && !s.q.shuttingDown && s.workers != [] && Pending(env, s)
    requires Ready(env, s.cluster) && FairSyncs(env, s)
    requires Barred(env, s.cluster.cr.value.view, s.cluster, r) && NonePast(s, r)
    requires Executes(env, s, run) && AllInternal(run)
    ensures IsKept(s.cluster, After(env, s, run).cluster, r) && !AtRest(After(env, s, run))
    decreases |run|
  {
    if run == [] {
      RestIsEmpty(s);
      assert !Converged(env, s.cluster.cr.value.view, s.cluster, r);
    } else {
      var a := run[0];
      var s' := Next(env, s, a);
      assert Internal(a);
      BarredStep(env, s, a, r);
      assert SameEntry(s.cluster, s'.cluster, r);
      StepKeepsInv(env, s, a);
      StepStaysReady(env, s, a);
      StepKeepsPending(env, s, a);
      BarredNeverRests(env, s', run[1..], r);
      forall q: Resource | q >= r ensures SameEntry(s.cluster, After(env, s, run).cluster, q) {
        assert SameEntry(s.cluster, s'.cluster, q) && SameEntry(s'.cluster, After(env, s', run[1..]).cluster, q);
      }
    }
  }
}
