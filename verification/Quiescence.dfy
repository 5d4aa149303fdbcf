/** The operator's own writes wake it up again. With nobody else writing and a
    bounded number of failed syncs this dies down, and when it does, everything
    is as required. */
module Quiescence {
  import opened Requests
  import opened Generations
  import opened Sync
  import opened Convergence
  import opened Controller

  predicate Internal(a: Action) { !a.External? && !a.ShutDown? }

  ghost predicate AllInternal(run: seq<Action>) {
    forall i :: 0 <= i < |run| ==> Internal(run[i])
  }

  /** This request ends its sync with an error. */
  predicate Fails(env: Env, s: State, a: Action)
    requires Enabled(s, a)
  {
    a.Send? && Request(env, s.cluster, s.workers[a.w], a.reply).1 == Synced(false)
  }

  function FailedSyncs(env: Env, s: State, run: seq<Action>): nat
    requires Executes(env, s, run)
    decreases |run|
  {
    if run == [] then 0
    else (if Fails(env, s, run[0]) then 1 else 0) + FailedSyncs(env, Next(env, s, run[0]), run[1..])
  }

  /** The custom resource is there, every asset renders, and the recorded
      generation does not vouch for a drifted Deployment. */
  ghost predicate Ready(env: Env, c: Cluster) {
    c.cr.Some? && Renders(env, c.cr.value.view) && Honest(env, c.cr.value, c)
  }

  ghost predicate ReadyThroughout(env: Env, s: State, run: seq<Action>)
    requires Executes(env, s, run)
    decreases |run|
  {
    Ready(env, s.cluster) && (run == [] || ReadyThroughout(env, Next(env, s, run[0]), run[1..]))
  }

  // ---- one request ---------------------------------------------------------------

  /** A sync under way that will leave everything as required if it completes: it
      goes by the present custom resource, and what lies behind it is in place. */
  ghost predicate Sound(env: Env, c: Cluster, p: Phase)
    requires p.Managing?
  {
    && c.cr.Some? && p.cr.view == c.cr.value.view
    && (forall r: Resource :: r < p.step ==> Converged(env, p.cr.view, c, r))
    && (p.step <= DEPLOYMENT ==> Honest(env, p.cr, c))
    && (p.step > DEPLOYMENT ==> p.generation == GenerationOf(c))
  }

  /** How many events a sync in this phase may still cause. */
  function Due(p: Phase): nat {
    if !p.Managing? then 0 else if p.step == NETWORK_POLICY then 2 else 1
  }

  lemma ManageEffect(env: Env, c: Cluster, p: Phase, reply: Reply)
    requires Contract(env) && Ready(env, c) && p.Managing? && p.step < STATUS_STEP
    ensures var (c', p') := Request(env, c, p, reply);
            && c'.cr == c.cr
            && (p' == Synced(false) || (p'.Managing? && p'.cr == p.cr && p'.step == p.step + 1))
            && Events(c, c') + Due(p') <= Due(p)
            && (Sound(env, c, p) && p'.Managing? ==> Sound(env, c', p'))
            && (Sound(env, c, p) && Stable(env, c) ==> c' == c)
  {
    StepEffect(env, c, p.cr, p.step, reply);
    var (c', p') := Request(env, c, p, reply);
    if Sound(env, c, p) && p'.Managing? {
      assert ManageStep(env, c, p.cr, p.step, reply).1;
      forall r: Resource | r < p'.step ensures Converged(env, p.cr.view, c', r) {
        if r != p.step {
          assert SameEntry(c, c', r) && Converged(env, p.cr.view, c, r);
        }
      }
      assert p.step != DEPLOYMENT ==> SameEntry(c, c', DEPLOYMENT);
    }
  }

  lemma StatusEffect(env: Env, c: Cluster, p: Phase, reply: Reply)
    requires Contract(env) && Ready(env, c) && p.Managing? && p.step == STATUS_STEP
    ensures var (c', p') := Request(env, c, p, reply);
            && c'.cr.Some? && c'.cr.value.view == c.cr.value.view && p'.Synced?
            && c'.objects == c.objects && Events(c, c') <= 1
            && (Sound(env, c, p) && p'.ok ==> Stable(env, c'))
            && (Sound(env, c, p) && Stable(env, c) ==> c' == c)
  {
    var g := GenerationStatus(DeploymentKey(p.cr.view.namespace), p.generation, "");
    RecordedReadsBack(c.cr.value.generations, g);
    var (c', p') := Request(env, c, p, reply);
    assert forall r: Resource :: Converged(env, p.cr.view, c', r) == Converged(env, p.cr.view, c, r);
    if Sound(env, c, p) && p'.ok {
      assert Converged(env, p.cr.view, c, DEPLOYMENT);
    }
  }

  /** Both, and the read. */
  lemma RequestEffect(env: Env, c: Cluster, p: Phase, reply: Reply)
    requires Contract(env) && Ready(env, c) && (p.Taken? || p.Managing?)
    ensures var (c', p') := Request(env, c, p, reply);
            && (p'.Managing? || p'.Synced?)
            && c'.cr.Some? && c'.cr.value.view == c.cr.value.view
            && (p.Taken? ==> c' == c && (p'.Managing? ==> p'.step == 1 && Sound(env, c, p')))
            && (p.Managing? ==>
                  && Events(c, c') + Due(p') <= Due(p)
                  && (p'.Managing? ==> p'.step == p.step + 1)
                  && (Sound(env, c, p) ==>
                        && (p'.Managing? ==> Sound(env, c', p'))
                        && (p' == Synced(true) ==> Stable(env, c'))
                        && (Stable(env, c) ==> c' == c)))
  {
    if p.Managing? {
      if p.step < STATUS_STEP {
        ManageEffect(env, c, p, reply);
      } else {
        StatusEffect(env, c, p, reply);
      }
    }
  }

  // ---- the measure ------------------------------------------------------

  function Weight(p: Phase): nat {
    match p
    case Idle => 0
    case Taken => 16
    case Managing(_, k, _) => 15 - k
    case Synced(ok) => if ok then 2 else 20
    case Noted => 1
  }

  function Debt(p: Phase): nat { 18 * Due(p) }

  function Sum(workers: seq<Phase>, f: Phase -> nat): nat {
    if workers == [] then 0 else f(workers[0]) + Sum(workers[1..], f)
  }

  lemma {:induction false} SumOfUpdate(workers: seq<Phase>, w: nat, p: Phase, f: Phase -> nat)
    requires w < |workers|
    ensures Sum(workers[w := p], f) == Sum(workers, f) - f(workers[w]) + f(p)
  {
    if w == 0 {
      assert workers[w := p][1..] == workers[1..];
    } else {
      SumOfUpdate(workers[1..], w - 1, p, f);
      assert workers[w := p][1..] == workers[1..][w - 1 := p];
    }
  }

  /** Work on its way: events, delayed adds, a dirty key, a busy worker. */
  function Traffic(s: State): nat {
    18 * s.undelivered + 18 * s.q.waiting[KEY] + (if KEY in s.q.dirty then 17 else 0) + Sum(s.workers, Weight)
  }

  ghost predicate SomeSound(env: Env, s: State) {
    exists w :: 0 <= w < |s.workers| && s.workers[w].Managing? && Sound(env, s.cluster, s.workers[w])
  }

  /** Stable, and no sync under way that could change that. */
  ghost predicate Calm(env: Env, s: State) {
    && Stable(env, s.cluster)
    && forall w :: 0 <= w < |s.workers| && s.workers[w].Managing? ==> Sound(env, s.cluster, s.workers[w])
  }

  /** What may still be stirred up: the events of the sync under way, and those of
      another one unless it will leave a stable cluster. */
  ghost function Unrest(env: Env, s: State): nat {
    if Calm(env, s) then 0 else Sum(s.workers, Debt) + (if SomeSound(env, s) then 0 else 36)
  }

  ghost function Measure(env: Env, s: State, budget: nat): nat {
    72 * budget + Unrest(env, s) + Traffic(s)
  }

  lemma {:induction false} AllButOneIdle(workers: seq<Phase>, w: nat, f: Phase -> nat)
    requires w < |workers| && f(Idle) == 0
    requires forall v :: 0 <= v < |workers| && v != w ==> workers[v].Idle?
    ensures Sum(workers, f) == f(workers[w])
  {
    SumOfUpdate(workers, w, Idle, f);
    AllIdle(workers[w := Idle], f);
  }

  lemma {:induction false} AllIdle(workers: seq<Phase>, f: Phase -> nat)
    requires f(Idle) == 0 && forall v :: 0 <= v < |workers| ==> workers[v].Idle?
    ensures Sum(workers, f) == 0
  {
    if workers != [] {
      AllIdle(workers[1..], f);
    }
  }

  /** Unrest, when this is the phase of the only busy worker. */
  ghost function UnrestOf(env: Env, c: Cluster, p: Phase): nat {
    if Stable(env, c) && (p.Managing? ==> Sound(env, c, p)) then 0
    else Debt(p) + if p.Managing? && Sound(env, c, p) then 0 else 36
  }

  /** With a single busy worker everything is about that one. */
  lemma BusyWorkerDecides(env: Env, s: State, w: nat)
    requires w < |s.workers| && (forall v :: 0 <= v < |s.workers| && v != w ==> s.workers[v].Idle?)
    ensures Sum(s.workers, Weight) == Weight(s.workers[w])
    ensures Unrest(env, s) == UnrestOf(env, s.cluster, s.workers[w])
  {
    AllButOneIdle(s.workers, w, Weight);
    AllButOneIdle(s.workers, w, Debt);
  }

  lemma RequestDecreases(env: Env, c: Cluster, p: Phase, reply: Reply)
    requires Contract(env) && Ready(env, c) && (p.Taken? || p.Managing?)
    ensures var (c', p') := Request(env, c, p, reply);
            18 * Events(c, c') + Weight(p') + UnrestOf(env, c', p')
            < Weight(p) + UnrestOf(env, c, p) + if p' == Synced(false) then 72 else 0
  {
    RequestEffect(env, c, p, reply);
  }

  lemma SendDecreases(env: Env, s: State, w: nat, reply: Reply, budget: nat)
    requires Contract(env) && Ready(env, s.cluster) && SingleFlight(s) && Enabled(s, Send(w, reply))
    requires Fails(env, s, Send(w, reply)) ==> budget > 0
    ensures var s' := Next(env, s, Send(w, reply));
            && s'.q == s.q
            && Measure(env, s', if Fails(env, s, Send(w, reply)) then budget - 1 else budget) < Measure(env, s, budget)
  {
    var s' := Next(env, s, Send(w, reply));
    RequestDecreases(env, s.cluster, s.workers[w], reply);
    BusyWorkerIsTheOnlyOne(s, w);
    BusyWorkerDecides(env, s, w);
    assert forall v :: 0 <= v < |s.workers| && v != w ==> s'.workers[v] == s.workers[v];
    BusyWorkerDecides(env, s', w);
    assert s'.undelivered == s.undelivered + Events(s.cluster, s'.cluster);
  }

  lemma UnrestStays(env: Env, s: State, s': State, w: nat, p: Phase)
    requires w < |s.workers| && s'.workers == s.workers[w := p] && s'.cluster == s.cluster
    requires !s.workers[w].Managing? && !p.Managing?
    ensures Unrest(env, s') == Unrest(env, s)
  {
    SumOfUpdate(s.workers, w, p, Debt);
    assert forall v :: 0 <= v < |s.workers| && v != w ==> s'.workers[v] == s.workers[v];
    if SomeSound(env, s) {
      var v :| 0 <= v < |s.workers| && s.workers[v].Managing? && Sound(env, s.cluster, s.workers[v]);
      assert s'.workers[v] == s.workers[v];
    }
  }

  lemma QueueStepDecreases(env: Env, s: State, a: Action)
    requires Enabled(s, a) && Internal(a) && !a.Send? && !s.q.shuttingDown
    requires a.Take? ==> s.q.queue[0] == KEY && KEY in s.q.dirty
    ensures var s' := Next(env, s, a);
            && s'.cluster == s.cluster && !s'.q.shuttingDown
            && Traffic(s') < Traffic(s) && Unrest(env, s') == Unrest(env, s)
  {
    var s' := Next(env, s, a);
    match a
    case Take(w) => SumOfUpdate(s.workers, w, Taken, Weight); UnrestStays(env, s, s', w, Taken);
    case Note(w, _) => SumOfUpdate(s.workers, w, Noted, Weight); UnrestStays(env, s, s', w, Noted);
    case Finish(w) => SumOfUpdate(s.workers, w, Idle, Weight); UnrestStays(env, s, s', w, Idle);
    case Deliver => assert s'.workers == s.workers;
    case Fire => assert s'.workers == s.workers;
  }

  /** Every internal step makes the measure smaller; a failed sync pays for what it
      stirs up out of the budget. */
  lemma StepDecreases(env: Env, s: State, a: Action, budget: nat)
    requires Contract(env) && Ready(env, s.cluster) && Inv(s) && !s.q.shuttingDown
    requires Enabled(s, a) && Internal(a)
    requires Fails(env, s, a) ==> budget > 0
    ensures var s' := Next(env, s, a);
            && !s'.q.shuttingDown
            && Measure(env, s', if Fails(env, s, a) then budget - 1 else budget) < Measure(env, s, budget)
  {
    if a.Send? {
      SendDecreases(env, s, a.w, a.reply, budget);
    } else {
      if a.Take? { assert s.q.queue[0] in s.q.queue; }
      QueueStepDecreases(env, s, a);
    }
  }

  /** No infinite chatter: a run without outside interference in which at most
      `budget` syncs fail is no longer than the measure of the state it starts in. */
  lemma {:induction false} RunsAreBounded(env: Env, s: State, run: seq<Action>, budget: nat)
    requires Contract(env) && Inv(s) && !s.q.shuttingDown
    requires Executes(env, s, run) && AllInternal(run) && ReadyThroughout(env, s, run)
    requires FailedSyncs(env, s, run) <= budget
    ensures |run| <= Measure(env, s, budget)
    decreases |run|
  {
    if run != [] {
      var a := run[0];
      assert Internal(a);
      StepDecreases(env, s, a, budget);
      StepKeepsInv(env, s, a);
      RunsAreBounded(env, Next(env, s, a), run[1..], if Fails(env, s, a) then budget - 1 else budget);
    }
  }

  // ---- what is left at the end -------------------------------------------

  /** Unless all is calm, something is on its way that will complete the work. A sync
      under way counts only if it is sound. */
  ghost predicate Pending(env: Env, s: State) {
    || Calm(env, s)
    || s.undelivered > 0
    || KEY in s.q.dirty
    || KEY in s.q.waiting
    || SomeWorkerIs(s, Taken)
    || SomeWorkerIs(s, Synced(false))
    || SomeSound(env, s)
  }

  lemma SendKeepsPending(env: Env, s: State, w: nat, reply: Reply)
    requires Contract(env) && Ready(env, s.cluster) && SingleFlight(s)
    requires Enabled(s, Send(w, reply)) && Pending(env, s)
    ensures Pending(env, Next(env, s, Send(w, reply)))
  {
    var s' := Next(env, s, Send(w, reply));
    var p, p' := s.workers[w], s'.workers[w];
    RequestEffect(env, s.cluster, p, reply);
    BusyWorkerIsTheOnlyOne(s, w);
    assert forall v :: 0 <= v < |s.workers| && v != w ==> s'.workers[v].Idle?;
    if p.Taken? || Sound(env, s.cluster, p) {
      assert p' == Synced(false) ==> SomeWorkerIs(s', Synced(false));
      assert p'.Managing? ==> Sound(env, s'.cluster, p');
    }
  }

  lemma StepKeepsPending(env: Env, s: State, a: Action)
    requires Contract(env) && Ready(env, s.cluster) && Inv(s) && !s.q.shuttingDown
    requires Enabled(s, a) && Internal(a) && Pending(env, s)
    ensures var s' := Next(env, s, a); Pending(env, s') && !s'.q.shuttingDown
  {
    var s' := Next(env, s, a);
    match a
    case Send(w, reply) => SendKeepsPending(env, s, w, reply);
    case Take(w) =>
      assert s'.workers[w] == Taken && SomeWorkerIs(s', Taken);
    case Note(w, _) =>
      BusyWorkerIsTheOnlyOne(s, w);
    case Finish(w) =>
      BusyWorkerIsTheOnlyOne(s, w);
    case Deliver =>
    case Fire =>
  }

  lemma {:induction false} PendingHoldsThroughout(env: Env, s: State, run: seq<Action>)
    requires Contract(env) && Inv(s) && !s.q.shuttingDown && Pending(env, s)
    requires Executes(env, s, run) && AllInternal(run) && ReadyThroughout(env, s, run)
    ensures Pending(env, After(env, s, run)) && Inv(After(env, s, run)) && !After(env, s, run).q.shuttingDown
    decreases |run|
  {
    if run != [] {
      var a := run[0];
      assert Internal(a);
      StepKeepsInv(env, s, a);
      StepKeepsPending(env, s, a);
      PendingHoldsThroughout(env, Next(env, s, a), run[1..]);
    }
  }

  /** Nothing can happen any more without outside interference. */
  ghost predicate AtRest(s: State) {
    forall a :: Internal(a) ==> !Enabled(s, a)
  }

  /** Exactly when nothing is on its way and all workers wait. */
  lemma RestIsEmpty(s: State)
    requires Inv(s) && s.workers != [] && !s.q.shuttingDown
    ensures AtRest(s) <==> s.undelivered == 0 && KEY !in s.q.dirty && KEY !in s.q.waiting
                           && forall w :: 0 <= w < |s.workers| ==> s.workers[w].Idle?
  {
    if AtRest(s) {
      assert !Enabled(s, Deliver) && !Enabled(s, Fire);
      forall w | 0 <= w < |s.workers| ensures s.workers[w].Idle? {
        assert !Enabled(s, Send(w, Accepted)) && !Enabled(s, Note(w, false)) && !Enabled(s, Finish(w));
      }
      assert !Enabled(s, Take(0));
    } else {
      var a :| Internal(a) && Enabled(s, a);
      if a.Take? { assert s.q.queue[0] in s.q.queue; }
    }
  }

  /** The main result. From any state with a sync still to come (the informers'
      first events are enough), under any schedule of deliveries, retries and
      workers, with at most `budget` failed syncs and nobody else writing: the run
      is bounded, and whenever it comes to rest every resource is as required and
      the Deployment's generation is recorded. */
  lemma {:induction false} ChatterEndsConverged(env: Env, s: State, run: seq<Action>, budget: nat)
    requires Contract(env) && Inv(s) && !s.q.shuttingDown && s.workers != [] && Pending(env, s)
    requires Executes(env, s, run) && AllInternal(run) && ReadyThroughout(env, s, run)
    requires FailedSyncs(env, s, run) <= budget
    ensures |run| <= Measure(env, s, budget)
    ensures AtRest(After(env, s, run)) ==> Stable(env, After(env, s, run).cluster)
  {
    RunsAreBounded(env, s, run, budget);
    PendingHoldsThroughout(env, s, run);
    WorkersStay(env, s, run);
    RestIsEmpty(After(env, s, run));
  }

  lemma {:induction false} WorkersStay(env: Env, s: State, run: seq<Action>)
    requires Executes(env, s, run)
    ensures |After(env, s, run).workers| == |s.workers|
    decreases |run|
  {
    if run != [] {
      WorkersStay(env, Next(env, s, run[0]), run[1..]);
    }
  }

  // ---- staying ready ---------------------------------------------------------------

  /** Every sync under way goes by the present custom resource and by a record that
      did not vouch for drift. */
  ghost predicate FairSyncs(env: Env, s: State) {
    forall w :: 0 <= w < |s.workers| && s.workers[w].Managing? ==> Fair(env, s.cluster, s.workers[w])
  }

  ghost predicate Fair(env: Env, c: Cluster, p: Phase)
    requires p.Managing?
  {
    && c.cr.Some? && p.cr.view == c.cr.value.view
    && if p.step <= DEPLOYMENT then Honest(env, p.cr, c) else Converged(env, p.cr.view, c, DEPLOYMENT)
  }

  lemma RequestStaysReady(env: Env, c: Cluster, p: Phase, reply: Reply)
    requires Contract(env) && Ready(env, c) && (p.Taken? || (p.Managing? && Fair(env, c, p)))
    ensures var (c', p') := Request(env, c, p, reply);
            Ready(env, c') && (p'.Managing? ==> Fair(env, c', p'))
  {
    if p.Managing? && p.step < STATUS_STEP {
      StepEffect(env, c, p.cr, p.step, reply);
      var c' := Request(env, c, p, reply).0;
      assert p.step != DEPLOYMENT ==> SameEntry(c, c', DEPLOYMENT);
    }
  }

  lemma StepStaysReady(env: Env, s: State, a: Action)
    requires Contract(env) && Ready(env, s.cluster) && SingleFlight(s) && FairSyncs(env, s)
    requires Enabled(s, a) && Internal(a)
    ensures Ready(env, Next(env, s, a).cluster) && FairSyncs(env, Next(env, s, a))
  {
    var s' := Next(env, s, a);
    if a.Send? {
      RequestStaysReady(env, s.cluster, s.workers[a.w], a.reply);
      BusyWorkerIsTheOnlyOne(s, a.w);
    }
    assert forall w :: 0 <= w < |s.workers| && (!a.Send? || w != a.w) && s'.workers[w].Managing? ==>
             s'.workers[w] == s.workers[w];
  }

  /** When no sync under way is unfair, between two syncs for one, being ready at the
      start is enough. */
  lemma {:induction false} FreshStartStaysReady(env: Env, s: State, run: seq<Action>)
    requires Contract(env) && Ready(env, s.cluster) && Inv(s) && FairSyncs(env, s)
    requires Executes(env, s, run) && AllInternal(run)
    ensures ReadyThroughout(env, s, run)
    decreases |run|
  {
    if run != [] {
      assert Internal(run[0]);
      StepKeepsInv(env, s, run[0]);
      StepStaysReady(env, s, run[0]);
      FreshStartStaysReady(env, Next(env, s, run[0]), run[1..]);
    }
  }

  // ---- what is noticed --------------------------------------------------------------

  /** What somebody else's change does, when it causes just the events it must. */
  function Changed(env: Env, s: State, c: Cluster): State {
    Next(env, s, External(c, Events(s.cluster, c)))
  }

  predicate IsWatchedChange(c: Cluster, c': Cluster) {
    !SameEntry(c, c', NETWORK_POLICY) || c.cr != c'.cr
  }

  /** A change made while the operator is at rest leads to a sync if and only if it
      touches the network policy or the custom resource. */
  lemma DriftIsNoticedIff(env: Env, s: State, c: Cluster)
    requires Inv(s) && AtRest(s) && s.workers != [] && !s.q.shuttingDown
    ensures AtRest(Changed(env, s, c)) <==> !IsWatchedChange(s.cluster, c)
    ensures Pending(env, Changed(env, s, c)) <==> IsWatchedChange(s.cluster, c) || Stable(env, c)
  {
    var s' := Changed(env, s, c);
    OutsideKeepsInv(env, s, External(c, Events(s.cluster, c)));
    RestIsEmpty(s);
    RestIsEmpty(s');
  }

  /** Any of the other ten resources may vanish, or be replaced by anything, and
      nothing follows: it waits for the next resync or for a change of the two. */
  lemma UnwatchedDriftGoesUnnoticed(env: Env, s: State, r: Resource, drifted: Entry, run: seq<Action>)
    requires Inv(s) && AtRest(s) && s.workers != [] && !s.q.shuttingDown
    requires s.cluster.cr.Some? && r != NETWORK_POLICY && !Fixed(env, s.cluster.cr.value.view, r, drifted.content)
    ensures var gone := s.cluster.(objects := s.cluster.objects - {r});
            var changed := s.cluster.(objects := s.cluster.objects[r := drifted]);
            && !Stable(env, gone) && !Stable(env, changed)
            && (Executes(env, Changed(env, s, gone), run) && AllInternal(run) ==> run == [])
            && (Executes(env, Changed(env, s, changed), run) && AllInternal(run) ==> run == [])
  {
    var view := s.cluster.cr.value.view;
    var gone := s.cluster.(objects := s.cluster.objects - {r});
    var changed := s.cluster.(objects := s.cluster.objects[r := drifted]);
    DriftIsNoticedIff(env, s, gone);
    DriftIsNoticedIff(env, s, changed);
    assert !Converged(env, view, gone, r) && !Converged(env, view, changed, r);
    assert |run| > 0 && AllInternal(run) ==> Internal(run[0]);
  }
}
