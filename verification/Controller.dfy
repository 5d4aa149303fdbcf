/** The controller as a state machine: event handlers and delayed retries feed the
    queue, workers run processNextWorkItem, the requests of a sync change the cluster
    and so cause new events, other writers interfere between any two requests, and
    the queue may be shut down. */
module Controller {
  import opened Requests
  import opened Sync
  import opened Convergence
  import WQ = WorkQueue

  const KEY := "key"

  type Step = k: nat | 1 <= k <= STATUS_STEP witness 1

  /** Where a worker is in processNextWorkItem. */
  datatype Phase =
    | Idle               // blocked in Get
    | Taken              // sync is about to read the custom resource
    | Managing(cr: Cr, step: Step, generation: int) // it has read `cr` and comes to request `step`
    | Synced(ok: bool)   // sync has returned
    | Noted              // Forget or AddRateLimited done, Done still to come

  /** `undelivered` counts watch events on their way. Two history variables: `owed`
      is true when an event was delivered or a sync failed since the last sync
      started, `streak` is the number of failed syncs since the last success. */
  datatype State = State(q: WQ.Queue, workers: seq<Phase>, cluster: Cluster, undelivered: nat, owed: bool, streak: nat)

  datatype Action =
    | Deliver
    | Take(w: nat)
    | Send(w: nat, reply: Reply)
    | Note(w: nat, merged: bool)
    | Finish(w: nat)
    | Fire
    | External(cluster: Cluster, events: nat)
    | ShutDown

  /** Only network policies and the custom resource are watched. Other writers' changes
      of these cause events too; there may be more, from a resync for example. */
  function Events(c: Cluster, c': Cluster): nat {
    (if SameEntry(c, c', NETWORK_POLICY) then 0 else 1) + (if c.cr == c'.cr then 0 else 1)
  }

  /** One request of a sync: the read, a manage call, or the status write. A manage
      call reads and writes its object, but with an optimistic lock, so that it is
      one step that may be refused. */
  function Request(env: Env, c: Cluster, p: Phase, reply: Reply): (Cluster, Phase)
    requires p.Taken? || p.Managing?
  {
    match p
    case Taken =>
      (c, if c.cr.Some? && reply.Accepted? then Managing(c.cr.value, 1, -1) else Synced(false))
    case Managing(cr, k, generation) =>
      if k == STATUS_STEP then
        var (c', ok) := StatusStep(c, cr.view, generation, reply);
        (c', Synced(ok))
      else
        var (c', ok) := ManageStep(env, c, cr, k, reply);
        (c', if ok then Managing(cr, k + 1, if k == DEPLOYMENT then GenerationOf(c') else generation)
             else Synced(false))
  }

  predicate Enabled(s: State, a: Action) {
    match a
    case Deliver => s.undelivered > 0
    case Take(w) => w < |s.workers| && s.workers[w].Idle? && s.q.queue != []
    case Send(w, _) => w < |s.workers| && (s.workers[w].Taken? || s.workers[w].Managing?)
    case Note(w, _) => w < |s.workers| && s.workers[w].Synced?
    case Finish(w) => w < |s.workers| && s.workers[w].Noted?
    case Fire => KEY in s.q.waiting && !s.q.shuttingDown
    case External(cluster, events) => events >= Events(s.cluster, cluster)
    case ShutDown => true
  }

  function Next(env: Env, s: State, a: Action): State
    requires Enabled(s, a)
  {
    match a
    case Deliver =>
      s.(undelivered := s.undelivered - 1, q := WQ.Add(s.q, KEY), owed := true)
    case Take(w) =>
      s.(q := WQ.Take(s.q), workers := s.workers[w := Taken], owed := false)
    case Send(w, reply) =>
      var (cluster, p) := Request(env, s.cluster, s.workers[w], reply);
      s.(cluster := cluster, workers := s.workers[w := p],
         undelivered := s.undelivered + Events(s.cluster, cluster),
         owed := s.owed || p == Synced(false),
         streak := if p == Synced(true) then 0 else if p == Synced(false) then s.streak + 1 else s.streak)
    case Note(w, merged) =>
      s.(q := if s.workers[w].ok then WQ.Forget(s.q, KEY) else WQ.AddRateLimited(s.q, KEY, merged),
         workers := s.workers[w := Noted])
    case Finish(w) =>
      s.(q := WQ.Done(s.q, KEY), workers := s.workers[w := Idle])
    case Fire =>
      s.(q := WQ.Fire(s.q, KEY))
    case External(cluster, events) =>
      s.(cluster := cluster, undelivered := s.undelivered + events)
    case ShutDown =>
      s.(q := WQ.ShutDown(s.q))
  }

  ghost predicate Executes(env: Env, s: State, run: seq<Action>)
    decreases |run|
  {
    run == [] || (Enabled(s, run[0]) && Executes(env, Next(env, s, run[0]), run[1..]))
  }

  function After(env: Env, s: State, run: seq<Action>): State
    requires Executes(env, s, run)
    decreases |run|
  {
    if run == [] then s else After(env, Next(env, s, run[0]), run[1..])
  }

  /** The state before the informers are started: nothing queued, any cluster, any
      number of workers (the operator starts one). */
  ghost predicate Initial(s: State) {
    && s.q == WQ.EMPTY
    && (forall w :: 0 <= w < |s.workers| ==> s.workers[w].Idle?)
    && !s.owed && s.streak == 0
  }

  // ---- safety -----------------------------------------------------------

  ghost predicate SingleFlight(s: State) {
    forall v, w :: 0 <= v < w < |s.workers| ==> s.workers[v].Idle? || s.workers[w].Idle?
  }

  ghost predicate SomeWorkerIs(s: State, p: Phase) {
    exists w :: 0 <= w < |s.workers| && s.workers[w] == p
  }

  /** Before shutdown, whatever is owed is queued, marked for another round,
      waiting out its delay, or in the hands of a worker about to requeue it. */
  ghost predicate NoLostWakeUp(s: State) {
    s.owed && !s.q.shuttingDown ==>
      KEY in s.q.dirty || KEY in s.q.waiting || SomeWorkerIs(s, Synced(false))
  }

  /** The rate limiter's count is the failing streak, up to the outcome a worker
      has not reported yet. */
  ghost predicate CountIsStreak(s: State) {
    if SomeWorkerIs(s, Synced(true)) then s.streak == 0
    else if SomeWorkerIs(s, Synced(false)) then s.streak == WQ.Count(s.q, KEY) + 1
    else s.streak == WQ.Count(s.q, KEY)
  }

  ghost predicate OnlyKey(q: WQ.Queue) {
    q.dirty <= {KEY} && q.processing <= {KEY} && (q.queue == [] || q.queue == [KEY])
  }

  ghost predicate Inv(s: State) {
    && WQ.Valid(s.q) && OnlyKey(s.q)
    && SingleFlight(s)
    && (KEY in s.q.processing <==> exists w :: 0 <= w < |s.workers| && !s.workers[w].Idle?)
    && NoLostWakeUp(s)
    && CountIsStreak(s)
  }

  lemma BusyWorkerIsTheOnlyOne(s: State, w: nat)
    requires SingleFlight(s) && w < |s.workers| && !s.workers[w].Idle?
    ensures forall v :: 0 <= v < |s.workers| && v != w ==> s.workers[v].Idle?
  {}

  lemma TakeKeepsInv(env: Env, s: State, w: nat)
    requires Inv(s) && Enabled(s, Take(w))
    ensures Inv(Next(env, s, Take(w)))
  {
    WQ.TakeKeepsValid(s.q);
    assert s.q.queue[0] == KEY && KEY in s.q.queue;
    var s' := Next(env, s, Take(w));
    assert s'.workers[w].Taken?;
    forall v | 0 <= v < |s.workers| ensures s.workers[v].Idle? {}
  }

  lemma SendKeepsInv(env: Env, s: State, w: nat, reply: Reply)
    requires Inv(s) && Enabled(s, Send(w, reply))
    ensures Inv(Next(env, s, Send(w, reply)))
  {
    BusyWorkerIsTheOnlyOne(s, w);
    var s' := Next(env, s, Send(w, reply));
    assert forall v :: 0 <= v < |s.workers| && v != w ==> s'.workers[v].Idle?;
    assert SomeWorkerIs(s', s'.workers[w]);
  }

  lemma NoteKeepsInv(env: Env, s: State, w: nat, merged: bool)
    requires Inv(s) && Enabled(s, Note(w, merged))
    ensures Inv(Next(env, s, Note(w, merged)))
  {
    BusyWorkerIsTheOnlyOne(s, w);
    var s' := Next(env, s, Note(w, merged));
    assert forall v :: 0 <= v < |s.workers| && v != w ==> s'.workers[v].Idle?;
    assert s'.workers[w] == Noted && SomeWorkerIs(s, s.workers[w]);
  }

  lemma FinishKeepsInv(env: Env, s: State, w: nat)
    requires Inv(s) && Enabled(s, Finish(w))
    ensures Inv(Next(env, s, Finish(w)))
  {
    BusyWorkerIsTheOnlyOne(s, w);
    WQ.DoneKeepsValid(s.q, KEY);
    var s' := Next(env, s, Finish(w));
    assert forall v :: 0 <= v < |s.workers| ==> s'.workers[v].Idle?;
  }

  lemma AddKeepsInv(env: Env, s: State, a: Action)
    requires Inv(s) && Enabled(s, a) && (a.Deliver? || a.Fire?)
    ensures Inv(Next(env, s, a))
  {
    var popped := if a.Fire? then s.q.(waiting := s.q.waiting - multiset{KEY}) else s.q;
    WQ.AddKeepsValid(popped, KEY);
    assert KEY in WQ.Add(popped, KEY).dirty || s.q.shuttingDown;
    var s' := Next(env, s, a);
    assert s'.q == WQ.Add(popped, KEY) && s'.workers == s.workers;
    assert forall p :: SomeWorkerIs(s', p) <==> SomeWorkerIs(s, p);
  }

  lemma OutsideKeepsInv(env: Env, s: State, a: Action)
    requires Inv(s) && Enabled(s, a) && (a.External? || a.ShutDown?)
    ensures Inv(Next(env, s, a))
  {
    var s' := Next(env, s, a);
    assert s'.workers == s.workers;
    assert forall p :: SomeWorkerIs(s', p) <==> SomeWorkerIs(s, p);
  }

  lemma StepKeepsInv(env: Env, s: State, a: Action)
    requires Inv(s) && Enabled(s, a)
    ensures Inv(Next(env, s, a))
  {
    match a
    case Deliver => AddKeepsInv(env, s, a);
    case Take(w) => TakeKeepsInv(env, s, w);
    case Send(w, reply) => SendKeepsInv(env, s, w, reply);
    case Note(w, merged) => NoteKeepsInv(env, s, w, merged);
    case Finish(w) => FinishKeepsInv(env, s, w);
    case Fire => AddKeepsInv(env, s, a);
    case External(_, _) => OutsideKeepsInv(env, s, a);
    case ShutDown => OutsideKeepsInv(env, s, a);
  }

  lemma {:induction false} InvHoldsThroughout(env: Env, s: State, run: seq<Action>)
    requires Inv(s) && Executes(env, s, run)
    ensures Inv(After(env, s, run))
    decreases |run|
  {
    if run != [] {
      StepKeepsInv(env, s, run[0]);
      InvHoldsThroughout(env, Next(env, s, run[0]), run[1..]);
    }
  }

  /** In every reachable state, with any number of workers and any interference:
      at most one sync is in flight, at most one entry is queued, no wake-up is
      lost before shutdown, the rate limiter counts the failing streak, and a sync by
      an outdated custom resource is followed by another. */
  lemma ReachableStatesAreSafe(env: Env, s: State, run: seq<Action>)
    requires Initial(s) && Executes(env, s, run)
    ensures var t := After(env, s, run);
            SingleFlight(t) && |t.q.queue| <= 1 && NoLostWakeUp(t) && CountIsStreak(t) && OutdatedIsFollowedUp(t)
  {
    InvHoldsThroughout(env, s, run);
    OutdatedSyncsAreFollowedUp(env, s, run);
  }

  /** A sync that still goes by a custom resource that has since changed is not the
      last one: an event of the change is on its way or has marked the key. */
  ghost predicate OutdatedIsFollowedUp(s: State) {
    forall w :: 0 <= w < |s.workers| && s.workers[w].Managing?
                && (s.cluster.cr.None? || s.cluster.cr.value.view != s.workers[w].cr.view) ==>
      s.q.shuttingDown || s.undelivered > 0 || KEY in s.q.dirty
  }

  lemma StepKeepsFollowUp(env: Env, s: State, a: Action)
    requires Inv(s) && OutdatedIsFollowedUp(s) && Enabled(s, a)
    ensures OutdatedIsFollowedUp(Next(env, s, a))
  {
    var s' := Next(env, s, a);
    if a.Take? {
      assert s.q.queue[0] in s.q.queue;
    }
    forall w | 0 <= w < |s'.workers| && s'.workers[w].Managing? && (!a.Send? || w != a.w)
      ensures s'.workers[w] == s.workers[w]
    {}
    if a.Send? {
      BusyWorkerIsTheOnlyOne(s, a.w);
    }
  }

  /** In every reachable state. */
  lemma {:induction false} OutdatedSyncsAreFollowedUp(env: Env, s: State, run: seq<Action>)
    requires Inv(s) && OutdatedIsFollowedUp(s) && Executes(env, s, run)
    ensures OutdatedIsFollowedUp(After(env, s, run))
    decreases |run|
  {
    if run != [] {
      StepKeepsInv(env, s, run[0]);
      StepKeepsFollowUp(env, s, run[0]);
      OutdatedSyncsAreFollowedUp(env, Next(env, s, run[0]), run[1..]);
    }
  }
}
