/** `processNextWorkItem` and the event handlers, tied to the controller's state
    machine. */
module Worker {
  import opened Requests
  import opened Sync
  import opened Controller

  class QueueWorker {
    const reconciler: TargetConfigReconciler
    var queue: WQ.Queue

    constructor (reconciler: TargetConfigReconciler)
      ensures this.reconciler == reconciler && queue == WQ.EMPTY
    {
      this.reconciler := reconciler;
      queue := WQ.EMPTY;
    }

    /** Every handler of both watches does this, whatever the event. Afterwards the key
        is queued or, while a sync is running, marked for another round; nothing else
        changes, and a second event before the next sync changes nothing at all. */
    method HandleEvent()
      requires WQ.Valid(queue)
      modifies this
      ensures WQ.Valid(queue)
      ensures !queue.shuttingDown ==> "key" in queue.dirty && ("key" in queue.queue || "key" in queue.processing)
      ensures queue.shuttingDown || "key" in old(queue.dirty) ==> queue == old(queue)
      ensures forall k :: k != "key" ==> (k in queue.dirty <==> k in old(queue.dirty))
      ensures queue.queue == old(queue.queue) || queue.queue == old(queue.queue) + ["key"]
      ensures queue.processing == old(queue.processing) && queue.waiting == old(queue.waiting)
      ensures queue.failures == old(queue.failures) && queue.shuttingDown == old(queue.shuttingDown)
    {
      WQ.AddKeepsValid(queue, KEY);
      queue := WQ.Add(queue, KEY);
    }

    /** Get blocks while the queue is empty and not shut down. An undisturbed call
        is one worker's way through the state machine, request by request. */
    method ProcessNextWorkItem(replies: seq<Reply>, merged: bool, ghost s: State) returns (more: bool)
      requires |replies| == COMPLETED
      requires queue.queue == [KEY] || (queue.queue == [] && queue.shuttingDown)
      requires s.q == queue && s.cluster == reconciler.cluster && s.workers == [Idle]
      modifies this, reconciler
      ensures more <==> old(queue.queue) != []
      ensures !more ==> queue == old(queue) && reconciler.cluster == old(reconciler.cluster)
      ensures more ==>
                var run := SyncRun(replies, Pass(reconciler.env, s.cluster, replies).1, merged);
                && Executes(reconciler.env, s, run)
                && After(reconciler.env, s, run).q == queue
                && After(reconciler.env, s, run).cluster == reconciler.cluster
    {
      if queue.queue == [] {
        return false;
      }
      var key := queue.queue[0];
      queue := WQ.Take(queue);
      var step := reconciler.Sync(replies);
      if step == COMPLETED {
        queue := WQ.Forget(queue, key);
      } else {
        queue := WQ.AddRateLimited(queue, key, merged);
      }
      queue := WQ.Done(queue, key);
      more := true;
      SyncRunIsPass(reconciler.env, s, replies, merged);
    }
  }

  /** Requests number `from` to `to`, the latter excluded. */
  function Sends(replies: seq<Reply>, from: nat, to: nat): seq<Action>
    requires from <= to <= |replies|
    decreases |replies| - from
  {
    if from == to then [] else [Send(0, replies[from])] + Sends(replies, from + 1, to)
  }

  /** All a worker does for one key, when the sync ends at step `stop`. */
  function SyncRun(replies: seq<Reply>, stop: nat, merged: bool): seq<Action>
    requires |replies| == COMPLETED && stop <= COMPLETED
  {
    [Take(0)] + (Sends(replies, 0, if stop == COMPLETED then COMPLETED else stop + 1) + [Note(0, merged), Finish(0)])
  }

  ghost predicate Reaches(env: Env, s: State, run: seq<Action>, t: State) {
    Executes(env, s, run) && After(env, s, run) == t
  }

  lemma Prepend(env: Env, s: State, a: Action, run: seq<Action>, t: State)
    requires Enabled(s, a) && Reaches(env, Next(env, s, a), run, t)
    ensures Reaches(env, s, [a] + run, t)
  {
    assert ([a] + run)[0] == a && ([a] + run)[1..] == run;
  }

  lemma {:induction false} RunsCompose(env: Env, s: State, a: seq<Action>, t: State, b: seq<Action>, u: State)
    requires Reaches(env, s, a, t) && Reaches(env, t, b, u)
    ensures Reaches(env, s, a + b, u)
    decreases |a|
  {
    if a == [] {
      assert a + b == b;
    } else {
      RunsCompose(env, Next(env, s, a[0]), a[1..], t, b, u);
      Prepend(env, s, a[0], a[1..] + b, u);
      assert a + b == [a[0]] + (a[1..] + b);
    }
  }

  /** A sync that nobody disturbs, from request `k` on: RunFrom and the status write. */
  lemma {:induction false} RequestsAreRunFrom(env: Env, s: State, cr: Cr, k: Step, generation: int, replies: seq<Reply>)
    returns (t: State)
    requires |replies| == COMPLETED && s.workers == [Managing(cr, k, generation)]
    requires k > DEPLOYMENT ==> generation == GenerationOf(s.cluster)
    ensures var stop := RunFrom(env, s.cluster, cr, k, replies).1;
            Reaches(env, s, Sends(replies, k, stop + 1), t)
    ensures t.q == s.q && (t.cluster, t.workers) == Outcome(env, s.cluster, cr, k, replies)
    decreases STATUS_STEP - k
  {
    var a := Send(0, replies[k]);
    var (c1, p) := Request(env, s.cluster, s.workers[0], replies[k]);
    var s1 := SendStep(env, s, replies[k]);
    if p.Managing? {
      GenerationStays(env, s.cluster, cr, k, replies[k]);
      t := RequestsAreRunFrom(env, s1, cr, k + 1, p.generation, replies);
      Prepend(env, s, a, Sends(replies, k + 1, RunFrom(env, c1, cr, k + 1, replies).1 + 1), t);
    } else {
      t := s1;
      assert Reaches(env, s1, [], s1);
      Prepend(env, s, a, [], t);
    }
  }

  function Outcome(env: Env, c: Cluster, cr: Cr, k: Step, replies: seq<Reply>): (Cluster, seq<Phase>)
    requires |replies| == COMPLETED
  {
    var (managed, stop) := RunFrom(env, c, cr, k, replies);
    if stop < STATUS_STEP then (managed, [Synced(false)])
    else
      var (c', ok) := StatusStep(managed, cr.view, GenerationOf(managed), replies[STATUS_STEP]);
      (c', [Synced(ok)])
  }

  lemma GenerationStays(env: Env, c: Cluster, cr: Cr, k: Resource, reply: Reply)
    ensures k != DEPLOYMENT ==> GenerationOf(ManageStep(env, c, cr, k, reply).0) == GenerationOf(c)
  {}

  lemma SendStep(env: Env, s: State, reply: Reply) returns (s1: State)
    requires |s.workers| == 1 && Enabled(s, Send(0, reply))
    ensures s1 == Next(env, s, Send(0, reply))
    ensures var (c1, p) := Request(env, s.cluster, s.workers[0], reply);
            s1.q == s.q && s1.cluster == c1 && s1.workers == [p]
  {
    s1 := Next(env, s, Send(0, reply));
    assert s1.workers == [s1.workers[0]];
  }

  /** The same from the read on: Pass. */
  lemma RequestsArePass(env: Env, s: State, replies: seq<Reply>) returns (t: State)
    requires |replies| == COMPLETED && s.workers == [Taken]
    ensures var (c', stop) := Pass(env, s.cluster, replies);
            && stop <= COMPLETED
            && Reaches(env, s, Sends(replies, 0, if stop == COMPLETED then COMPLETED else stop + 1), t)
            && t.q == s.q && t.cluster == c' && t.workers == [Synced(stop == COMPLETED)]
  {
    var read := Send(0, replies[0]);
    var s1 := SendStep(env, s, replies[0]);
    if s.cluster.cr.None? || !replies[0].Accepted? {
      t := s1;
      assert Reaches(env, s1, [], s1);
      Prepend(env, s, read, [], t);
    } else {
      var cr := s.cluster.cr.value;
      t := RequestsAreRunFrom(env, s1, cr, 1, -1, replies);
      Prepend(env, s, read, Sends(replies, 1, RunFrom(env, s.cluster, cr, 1, replies).1 + 1), t);
    }
  }

  /** The whole of it, with the queue operations around it. */
  lemma SyncRunIsPass(env: Env, s: State, replies: seq<Reply>, merged: bool)
    requires |replies| == COMPLETED && s.workers == [Idle] && s.q.queue != [] && s.q.queue[0] == KEY
    ensures var (c', stop) := Pass(env, s.cluster, replies);
            && stop <= COMPLETED
            && var run := SyncRun(replies, stop, merged);
               && Executes(env, s, run)
               && After(env, s, run).cluster == c'
               && After(env, s, run).q == Settled(WQ.Take(s.q), stop == COMPLETED, merged)
  {
    var s1 := Next(env, s, Take(0));
    assert s1.workers == [Taken];
    var t := RequestsArePass(env, s1, replies);
    var stop := Pass(env, s.cluster, replies).1;
    var sends := Sends(replies, 0, if stop == COMPLETED then COMPLETED else stop + 1);
    var u := QueueStepsFollow(env, t, merged);
    RunsCompose(env, s1, sends, t, [Note(0, merged), Finish(0)], u);
    Prepend(env, s, Take(0), sends + [Note(0, merged), Finish(0)], u);
  }

  /** What reporting the outcome and finishing does to the queue. */
  function Settled(q: WQ.Queue, ok: bool, merged: bool): WQ.Queue {
    WQ.Done(if ok then WQ.Forget(q, KEY) else WQ.AddRateLimited(q, KEY, merged), KEY)
  }

  lemma QueueStepsFollow(env: Env, t: State, merged: bool) returns (u: State)
    requires |t.workers| == 1 && t.workers[0].Synced?
    ensures Reaches(env, t, [Note(0, merged), Finish(0)], u)
    ensures u.cluster == t.cluster && u.q == Settled(t.q, t.workers[0].ok, merged)
  {
    var t1 := Next(env, t, Note(0, merged));
    u := Next(env, t1, Finish(0));
    assert Reaches(env, u, [], u);
    Prepend(env, t1, Finish(0), [], u);
    Prepend(env, t, Note(0, merged), [Finish(0)], u);
    assert [Note(0, merged)] + [Finish(0)] == [Note(0, merged), Finish(0)];
  }
}
