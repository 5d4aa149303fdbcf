/** The shared informer factory as it is used: its fields, the informer objects, and
    its methods, each tied to the state machine of its critical sections. */
module SharedInformers {
  import opened Wrappers
  import opened InformerFactory

  /** What an event handler does with any event: put this key into that queue. */
  datatype Handler = Handler(queue: string, key: string)

  /** Stands for a function that objects pass through on their way into the cache. */
  type Transform = string

  /** The listeners, whether they are being served, and those that have been served
      from the first event on. */
  datatype Processor = Processor(listeners: seq<Handler>, running: bool, early: seq<Handler>)

  /** Running it a second time does nothing. */
  function Launch(p: Processor): Processor {
    if p.running then p else Processor(p.listeners, true, p.listeners)
  }

  function LaunchIf(first: bool, p: Processor): Processor {
    if first then Launch(p) else p
  }

  class SharedInformer {
    ghost const id: nat
    const kind: Kind
    const resyncPeriod: int
    var processor: Processor
    var transform: Option<Transform>

    constructor (ghost id: nat, kind: Kind, resyncPeriod: int)
      ensures this.id == id && this.kind == kind && this.resyncPeriod == resyncPeriod
      ensures processor == Processor([], false, []) && transform == None
    {
      this.id := id;
      this.kind := kind;
      this.resyncPeriod := resyncPeriod;
      processor := Processor([], false, []);
      transform := None;
    }

    method SetTransform(transform: Transform)
      modifies this`transform
      ensures this.transform == Some(transform)
    {
      this.transform := Some(transform);
    }

    method AddEventHandler(h: Handler)
      modifies this`processor
      ensures processor == old(processor).(listeners := old(processor).listeners + [h])
    {
      processor := processor.(listeners := processor.listeners + [h]);
    }

    method RunWithContext()
      modifies this`processor
      ensures processor == Launch(old(processor))
    {
      if !processor.running {
        processor := processor.(running := true, early := processor.listeners);
      }
    }
  }

  /** What other callers, and the informers' goroutines, may do meanwhile. */
  datatype OtherCall = Asks(kind: Kind) | Starts | BeginsShutdown | RunEnds | ReturnsFromShutdown

  /** `err` is the cause for which the context ended. */
  datatype SyncResult = SyncResult(synced: map<Kind, bool>, err: Option<string>)

  /** The state after a history of steps. */
  ghost predicate Reached(history: seq<Action>, s: Factory) {
    Executes(INITIAL, history) && After(INITIAL, history) == s
  }

  lemma {:induction false} Extend(s: Factory, run: seq<Action>, a: Action)
    requires Executes(s, run) && Enabled(After(s, run), a)
    ensures Executes(s, run + [a]) && After(s, run + [a]) == Next(After(s, run), a)
    decreases |run|
  {
    if run == [] {
      assert (run + [a])[1..] == [];
      assert Executes(Next(s, a), (run + [a])[1..]);
    } else {
      assert (run + [a])[0] == run[0] && (run + [a])[1..] == run[1..] + [a];
      Extend(Next(s, run[0]), run[1..], a);
    }
  }

  lemma ReachedExtends(history: seq<Action>, s: Factory, a: Action)
    requires Reached(history, s) && Enabled(s, a)
    ensures Reached(history + [a], Next(s, a))
  {
    Extend(INITIAL, history, a);
  }

  lemma ReachedIsSafe(history: seq<Action>, s: Factory)
    requires Reached(history, s)
    ensures Inv(s)
  {
    InvHoldsThroughout(INITIAL, history);
  }

  lemma SomeUnfinished(history: seq<Action>, s: Factory) returns (run: nat)
    requires Reached(history, s) && s.wg > 0
    ensures run < |s.runs| && run !in s.finished
  {
    ReachedIsSafe(history, s);
    if forall j :: 0 <= j < |s.runs| ==> j in s.finished {
      AllOf(s.finished, |s.runs|);
    }
    run :| run < |s.runs| && run !in s.finished;
  }

  class SharedInformerFactory {
    const defaultResync: int
    const customResync: map<Kind, int>
    const transform: Option<Transform>
    /** The name the factory's informers are registered under, if any, is taken. */
    var nameReserved: bool
    var informers: map<Kind, SharedInformer>
    var startedInformers: map<Kind, bool>
    var shuttingDown: bool
    var wg: nat
    /** The critical sections so far and the state they lead to. */
    ghost var history: seq<Action>
    ghost var trace: Factory

    constructor (defaultResync: int, customResync: map<Kind, int>, transform: Option<Transform>, named: bool)
      ensures Valid() && informers == map[] && history == [] && !shuttingDown
      ensures this.defaultResync == defaultResync && this.customResync == customResync
      ensures this.transform == transform && nameReserved == named
    {
      this.transform := transform;
      nameReserved := named;
      this.defaultResync := defaultResync;
      this.customResync := customResync;
      informers := map[];
      startedInformers := map[];
      shuttingDown := false;
      wg := 0;
      history := [];
      trace := INITIAL;
    }

    /** The fields and the objects agree with the state machine. */
    ghost predicate Linked()
      reads this
    {
      && informers.Keys == trace.informers.Keys
      && (forall kind :: kind in informers ==>
            informers[kind].id == trace.informers[kind] && informers[kind].kind == kind)
      && (forall kind :: kind in trace.started <==> kind in startedInformers && startedInformers[kind])
      && trace.started <= informers.Keys
      && shuttingDown == trace.shuttingDown
      && wg == trace.wg
    }

    ghost predicate Valid()
      reads this
    {
      Linked() && trace.lock.Free? && Reached(history, trace)
    }

    /** With the custom or default resync period, and the transform if there is one. */
    method NewInformer(kind: Kind) returns (informer: SharedInformer)
      ensures fresh(informer) && informer.processor == Processor([], false, [])
      ensures informer.id == |trace.constructed| && informer.kind == kind && informer.transform == transform
      ensures informer.resyncPeriod == if kind in customResync then customResync[kind] else defaultResync
    {
      var resyncPeriod := defaultResync;
      if kind in customResync {
        resyncPeriod := customResync[kind];
      }
      informer := new SharedInformer(|trace.constructed|, kind, resyncPeriod);
      if transform.Some? {
        informer.SetTransform(transform.value);
      }
    }

    method InformerFor(kind: Kind) returns (informer: SharedInformer)
      requires Valid()
      modifies this
      ensures Valid() && kind in informers && informer == informers[kind]
      ensures history == old(history) + [Request(kind)] && trace.waiting == old(trace.waiting)
      ensures shuttingDown == old(shuttingDown) && Started() == old(Started())
      ensures kind in old(informers) ==> informers == old(informers)
      ensures kind !in old(informers) ==>
                && informers == old(informers)[kind := informer]
                && fresh(informer) && informer.processor == Processor([], false, [])
                && informer.resyncPeriod == (if kind in customResync then customResync[kind] else defaultResync)
                && informer.transform == transform
    {
      ReachedExtends(history, trace, Request(kind));
      history := history + [Request(kind)];
      if kind in informers {
        trace := Next(trace, Request(kind));
        return informers[kind];
      }
      informer := NewInformer(kind);
      informers := informers[kind := informer];
      trace := Next(trace, Request(kind));
    }

    /** After the flag is set it does nothing; before, every registered informer runs
        afterwards and those that did already are not touched. */
    method StartWithContext()
      requires Valid()
      modifies this, informers.Values
      ensures Valid() && informers == old(informers) && shuttingDown == old(shuttingDown)
      ensures old(history) < history && trace.waiting == old(trace.waiting)
      ensures forall kind :: kind in informers ==>
                informers[kind].processor
                == LaunchIf(!shuttingDown && kind !in old(Started()), old(informers[kind].processor))
      ensures Started() == if shuttingDown then old(Started()) else informers.Keys
    {
      Enter();
      assert Started() == trace.started;
      if shuttingDown {
        return;
      }
      StartAll();
      Leave();
    }

    ghost method Enter()
      requires Valid()
      modifies this`history, this`trace
      ensures trace.waiting == old(trace.waiting)
      ensures Linked() && Reached(history, trace) && old(history) < history
      ensures trace.lock == if shuttingDown then Free else Starting(trace.informers)
    {
      ReachedExtends(history, trace, BeginStart);
      history := history + [BeginStart];
      trace := Next(trace, BeginStart);
    }

    ghost method Leave()
      requires Linked() && Reached(history, trace) && trace.lock == Starting(map[])
      modifies this`history, this`trace
      ensures trace.waiting == old(trace.waiting)
      ensures Valid() && old(history) < history
    {
      ReachedExtends(history, trace, EndStart);
      history := history + [EndStart];
      trace := Next(trace, EndStart);
    }

    method StartAll()
      requires Linked() && Reached(history, trace) && trace.lock == Starting(trace.informers)
      modifies this`wg, this`startedInformers, this`trace, this`history, informers.Values
      ensures trace.waiting == old(trace.waiting)
      ensures Linked() && Reached(history, trace) && old(history) <= history
      ensures trace.lock == Starting(map[])
      ensures forall kind :: kind in informers ==>
                informers[kind].processor == LaunchIf(kind !in old(trace.started), old(informers[kind].processor))
      ensures trace.started == informers.Keys
    {
      ghost var was, before := trace.started, map kind | kind in informers :: informers[kind].processor;
      var left := informers.Keys;
      while left != {}
        invariant Linked() && Reached(history, trace) && old(history) <= history
        invariant trace.waiting == old(trace.waiting)
        invariant Progress(was, before, left)
      {
        var kind :| kind in left;
        StartNext(kind, was, before, left);
        left := left - {kind};
      }
      assert trace.lock.todo == map[];
    }

    /** Of the registered kinds all but `left` have been visited. */
    ghost predicate Progress(was: set<Kind>, before: map<Kind, Processor>, left: set<Kind>)
      reads this, informers.Values
    {
      && trace.lock.Starting? && trace.lock.todo.Keys == left <= informers.Keys == before.Keys
      && (forall kind :: kind in trace.started <==> kind in was || (kind in informers && kind !in left))
      && forall kind :: kind in informers ==>
           informers[kind].processor == LaunchIf(kind !in was && kind !in left, before[kind])
    }

    method StartNext(kind: Kind, ghost was: set<Kind>, ghost before: map<Kind, Processor>, ghost left: set<Kind>)
      requires Linked() && Reached(history, trace) && Progress(was, before, left) && kind in left
      modifies this`wg, this`startedInformers, this`trace, this`history, informers[kind]
      ensures trace.waiting == old(trace.waiting)
      ensures Linked() && Reached(history, trace) && old(history) < history
      ensures Progress(was, before, left - {kind})
    {
      Visit(kind);
      assert trace.lock.todo.Keys == left - {kind};
    }

    /** The body of Start's loop. */
    method Visit(kind: Kind)
      requires Linked() && Reached(history, trace) && Enabled(trace, StartOne(kind)) && kind in informers
      modifies this`wg, this`startedInformers, this`trace, this`history, informers[kind]
      ensures trace.waiting == old(trace.waiting)
      ensures Linked() && Reached(history, trace) && old(history) < history
      ensures trace.lock == Starting(old(trace.lock.todo) - {kind})
      ensures trace.started == old(trace.started) + {kind}
      ensures informers[kind].processor == LaunchIf(kind !in old(trace.started), old(informers[kind].processor))
      ensures forall other :: other in informers && other != kind ==>
                informers[other].processor == old(informers[other].processor)
    {
      forall other | other in informers && other != kind ensures informers[other] != informers[kind] {
        assert informers[other].kind == other;
      }
      ReachedExtends(history, trace, StartOne(kind));
      history := history + [StartOne(kind)];
      trace := Next(trace, StartOne(kind));
      if !(kind in startedInformers && startedInformers[kind]) {
        wg := wg + 1;
        informers[kind].RunWithContext();
        startedInformers := startedInformers[kind := true];
      }
    }

    /** Blocks while informers run; which of them ends next is not up to it. While it
        waits, without the lock, others may make any calls. */
    method Shutdown(others: seq<OtherCall>)
      requires Valid()
      modifies this, informers.Values
      ensures Valid() && shuttingDown && wg == 0 && !nameReserved
      ensures old(history) < history && After(INITIAL, history).returned > 0
    {
      MarkShutdown();
      InterfereWith(others, 1);
      while wg > 0
        invariant Valid() && shuttingDown && trace.waiting > 0 && old(history) < history
      {
        EndRun();
      }
      ReachedExtends(history, trace, EndShutdown);
      history := history + [EndShutdown];
      trace := Next(trace, EndShutdown);
      nameReserved := false;
    }

    /** The goroutine of one informer ends. */
    method EndRun()
      requires Valid() && wg > 0
      modifies this`history, this`trace, this`wg
      ensures Valid() && wg == old(wg) - 1
      ensures old(history) < history && trace.waiting == old(trace.waiting)
    {
      ghost var run := SomeUnfinished(history, trace);
      ReachedExtends(history, trace, Finish(run));
      history := history + [Finish(run)];
      trace := Next(trace, Finish(run));
      wg := wg - 1;
    }

    /** Any calls by others, of which `mine` waiting Shutdowns are not any. */
    method InterfereWith(others: seq<OtherCall>, ghost mine: nat)
      requires Valid() && trace.waiting >= mine
      modifies this, informers.Values
      ensures Valid() && trace.waiting >= mine && old(history) <= history
      ensures old(shuttingDown) ==> shuttingDown
      ensures forall kind :: kind in old(informers) ==> kind in informers && informers[kind] == old(informers[kind])
    {
      for i := 0 to |others|
        invariant Valid() && trace.waiting >= mine && old(history) <= history
        invariant old(shuttingDown) ==> shuttingDown
        invariant forall kind :: kind in old(informers) ==> kind in informers && informers[kind] == old(informers[kind])
        invariant forall kind :: kind in informers ==>
                    informers[kind] in old(informers.Values) || fresh(informers[kind])
      {
        match others[i]
        case Asks(kind) =>
          var informer := InformerFor(kind);
        case Starts =>
          StartWithContext();
        case BeginsShutdown =>
          MarkShutdown();
        case RunEnds =>
          if wg > 0 {
            EndRun();
          }
        case ReturnsFromShutdown =>
          LetReturn(mine);
      }
    }

    method MarkShutdown()
      requires Valid()
      modifies this`history, this`trace, this`shuttingDown
      ensures Valid() && shuttingDown
      ensures old(history) < history && trace.waiting == old(trace.waiting) + 1
    {
      ReachedExtends(history, trace, BeginShutdown);
      history := history + [BeginShutdown];
      trace := Next(trace, BeginShutdown);
      shuttingDown := true;
    }

    ghost method LetReturn(mine: nat)
      requires Valid() && trace.waiting >= mine
      modifies this`history, this`trace
      ensures Valid() && trace.waiting >= mine && old(history) <= history
    {
      if wg == 0 && trace.waiting > mine {
        ReachedExtends(history, trace, EndShutdown);
        history := history + [EndShutdown];
        trace := Next(trace, EndShutdown);
      }
    }

    function Started(): set<Kind>
      reads this
    {
      set kind | kind in informers && kind in startedInformers && startedInformers[kind]
    }

    method StartedInformers() returns (snapshot: map<Kind, SharedInformer>)
      ensures snapshot.Keys == Started()
      ensures forall kind :: kind in snapshot ==> snapshot[kind] == informers[kind]
    {
      snapshot := map[];
      var left := informers.Keys;
      while left != {}
        invariant left <= informers.Keys
        invariant snapshot.Keys == Started() - left
        invariant forall kind :: kind in snapshot ==> snapshot[kind] == informers[kind]
      {
        var kind :| kind in left;
        left := left - {kind};
        if kind in startedInformers && startedInformers[kind] {
          snapshot := snapshot[kind := informers[kind]];
        }
      }
    }

    /** Waiting ends at `now`, when all have synced or the context has ended. While it
        waits, without the lock, others may make any calls. */
    method WaitForCacheSyncWithContext(synced: Sensor, now: nat, cause: Option<string>, others: seq<OtherCall>)
      returns (res: SyncResult)
      requires Valid() && Monotone(synced)
      requires cause.Some? || forall kind :: kind in Started() ==> synced(kind, now)
      modifies this, informers.Values
      ensures Valid()
      ensures res.synced.Keys == old(Started())
      ensures forall kind :: kind in res.synced ==>
                Truthful(synced, kind, res.synced[kind], now, now + |old(Started())|)
      ensures res.err.Some? <==> exists kind :: kind in res.synced && !res.synced[kind]
      ensures res.err.Some? ==> res.err == cause
    {
      var snapshot := StartedInformers();
      InterfereWith(others, 0);
      res := Report(snapshot, synced, now, cause);
    }
  }

  /** What HasSynced of the informer of a kind answers at a time. */
  type Sensor = (Kind, nat) -> bool

  ghost predicate Monotone(synced: Sensor) {
    forall kind, t, u :: synced(kind, t) && t <= u ==> synced(kind, u)
  }

  /** True only if synced at the end, false only if not synced at the beginning. */
  predicate Truthful(synced: Sensor, kind: Kind, answer: bool, from: nat, until: nat) {
    if answer then synced(kind, until) else !synced(kind, from)
  }

  /** The answers of the informers in the snapshot, asked one after the other from
      `now` on. The error is set exactly when one of them is false, and then the
      context has ended. */
  method Report(informers: map<Kind, SharedInformer>, synced: Sensor, now: nat, cause: Option<string>)
    returns (res: SyncResult)
    requires Monotone(synced)
    requires cause.Some? || forall kind :: kind in informers ==> synced(kind, now)
    ensures res.synced.Keys == informers.Keys
    ensures forall kind :: kind in res.synced ==> Truthful(synced, kind, res.synced[kind], now, now + |informers|)
    ensures res.err.Some? <==> exists kind :: kind in res.synced && !res.synced[kind]
    ensures res.err.Some? ==> res.err == cause
  {
    var failed := false;
    ghost var culprit := "";
    var answers: map<Kind, bool> := map[];
    var left := informers.Keys;
    var t := now;
    while left != {}
      invariant left <= informers.Keys && answers.Keys == informers.Keys - left
      invariant now <= t && t + |left| == now + |informers|
      invariant forall kind :: kind in answers ==> Truthful(synced, kind, answers[kind], now, now + |informers|)
      invariant failed ==> culprit in answers && !answers[culprit]
      invariant !failed ==> forall kind :: kind in answers ==> answers[kind]
    {
      var kind :| kind in left;
      left := left - {kind};
      var hasSynced := synced(kind, t);
      if !hasSynced {
        failed := true;
        culprit := kind;
      }
      assert Truthful(synced, kind, hasSynced, now, now + |informers|);
      answers := answers[kind := hasSynced];
      t := t + 1;
    }
    assert failed ==> cause.Some?;
    res := SyncResult(answers, if failed then cause else None);
  }
}
