/** The shared informer factory as a state machine over its critical sections, with
    goroutines that end whenever they like. */
module InformerFactory {

  /** The type an informer is for. */
  type Kind = string

  /** Who holds the factory's lock: nobody between critical sections, or a Start that
      still has some kinds to visit. The other critical sections are one step. */
  datatype Lock = Free | Starting(todo: map<Kind, nat>)

  /** Informers are numbered as they are constructed; the four histories at the end
      are what the properties are about. `sealed` is the number of runs begun when
      the first Shutdown set its flag. */
  datatype Factory = Factory(
    informers: map<Kind, nat>,
    started: set<Kind>,
    shuttingDown: bool,
    wg: nat,
    lock: Lock,
    constructed: seq<Kind>,
    runs: seq<nat>,
    finished: set<nat>,
    answers: seq<(Kind, nat)>,
    waiting: nat,
    returned: nat,
    sealed: nat)

  const INITIAL := Factory(map[], {}, false, 0, Free, [], [], {}, [], 0, 0, 0)

  datatype Action =
    | Request(kind: Kind)
    | BeginStart
    | StartOne(kind: Kind)
    | EndStart
    | Finish(run: nat)
    | BeginShutdown
    | EndShutdown

  predicate Enabled(s: Factory, a: Action) {
    match a
    case Request(_) => s.lock.Free?
    case BeginStart => s.lock.Free?
    case StartOne(kind) => s.lock.Starting? && kind in s.lock.todo
    case EndStart => s.lock == Starting(map[])
    case Finish(run) => run < |s.runs| && run !in s.finished
    case BeginShutdown => s.lock.Free?
    case EndShutdown => s.waiting > 0 && s.wg == 0
  }

  function Next(s: Factory, a: Action): Factory
    requires Enabled(s, a)
  {
    match a
    case Request(kind) =>
      if kind in s.informers then s.(answers := s.answers + [(kind, s.informers[kind])])
      else
        var id := |s.constructed|;
        s.(informers := s.informers[kind := id], constructed := s.constructed + [kind],
           answers := s.answers + [(kind, id)])
    case BeginStart =>
      if s.shuttingDown then s else s.(lock := Starting(s.informers))
    case StartOne(kind) =>
      var t := s.(lock := Starting(s.lock.todo - {kind}));
      if kind in s.started then t
      else
        t.(wg := s.wg + 1, started := s.started + {kind}, runs := s.runs + [s.lock.todo[kind]])
    case EndStart => s.(lock := Free)
    case Finish(run) => s.(finished := s.finished + {run}, wg := if s.wg > 0 then s.wg - 1 else 0)
    case BeginShutdown =>
      s.(shuttingDown := true, waiting := s.waiting + 1, sealed := if s.shuttingDown then s.sealed else |s.runs|)
    case EndShutdown => s.(waiting := s.waiting - 1, returned := s.returned + 1)
  }

  predicate Executes(s: Factory, run: seq<Action>)
    decreases |run|
  {
    run == [] || (Enabled(s, run[0]) && Executes(Next(s, run[0]), run[1..]))
  }

  function After(s: Factory, run: seq<Action>): Factory
    requires Executes(s, run)
    decreases |run|
  {
    if run == [] then s else After(Next(s, run[0]), run[1..])
  }

  // ---- the invariant ---------------------------------------------------------------

  /** The registry is the history of constructions, one per kind, and every answer
      was the registered informer. */
  ghost predicate RegistryInv(s: Factory) {
    && (forall i :: 0 <= i < |s.constructed| ==>
          s.constructed[i] in s.informers && s.informers[s.constructed[i]] == i)
    && (forall kind :: kind in s.informers ==>
          s.informers[kind] < |s.constructed| && s.constructed[s.informers[kind]] == kind)
    && (forall i :: 0 <= i < |s.answers| ==>
          s.answers[i].0 in s.informers && s.informers[s.answers[i].0] == s.answers[i].1)
  }

  /** The runs are those of the started kinds, one each. */
  ghost predicate RunsInv(s: Factory) {
    && s.started <= s.informers.Keys
    && (forall j :: 0 <= j < |s.runs| ==> s.runs[j] < |s.constructed| && s.constructed[s.runs[j]] in s.started)
    && (forall i, j :: 0 <= i < j < |s.runs| ==> s.runs[i] != s.runs[j])
    && (forall kind :: kind in s.started ==> HasRun(s, kind))
  }

  ghost predicate HasRun(s: Factory, kind: Kind) {
    kind in s.informers && exists j :: 0 <= j < |s.runs| && s.runs[j] == s.informers[kind]
  }

  /** The counter is the number of runs that have not finished. */
  ghost predicate CountInv(s: Factory) {
    && (forall run :: run in s.finished ==> run < |s.runs|)
    && s.wg + |s.finished| == |s.runs|
  }

  ghost predicate LockInv(s: Factory) {
    s.lock.Starting? ==>
      && !s.shuttingDown
      && (forall kind :: kind in s.lock.todo ==> kind in s.informers && s.lock.todo[kind] == s.informers[kind])
      && (forall kind :: kind in s.informers ==> kind in s.lock.todo || kind in s.started)
  }

  ghost predicate ShutdownInv(s: Factory) {
    && (s.waiting + s.returned > 0 <==> s.shuttingDown)
    && (s.shuttingDown ==> |s.runs| == s.sealed)
    && (s.returned > 0 ==> s.wg == 0)
  }

  ghost predicate Inv(s: Factory) {
    RegistryInv(s) && RunsInv(s) && CountInv(s) && LockInv(s) && ShutdownInv(s)
  }

  lemma RequestKeepsInv(s: Factory, kind: Kind)
    requires Inv(s) && s.lock.Free?
    ensures Inv(Next(s, Request(kind)))
  {
    var t := Next(s, Request(kind));
    if kind !in s.informers {
      assert t.constructed[|s.constructed|] == kind;
      assert forall i :: 0 <= i < |s.constructed| ==> t.constructed[i] == s.constructed[i];
    }
  }

  lemma StartOneKeepsRuns(s: Factory, kind: Kind)
    requires RegistryInv(s) && RunsInv(s) && LockInv(s) && Enabled(s, StartOne(kind)) && kind !in s.started
    ensures RunsInv(Next(s, StartOne(kind)))
  {
    var t := Next(s, StartOne(kind));
    assert t.runs[|s.runs|] == s.informers[kind];
    assert HasRun(t, kind);
    forall j | 0 <= j < |s.runs| ensures t.runs[j] == s.runs[j] && s.runs[j] != s.informers[kind] {}
    forall k | k in s.started ensures HasRun(t, k) {
      assert HasRun(s, k);
      var j :| 0 <= j < |s.runs| && s.runs[j] == s.informers[k];
      assert t.runs[j] == t.informers[k];
    }
  }

  lemma StartOneKeepsInv(s: Factory, kind: Kind)
    requires Inv(s) && Enabled(s, StartOne(kind))
    ensures Inv(Next(s, StartOne(kind)))
  {
    if kind !in s.started {
      StartOneKeepsRuns(s, kind);
    }
  }

  /** The finished runs are among the first |runs| numbers. */
  lemma {:induction false} Crowded(finished: set<nat>, n: nat)
    requires forall run :: run in finished ==> run < n
    ensures |finished| <= n
    ensures |finished| == n ==> forall run | 0 <= run < n :: run in finished
    decreases n
  {
    if n > 0 {
      var rest := finished - {n - 1};
      Crowded(rest, n - 1);
      forall run | 0 <= run < n - 1 && run in rest ensures run in finished {}
      assert n - 1 in finished ==> |finished| == |rest| + 1;
      assert n - 1 !in finished ==> finished == rest;
    } else {
      assert forall run :: run !in finished;
    }
  }

  lemma FinishKeepsInv(s: Factory, run: nat)
    requires Inv(s) && Enabled(s, Finish(run))
    ensures s.wg > 0 && Inv(Next(s, Finish(run)))
  {
    Crowded(s.finished, |s.runs|);
  }

  lemma StepKeepsInv(s: Factory, a: Action)
    requires Inv(s) && Enabled(s, a)
    ensures Inv(Next(s, a))
  {
    match a
    case Request(kind) => RequestKeepsInv(s, kind);
    case StartOne(kind) => StartOneKeepsInv(s, kind);
    case Finish(run) => FinishKeepsInv(s, run);
    case BeginStart =>
    case EndStart =>
    case BeginShutdown =>
    case EndShutdown =>
  }

  lemma {:induction false} InvHoldsThroughout(s: Factory, run: seq<Action>)
    requires Inv(s) && Executes(s, run)
    ensures Inv(After(s, run))
    decreases |run|
  {
    if run != [] {
      StepKeepsInv(s, run[0]);
      InvHoldsThroughout(Next(s, run[0]), run[1..]);
    }
  }

  // ---- the properties ---------------------------------------------------------------

  /** In whatever order the critical sections of any number of callers interleave:
      no kind is constructed twice, no informer is run twice, only registered kinds
      are started, and all requests for a kind were given the same informer. */
  lemma OneInformerPerKind(run: seq<Action>)
    requires Executes(INITIAL, run)
    ensures var s := After(INITIAL, run);
            && (forall i, j :: 0 <= i < j < |s.constructed| ==> s.constructed[i] != s.constructed[j])
            && (forall i, j :: 0 <= i < j < |s.runs| ==> s.runs[i] != s.runs[j])
            && s.started <= s.informers.Keys
            && (forall i, j :: 0 <= i < |s.answers| && 0 <= j < |s.answers| && s.answers[i].0 == s.answers[j].0 ==>
                  s.answers[i].1 == s.answers[j].1)
  {
    InvHoldsThroughout(INITIAL, run);
  }

  /** After the flag is set no run begins, however many requests and starts follow,
      and the counter never rises. */
  lemma {:induction false} NoRunAfterShutdown(s: Factory, run: seq<Action>)
    requires Inv(s) && s.shuttingDown && Executes(s, run)
    ensures var t := After(s, run);
            t.shuttingDown && t.runs == s.runs && t.started == s.started && t.wg <= s.wg && s.finished <= t.finished
    decreases |run|
  {
    if run != [] {
      StepKeepsInv(s, run[0]);
      NoRunAfterShutdown(Next(s, run[0]), run[1..]);
    }
  }

  /** Once a Shutdown has returned every informer that was ever started has finished,
      and that stays so. */
  lemma ReturnedShutdownIsFinal(run: seq<Action>, more: seq<Action>)
    requires Executes(INITIAL, run) && After(INITIAL, run).returned > 0
    requires Executes(After(INITIAL, run), more)
    ensures var s, t := After(INITIAL, run), After(After(INITIAL, run), more);
            && t.runs == s.runs && t.wg == 0
            && (forall j :: 0 <= j < |t.runs| ==> j in t.finished)
            && (forall kind :: kind in t.started ==>
                  kind in t.informers
                  && exists j :: 0 <= j < |t.runs| && t.runs[j] == t.informers[kind] && j in t.finished)
  {
    var s := After(INITIAL, run);
    InvHoldsThroughout(INITIAL, run);
    NoRunAfterShutdown(s, more);
    InvHoldsThroughout(s, more);
    var t := After(s, more);
    Crowded(t.finished, |t.runs|);
    forall kind | kind in t.started
      ensures kind in t.informers
      ensures exists j :: 0 <= j < |t.runs| && t.runs[j] == t.informers[kind] && j in t.finished
    {
      assert HasRun(t, kind);
      var j :| 0 <= j < |t.runs| && t.runs[j] == t.informers[kind];
    }
  }

  /** The counter is never raised while a Shutdown is waiting on it, which is what a
      wait group demands of its users. */
  lemma NoAddDuringWait(run: seq<Action>, a: Action)
    requires Executes(INITIAL, run) && Enabled(After(INITIAL, run), a)
    ensures var s := After(INITIAL, run);
            Next(s, a).wg > s.wg ==> s.waiting == 0 && !s.shuttingDown
  {
    InvHoldsThroughout(INITIAL, run);
  }

  /** A Shutdown can return exactly when every run has finished: it neither returns
      early nor waits for anything else. */
  lemma ShutdownReturnsIff(run: seq<Action>)
    requires Executes(INITIAL, run) && After(INITIAL, run).waiting > 0
    ensures var s := After(INITIAL, run);
            Enabled(s, EndShutdown) <==> forall j :: 0 <= j < |s.runs| ==> j in s.finished
  {
    var s := After(INITIAL, run);
    InvHoldsThroughout(INITIAL, run);
    Crowded(s.finished, |s.runs|);
    if forall j :: 0 <= j < |s.runs| ==> j in s.finished {
      AllOf(s.finished, |s.runs|);
    }
  }

  lemma {:induction false} AllOf(finished: set<nat>, n: nat)
    requires forall j :: 0 <= j < n ==> j in finished
    ensures |finished| >= n
    decreases n
  {
    if n > 0 {
      AllOf(finished - {n - 1}, n - 1);
    }
  }

  /** A Start that ends has started every kind registered by then. */
  lemma StartCoversTheRegistry(run: seq<Action>)
    requires Executes(INITIAL, run) && Enabled(After(INITIAL, run), EndStart)
    ensures After(INITIAL, run).started == After(INITIAL, run).informers.Keys
  {
    InvHoldsThroughout(INITIAL, run);
  }
}
