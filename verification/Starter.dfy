/** RunOperator: what is requested, attached and started, and in which order. */
module Starter {
  import opened Wrappers
  import opened InformerFactory
  import opened SharedInformers
  import opened Controller

  const CLI_MANAGER: Kind := "CliManager"
  const NETWORK_POLICY: Kind := "NetworkPolicy"
  /** In seconds. */
  const RESYNC_PERIOD := 600

  const RECONCILER := "TargetConfigReconciler"
  const RECONCILE := Handler(RECONCILER, KEY)
  const LOGGING := Handler("LoggingSyncer", KEY)

  datatype Wiring = Wiring(config: SharedInformerFactory, kube: SharedInformerFactory, clientInformer: SharedInformer)

  /** The handlers of the reconciler: one on each of the two watches. */
  method NewTargetConfigReconciler(config: SharedInformerFactory, kube: SharedInformerFactory)
    requires config.Valid() && kube.Valid() && config != kube
    requires config.informers.Keys == {CLI_MANAGER} && kube.informers == map[]
    modifies config, kube, config.informers.Values
    ensures config.Valid() && kube.Valid() && config.informers == old(config.informers)
    ensures config.shuttingDown == old(config.shuttingDown) && kube.shuttingDown == old(kube.shuttingDown)
    ensures config.Started() == old(config.Started()) && kube.Started() == old(kube.Started())
    ensures config.history == old(config.history) + [Request(CLI_MANAGER)]
    ensures kube.history == old(kube.history) + [Request(NETWORK_POLICY)]
    ensures var i := config.informers[CLI_MANAGER];
            i.processor == old(i.processor).(listeners := old(i.processor).listeners + [RECONCILE])
    ensures kube.informers.Keys == {NETWORK_POLICY} && fresh(kube.informers[NETWORK_POLICY])
    ensures kube.informers[NETWORK_POLICY].processor == Processor([RECONCILE], false, [])
    ensures kube.customResync == map[] ==> kube.informers[NETWORK_POLICY].resyncPeriod == kube.defaultResync
  {
    var informer := config.InformerFor(CLI_MANAGER);
    informer.AddEventHandler(RECONCILE);
    var policies := kube.InformerFor(NETWORK_POLICY);
    policies.AddEventHandler(RECONCILE);
  }

  /** Everything up to the start. */
  method Prepare() returns (w: Wiring)
    ensures fresh(w.config) && fresh(w.kube) && w.config != w.kube && w.config.Valid() && w.kube.Valid()
    ensures !w.config.shuttingDown && !w.kube.shuttingDown && w.config.Started() == w.kube.Started() == {}
    ensures w.config.informers == map[CLI_MANAGER := w.clientInformer] && fresh(w.clientInformer)
    ensures w.clientInformer.processor == Processor([RECONCILE, LOGGING], false, [])
    ensures w.kube.informers.Keys == {NETWORK_POLICY} && fresh(w.kube.informers[NETWORK_POLICY])
    ensures w.kube.informers[NETWORK_POLICY].processor == Processor([RECONCILE], false, [])
    ensures w.clientInformer.resyncPeriod == w.kube.informers[NETWORK_POLICY].resyncPeriod == 10 * 60
  {
    var kube := new SharedInformerFactory(RESYNC_PERIOD, map[], None, false);
    var config := new SharedInformerFactory(RESYNC_PERIOD, map[], None, false);
    var clientInformer := config.InformerFor(CLI_MANAGER);
    NewTargetConfigReconciler(config, kube);
    clientInformer.AddEventHandler(LOGGING);
    w := Wiring(config, kube, clientInformer);
  }

  /** Each of the two informers is one instance, however often it was asked for, and
      serves its handlers, those of the reconciler among them, from the first event. */
  method RunOperator() returns (w: Wiring)
    ensures w.config.Valid() && w.kube.Valid()
    ensures w.config.informers == map[CLI_MANAGER := w.clientInformer]
    ensures w.clientInformer.processor == Processor([RECONCILE, LOGGING], true, [RECONCILE, LOGGING])
    ensures w.kube.informers.Keys == {NETWORK_POLICY}
    ensures w.kube.informers[NETWORK_POLICY].processor == Processor([RECONCILE], true, [RECONCILE])
    ensures w.clientInformer.resyncPeriod == w.kube.informers[NETWORK_POLICY].resyncPeriod == 10 * 60
  {
    w := Prepare();
    assert w.kube.informers[NETWORK_POLICY].kind == NETWORK_POLICY;
    assert w.config.informers[CLI_MANAGER].kind == CLI_MANAGER;
    w.config.StartWithContext();
    assert w.config.informers[CLI_MANAGER] == w.clientInformer;
    assert w.kube.informers[NETWORK_POLICY].processor == Processor([RECONCILE], false, []);
    w.kube.StartWithContext();
  }

  /** What one event does to a queue: every listener of that queue adds its key. */
  function Delivered(q: WQ.Queue, name: string, listeners: seq<Handler>): WQ.Queue
    decreases |listeners|
  {
    if listeners == [] then q
    else Delivered(if listeners[0].queue == name then WQ.Add(q, listeners[0].key) else q, name, listeners[1..])
  }

  /** With the handlers in place an event of either watch does to the reconciler's
      queue what the controller's Deliver step does, however many of them there are
      and whatever other controllers listen. */
  lemma {:induction false} EventsReachTheQueue(q: WQ.Queue, listeners: seq<Handler>)
    requires RECONCILE in listeners
    requires forall h <- listeners :: h.queue == RECONCILER ==> h.key == KEY
    ensures Delivered(q, RECONCILER, listeners) == WQ.Add(q, KEY)
    decreases |listeners|
  {
    var rest := listeners[1..];
    var next := if listeners[0].queue == RECONCILER then WQ.Add(q, KEY) else q;
    if RECONCILE in rest {
      EventsReachTheQueue(next, rest);
    } else {
      OthersAddNothing(next, rest);
    }
  }

  lemma {:induction false} OthersAddNothing(q: WQ.Queue, listeners: seq<Handler>)
    requires forall h <- listeners :: h.queue != RECONCILER
    ensures Delivered(q, RECONCILER, listeners) == q
    decreases |listeners|
  {
    if listeners != [] {
      OthersAddNothing(q, listeners[1..]);
    }
  }

  /** In particular for the listeners RunOperator leaves behind. */
  lemma WiredEventsReachTheQueue(q: WQ.Queue)
    ensures Delivered(q, RECONCILER, [RECONCILE, LOGGING]) == WQ.Add(q, KEY)
    ensures Delivered(q, RECONCILER, [RECONCILE]) == WQ.Add(q, KEY)
  {
    EventsReachTheQueue(q, [RECONCILE, LOGGING]);
    EventsReachTheQueue(q, [RECONCILE]);
  }
}
