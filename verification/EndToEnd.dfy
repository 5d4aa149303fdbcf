/** The whole operator: when the recorded generation can be trusted although other
    writers interfere between any two steps of the controller, and that everything
    is as required once they have stopped. */
module EndToEnd {
  import opened Wrappers
  import opened LabelMerge
  import opened ObjectMeta
  import opened ResourceApply
  import opened Generations
  import opened Requests
  import opened Sync
  import opened Convergence
  import opened OperandResources
  import opened Controller
  import opened Quiescence

  /** The custom resource and the operand live in the operator's own namespace. */
  const NAMESPACE := "openshift-cli-manager-operator"
  const SPEC_HASH := "operator.openshift.io/spec-hash"

  function HashOf(meta: Meta): Option<string> {
    if SPEC_HASH in meta.annotations then Some(meta.annotations[SPEC_HASH]) else None
  }

  /** The Deployment as required for a custom resource. */
  function Wanted(operand: Operand, view: CrView): Option<Required> { operand.required(DEPLOYMENT, view) }

  /** The apply helper annotates what it requires with a hash of the spec, which tells
      specs apart. */
  ghost predicate HashesTell(operand: Operand) {
    && (forall v :: Wanted(operand, v).Some? ==>
          Wanted(operand, v).value.spec.Some? && SPEC_HASH in Wanted(operand, v).value.meta.annotations)
    && (forall v, w :: Wanted(operand, v).Some? && Wanted(operand, w).Some? ==>
          (Digest(operand, v) == Digest(operand, w) <==>
           Wanted(operand, v).value.spec == Wanted(operand, w).value.spec))
  }

  function Digest(operand: Operand, view: CrView): Option<string> {
    var wanted := Wanted(operand, view);
    if wanted.Some? && SPEC_HASH in wanted.value.meta.annotations then Some(wanted.value.meta.annotations[SPEC_HASH])
    else None
  }

  /** The stored spec is the server's normal form of what is wanted. */
  predicate SpecIsRight(operand: Operand, view: CrView, x: Object) {
    Wanted(operand, view).Some? && Wanted(operand, view).value.spec.Some?
    && x.spec == operand.rules(DEPLOYMENT).norm(Some(x.spec), Wanted(operand, view).value.spec.value)
  }

  /** The annotation speaks true: whatever spec it is the hash of is the stored one. */
  ghost predicate Vouched(operand: Operand, x: Object) {
    forall w :: Wanted(operand, w).Some? && HashOf(x.meta) == Digest(operand, w) ==> SpecIsRight(operand, w, x)
  }

  /** The generation on record, -1 for none. */
  function RecordOf(c: Cluster): int {
    if c.cr.Some? then Expected(c.cr.value.generations, DeploymentKey(NAMESPACE)) else -1
  }

  /** What a generation that somebody goes by must satisfy: if it is the Deployment's,
      the annotation can be believed. */
  ghost predicate Level(operand: Operand, generation: int, c: Cluster) {
    DEPLOYMENT in c.objects ==>
      var e := c.objects[DEPLOYMENT];
      e.generation >= 1 && (generation == e.generation ==> Vouched(operand, e.content))
  }

  /** The generation a sync under way goes by: the recorded one it has read, then the
      one it is about to record. */
  function Held(p: Phase): int {
    if !p.Managing? then -1
    else if p.step <= DEPLOYMENT then Expected(p.cr.generations, DeploymentKey(NAMESPACE))
    else p.generation
  }

  ghost predicate HoldsLevel(operand: Operand, c: Cluster, p: Phase) {
    Level(operand, Held(p), c) && (p.Managing? ==> p.cr.view.namespace == NAMESPACE)
  }

  ghost predicate Trusted(operand: Operand, s: State) {
    && (s.cluster.cr.Some? ==> s.cluster.cr.value.view.namespace == NAMESPACE)
    && Level(operand, RecordOf(s.cluster), s.cluster)
    && forall w :: 0 <= w < |s.workers| ==> HoldsLevel(operand, s.cluster, s.workers[w])
  }

  // ---- the operator keeps it ---------------------------------------------------

  lemma MergedHash(existing: Labels, required: Labels)
    requires SPEC_HASH in required
    ensures SPEC_HASH in Merged(existing, required) && Merged(existing, required)[SPEC_HASH] == required[SPEC_HASH]
    ensures SPEC_HASH in CleanKeys(required) && CleanKeys(required)[SPEC_HASH] == required[SPEC_HASH]
  {}

  /** Whatever the helper does, the annotation can be believed afterwards, provided it
      could before in case the generation is the expected one. */
  lemma DeploymentApplyVouches(operand: Operand, view: CrView, x: Option<Object>, stale: bool)
    requires WellFormed(operand) && HashesTell(operand) && Wanted(operand, view).Some?
    requires x.Some? && !stale ==> Vouched(operand, x.value)
    ensures Vouched(operand, ApplyOne(operand, DEPLOYMENT, view, x, stale))
  {}

  /** A write of the Deployment keeps every generation level, and the one it returns
      is level too. */
  lemma DeploymentStepKeepsLevel(operand: Operand, metaBumps: Bumps, c: Cluster, cr: Cr, reply: Reply,
                                 generation: int)
    requires WellFormed(operand) && HashesTell(operand) && cr.view.namespace == NAMESPACE
    requires Level(operand, Expected(cr.generations, DeploymentKey(NAMESPACE)), c) && Level(operand, generation, c)
    ensures var (c', ok) := ManageStep(EnvOf(operand, metaBumps), c, cr, DEPLOYMENT, reply);
            Level(operand, generation, c') && (ok ==> Level(operand, GenerationOf(c'), c'))
  {
    if Wanted(operand, cr.view).Some? {
      DeploymentApplyVouches(operand, cr.view, Stored(c, DEPLOYMENT), Stale(c, cr, DEPLOYMENT));
    }
  }

  lemma RequestKeepsLevel(operand: Operand, metaBumps: Bumps, c: Cluster, p: Phase, reply: Reply,
                          generation: int)
    requires WellFormed(operand) && HashesTell(operand) && (p.Taken? || p.Managing?)
    requires HoldsLevel(operand, c, p) && Level(operand, generation, c)
    requires c.cr.Some? ==> c.cr.value.view.namespace == NAMESPACE && Level(operand, RecordOf(c), c)
    ensures var (c', p') := Request(EnvOf(operand, metaBumps), c, p, reply);
            && (c'.cr.Some? ==> c'.cr.value.view.namespace == NAMESPACE)
            && Level(operand, generation, c') && HoldsLevel(operand, c', p')
  {
    if p.Managing? && p.step == DEPLOYMENT {
      DeploymentStepKeepsLevel(operand, metaBumps, c, p.cr, reply, generation);
    } else {
      OtherRequestsKeepDeployment(EnvOf(operand, metaBumps), c, p, reply);
    }
  }

  lemma OtherRequestsKeepDeployment(env: Env, c: Cluster, p: Phase, reply: Reply)
    requires p.Taken? || (p.Managing? && p.step != DEPLOYMENT)
    ensures var (c', p') := Request(env, c, p, reply);
            && SameEntry(c, c', DEPLOYMENT)
            && (c.cr.Some? <==> c'.cr.Some?) && (c.cr.Some? ==> c'.cr.value.view == c.cr.value.view)
            && (p'.Managing? ==> if p.Taken? then c'.cr == Some(p'.cr) && p'.step == 1
                                 else p'.cr == p.cr && Held(p') == Held(p))
            && (p'.Managing? || p'.Synced?)
  {}

  /** The record after a request is the one before or the one the sync held. */
  lemma RequestRecords(env: Env, c: Cluster, p: Phase, reply: Reply)
    requires p.Taken? || (p.Managing? && p.cr.view.namespace == NAMESPACE)
    ensures var c' := Request(env, c, p, reply).0;
            RecordOf(c') == RecordOf(c) || (p.Managing? && p.step > DEPLOYMENT && RecordOf(c') == Held(p))
  {
    if p.Managing? && p.step == STATUS_STEP && c.cr.Some? {
      RecordedReadsBack(c.cr.value.generations, GenerationStatus(DeploymentKey(NAMESPACE), p.generation, ""));
    }
  }

  /** A request keeps the record and what is held trustworthy, whatever becomes of it. */
  lemma SendKeepsTrust(operand: Operand, metaBumps: Bumps, s: State, w: nat, reply: Reply)
    requires WellFormed(operand) && HashesTell(operand) && Trusted(operand, s) && SingleFlight(s)
    requires Enabled(s, Send(w, reply))
    ensures Trusted(operand, Controller.Next(EnvOf(operand, metaBumps), s, Send(w, reply)))
  {
    var env, p := EnvOf(operand, metaBumps), s.workers[w];
    var s' := Controller.Next(env, s, Send(w, reply));
    BusyWorkerIsTheOnlyOne(s, w);
    RequestKeepsLevel(operand, metaBumps, s.cluster, p, reply, RecordOf(s.cluster));
    RequestKeepsLevel(operand, metaBumps, s.cluster, p, reply, Held(p));
    RequestKeepsLevel(operand, metaBumps, s.cluster, p, reply, -1);
    RequestRecords(env, s.cluster, p, reply);
    forall v | 0 <= v < |s'.workers| ensures HoldsLevel(operand, s'.cluster, s'.workers[v]) {
      assert v != w ==> s'.workers[v] == Idle;
    }
  }

  /** A trusted record does not vouch for a Deployment that has drifted. */
  lemma TrustedIsHonest(operand: Operand, metaBumps: Bumps, s: State)
    requires WellFormed(operand) && HashesTell(operand) && Trusted(operand, s) && s.cluster.cr.Some?
    ensures Honest(EnvOf(operand, metaBumps), s.cluster.cr.value, s.cluster)
  {
    var env, c := EnvOf(operand, metaBumps), s.cluster;
    var view := c.cr.value.view;
    if DEPLOYMENT in c.objects && !Stale(c, c.cr.value, DEPLOYMENT) && Wanted(operand, view).Some? {
      var x := c.objects[DEPLOYMENT].content;
      if Skips(env, view, x) {
        var required := Wanted(operand, view).value;
        assert MergedMeta(x.meta, required.meta) == x.meta;
        MergedHash(x.meta.annotations, required.meta.annotations);
        ConvergedIsAgreement(operand, metaBumps, view, c, DEPLOYMENT);
      }
    }
  }

  // ---- and so do others, if they are courteous -----------------------------------

  /** Somebody goes by this generation: it is on record or held by a sync. */
  ghost predicate GoesBy(s: State, c': Cluster, generation: int) {
    generation == RecordOf(c') || exists w :: 0 <= w < |s.workers| && generation == Held(s.workers[w])
  }

  /** Others do not record generations, though they may drop the record, and if they
      leave a Deployment with a generation that somebody goes by, then they have
      changed neither its spec nor, except for dropping it, the hash annotation. Since
      the API server raises the generation for a change of the spec, this is broken only
      by setting the hash without a new generation, or by a new incarnation that comes
      to have just such a generation. Deleting is always courteous. */
  ghost predicate Courteous(s: State, c': Cluster) {
    var c := s.cluster;
    && (c'.cr.Some? ==> c'.cr.value.view.namespace == NAMESPACE)
    && (RecordOf(c') == RecordOf(c) || RecordOf(c') < 1)
    && (DEPLOYMENT in c'.objects ==>
          var e' := c'.objects[DEPLOYMENT];
          && e'.generation >= 1
          && (GoesBy(s, c', e'.generation) ==> DEPLOYMENT in c.objects && IsTouchedUp(c.objects[DEPLOYMENT], e')))
  }

  predicate IsTouchedUp(e: Entry, e': Entry) {
    && e'.generation == e.generation && e'.content.spec == e.content.spec
    && (HashOf(e'.content.meta) == HashOf(e.content.meta) || HashOf(e'.content.meta).None?)
  }

  lemma DeletionIsCourteous(s: State)
    requires s.cluster.cr.Some? ==> s.cluster.cr.value.view.namespace == NAMESPACE
    ensures Courteous(s, s.cluster.(objects := s.cluster.objects - {DEPLOYMENT}))
  {}

  lemma OthersKeepLevel(operand: Operand, s: State, c': Cluster, generation: int)
    requires HashesTell(operand) && Courteous(s, c') && GoesBy(s, c', generation)
    requires generation >= 1 ==> Level(operand, generation, s.cluster)
    ensures Level(operand, generation, c')
  {}

  lemma OthersKeepTrust(operand: Operand, s: State, c': Cluster)
    requires HashesTell(operand) && Trusted(operand, s) && Courteous(s, c')
    ensures Trusted(operand, s.(cluster := c'))
  {
    OthersKeepLevel(operand, s, c', RecordOf(c'));
    forall w | 0 <= w < |s.workers| ensures HoldsLevel(operand, c', s.workers[w]) {
      OthersKeepLevel(operand, s, c', Held(s.workers[w]));
    }
  }

  ghost predicate AllCourteous(env: Env, s: State, run: seq<Action>)
    requires Executes(env, s, run)
    decreases |run|
  {
    run == [] || ((run[0].External? ==> Courteous(s, run[0].cluster))
                  && AllCourteous(env, Controller.Next(env, s, run[0]), run[1..]))
  }

  lemma StepKeepsTrust(operand: Operand, metaBumps: Bumps, s: State, a: Action)
    requires WellFormed(operand) && HashesTell(operand) && Trusted(operand, s) && SingleFlight(s)
    requires Enabled(s, a) && (a.External? ==> Courteous(s, a.cluster))
    ensures Trusted(operand, Controller.Next(EnvOf(operand, metaBumps), s, a))
  {
    if a.Send? {
      SendKeepsTrust(operand, metaBumps, s, a.w, a.reply);
    } else if a.External? {
      OthersKeepTrust(operand, s, a.cluster);
    } else {
      NothingHeldIsLevel(operand, s);
    }
  }

  lemma NothingHeldIsLevel(operand: Operand, s: State)
    requires Trusted(operand, s)
    ensures Level(operand, -1, s.cluster)
  {}

  /** With other writers acting between any two requests, as long as they are courteous. */
  lemma {:induction false} TrustHoldsThroughout(operand: Operand, metaBumps: Bumps, s: State, run: seq<Action>)
    requires WellFormed(operand) && HashesTell(operand) && Trusted(operand, s) && Inv(s)
    requires Executes(EnvOf(operand, metaBumps), s, run) && AllCourteous(EnvOf(operand, metaBumps), s, run)
    ensures Trusted(operand, After(EnvOf(operand, metaBumps), s, run))
    decreases |run|
  {
    if run != [] {
      StepKeepsTrust(operand, metaBumps, s, run[0]);
      Controller.StepKeepsInv(EnvOf(operand, metaBumps), s, run[0]);
      TrustHoldsThroughout(operand, metaBumps, Controller.Next(EnvOf(operand, metaBumps), s, run[0]), run[1..]);
    }
  }

  /** With nothing on record, as when the operator is first installed, or without a
      Deployment, any cluster will do to start from. */
  lemma NoRecordIsTrusted(operand: Operand, s: State)
    requires Initial(s) && (RecordOf(s.cluster) < 1 || DEPLOYMENT !in s.cluster.objects)
    requires s.cluster.cr.Some? ==> s.cluster.cr.value.view.namespace == NAMESPACE
    requires DEPLOYMENT in s.cluster.objects ==> s.cluster.objects[DEPLOYMENT].generation >= 1
    ensures Trusted(operand, s)
  {}

  /** A restart loses the queue and the syncs under way, but not the trust. */
  lemma RestartIsTrusted(operand: Operand, s: State, restarted: State)
    requires Trusted(operand, s) && Initial(restarted) && restarted.cluster == s.cluster
    ensures Trusted(operand, restarted)
  {}

  // ---- once the others have stopped ---------------------------------------------------

  lemma StepKeepsView(env: Env, s: State, a: Action)
    requires Enabled(s, a) && Internal(a) && s.cluster.cr.Some?
    ensures var c := Controller.Next(env, s, a).cluster; c.cr.Some? && c.cr.value.view == s.cluster.cr.value.view
  {
    if a.Send? && s.workers[a.w].Managing? && s.workers[a.w].step < STATUS_STEP {
      assert Request(env, s.cluster, s.workers[a.w], a.reply).0.cr == s.cluster.cr;
    }
  }

  /** Without other writers the operator stays ready, syncs by outdated custom
      resources included. */
  lemma {:induction false} TrustedStaysReady(operand: Operand, metaBumps: Bumps, s: State, run: seq<Action>)
    requires WellFormed(operand) && HashesTell(operand) && Trusted(operand, s) && Inv(s)
    requires s.cluster.cr.Some? && Renders(EnvOf(operand, metaBumps), s.cluster.cr.value.view)
    requires Executes(EnvOf(operand, metaBumps), s, run) && AllInternal(run)
    ensures ReadyThroughout(EnvOf(operand, metaBumps), s, run)
    ensures var c := After(EnvOf(operand, metaBumps), s, run).cluster;
            c.cr.Some? && c.cr.value.view == s.cluster.cr.value.view
    decreases |run|
  {
    TrustedIsHonest(operand, metaBumps, s);
    if run != [] {
      var env, a := EnvOf(operand, metaBumps), run[0];
      assert Internal(a);
      StepKeepsTrust(operand, metaBumps, s, a);
      StepKeepsView(env, s, a);
      Controller.StepKeepsInv(env, s, a);
      TrustedStaysReady(operand, metaBumps, Controller.Next(env, s, a), run[1..]);
    }
  }

  /** Every object is what its asset asks for and the generation is on record. */
  ghost predicate AsRequired(operand: Operand, c: Cluster) {
    && RecordIsRight(c)
    && forall r: Resource ::
         operand.required(r, c.cr.value.view).Some? && r in c.objects
         && Agrees(operand.rules(r), operand.required(r, c.cr.value.view).value, c.objects[r].content, r == DEPLOYMENT)
  }

  lemma StableIsAsRequired(operand: Operand, metaBumps: Bumps, c: Cluster)
    requires WellFormed(operand) && Stable(EnvOf(operand, metaBumps), c)
    requires Renders(EnvOf(operand, metaBumps), c.cr.value.view)
    ensures AsRequired(operand, c)
  {
    var env, view := EnvOf(operand, metaBumps), c.cr.value.view;
    forall r: Resource
      ensures operand.required(r, view).Some? && r in c.objects
      ensures Agrees(operand.rules(r), operand.required(r, view).value, c.objects[r].content, r == DEPLOYMENT)
    {
      assert env.renders(r, view) && Converged(env, view, c, r);
      ConvergedIsAgreement(operand, metaBumps, view, c, r);
    }
  }

  /** The end-to-end result. Start the operator, for the first time or again, over any
      cluster whose record can be trusted; let workers, retries, failures and
      courteous writers interleave request by request in any way, the log level
      changing, objects vanishing, the custom resource coming and going. Then let the
      writers stop, with a sync still to come, and let at most `budget` more syncs
      fail: the rest of the run is bounded, and once nothing can happen any more every
      object is as required. */
  lemma {:induction false} ConvergesAfterInterference(operand: Operand, metaBumps: Bumps, s: State, run: seq<Action>,
                                                      rest: seq<Action>, budget: nat)
    requires WellFormed(operand) && HashesTell(operand)
    requires Initial(s) && s.workers != [] && Trusted(operand, s)
    requires var env := EnvOf(operand, metaBumps);
             Executes(env, s, run) && AllCourteous(env, s, run)
    requires var t := After(EnvOf(operand, metaBumps), s, run);
             && !t.q.shuttingDown && Pending(EnvOf(operand, metaBumps), t)
             && t.cluster.cr.Some? && Renders(EnvOf(operand, metaBumps), t.cluster.cr.value.view)
             && Executes(EnvOf(operand, metaBumps), t, rest) && AllInternal(rest)
             && FailedSyncs(EnvOf(operand, metaBumps), t, rest) <= budget
    ensures var env := EnvOf(operand, metaBumps);
            var t := After(env, s, run);
            && |rest| <= Measure(env, t, budget)
            && (AtRest(After(env, t, rest)) ==> AsRequired(operand, After(env, t, rest).cluster))
            && var c := After(env, t, rest).cluster;
               c.cr.Some? && c.cr.value.view == t.cluster.cr.value.view
               && c.cr.value.view.namespace == "openshift-cli-manager-operator"
  {
    var env := EnvOf(operand, metaBumps);
    var t := After(env, s, run);
    HelpersMeetContract(operand, metaBumps);
    Controller.InvHoldsThroughout(env, s, run);
    TrustHoldsThroughout(operand, metaBumps, s, run);
    WorkersStay(env, s, run);
    TrustedStaysReady(operand, metaBumps, t, rest);
    ChatterEndsConverged(env, t, rest, budget);
    if AtRest(After(env, t, rest)) {
      StableIsAsRequired(operand, metaBumps, After(env, t, rest).cluster);
    }
  }
}
