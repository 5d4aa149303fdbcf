/** The generation protocol is what the reconcile pass does to the Deployment: its
    manage call is an Apply, its status write a Record. */
module GenerationRefinement {
  import opened Wrappers
  import opened Requests
  import opened ObjectMeta
  import opened ResourceApply
  import opened Generations
  import opened Sync
  import opened OperandResources
  import opened EndToEnd
  import Protocol = GenerationProtocol

  function NormOf(operand: Operand): Protocol.Norm { operand.rules(DEPLOYMENT).norm }

  function SpecFor(operand: Operand, view: CrView): Option<Spec> {
    if Wanted(operand, view).Some? then Wanted(operand, view).value.spec else None
  }

  /** The annotation is the hash of the protocol's `hash`. */
  ghost predicate ShowsHash(operand: Operand, meta: Meta, hash: Option<Spec>) {
    forall w :: SpecFor(operand, w).Some? ==> (HashOf(meta) == Digest(operand, w) <==> hash == SpecFor(operand, w))
  }

  /** The protocol's Deployment is the stored one. */
  ghost predicate Shows(operand: Operand, c: Cluster, d: Option<Protocol.Deployment>) {
    && (DEPLOYMENT in c.objects <==> d.Some?)
    && (d.Some? ==>
          var e := c.objects[DEPLOYMENT];
          && e.generation == d.value.generation && e.content.spec == d.value.spec
          && ShowsHash(operand, e.content.meta, d.value.hash))
  }

  /** What the apply finds besides the hash. */
  predicate OtherMeta(operand: Operand, c: Cluster, view: CrView) {
    DEPLOYMENT in c.objects && Wanted(operand, view).Some?
    && var meta := c.objects[DEPLOYMENT].content.meta;
       MergedMeta(meta, Wanted(operand, view).value.meta) != meta
  }

  /** The Apply that a manage call of the Deployment is: a barred one is refused. */
  function ApplyOf(operand: Operand, metaBumps: Bumps, c: Cluster, cr: Cr, reply: Reply)
    : Protocol.Action
  {
    var env := EnvOf(operand, metaBumps);
    Protocol.Apply(OtherMeta(operand, c, cr.view),
                   DEPLOYMENT in c.objects
                   && metaBumps(c.objects[DEPLOYMENT].content, TargetOf(env, c, cr, DEPLOYMENT)),
                   if Admitted(env, c, cr, DEPLOYMENT) then reply else Refused)
  }

  /** The helper's result, in the protocol's terms. */
  lemma TargetsAgree(operand: Operand, metaBumps: Bumps, c: Cluster, cr: Cr, reply: Reply,
                     s: Protocol.State)
    requires WellFormed(operand) && HashesTell(operand) && Wanted(operand, cr.view).Some?
    requires Shows(operand, c, s.deployment) && s.pc.Started?
    requires Some(s.pc.want) == SpecFor(operand, cr.view)
    requires s.pc.expected.generation == Expected(cr.generations, DeploymentKey(cr.view.namespace))
    ensures var a := ApplyOf(operand, metaBumps, c, cr, reply);
            var target := TargetOf(EnvOf(operand, metaBumps), c, cr, DEPLOYMENT);
            var d := Protocol.Target(NormOf(operand), s, a.otherMeta, a.metaBumps);
            target.spec == d.spec && ShowsHash(operand, target.meta, d.hash)
  {
    var required := Wanted(operand, cr.view).value;
    assert required.spec == Some(s.pc.want);
    var existing := if DEPLOYMENT in c.objects then c.objects[DEPLOYMENT].content.meta.annotations else map[];
    MergedHash(existing, required.meta.annotations);
    if DEPLOYMENT in c.objects && MergedMeta(c.objects[DEPLOYMENT].content.meta, required.meta)
                                    == c.objects[DEPLOYMENT].content.meta {
      assert HashOf(c.objects[DEPLOYMENT].content.meta) == Digest(operand, cr.view);
    }
  }

  /** A manage call of the Deployment is an Apply of the protocol. */
  lemma ManageStepIsApply(operand: Operand, metaBumps: Bumps, c: Cluster, cr: Cr, reply: Reply,
                          s: Protocol.State)
    requires WellFormed(operand) && HashesTell(operand) && Wanted(operand, cr.view).Some?
    requires Shows(operand, c, s.deployment) && s.pc.Started?
    requires Some(s.pc.want) == SpecFor(operand, cr.view)
    requires s.pc.expected.generation == Expected(cr.generations, DeploymentKey(cr.view.namespace))
    ensures var (c', ok) := ManageStep(EnvOf(operand, metaBumps), c, cr, DEPLOYMENT, reply);
            var t := Protocol.Next(NormOf(operand), s, ApplyOf(operand, metaBumps, c, cr, reply));
            && Shows(operand, c', t.deployment)
            && (ok <==> t.pc.Applied?) && (ok ==> t.pc.seen.generation == GenerationOf(c'))
            && t.recorded == s.recorded
  {
    TargetsAgree(operand, metaBumps, c, cr, reply, s);
  }

  /** A status write is a Record. */
  lemma StatusStepIsRecord(c: Cluster, view: CrView, reply: Reply, norm: Protocol.Norm, s: Protocol.State)
    requires c.cr.Some? && view.namespace == NAMESPACE
    requires s.pc.Applied? && s.recorded.generation == RecordOf(c)
    ensures var c' := StatusStep(c, view, s.pc.seen.generation, reply).0;
            var t := Protocol.Next(norm, s, Protocol.Record(reply));
            t.recorded.generation == RecordOf(c') && c'.objects == c.objects
  {
    RecordedReadsBack(c.cr.value.generations,
                      GenerationStatus(DeploymentKey(NAMESPACE), s.pc.seen.generation, ""));
  }
}
