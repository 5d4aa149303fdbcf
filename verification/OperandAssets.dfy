/** What the operator requires, rendered from its embedded assets for a custom
    resource, and what it means for the cluster to be as required in those terms. */
module OperandAssets {
  import opened Wrappers
  import opened LabelMerge
  import opened OwnerMerge
  import opened ObjectMeta
  import opened ResourceApply
  import opened Generations
  import opened Sync
  import opened Convergence
  import opened OperandResources
  import opened Controller
  import opened Quiescence
  import opened EndToEnd
  import opened JsonTree
  import Render = DeploymentRender
  import Monitor = ServiceMonitor

  /** The assets that are more than read, the flags of the operator, and how the two
      rendered specs are encoded and hashed. `others` are the nine other kinds. */
  datatype Assets = Assets(
    containers: seq<Render.Container>, deploymentSpec: Spec, deploymentLabels: Labels, deploymentAnnotations: Labels,
    monitor: Json, monitorLabels: Labels,
    others: (Resource, CrView) -> Option<Required>,
    targetImage: string, insecureHTTP: bool,
    encodeContainers: seq<Render.Container> -> string, encodeDocument: Json -> Spec, hash: Spec -> string,
    rules: Resource -> Rules, admits: (Resource, Object, Object) -> bool)

  function Owner(view: CrView): OwnerRef {
    OwnerRef(Some("operator.openshift.io"), "v1", "CliManager", view.name, view.uid)
  }

  function DeploymentSpec(assets: Assets, view: CrView): Spec {
    assets.deploymentSpec["containers" := assets.encodeContainers(
      Render.Rendered(assets.containers, assets.targetImage, view.logLevel, assets.insecureHTTP))]
  }

  function ServerName(view: CrView): string { "metrics." + view.namespace + ".svc" }

  /** None stands for an error of the manage function. */
  function RequiredOf(assets: Assets, r: Resource, view: CrView): Option<Required> {
    if r == DEPLOYMENT then
      var spec := DeploymentSpec(assets, view);
      Some(Required(Meta(view.namespace, OPERAND_NAME, assets.deploymentLabels,
                         assets.deploymentAnnotations[SPEC_HASH := assets.hash(spec)], [Owner(view)]),
                    Some(spec)))
    else if r == SERVICE_MONITOR then
      if Monitor.HasTlsConfig(assets.monitor) then
        var document := Monitor.WithServerName(assets.monitor, ServerName(view));
        Some(Required(Meta(view.namespace, OPERAND_NAME, assets.monitorLabels, map[], [Owner(view)]),
                      Some(assets.encodeDocument(document))))
      else None
    else assets.others(r, view)
  }

  function OperandOf(assets: Assets): Operand {
    Operand((r: Resource, view: CrView) => RequiredOf(assets, r, view), assets.rules, assets.admits)
  }

  ghost predicate NoRemovals(labels: Labels) {
    forall k <- labels :: !IsRemoval(k)
  }

  /** What is assumed of assets, hash, comparisons and server. */
  ghost predicate AreSound(assets: Assets) {
    && NoRemovals(assets.deploymentLabels) && NoRemovals(assets.deploymentAnnotations)
    && NoRemovals(assets.monitorLabels)
    && (forall r: Resource, view :: assets.others(r, view).Some? ==> WellFormedMeta(assets.others(r, view).value.meta))
    && (forall a, b :: assets.hash(a) == assets.hash(b) ==> a == b)
    && (forall r: Resource :: Settles(assets.rules(r).norm))
    && (forall a, b :: assets.rules(DEPLOYMENT).same(a, b))
  }

  lemma RenderedMetaIsWellFormed(assets: Assets, r: Resource, view: CrView)
    requires AreSound(assets) && RequiredOf(assets, r, view).Some?
    ensures WellFormedMeta(RequiredOf(assets, r, view).value.meta)
  {
    assert SPEC_HASH[|SPEC_HASH| - 1] == 'h';
    assert !IsRemoval(SPEC_HASH);
  }

  /** The rendered assets meet the assumptions of the end-to-end result. */
  lemma AssetsMeetAssumptions(assets: Assets)
    requires AreSound(assets)
    ensures WellFormed(OperandOf(assets)) && HashesTell(OperandOf(assets))
  {
    var operand := OperandOf(assets);
    forall r: Resource, view | operand.required(r, view).Some?
      ensures WellFormedMeta(operand.required(r, view).value.meta)
    {
      RenderedMetaIsWellFormed(assets, r, view);
    }
  }

  /** The stored spec passes the comparison of the helper or is the server's normal form
      of the required one. */
  predicate Holds(rules: Rules, x: Object, spec: Spec, compared: bool) {
    (compared && rules.same(x.spec, spec)) || x.spec == rules.norm(Some(x.spec), spec)
  }

  /** In terms of the assets and the custom resource: both objects are in its namespace,
      have their name and their labels, and are owned by it. */
  ghost predicate IsInPlace(x: Object, view: CrView, labels: Labels) {
    && (view.namespace != "" ==> x.meta.namespace == view.namespace)
    && x.meta.name == "openshift-cli-manager"
    && (forall k <- labels :: k in x.meta.labels && x.meta.labels[k] == labels[k])
    && OwnerRef(Some("operator.openshift.io"), "v1", "CliManager", view.name, view.uid) in x.meta.owners
  }

  /** The Deployment runs the asset's containers with image and flags for the present log
      level. */
  ghost predicate RunsContainers(assets: Assets, view: CrView, x: Object) {
    exists rendered ::
      && Render.IsRendered(rendered, assets.containers, assets.targetImage, view.logLevel, assets.insecureHTTP)
      && Holds(assets.rules(DEPLOYMENT), x,
               assets.deploymentSpec["containers" := assets.encodeContainers(rendered)], false)
  }

  /** It carries the annotations of the asset, and the hash of just that spec. */
  ghost predicate IsAnnotated(assets: Assets, view: CrView, x: Object) {
    && (forall k <- assets.deploymentAnnotations :: k != "operator.openshift.io/spec-hash" ==>
          k in x.meta.annotations && x.meta.annotations[k] == assets.deploymentAnnotations[k])
    && "operator.openshift.io/spec-hash" in x.meta.annotations
    && exists rendered ::
         && Render.IsRendered(rendered, assets.containers, assets.targetImage, view.logLevel, assets.insecureHTTP)
         && x.meta.annotations["operator.openshift.io/spec-hash"]
            == assets.hash(assets.deploymentSpec["containers" := assets.encodeContainers(rendered)])
  }

  /** The ServiceMonitor is the asset, but that it scrapes the service of the present
      namespace: the server name is "metrics.", the namespace, ".svc". */
  ghost predicate ScrapesService(assets: Assets, view: CrView, x: Object) {
    var path := [Key("spec"), Key("endpoints"), Index(0), Key("tlsConfig"), Key("serverName")];
    exists document ::
      && (match Get(document, path)
          case Some(Text(name)) =>
            && |name| == 8 + |view.namespace| + 4
            && name[..8] == "metrics." && name[8..|name| - 4] == view.namespace && name[|name| - 4..] == ".svc"
          case _ => false)
      && (forall q :: Diverge(path, q) ==> Get(document, q) == Get(assets.monitor, q))
      && Holds(assets.rules(SERVICE_MONITOR), x, assets.encodeDocument(document), true)
  }

  ghost predicate IsRolledOut(assets: Assets, c: Cluster) {
    && c.cr.Some? && DEPLOYMENT in c.objects && SERVICE_MONITOR in c.objects
    && var view := c.cr.value.view;
       && IsInPlace(c.objects[DEPLOYMENT].content, view, assets.deploymentLabels)
       && RunsContainers(assets, view, c.objects[DEPLOYMENT].content)
       && IsAnnotated(assets, view, c.objects[DEPLOYMENT].content)
       && IsInPlace(c.objects[SERVICE_MONITOR].content, view, assets.monitorLabels)
       && ScrapesService(assets, view, c.objects[SERVICE_MONITOR].content)
  }

  lemma MetaIsInPlace(x: Object, required: Meta, view: CrView, labels: Labels)
    requires WellFormedMeta(required) && MergedMeta(x.meta, required) == x.meta && NoRemovals(labels)
    requires required.namespace == view.namespace && required.name == OPERAND_NAME && required.labels == labels
    requires required.owners == [Owner(view)]
    ensures IsInPlace(x, view, labels)
  {
    forall k <- labels ensures k in x.meta.labels && x.meta.labels[k] == labels[k] {
      MergedAt(x.meta.labels, labels, k);
    }
    RequiredOwnersAreThere(x.meta.owners, required.owners);
    assert Owner(view) in required.owners;
  }

  lemma DeploymentIsAnnotated(assets: Assets, view: CrView, x: Object)
    requires AreSound(assets)
    requires var required := RequiredOf(assets, DEPLOYMENT, view).value;
             WellFormedMeta(required.meta) && MergedMeta(x.meta, required.meta) == x.meta
    ensures IsAnnotated(assets, view, x)
  {
    var required := RequiredOf(assets, DEPLOYMENT, view).value;
    forall k <- required.meta.annotations | !IsRemoval(k)
      ensures k in x.meta.annotations && x.meta.annotations[k] == required.meta.annotations[k]
    {
      MergedAt(x.meta.annotations, required.meta.annotations, k);
    }
    assert SPEC_HASH == "operator.openshift.io/spec-hash";
    assert SPEC_HASH[|SPEC_HASH| - 1] == 'h';
    assert !IsRemoval(SPEC_HASH);
    var rendered := Render.Rendered(assets.containers, assets.targetImage, view.logLevel, assets.insecureHTTP);
    assert Render.IsRendered(rendered, assets.containers, assets.targetImage, view.logLevel, assets.insecureHTTP);
  }

  lemma MonitorScrapesService(assets: Assets, view: CrView, x: Object)
    requires Monitor.HasTlsConfig(assets.monitor)
    requires Holds(assets.rules(SERVICE_MONITOR), x,
                   assets.encodeDocument(Monitor.WithServerName(assets.monitor, ServerName(view))), true)
    ensures ScrapesService(assets, view, x)
  {
    var path := [Key("spec"), Key("endpoints"), Index(0), Key("tlsConfig"), Key("serverName")];
    assert path == Monitor.SERVER_NAME;
    Monitor.OnlyTheServerNameChanges(assets.monitor, ServerName(view));
    var document := Monitor.WithServerName(assets.monitor, ServerName(view));
    var name := ServerName(view);
    assert Get(document, path) == Some(Text(name));
    assert name[..8] == "metrics." && name[8..|name| - 4] == view.namespace && name[|name| - 4..] == ".svc";
  }

  lemma AsRequiredIsRolledOut(assets: Assets, c: Cluster)
    requires AreSound(assets) && AsRequired(OperandOf(assets), c)
    ensures IsRolledOut(assets, c)
  {
    var operand, view := OperandOf(assets), c.cr.value.view;
    assert operand.required(DEPLOYMENT, view).Some? && operand.required(SERVICE_MONITOR, view).Some?;
    RenderedMetaIsWellFormed(assets, DEPLOYMENT, view);
    RenderedMetaIsWellFormed(assets, SERVICE_MONITOR, view);
    var x, y := c.objects[DEPLOYMENT].content, c.objects[SERVICE_MONITOR].content;
    MetaIsInPlace(x, operand.required(DEPLOYMENT, view).value.meta, view, assets.deploymentLabels);
    MetaIsInPlace(y, operand.required(SERVICE_MONITOR, view).value.meta, view, assets.monitorLabels);
    var rendered := Render.Rendered(assets.containers, assets.targetImage, view.logLevel, assets.insecureHTTP);
    assert Render.IsRendered(rendered, assets.containers, assets.targetImage, view.logLevel, assets.insecureHTTP);
    DeploymentIsAnnotated(assets, view, x);
    MonitorScrapesService(assets, view, y);
  }

  /** The end-to-end result over the rendered assets: whatever has happened, once the
      other writers have stopped and nothing can happen any more the assets are rolled
      out, and the Deployment's generation is on record. */
  lemma {:induction false} RollsOutAfterInterference(assets: Assets, metaBumps: Bumps, s: State, run: seq<Action>,
                                                     rest: seq<Action>, budget: nat)
    requires AreSound(assets)
    requires Initial(s) && s.workers != [] && Trusted(OperandOf(assets), s)
    requires var env := EnvOf(OperandOf(assets), metaBumps);
             Executes(env, s, run) && AllCourteous(env, s, run)
    requires var env := EnvOf(OperandOf(assets), metaBumps);
             var t := After(env, s, run);
             && !t.q.shuttingDown && Pending(env, t)
             && t.cluster.cr.Some? && Renders(env, t.cluster.cr.value.view)
             && Executes(env, t, rest) && AllInternal(rest) && FailedSyncs(env, t, rest) <= budget
    ensures var env := EnvOf(OperandOf(assets), metaBumps);
            var t := After(env, s, run);
            && |rest| <= Measure(env, t, budget)
            && (AtRest(After(env, t, rest)) ==>
                  var c := After(env, t, rest).cluster;
                  && IsRolledOut(assets, c) && RecordIsRight(c)
                  && c.cr.value.view == t.cluster.cr.value.view
                  && c.objects[DEPLOYMENT].content.meta.namespace == "openshift-cli-manager-operator"
                  && c.objects[SERVICE_MONITOR].content.meta.namespace == "openshift-cli-manager-operator")
  {
    var env := EnvOf(OperandOf(assets), metaBumps);
    AssetsMeetAssumptions(assets);
    ConvergesAfterInterference(OperandOf(assets), metaBumps, s, run, rest, budget);
    var u := After(env, After(env, s, run), rest);
    if AtRest(u) {
      AsRequiredIsRolledOut(assets, u.cluster);
    }
  }
}
