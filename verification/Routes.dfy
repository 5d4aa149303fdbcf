/** `applyRoute`: get the route, create it when it is missing, otherwise merge
    the metadata, compare the spec and update when either differs. */
module Routes {
  import opened Wrappers
  import opened Requests
  import opened LabelMerge
  import opened OwnerMerge
  import opened ObjectMeta
  import opened ResourceApply

  type RouteKey = (string, string)

  function RouteRules(norm: (Option<Spec>, Spec) -> Spec): Rules {
    Rules((a: Spec, b: Spec) => a == b, norm)
  }

  function Lookup(routes: map<RouteKey, Object>, key: RouteKey): Option<Object> {
    if key in routes then Some(routes[key]) else None
  }

  function SpecOf(stored: Option<Object>): Option<Spec> {
    if stored.Some? then Some(stored.value.spec) else None
  }

  function KeyOf(required: Required): RouteKey { (required.meta.namespace, required.meta.name) }

  /** The API server as far as routes go. */
  class RouteServer {
    var routes: map<RouteKey, Object>
    const norm: (Option<Spec>, Spec) -> Spec

    constructor (norm: (Option<Spec>, Spec) -> Spec)
      ensures this.norm == norm && routes == map[]
    {
      this.norm := norm;
      routes := map[];
    }

    method Put(key: RouteKey, meta: Meta, spec: Spec, reply: Reply) returns (actual: Object, err: bool)
      modifies this
      ensures actual == Object(meta, norm(SpecOf(Lookup(old(routes), key)), spec))
      ensures err <==> !reply.Accepted?
      ensures routes == if Stores(reply) then old(routes)[key := actual] else old(routes)
    {
      actual := Object(meta, norm(SpecOf(Lookup(routes, key)), spec));
      err := !reply.Accepted?;
      if Stores(reply) {
        routes := routes[key := actual];
      }
    }
  }

  /** `reachable` is false when the read fails with anything but "not found". */
  method ApplyRoute(server: RouteServer, required: Required, reachable: bool, reply: Reply)
    returns (actual: Option<Object>, changed: bool, err: bool, ghost orders: Orders)
    requires required.spec.Some?
    modifies server
    ensures AreOrders(orders, required.meta)
    ensures !reachable ==> err && !changed && server.routes == old(server.routes)
    ensures reachable ==>
              var (target, differs) := ApplyInOrder(RouteRules(server.norm), required,
                                                    Lookup(old(server.routes), KeyOf(required)), false, orders);
              && changed == differs
              && (err <==> changed && !reply.Accepted?)
              && (!err ==> actual == Some(target))
              && server.routes == if changed && Stores(reply) then old(server.routes)[KeyOf(required) := target]
                                  else old(server.routes)
    ensures IsFiled(old(server.routes)) ==> IsFiled(server.routes)
    ensures reachable && !err ==>
              (required.meta.namespace, required.meta.name) in server.routes
              && actual == Some(server.routes[(required.meta.namespace, required.meta.name)])
  {
    var key := KeyOf(required);
    if !reachable {
      orders := SomeOrders(required.meta);
      return None, false, true, orders;
    }
    if key !in server.routes {
      orders := SomeOrders(required.meta);
      var created;
      created, err := server.Put(key, CleanMeta(required.meta), required.spec.value, reply);
      return Some(created), true, err, orders;
    }
    var existing := server.routes[key];
    var meta, modified;
    meta, modified, orders := EnsureObjectMeta(existing.meta, required.meta);
    var specSame := existing.spec == required.spec.value;
    if specSame && !modified {
      return Some(existing), false, false, orders;
    }
    var updated;
    updated, err := server.Put(key, meta, required.spec.value, reply);
    return Some(updated), true, err, orders;
  }

  ghost predicate ConflictFreeMeta(required: RequiredMeta) {
    ConflictFree(required.labels) && ConflictFree(required.annotations)
  }

  lemma MetaIsQuietIff(stored: Option<Object>, required: RequiredMeta, first: Orders, second: Orders)
    requires AreOrders(first, required) && AreOrders(second, required)
    requires OwnersSettle(required.owners)
    ensures var once := if stored.Some? then EnsureMeta(stored.value.meta, required, first).0 else CleanMeta(required);
            !EnsureMeta(once, required, second).1 <==> ConflictFreeMeta(required)
  {
    OwnerMergeSettles([], required.owners);
    if stored.Some? {
      SecondMergeIsQuietIff(stored.value.meta.labels, required.labels, first.labels, second.labels);
      SecondMergeIsQuietIff(stored.value.meta.annotations, required.annotations, first.annotations, second.annotations);
      OwnerMergeSettles(stored.value.meta.owners, required.owners);
    } else {
      CleanKeysAreQuietIff(required.labels, second.labels);
      CleanKeysAreQuietIff(required.annotations, second.annotations);
    }
  }

  /** The second of two calls makes no write and reports "unchanged" exactly when
      the metadata asks for nothing contradictory and the server kept the spec as
      it was sent. */
  lemma SecondApplyIsSilentIff(norm: (Option<Spec>, Spec) -> Spec, required: Required, stored: Option<Object>,
                               first: Orders, second: Orders)
    requires required.spec.Some? && AreOrders(first, required.meta) && AreOrders(second, required.meta)
    requires OwnersSettle(required.meta.owners)
    ensures var once := ApplyInOrder(RouteRules(norm), required, stored, false, first).0;
            (!ApplyInOrder(RouteRules(norm), required, Some(once), false, second).1 <==>
             ConflictFreeMeta(required.meta) && once.spec == required.spec.value)
  {
    MetaIsQuietIff(stored, required.meta, first, second);
    if stored.Some? {
      var (_, modified) := EnsureMeta(stored.value.meta, required.meta, first);
      if !modified {
        FlagIsExact(stored.value.meta.labels, required.meta.labels, first.labels);
        FlagIsExact(stored.value.meta.annotations, required.meta.annotations, first.annotations);
      }
    }
  }

  /** Even when the second call does write, the stored route is the one the first
      call left: applying twice is applying once. */
  lemma ApplyTwiceIsApplyOnce(norm: (Option<Spec>, Spec) -> Spec, required: Required, stored: Option<Object>,
                              first: Orders, second: Orders)
    requires required.spec.Some? && AreOrders(first, required.meta) && AreOrders(second, required.meta)
    requires WellFormedMeta(required.meta) && Settles(norm)
    ensures var once := ApplyInOrder(RouteRules(norm), required, stored, false, first).0;
            ApplyInOrder(RouteRules(norm), required, Some(once), false, second).0 == once
  {
    var rules := RouteRules(norm);
    ApplyIgnoresOrder(rules, required, stored, false, first);
    var once := Apply(rules, required, stored, false).0;
    ApplyIgnoresOrder(rules, required, Some(once), false, second);
    ApplyAgrees(rules, required, stored);
    AgreedObjectIsLeftAlone(rules, required, once, false, false);
  }

  /** Labels, annotations and owners that the operator does not name survive an
      update, whatever it asks for and in every iteration order. */
  lemma ForeignMetadataSurvives(norm: (Option<Spec>, Spec) -> Spec, required: Required, existing: Object,
                                orders: Orders)
    requires required.spec.Some? && AreOrders(orders, required.meta)
    ensures var after := ApplyInOrder(RouteRules(norm), required, Some(existing), false, orders).0;
            && (forall q <- existing.meta.labels :: (forall k <- required.meta.labels :: TrimDashes(k) != q) ==>
                  q in after.meta.labels && after.meta.labels[q] == existing.meta.labels[q])
            && (forall q <- existing.meta.annotations ::
                  (forall k <- required.meta.annotations :: TrimDashes(k) != q) ==>
                  q in after.meta.annotations && after.meta.annotations[q] == existing.meta.annotations[q])
            && (forall x <- existing.meta.owners :: (forall o <- required.meta.owners :: !OwnerMatches(o, x)) ==>
                  x in after.meta.owners)
  {
    var m := required.meta;
    forall q <- existing.meta.labels | forall k <- m.labels :: TrimDashes(k) != q
      ensures q in MergeInOrder(existing.meta.labels, m.labels, orders.labels).0
      ensures MergeInOrder(existing.meta.labels, m.labels, orders.labels).0[q] == existing.meta.labels[q]
    {
      assert forall key <- orders.labels :: key in m.labels;
      ForeignKeySurvives(existing.meta.labels, m.labels, orders.labels, q);
    }
    forall q <- existing.meta.annotations | forall k <- m.annotations :: TrimDashes(k) != q
      ensures q in MergeInOrder(existing.meta.annotations, m.annotations, orders.annotations).0
      ensures MergeInOrder(existing.meta.annotations, m.annotations, orders.annotations).0[q]
           == existing.meta.annotations[q]
    {
      assert forall key <- orders.annotations :: key in m.annotations;
      ForeignKeySurvives(existing.meta.annotations, m.annotations, orders.annotations, q);
    }
    forall x <- existing.meta.owners | forall o <- m.owners :: !OwnerMatches(o, x)
      ensures x in MergeOwners(existing.meta.owners, m.owners).0
    {
      ForeignOwnerSurvives(existing.meta.owners, m.owners, x);
    }
  }

  // ---- where routes are stored ---------------------------------------------------------

  /** Every route is stored under its own namespace and name. */
  ghost predicate IsFiled(routes: map<RouteKey, Object>) {
    forall key <- routes :: routes[key].meta.namespace == key.0 && routes[key].meta.name == key.1
  }

  lemma RoutesStayFiled(norm: (Option<Spec>, Spec) -> Spec, required: Required, routes: map<RouteKey, Object>,
                        orders: Orders)
    requires IsFiled(routes) && AreOrders(orders, required.meta)
    ensures var target := ApplyInOrder(RouteRules(norm), required, Lookup(routes, KeyOf(required)), false, orders).0;
            && IsFiled(routes[KeyOf(required) := target])
            && target.meta.namespace == required.meta.namespace && target.meta.name == required.meta.name
  {}
}
