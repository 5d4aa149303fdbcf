/** EnsureObjectMeta: namespace, name, labels, annotations and owner references. */
module ObjectMeta {
  import opened LabelMerge
  import opened OwnerMerge

  datatype Meta = Meta(namespace: string, name: string, labels: Labels, annotations: Labels, owners: seq<OwnerRef>)

  /** What a manage function asks for. */
  type RequiredMeta = Meta

  datatype Orders = Orders(labels: seq<string>, annotations: seq<string>)

  ghost predicate AreOrders(orders: Orders, required: RequiredMeta) {
    IsOrder(orders.labels, required.labels) && IsOrder(orders.annotations, required.annotations)
  }

  function SetIfSet(existing: string, required: string): string {
    if required == "" then existing else required
  }

  /** EnsureObjectMeta for one pair of iteration orders. */
  function EnsureMeta(existing: Meta, required: RequiredMeta, orders: Orders): (Meta, bool)
    requires forall key <- orders.labels :: key in required.labels
    requires forall key <- orders.annotations :: key in required.annotations
  {
    var namespace := SetIfSet(existing.namespace, required.namespace);
    var name := SetIfSet(existing.name, required.name);
    var (labels, l) := MergeInOrder(existing.labels, required.labels, orders.labels);
    var (annotations, a) := MergeInOrder(existing.annotations, required.annotations, orders.annotations);
    var (owners, o) := MergeOwners(existing.owners, required.owners);
    (Meta(namespace, name, labels, annotations, owners),
     namespace != existing.namespace || name != existing.name || l || a || o)
  }

  ghost predicate WellFormedMeta(required: RequiredMeta) {
    && ConflictFree(required.labels)
    && ConflictFree(required.annotations)
    && OwnersSettle(required.owners)
  }

  function MergedMeta(existing: Meta, required: RequiredMeta): Meta {
    Meta(SetIfSet(existing.namespace, required.namespace), SetIfSet(existing.name, required.name),
         Merged(existing.labels, required.labels), Merged(existing.annotations, required.annotations),
         MergeOwners(existing.owners, required.owners).0)
  }

  /** WithCleanLabelsAndAnnotations: what is sent on a create. */
  function CleanMeta(required: RequiredMeta): Meta {
    Meta(required.namespace, required.name, CleanKeys(required.labels), CleanKeys(required.annotations),
         CleanOwners(required.owners))
  }

  method SetStringIfSet(existing: string, required: string) returns (value: string, modified: bool)
    ensures value == SetIfSet(existing, required) && (modified <==> value != existing)
  {
    value, modified := existing, false;
    if required != "" && required != existing {
      value, modified := required, true;
    }
  }

  method EnsureObjectMeta(existing: Meta, required: RequiredMeta)
    returns (merged: Meta, modified: bool, ghost orders: Orders)
    ensures AreOrders(orders, required)
    ensures (merged, modified) == EnsureMeta(existing, required, orders)
    ensures WellFormedMeta(required) ==> merged == MergedMeta(existing, required) && (modified <==> merged != existing)
  {
    var namespace, ns := SetStringIfSet(existing.namespace, required.namespace);
    var name, n := SetStringIfSet(existing.name, required.name);
    var labels, l, lo := MergeMap(existing.labels, required.labels);
    var annotations, a, ao := MergeMap(existing.annotations, required.annotations);
    var owners, o := MergeOwnerRefs(existing.owners, required.owners);
    merged, modified, orders :=
      Meta(namespace, name, labels, annotations, owners), ns || n || l || a || o, Orders(lo, ao);
    if WellFormedMeta(required) {
      EnsureMetaIsMergedMeta(existing, required, orders);
    }
  }

  /** Any requirements have iteration orders. */
  lemma SomeOrders(required: RequiredMeta) returns (orders: Orders)
    ensures AreOrders(orders, required)
  {
    var l := SomeOrder(required.labels);
    var a := SomeOrder(required.annotations);
    orders := Orders(l, a);
  }

  lemma MergedIsQuiet(existing: Labels, required: Labels)
    requires ConflictFree(required)
    ensures Merged(Merged(existing, required), required) == Merged(existing, required)
    ensures Merged(CleanKeys(required), required) == CleanKeys(required)
    ensures forall q <- existing :: (forall k <- required :: TrimDashes(k) != q) ==>
              q in Merged(existing, required) && Merged(existing, required)[q] == existing[q]
  {}

  /** For well-formed requirements EnsureObjectMeta computes MergedMeta in every
      order, reports a change exactly when there is one, is idempotent, and finds
      a freshly created object in order. */
  lemma EnsureMetaIsMergedMeta(existing: Meta, required: RequiredMeta, orders: Orders)
    requires WellFormedMeta(required) && AreOrders(orders, required)
    ensures EnsureMeta(existing, required, orders)
         == (MergedMeta(existing, required), MergedMeta(existing, required) != existing)
  {
    OrderIsInvisible(existing.labels, required.labels, orders.labels);
    OrderIsInvisible(existing.annotations, required.annotations, orders.annotations);
    OwnerMergeSettles(existing.owners, required.owners);
  }

  lemma MergedMetaIsIdempotent(existing: Meta, required: RequiredMeta)
    requires WellFormedMeta(required)
    ensures MergedMeta(MergedMeta(existing, required), required) == MergedMeta(existing, required)
    ensures MergedMeta(CleanMeta(required), required) == CleanMeta(required)
  {
    MergedIsQuiet(existing.labels, required.labels);
    MergedIsQuiet(existing.annotations, required.annotations);
    OwnerMergeSettles(existing.owners, required.owners);
  }

  /** The whole merge in fields, in every order. An empty namespace or name asks for
      nothing. */
  lemma MergedFieldByField(existing: Meta, required: RequiredMeta, orders: Orders, q: string)
    requires WellFormedMeta(required) && AreOrders(orders, required)
    ensures var merged := EnsureMeta(existing, required, orders).0;
            var plain := !(|q| > 0 && q[|q| - 1] == '-');
            && merged.namespace == (if required.namespace == "" then existing.namespace else required.namespace)
            && merged.name == (if required.name == "" then existing.name else required.name)
            && (q in required.labels && plain ==> q in merged.labels && merged.labels[q] == required.labels[q])
            && (q + "-" in required.labels && plain ==> q !in merged.labels)
            && ((forall k <- required.labels :: !(q <= k)) ==>
                  (q in merged.labels <==> q in existing.labels)
                  && (q in merged.labels ==> merged.labels[q] == existing.labels[q]))
            && (q in required.annotations && plain ==>
                  q in merged.annotations && merged.annotations[q] == required.annotations[q])
            && (q + "-" in required.annotations && plain ==> q !in merged.annotations)
            && ((forall k <- required.annotations :: !(q <= k)) ==>
                  (q in merged.annotations <==> q in existing.annotations)
                  && (q in merged.annotations ==> merged.annotations[q] == existing.annotations[q]))
            && (forall o <- required.owners :: o.group.Some? ==> o in merged.owners)
  {
    MergedKeyByKey(existing.labels, required.labels, orders.labels, q);
    MergedKeyByKey(existing.annotations, required.annotations, orders.annotations, q);
    RequiredOwnersAreThere(existing.owners, required.owners);
  }

  /** And what is sent to create an object. */
  lemma CreatedFieldByField(required: RequiredMeta, q: string)
    ensures var created := CleanMeta(required);
            var plain := !(|q| > 0 && q[|q| - 1] == '-');
            && created.namespace == required.namespace && created.name == required.name
            && (q in created.labels <==> q in required.labels && plain)
            && (q in created.labels ==> created.labels[q] == required.labels[q])
            && (q in created.annotations <==> q in required.annotations && plain)
            && (q in created.annotations ==> created.annotations[q] == required.annotations[q])
            && (forall o :: o in created.owners <==>
                  o in required.owners && !(|o.uid| > 0 && o.uid[|o.uid| - 1] == '-'))
  {
    CleanKeyByKey(required.labels, q);
    CleanKeyByKey(required.annotations, q);
  }
}
