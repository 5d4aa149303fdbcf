/** The shape shared by the apply helpers: read the object, merge its metadata,
    compare what the helper compares, and write only if something differs. What
    the server stores for a write is the server's normal form of it. */
module ResourceApply {
  import opened Wrappers
  import opened ObjectMeta

  type Spec = map<string, string>

  datatype Object = Object(meta: Meta, spec: Spec)

  /** `spec` is None for a helper that manages metadata only. */
  datatype Required = Required(meta: RequiredMeta, spec: Option<Spec>)

  /** `same` is the comparison one helper makes between the stored and the
      required spec; `norm(prev, sent)` is what the server stores when `sent` is
      written over `prev` (defaulted and allocated fields included). */
  datatype Rules = Rules(same: (Spec, Spec) -> bool, norm: (Option<Spec>, Spec) -> Spec)

  /** The server contract: sending the same spec over its own result changes
      nothing. It holds when the result does not depend on the old spec and
      normalising is idempotent, and also when defaulted fields keep old values. */
  ghost predicate Settles(norm: (Option<Spec>, Spec) -> Spec) {
    forall prev, sent {:trigger norm(Some(norm(prev, sent)), sent)} ::
      norm(Some(norm(prev, sent)), sent) == norm(prev, sent)
  }

  /** A server whose result does not depend on the stored spec settles. */
  lemma IndependentNormSettles(norm: (Option<Spec>, Spec) -> Spec)
    requires forall prev, sent :: norm(prev, sent) == norm(None, sent)
    ensures Settles(norm)
  {}

  /** A server that fills in fields the request leaves open: from the stored spec where
      it may be kept (an allocated address, say), else from its defaults, after
      canonicalising what was sent. */
  function Defaulting(canon: Spec -> Spec, kept: set<string>, defaults: Spec, prev: Option<Spec>, sent: Spec): Spec {
    var carried := if prev.Some? then map f | f in prev.value && f in kept :: prev.value[f] else map[];
    defaults + carried + canon(sent)
  }

  lemma DefaultingNormSettles(canon: Spec -> Spec, kept: set<string>, defaults: Spec)
    ensures Settles((prev: Option<Spec>, sent: Spec) => Defaulting(canon, kept, defaults, prev, sent))
  {
    var norm := (prev: Option<Spec>, sent: Spec) => Defaulting(canon, kept, defaults, prev, sent);
    forall prev, sent ensures norm(Some(norm(prev, sent)), sent) == norm(prev, sent) {
      var once := norm(prev, sent);
      assert norm(Some(once), sent) == once;
    }
  }

  function Sent(required: Required): Spec {
    if required.spec.Some? then required.spec.value else map[]
  }

  /** One successful apply under given map iteration orders: the object stored
      afterwards, and the helper's "changed" result. `stale` is true when a helper
      that tracks generations sees an unexpected one. */
  function ApplyInOrder(rules: Rules, required: Required, stored: Option<Object>, stale: bool, orders: Orders)
    : (Object, bool)
    requires forall key <- orders.labels :: key in required.meta.labels
    requires forall key <- orders.annotations :: key in required.meta.annotations
  {
    match stored
    case None => (Object(CleanMeta(required.meta), rules.norm(None, Sent(required))), true)
    case Some(x) =>
      var (meta, modified) := EnsureMeta(x.meta, required.meta, orders);
      if !modified && !stale && (required.spec.None? || rules.same(x.spec, required.spec.value)) then (x, false)
      else if required.spec.None? then (Object(meta, x.spec), true)
      else (Object(meta, rules.norm(Some(x.spec), required.spec.value)), true)
  }

  /** The same for well-formed metadata, where the order does not matter. */
  function Apply(rules: Rules, required: Required, stored: Option<Object>, stale: bool): (Object, bool) {
    match stored
    case None => (Object(CleanMeta(required.meta), rules.norm(None, Sent(required))), true)
    case Some(x) =>
      var meta := MergedMeta(x.meta, required.meta);
      if meta == x.meta && !stale && (required.spec.None? || rules.same(x.spec, required.spec.value)) then (x, false)
      else if required.spec.None? then (Object(meta, x.spec), true)
      else (Object(meta, rules.norm(Some(x.spec), required.spec.value)), true)
  }

  lemma ApplyIgnoresOrder(rules: Rules, required: Required, stored: Option<Object>, stale: bool, orders: Orders)
    requires WellFormedMeta(required.meta) && AreOrders(orders, required.meta)
    ensures ApplyInOrder(rules, required, stored, stale, orders) == Apply(rules, required, stored, stale)
  {
    if stored.Some? {
      EnsureMetaIsMergedMeta(stored.value.meta, required.meta, orders);
    }
  }

  /** What it means for a stored object to be as required: its metadata holds
      everything asked for, and its spec either passes the helper's own comparison
      or is already the server's normal form of the required one. A helper that
      goes by generation (`tracked`) compares nothing, so only the second counts. */
  ghost predicate Agrees(rules: Rules, required: Required, x: Object, tracked: bool) {
    && MergedMeta(x.meta, required.meta) == x.meta
    && (required.spec.Some? ==>
          || (!tracked && rules.same(x.spec, required.spec.value))
          || x.spec == rules.norm(Some(x.spec), required.spec.value))
  }

  /** A helper that compares specs brings every object, and a missing one, into
      agreement in one successful apply. */
  lemma ApplyAgrees(rules: Rules, required: Required, stored: Option<Object>)
    requires WellFormedMeta(required.meta) && Settles(rules.norm)
    ensures Agrees(rules, required, Apply(rules, required, stored, false).0, false)
  {
    MergedMetaIsIdempotent(if stored.Some? then stored.value.meta else CleanMeta(required.meta), required.meta);
  }

  /** A helper that goes by generation agrees afterwards if and only if it had to
      write or the object it skipped was in agreement already. */
  lemma TrackedApplyAgreesIff(rules: Rules, required: Required, stored: Option<Object>, stale: bool)
    requires WellFormedMeta(required.meta) && Settles(rules.norm) && required.spec.Some?
    requires forall a, b :: rules.same(a, b)
    ensures Agrees(rules, required, Apply(rules, required, stored, stale).0, true)
       <==> Apply(rules, required, stored, stale).1 || Agrees(rules, required, stored.value, true)
  {
    MergedMetaIsIdempotent(if stored.Some? then stored.value.meta else CleanMeta(required.meta), required.meta);
  }

  lemma AgreedObjectIsLeftAlone(rules: Rules, required: Required, x: Object, tracked: bool, stale: bool)
    requires Agrees(rules, required, x, tracked)
    requires !tracked ==> !stale
    ensures Apply(rules, required, Some(x), stale).0 == x
  {}

  /** A write of a helper keeps what the server has allocated: with a server that carries
      some fields over from the stored spec, those that the request leaves open are as
      before, whatever else was repaired. */
  lemma AllocatedFieldsSurvive(canon: Spec -> Spec, kept: set<string>, defaults: Spec,
                               same: (Spec, Spec) -> bool, required: Required, x: Object, stale: bool, f: string)
    requires required.spec.Some? && f in kept && f in x.spec && f !in canon(required.spec.value)
    ensures var norm := (prev: Option<Spec>, sent: Spec) => Defaulting(canon, kept, defaults, prev, sent);
            var y := Apply(Rules(same, norm), required, Some(x), stale).0;
            f in y.spec && y.spec[f] == x.spec[f]
  {}

  /** What is stored for a missing object, for one that is written, and for one that is
      left as it is; and when which of them happens. */
  lemma AppliedOutcome(rules: Rules, required: Required, stored: Option<Object>, stale: bool)
    requires WellFormedMeta(required.meta)
    ensures var (y, changed) := Apply(rules, required, stored, stale);
            && (stored.None? ==>
                  changed && y.meta == CleanMeta(required.meta)
                  && (required.spec.Some? ==> y.spec == rules.norm(None, required.spec.value)))
            && (stored.Some? ==>
                  var x := stored.value;
                  && y.meta == MergedMeta(x.meta, required.meta)
                  && (changed <==>
                      y.meta != x.meta || stale
                      || (required.spec.Some? && !rules.same(x.spec, required.spec.value)))
                  && y.spec == (if changed && required.spec.Some? then rules.norm(Some(x.spec), required.spec.value)
                                else x.spec))
  {}
}
