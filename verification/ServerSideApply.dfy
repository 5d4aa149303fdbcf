/** ApplyOperatorSpec over Server-Side Apply ("Server-Side Apply" in the Kubernetes
    documentation: field management and conflicts): a forced apply behind a check
    that what the manager owns already is what it wants. */
module ServerSideApply {
  import opened Wrappers
  import opened Requests

  type Value = string

  /** The leaves of the object. */
  datatype Field = MetaField(name: string) | SpecField(name: string) | StatusField(name: string)

  /** Ownership is kept per manager, operation and subresource. */
  datatype Operation = ApplyOperation | UpdateOperation
  datatype Manager = Manager(name: string, operation: Operation, subresource: string)

  datatype Object = Object(values: map<Field, Value>, owners: map<Manager, set<Field>>)

  /** Managers own only fields that exist, and a manager that owns nothing is not
      listed. */
  ghost predicate WellFormed(x: Object) {
    forall m <- x.owners :: x.owners[m] != {} && x.owners[m] <= x.values.Keys
  }

  function Owned(x: Object, m: Manager): set<Field> {
    if m in x.owners then x.owners[m] else {}
  }

  // ---- the server -----------------------------------------------------------

  function Prune(owners: map<Manager, set<Field>>): map<Manager, set<Field>> {
    map m | m in owners && owners[m] != {} :: owners[m]
  }

  /** Fields whose stored value is not the one in `fields`. */
  function Conflicting(x: Object, fields: map<Field, Value>): set<Field> {
    set f | f in fields && f in x.values && x.values[f] != fields[f]
  }

  /** Fields that `m` gives up and nobody else owns. */
  function Abandoned(x: Object, m: Manager, fields: map<Field, Value>): set<Field> {
    set f | f in Owned(x, m) && f !in fields && (forall o <- x.owners :: o != m ==> f !in x.owners[o])
  }

  /** A forced apply: the manager's fields get its values, other managers lose the
      fields they disagreed on and share the rest, fields the manager no longer
      lists go unless someone else owns them, and it owns exactly what it listed. */
  function ForcedApply(x: Object, m: Manager, fields: map<Field, Value>): Object {
    var lost := Conflicting(x, fields);
    var others := map o | o in x.owners && o != m :: x.owners[o] - lost;
    Object((x.values - Abandoned(x, m, fields)) + fields, Prune(others[m := fields.Keys]))
  }

  /** An ordinary update: what is changed or removed is lost by every owner, and
      what is changed or added is owned by the writer. */
  function UpdateBy(x: Object, m: Manager, values: map<Field, Value>): Object {
    var changed := set f | f in values && (f !in x.values || x.values[f] != values[f]);
    var gone := x.values.Keys - values.Keys;
    var kept := map o | o in x.owners :: x.owners[o] - changed - gone;
    Object(values, Prune(kept[m := Owned(Object(values, kept), m) + changed]))
  }

  lemma WritesKeepWellFormed(x: Object, m: Manager, fields: map<Field, Value>)
    requires WellFormed(x)
    ensures WellFormed(ForcedApply(x, m, fields)) && WellFormed(UpdateBy(x, m, fields))
  {}

  datatype Server = Server(revision: nat, stored: Option<Object>)

  function Commit(s: Server, x: Object): Server {
    if s.stored == Some(x) then s else Server(s.revision + 1, Some(x))
  }

  /** An apply of the main resource creates the object when it is missing. */
  function ApplyRequest(s: Server, m: Manager, fields: map<Field, Value>): Server {
    Commit(s, ForcedApply(if s.stored.Some? then s.stored.value else Object(map[], map[]), m, fields))
  }

  datatype Write =
    | ApplyBy(m: Manager, fields: map<Field, Value>)
    | Replace(m: Manager, fields: map<Field, Value>)
    | Remove

  function Other(s: Server, w: Write): Server {
    match w
    case ApplyBy(m, fields) => ApplyRequest(s, m, fields)
    case Replace(m, fields) =>
      Commit(s, UpdateBy(if s.stored.Some? then s.stored.value else Object(map[], map[]), m, fields))
    case Remove => if s.stored.None? then s else Server(s.revision + 1, None)
  }

  function At(s: Server, writes: seq<Write>): Server
    decreases |writes|
  {
    if writes == [] then s else At(Other(s, writes[0]), writes[1..])
  }

  ghost predicate Sound(s: Server) { s.stored.Some? ==> WellFormed(s.stored.value) }

  lemma {:induction false} ServerStaysSound(s: Server, writes: seq<Write>)
    requires Sound(s)
    ensures Sound(At(s, writes))
    decreases |writes|
  {
    if writes != [] {
      var w := writes[0];
      if !w.Remove? {
        WritesKeepWellFormed(if s.stored.Some? then s.stored.value else Object(map[], map[]), w.m, w.fields);
      }
      ServerStaysSound(Other(s, w), writes[1..]);
    }
  }

  // ---- the client -------------------------------------------------------------

  /** An apply configuration. `hasSpec` is whether the spec pointer is set, which it
      can be with no field set at all. */
  datatype Configuration = Configuration(fields: map<Field, Value>, hasSpec: bool, hasStatus: bool)

  /** ExtractCliManagerFrom: the fields the manager owns by apply, with their
      current values; the spec and status pointers stay nil when it owns none. */
  function Extract(x: Object, fieldManager: string, subresource: string): Configuration {
    var owned := Owned(x, Manager(fieldManager, ApplyOperation, subresource));
    var fields := map f | f in owned && f in x.values :: x.values[f];
    Configuration(fields, exists f <- fields :: f.SpecField?, exists f <- fields :: f.StatusField?)
  }

  function SpecFields(spec: map<string, Value>): map<Field, Value> {
    map f: Field | f in (set n | n in spec :: SpecField(n)) :: spec[f.name]
  }

  /** The configuration ApplyOperatorSpec builds: WithSpec always sets the pointer. */
  function DesiredSpec(spec: map<string, Value>): Configuration {
    Configuration(SpecFields(spec), true, false)
  }

  function ManagerOf(fieldManager: string): Manager { Manager(fieldManager, ApplyOperation, "") }

  predicate Skips(s: Server, fieldManager: string, desired: Configuration) {
    s.stored.Some? && Extract(s.stored.value, fieldManager, "") == desired
  }

  /** The whole call; `between` is what others do after the read. */
  function Call(s: Server, fieldManager: string, spec: map<string, Value>, between: seq<Write>): Server {
    var desired := DesiredSpec(spec);
    if Skips(s, fieldManager, desired) then At(s, between)
    else ApplyRequest(At(s, between), ManagerOf(fieldManager), desired.fields)
  }

  class CLIManagerClient {
    var server: Server

    constructor (server: Server)
      ensures this.server == server
    {
      this.server := server;
    }

    /** `readable`: the read ends with the object or with "not found". `extractable`:
        the managed fields of the object parse. */
    method ApplyOperatorSpec(fieldManager: string, desiredConfiguration: Option<map<string, Value>>,
                             between: seq<Write>, readable: bool, extractable: bool, reply: Reply)
      returns (err: bool)
      modifies this
      ensures desiredConfiguration.None? || !readable || (old(server).stored.Some? && !extractable) ==>
                err && server == old(server)
      ensures desiredConfiguration.Some? && readable && (old(server).stored.Some? ==> extractable) ==>
                var skips := Skips(old(server), fieldManager, DesiredSpec(desiredConfiguration.value));
                && (err <==> !skips && !reply.Accepted?)
                && server == if Stores(reply) then Call(old(server), fieldManager, desiredConfiguration.value, between)
                             else At(old(server), between)
    {
      if desiredConfiguration.None? || !readable {
        return true;
      }
      var desired := DesiredSpec(desiredConfiguration.value);
      var instance := server.stored;
      if instance.Some? {
        if !extractable {
          return true;
        }
        var original := Extract(instance.value, fieldManager, "");
        if original == desired {
          server := At(server, between);
          return false;
        }
      }
      server := At(server, between);
      if Stores(reply) {
        server := ApplyRequest(server, ManagerOf(fieldManager), desired.fields);
      }
      err := !reply.Accepted?;
    }
  }

  // ---- the fast path refines the unconditional apply -----------------------------

  lemma SpecFieldsAt(spec: map<string, Value>)
    ensures forall n :: n in spec <==> SpecField(n) in SpecFields(spec)
    ensures forall f <- SpecFields(spec) :: f.SpecField? && SpecFields(spec)[f] == spec[f.name]
  {}

  /** What an apply would leave unchanged is exactly what the check lets through:
      for every object and ownership map, the extracted configuration equals a
      desired one with at least one field if and only if the forced apply changes no
      value and no ownership. */
  lemma SkipIffApplyIsNoOp(x: Object, fieldManager: string, spec: map<string, Value>)
    requires WellFormed(x) && spec != map[]
    ensures Extract(x, fieldManager, "") == DesiredSpec(spec)
       <==> ForcedApply(x, ManagerOf(fieldManager), SpecFields(spec)) == x
  {
    var m, fields := ManagerOf(fieldManager), SpecFields(spec);
    SpecFieldsAt(spec);
    var n :| n in spec;
    assert SpecField(n) in fields;
    if Extract(x, fieldManager, "") == DesiredSpec(spec) {
      NoOpWhenExtracted(x, m, fields);
    }
    if ForcedApply(x, m, fields) == x {
      assert Owned(x, m) == fields.Keys;
      assert forall f <- fields :: x.values[f] == fields[f];
      assert Extract(x, fieldManager, "").fields == fields;
    }
  }

  lemma NoOpWhenExtracted(x: Object, m: Manager, fields: map<Field, Value>)
    requires WellFormed(x) && fields != map[]
    requires fields == map f | f in Owned(x, m) && f in x.values :: x.values[f]
    ensures ForcedApply(x, m, fields) == x
  {
    assert fields.Keys == Owned(x, m) && m in x.owners;
    assert Conflicting(x, fields) == {} && Abandoned(x, m, fields) == {};
    var y := ForcedApply(x, m, fields);
    assert y.values == x.values;
    forall o <- x.owners ensures o in y.owners && y.owners[o] == x.owners[o] {
      assert o != m ==> x.owners[o] - Conflicting(x, fields) == x.owners[o];
    }
    assert y.owners == x.owners;
  }

  /** With no field at all the check never lets anything through, because the
      desired spec pointer is set and an extracted one is not; the apply then
      gives up whatever the manager owned. */
  lemma EmptySpecIsNeverSkipped(x: Object, fieldManager: string)
    ensures Extract(x, fieldManager, "") != DesiredSpec(map[])
    ensures Owned(ForcedApply(x, ManagerOf(fieldManager), SpecFields(map[])), ManagerOf(fieldManager)) == {}
  {}

  /** Linearisation: in every interleaving the call has the effect of one
      unconditional apply, at the moment of its read if it skips and at the moment
      of its write otherwise. */
  lemma SkipRefinesApply(s: Server, fieldManager: string, spec: map<string, Value>, between: seq<Write>)
    requires Sound(s)
    ensures var m, fields := ManagerOf(fieldManager), SpecFields(spec);
            Call(s, fieldManager, spec, between)
            == if Skips(s, fieldManager, DesiredSpec(spec)) then At(ApplyRequest(s, m, fields), between)
               else ApplyRequest(At(s, between), m, fields)
  {
    if s.stored.Some? {
      EmptySpecIsNeverSkipped(s.stored.value, fieldManager);
      if spec != map[] {
        SkipIffApplyIsNoOp(s.stored.value, fieldManager, spec);
      }
    }
  }

  /** Right after an apply the extracted configuration is the applied one, labels
      and annotations it used to own given up, so an immediate second call skips:
      for every spec but the empty one. */
  lemma SecondCallSkipsIff(s: Server, fieldManager: string, spec: map<string, Value>, between: seq<Write>)
    requires Sound(s) && !Skips(s, fieldManager, DesiredSpec(spec))
    ensures Skips(Call(s, fieldManager, spec, between), fieldManager, DesiredSpec(spec)) <==> spec != map[]
  {
    ServerStaysSound(s, between);
    var t := Call(s, fieldManager, spec, between);
    if spec == map[] {
      EmptySpecIsNeverSkipped(t.stored.value, fieldManager);
    } else {
      SpecFieldsAt(spec);
      var m, fields := ManagerOf(fieldManager), SpecFields(spec);
      var n :| n in spec;
      assert SpecField(n) in fields;
      var x := t.stored.value;
      assert Owned(x, m) == fields.Keys;
      assert Extract(x, fieldManager, "").fields == fields;
    }
  }

  // ---- what a write leaves -----------------------------------------------------------

  /** The whole effect of a forced apply, field by field. What is listed has the listed
      value. What is not listed is removed if and only if the manager owned it and nobody
      else did; everything else keeps its value. The manager owns what it listed; another
      loses exactly the listed fields that had another value. */
  lemma AppliedFieldByField(x: Object, m: Manager, fields: map<Field, Value>, f: Field)
    requires WellFormed(x)
    ensures var y := ForcedApply(x, m, fields);
            && (f in fields ==> f in y.values && y.values[f] == fields[f])
            && (f !in fields ==>
                  && (f in y.values <==>
                      f in x.values
                      && (f in Owned(x, m) ==> exists o :: o in x.owners && o != m && f in x.owners[o]))
                  && (f in y.values ==> y.values[f] == x.values[f]))
            && (f in Owned(y, m) <==> f in fields)
            && (forall o :: o != m ==>
                  (f in Owned(y, o) <==> f in Owned(x, o) && (f in fields ==> x.values[f] == fields[f])))
  {
    var y := ForcedApply(x, m, fields);
    forall o | o != m
      ensures f in Owned(y, o) <==> f in Owned(x, o) && (f in fields ==> x.values[f] == fields[f])
    {
      assert o in x.owners ==> x.owners[o] <= x.values.Keys;
    }
  }

  /** An ordinary update stores what is sent; a manager keeps the fields whose value
      stays, and only the writer gains any, those that it has set. */
  lemma UpdatedFieldByField(x: Object, m: Manager, values: map<Field, Value>, f: Field)
    requires WellFormed(x)
    ensures var y := UpdateBy(x, m, values);
            var stays := f in x.values && f in values && x.values[f] == values[f];
            && y.values == values
            && (forall o :: f in Owned(y, o) <==>
                  if stays then f in Owned(x, o) else o == m && f in values)
  {
    var y := UpdateBy(x, m, values);
    var stays := f in x.values && f in values && x.values[f] == values[f];
    forall o ensures f in Owned(y, o) <==> if stays then f in Owned(x, o) else o == m && f in values {
      assert o in x.owners ==> x.owners[o] <= x.values.Keys;
    }
  }

  /** The same in terms of ApplyOperatorSpec, called by a field manager that nobody
      disturbs and whether or not it skips: each field of the spec has the desired value
      and is the manager's; a field outside it that was the manager's is gone unless it
      was somebody else's too; and the rest of the object is as before. */
  lemma SpecAfterCall(s: Server, fieldManager: string, spec: map<string, Value>, f: Field)
    requires Sound(s) && s.stored.Some?
    ensures var me := Manager(fieldManager, ApplyOperation, "");
            var x, t := s.stored.value, Call(s, fieldManager, spec, []);
            && t.stored.Some?
            && var y := t.stored.value;
               if f.SpecField? && f.name in spec then
                 f in y.values && y.values[f] == spec[f.name] && f in Owned(y, me)
                 && forall o :: o != me && f in Owned(y, o) ==> f in Owned(x, o) && x.values[f] == spec[f.name]
               else
                 && f !in Owned(y, me)
                 && (f in y.values <==>
                     f in x.values && (f in Owned(x, me) ==> exists o :: o in x.owners && o != me && f in x.owners[o]))
                 && (f in y.values ==> y.values[f] == x.values[f])
                 && (forall o :: o != me ==> (f in Owned(y, o) <==> f in Owned(x, o)))
  {
    SpecFieldsAt(spec);
    assert ManagerOf(fieldManager) == Manager(fieldManager, ApplyOperation, "");
    assert f in SpecFields(spec) <==> f.SpecField? && f.name in spec;
    SkipRefinesApply(s, fieldManager, spec, []);
    AppliedFieldByField(s.stored.value, ManagerOf(fieldManager), SpecFields(spec), f);
  }

  /** A missing object is created with the fields of the spec and nothing else. */
  lemma SpecCreated(s: Server, fieldManager: string, spec: map<string, Value>)
    requires s.stored.None?
    ensures var t := Call(s, fieldManager, spec, []);
            && t.stored.Some?
            && (forall f :: f in t.stored.value.values <==> f.SpecField? && f.name in spec)
            && (forall n <- spec :: t.stored.value.values[SpecField(n)] == spec[n])
  {
    SpecFieldsAt(spec);
  }

  /** The extracted configuration has the fields that the manager owns by apply in that
      part of the object, with their present values, whatever it owns otherwise. */
  lemma ExtractedFieldByField(x: Object, fieldManager: string, subresource: string, f: Field)
    requires WellFormed(x)
    ensures var c := Extract(x, fieldManager, subresource);
            && (f in c.fields <==>
                exists o :: o in x.owners && f in x.owners[o] && o.name == fieldManager
                            && o.operation.ApplyOperation? && o.subresource == subresource)
            && (f in c.fields ==> f in x.values && c.fields[f] == x.values[f])
  {
    var m := Manager(fieldManager, ApplyOperation, subresource);
    if m in x.owners {
      assert x.owners[m] <= x.values.Keys;
    }
  }

  /** Other managers' fields keep their values and owners, unless the apply sets
      them to something else. */
  lemma ForeignFieldsSurvive(x: Object, fieldManager: string, spec: map<string, Value>, o: Manager, f: Field)
    requires WellFormed(x) && o != ManagerOf(fieldManager) && f in Owned(x, o)
    requires f in SpecFields(spec) ==> SpecFields(spec)[f] == x.values[f]
    ensures var y := ForcedApply(x, ManagerOf(fieldManager), SpecFields(spec));
            f in Owned(y, o) && f in y.values && y.values[f] == x.values[f]
  {}
}
