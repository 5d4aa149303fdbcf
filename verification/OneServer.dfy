/** The operator client has one server. Its compare-and-swap, its apply of the spec and
    its apply of the status are modelled over three views of the stored custom resource;
    here the views are brought together. */
module OneServer {
  import opened Wrappers
  import opened Requests
  import opened Generations
  import Swap = OperatorClient
  import SSA = ServerSideApply
  import Times = Transitions

  // ---- fields and versions --------------------------------------------------------

  /** How fields and ownership make up the parts of the object. */
  datatype Codec = Codec(meta: SSA.Object -> string, spec: SSA.Object -> string, status: SSA.Object -> OperatorStatus)

  /** Nothing is lost. */
  ghost predicate IsFaithful(codec: Codec) {
    forall x, y ::
      codec.meta(x) == codec.meta(y) && codec.spec(x) == codec.spec(y) && codec.status(x) == codec.status(y) ==> x == y
  }

  predicate Shows(codec: Codec, a: SSA.Server, o: Swap.Server) {
    && a.revision == o.revision && (a.stored.Some? <==> o.stored.Some?)
    && (a.stored.Some? ==>
          var x, y := a.stored.value, o.stored.value;
          y.meta == codec.meta(x) && y.spec == codec.spec(x) && y.status == codec.status(x))
  }

  /** The stored object after a write of `y`. */
  function Encoded(codec: Codec, o: Swap.Server, y: SSA.Object): Swap.CliManager {
    var spec := codec.spec(y);
    if o.stored.Some? then
      var before := o.stored.value;
      var generation := if spec == before.spec then before.generation else before.generation + 1;
      Swap.CliManager(before.uid, codec.meta(y), generation, spec, codec.status(y), 0)
    else Swap.CliManager(o.revision, codec.meta(y), 1, spec, codec.status(y), 0)
  }

  /** Every write of the one view is a write of the other, and it changes something in
      the one if and only if it does in the other. */
  lemma WriteIsAWrite(codec: Codec, a: SSA.Server, o: Swap.Server, v: SSA.Write) returns (w: Swap.Write)
    requires IsFaithful(codec) && Shows(codec, a, o)
    ensures Shows(codec, SSA.Other(a, v), Swap.Other(o, w))
    ensures Swap.Other(o, w) == o <==> SSA.Other(a, v) == a
  {
    if v.Remove? {
      w := Swap.Remove;
    } else {
      var x := if a.stored.Some? then a.stored.value else SSA.Object(map[], map[]);
      var y := if v.ApplyBy? then SSA.ForcedApply(x, v.m, v.fields) else SSA.UpdateBy(x, v.m, v.fields);
      w := Swap.Put(Encoded(codec, o, y));
    }
  }

  /** A forced apply of anybody's and a compare-and-swap under a version read before it:
      the swap succeeds if and only if the apply changed no value and no ownership,
      wherever in the call the apply falls. */
  lemma SwapAfterApply(codec: Codec, a: SSA.Server, o: Swap.Server, m: SSA.Manager, fields: map<SSA.Field, SSA.Value>,
                       edit: Swap.Edit, reread: nat)
    returns (w: Swap.Write)
    requires IsFaithful(codec) && Shows(codec, a, o) && Swap.Valid(o) && a.stored.Some? && reread <= 1
    ensures Shows(codec, SSA.ApplyRequest(a, m, fields), Swap.Other(o, w))
    ensures var result := Swap.UnreliableCall(Swap.At(o, [w][..reread]), Some(o.stored.value.resourceVersion), edit,
                                              [w][reread..], true, Accepted).1;
            result.Ok? <==> SSA.ForcedApply(a.stored.value, m, fields) == a.stored.value
  {
    w := WriteIsAWrite(codec, a, o, SSA.ApplyBy(m, fields));
    Swap.SucceedsIffUntouched(o, [w], reread, edit, true, Accepted);
    assert [w][..0] == [] && [w][..1] == [w];
    assert Swap.At(o, [w]) == Swap.Other(o, w);
    assert Swap.At(o, []) == o;
    assert Swap.Untouched(o, [w]) <==> Swap.Other(o, w) == o by {
      if Swap.Other(o, w) == o {
        forall k | 0 <= k <= 1 ensures Swap.At(o, [w][..k]) == o {}
      } else {
        assert Swap.At(o, [w][..1]) != o;
      }
    }
  }

  // ---- fields and transition times ---------------------------------------------------

  /** Conditions are one field, as lists are extracted as a whole. */
  function FieldsOf(encode: seq<Times.Condition> -> string, status: Times.Status): map<SSA.Field, SSA.Value> {
    (if status.conditions == [] then map[] else map[SSA.StatusField("conditions") := encode(status.conditions)])
    + (if status.rest == "" then map[] else map[SSA.StatusField("rest") := status.rest])
  }

  ghost predicate IsInjective(encode: seq<Times.Condition> -> string) {
    forall a, b :: encode(a) == encode(b) ==> a == b
  }

  lemma FieldsTellStatuses(encode: seq<Times.Condition> -> string, a: Times.Status, b: Times.Status)
    requires IsInjective(encode)
    ensures FieldsOf(encode, a) == FieldsOf(encode, b) ==> a == b
    ensures FieldsOf(encode, a) == map[] <==> a == Times.NOTHING
    ensures forall f <- FieldsOf(encode, a) :: f.StatusField?
  {
    var c, r := SSA.StatusField("conditions"), SSA.StatusField("rest");
    assert "conditions"[0] != "rest"[0];
    var x, y := FieldsOf(encode, a), FieldsOf(encode, b);
    assert c in x <==> a.conditions != [];
    assert c in y <==> b.conditions != [];
    assert r in x <==> a.rest != "";
    assert r in y <==> b.rest != "";
    assert c in x ==> x[c] == encode(a.conditions);
    assert c in y ==> y[c] == encode(b.conditions);
  }

  function StatusManager(fieldManager: string): SSA.Manager {
    SSA.Manager(fieldManager, SSA.ApplyOperation, "status")
  }

  /** The manager's part of the status, seen through the stored object. */
  predicate ShowsStatus(encode: seq<Times.Condition> -> string, fieldManager: string, stored: Option<SSA.Object>,
                        t: Times.Server) {
    && t.present == stored.Some?
    && if stored.Some? then SSA.Extract(stored.value, fieldManager, "status").fields == FieldsOf(encode, t.owned)
       else t.owned == Times.NOTHING
  }

  /** The fast path compares the same: the extracted configuration is the desired one,
      whose status pointer is set, if and only if the owned status is the desired one
      and not empty. */
  lemma SkipsAgree(encode: seq<Times.Condition> -> string, fieldManager: string, stored: SSA.Object, t: Times.Server,
                   desired: Times.Status)
    requires IsInjective(encode) && ShowsStatus(encode, fieldManager, Some(stored), t)
    ensures Times.Skips(t, desired) <==>
            SSA.Extract(stored, fieldManager, "status") == SSA.Configuration(FieldsOf(encode, desired), false, true)
  {
    FieldsTellStatuses(encode, t.owned, desired);
    FieldsTellStatuses(encode, desired, t.owned);
    var extracted := SSA.Extract(stored, fieldManager, "status");
    if t.owned != Times.NOTHING {
      var f :| f in extracted.fields;
      assert f.StatusField?;
    }
  }

  /** A forced apply of the status stores the same. */
  lemma AppliesAgree(encode: seq<Times.Condition> -> string, fieldManager: string, stored: Option<SSA.Object>,
                     t: Times.Server, status: Times.Status)
    requires IsInjective(encode) && ShowsStatus(encode, fieldManager, stored, t)
    requires Times.Distinct(status.conditions)
    ensures var x := if stored.Some? then stored.value else SSA.Object(map[], map[]);
            ShowsStatus(encode, fieldManager,
                        Some(SSA.ForcedApply(x, StatusManager(fieldManager), FieldsOf(encode, status))),
                        Times.ApplyStatus(t, status, true).0)
  {
    var x := if stored.Some? then stored.value else SSA.Object(map[], map[]);
    var m, fields := StatusManager(fieldManager), FieldsOf(encode, status);
    var y := SSA.ForcedApply(x, m, fields);
    assert SSA.Owned(y, m) == fields.Keys;
    assert SSA.Extract(y, fieldManager, "status").fields == fields;
  }
}
