/** JSON documents, reading and replacing a value by its path, and the nested-field
    helpers of the unstructured package. */
module JsonTree {
  import opened Wrappers

  datatype Json =
    | Null
    | Flag(flag: bool)
    | Number(number: int)
    | Text(text: string)
    | List(items: seq<Json>)
    | Object(fields: map<string, Json>)

  datatype Step = Key(name: string) | Index(at: nat)

  function Child(j: Json, step: Step): Option<Json> {
    match step
    case Key(name) => if j.Object? && name in j.fields then Some(j.fields[name]) else None
    case Index(at) => if j.List? && at < |j.items| then Some(j.items[at]) else None
  }

  /** A key can be added to any object; an index has to exist. */
  predicate Fits(j: Json, step: Step) {
    match step
    case Key(_) => j.Object?
    case Index(at) => j.List? && at < |j.items|
  }

  function SetChild(j: Json, step: Step, v: Json): Json
    requires Fits(j, step)
  {
    match step
    case Key(name) => Object(j.fields[name := v])
    case Index(at) => List(j.items[at := v])
  }

  function Get(j: Json, path: seq<Step>): Option<Json>
    decreases |path|
  {
    if path == [] then Some(j)
    else
      var c := Child(j, path[0]);
      if c.None? then None else Get(c.value, path[1..])
  }

  /** Everything up to the last step is there, and the last step fits. */
  predicate CanPut(j: Json, path: seq<Step>)
    decreases |path|
  {
    path == []
    || (Fits(j, path[0])
        && (|path| == 1 || (Child(j, path[0]).Some? && CanPut(Child(j, path[0]).value, path[1..]))))
  }

  function Put(j: Json, path: seq<Step>, v: Json): Json
    requires CanPut(j, path)
    decreases |path|
  {
    if path == [] then v
    else if |path| == 1 then SetChild(j, path[0], v)
    else SetChild(j, path[0], Put(Child(j, path[0]).value, path[1..], v))
  }

  /** Neither path leads through the other. */
  predicate Diverge(p: seq<Step>, q: seq<Step>) {
    p != [] && q != [] && (p[0] != q[0] || Diverge(p[1..], q[1..]))
  }

  // ---- the laws ---------------------------------------------------------------

  lemma {:induction false} PutReadsBack(j: Json, path: seq<Step>, v: Json)
    requires CanPut(j, path)
    ensures Get(Put(j, path, v), path) == Some(v)
    decreases |path|
  {
    if |path| == 1 {
      assert Get(v, path[1..]) == Some(v);
    } else if |path| > 1 {
      PutReadsBack(Child(j, path[0]).value, path[1..], v);
    }
  }

  lemma {:induction false} PutWhatIsThere(j: Json, path: seq<Step>)
    requires Get(j, path).Some?
    ensures CanPut(j, path) && Put(j, path, Get(j, path).value) == j
    decreases |path|
  {
    if path != [] {
      var c := Child(j, path[0]).value;
      PutWhatIsThere(c, path[1..]);
      assert SetChild(j, path[0], c) == j;
    }
  }

  lemma SetChildTwice(j: Json, step: Step, v: Json, w: Json)
    requires Fits(j, step)
    ensures Fits(SetChild(j, step, v), step) && Child(SetChild(j, step, v), step) == Some(v)
    ensures SetChild(SetChild(j, step, v), step, w) == SetChild(j, step, w)
  {}

  lemma {:induction false} LastPutWins(j: Json, path: seq<Step>, v: Json, w: Json)
    requires CanPut(j, path)
    ensures CanPut(Put(j, path, v), path) && Put(Put(j, path, v), path, w) == Put(j, path, w)
    decreases |path|
  {
    if |path| == 1 {
      SetChildTwice(j, path[0], v, w);
    } else if |path| > 1 {
      var c := Child(j, path[0]).value;
      LastPutWins(c, path[1..], v, w);
      SetChildTwice(j, path[0], Put(c, path[1..], v), Put(c, path[1..], w));
    }
  }

  lemma {:induction false} PutLeavesTheRest(j: Json, path: seq<Step>, v: Json, q: seq<Step>)
    requires CanPut(j, path) && Diverge(path, q)
    ensures Get(Put(j, path, v), q) == Get(j, q)
    decreases |path|
  {
    if path[0] == q[0] && |path| > 1 {
      PutLeavesTheRest(Child(j, path[0]).value, path[1..], v, q[1..]);
    }
  }

  /** Above the value only the named key may be new: lists keep their length and
      objects their keys. */
  lemma {:induction false} PutKeepsShape(j: Json, path: seq<Step>, v: Json, n: nat)
    requires CanPut(j, path) && n < |path|
    ensures var above, below := Get(j, path[..n]), Get(Put(j, path, v), path[..n]);
            && above.Some? && below.Some?
            && (above.value.List? ==> below.value.List? && |below.value.items| == |above.value.items|)
            && (above.value.Object? ==> below.value.Object?)
            && (above.value.Object? && path[n].Key? ==>
                  below.value.fields.Keys == above.value.fields.Keys + {path[n].name})
            && (n + 1 < |path| ==> Child(above.value, path[n]).Some?)
    decreases n
  {
    if n > 0 {
      assert path[..n][0] == path[0] && path[..n][1..] == path[1..][..n - 1];
      PutKeepsShape(Child(j, path[0]).value, path[1..], v, n - 1);
    }
  }

  // ---- nested fields -------------------------------------------------------------

  datatype Lookup = Missing | Blocked | Found(value: Json)

  /** A null on the way counts as missing, anything else that is not an object
      blocks the way. */
  function Nested(j: Json, fields: seq<string>): Lookup
    decreases |fields|
  {
    if fields == [] then Found(j)
    else if j.Null? then Missing
    else if !j.Object? then Blocked
    else if fields[0] !in j.fields then Missing
    else Nested(j.fields[fields[0]], fields[1..])
  }

  method NestedFieldNoCopy(obj: map<string, Json>, fields: seq<string>) returns (r: Lookup)
    ensures r == Nested(Object(obj), fields)
  {
    var val := Object(obj);
    for i := 0 to |fields|
      invariant Nested(Object(obj), fields) == Nested(val, fields[i..])
    {
      if val.Null? {
        return Missing;
      }
      if val.Object? {
        if fields[i] !in val.fields {
          return Missing;
        }
        val := val.fields[fields[i]];
      } else {
        return Blocked;
      }
    }
    return Found(val);
  }

  /** Creates the levels that are missing; fails, changing nothing, on one that is
      there and is not an object. */
  function SetNested(obj: map<string, Json>, v: Json, fields: seq<string>): Option<map<string, Json>>
    requires fields != []
    decreases |fields|
  {
    if |fields| == 1 then Some(obj[fields[0] := v])
    else if fields[0] !in obj then
      var below := SetNested(map[], v, fields[1..]);
      if below.None? then None else Some(obj[fields[0] := Object(below.value)])
    else if !obj[fields[0]].Object? then None
    else
      var below := SetNested(obj[fields[0]].fields, v, fields[1..]);
      if below.None? then None else Some(obj[fields[0] := Object(below.value)])
  }

  function KeyPath(fields: seq<string>): (path: seq<Step>)
    ensures |path| == |fields|
    ensures forall i :: 0 <= i < |fields| ==> path[i] == Key(fields[i])
  {
    seq(|fields|, i requires 0 <= i < |fields| => Key(fields[i]))
  }

  lemma {:induction false} NestedIsGet(j: Json, fields: seq<string>, v: Json)
    ensures Nested(j, fields) == Found(v) <==> Get(j, KeyPath(fields)) == Some(v)
    decreases |fields|
  {
    if fields != [] && j.Object? && fields[0] in j.fields {
      assert KeyPath(fields)[1..] == KeyPath(fields[1..]);
      NestedIsGet(j.fields[fields[0]], fields[1..], v);
    }
  }

  /** What could be read can be written: then setting a nested field cannot fail, and
      replaces the value at that path. */
  lemma {:induction false} ReadableIsWritable(obj: map<string, Json>, v: Json, fields: seq<string>)
    requires fields != [] && Nested(Object(obj), fields).Found?
    ensures CanPut(Object(obj), KeyPath(fields))
    ensures SetNested(obj, v, fields).Some?
    ensures Object(SetNested(obj, v, fields).value) == Put(Object(obj), KeyPath(fields), v)
    decreases |fields|
  {
    if |fields| > 1 {
      assert KeyPath(fields)[1..] == KeyPath(fields[1..]);
      assert Nested(obj[fields[0]], fields[1..]).Found?;
      ReadableIsWritable(obj[fields[0]].fields, v, fields[1..]);
    }
  }

  /** In general it fails exactly when some proper prefix of the path holds a value
      that is not an object, null included, although reading takes null for missing. */
  lemma {:induction false} SetNestedFailsIff(obj: map<string, Json>, v: Json, fields: seq<string>)
    requires fields != []
    ensures SetNested(obj, v, fields).None? <==>
            exists n :: 0 < n < |fields| && Get(Object(obj), KeyPath(fields[..n])).Some?
                        && !Get(Object(obj), KeyPath(fields[..n])).value.Object?
    decreases |fields|
  {
    var j := Object(obj);
    forall n | 0 < n < |fields| ensures KeyPath(fields[..n])[0] == Key(fields[0])
                                        && KeyPath(fields[..n])[1..] == KeyPath(fields[1..][..n - 1]) {
      assert fields[..n][1..] == fields[1..][..n - 1];
    }
    if |fields| > 1 {
      if fields[0] !in obj {
        SetNestedFailsIff(map[], v, fields[1..]);
        EmptyNeverBlocks(v, fields[1..]);
      } else if !obj[fields[0]].Object? {
        assert Get(j, KeyPath(fields[..1])) == Some(obj[fields[0]]);
      } else {
        var below := obj[fields[0]].fields;
        SetNestedFailsIff(below, v, fields[1..]);
        forall n | 0 < n < |fields|
          ensures Get(j, KeyPath(fields[..n])) == Get(Object(below), KeyPath(fields[1..][..n - 1]))
        {}
        if SetNested(obj, v, fields).None? {
          var m :| 0 < m < |fields[1..]| && Get(Object(below), KeyPath(fields[1..][..m])).Some?
                   && !Get(Object(below), KeyPath(fields[1..][..m])).value.Object?;
          assert fields[1..][..m] == fields[1..][..(m + 1) - 1];
          assert Get(j, KeyPath(fields[..m + 1])) == Get(Object(below), KeyPath(fields[1..][..m]));
        }
      }
    }
  }

  lemma {:induction false} EmptyNeverBlocks(v: Json, fields: seq<string>)
    requires fields != []
    ensures SetNested(map[], v, fields).Some?
    decreases |fields|
  {
    if |fields| > 1 {
      EmptyNeverBlocks(v, fields[1..]);
    }
  }

  lemma {:induction false} SetNestedReadsBack(obj: map<string, Json>, v: Json, fields: seq<string>)
    requires fields != [] && SetNested(obj, v, fields).Some?
    ensures Nested(Object(SetNested(obj, v, fields).value), fields) == Found(v)
    decreases |fields|
  {
    if |fields| == 1 {
      assert Nested(v, fields[1..]) == Found(v);
    } else {
      SetNestedReadsBack(if fields[0] in obj then obj[fields[0]].fields else map[], v, fields[1..]);
    }
  }
}
