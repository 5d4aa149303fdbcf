/** setServiceMonitorServerName: pointing the scrape endpoint of the ServiceMonitor
    at the namespace the operand runs in. */
module ServiceMonitor {
  import opened Wrappers
  import opened JsonTree

  const ENDPOINTS: seq<string> := ["spec", "endpoints"]
  const TLS_CONFIG: seq<Step> := [Key("spec"), Key("endpoints"), Index(0), Key("tlsConfig")]
  const SERVER_NAME: seq<Step> := TLS_CONFIG + [Key("serverName")]

  datatype Failure = EndpointsUnreadable | EndpointsEmpty | EndpointNotAnObject | TlsConfigNotAnObject | NotSettable

  /** The document has an object at spec.endpoints[0].tlsConfig. */
  predicate HasTlsConfig(doc: Json) {
    Get(doc, TLS_CONFIG).Some? && Get(doc, TLS_CONFIG).value.Object?
  }

  /** Why a document without one is refused. */
  function Refusal(doc: Json): Failure {
    match Nested(doc, ENDPOINTS)
    case Blocked => EndpointsUnreadable
    case Missing => EndpointsEmpty
    case Found(v) =>
      if !v.List? then EndpointsUnreadable
      else if v.items == [] then EndpointsEmpty
      else if !v.items[0].Object? then EndpointNotAnObject
      else TlsConfigNotAnObject
  }

  function WithServerName(doc: Json, name: string): (named: Json)
    ensures !HasTlsConfig(doc) ==> named == doc
  {
    if HasTlsConfig(doc) then
      ServerNameFits(doc);
      Put(doc, SERVER_NAME, Text(name))
    else
      doc
  }

  lemma {:induction false} PutWhereAnObjectIs(doc: Json, path: seq<Step>, k: string)
    requires Get(doc, path).Some? && Get(doc, path).value.Object?
    ensures CanPut(doc, path + [Key(k)])
    decreases |path|
  {
    var longer := path + [Key(k)];
    if path == [] {
      assert longer == [Key(k)];
    } else {
      assert longer[0] == path[0] && longer[1..] == path[1..] + [Key(k)];
      PutWhereAnObjectIs(Child(doc, path[0]).value, path[1..], k);
    }
  }

  lemma ServerNameFits(doc: Json)
    requires HasTlsConfig(doc)
    ensures CanPut(doc, SERVER_NAME)
  {
    PutWhereAnObjectIs(doc, TLS_CONFIG, "serverName");
  }

  /** The list of endpoints, read by field names and read by path. */
  lemma EndpointsAt(doc: Json, path: seq<Step>)
    requires |path| >= 2 && path[0] == Key("spec") && path[1] == Key("endpoints")
    ensures Get(doc, path)
         == if Nested(doc, ENDPOINTS).Found? then Get(Nested(doc, ENDPOINTS).value, path[2..]) else None
  {}

  lemma TlsConfigAt(doc: Json)
    ensures HasTlsConfig(doc) <==>
            && Nested(doc, ENDPOINTS).Found?
            && var v := Nested(doc, ENDPOINTS).value;
               v.List? && v.items != [] && v.items[0].Object?
               && "tlsConfig" in v.items[0].fields && v.items[0].fields["tlsConfig"].Object?
  {}

  class Unstructured {
    var content: map<string, Json>

    constructor (content: map<string, Json>)
      ensures this.content == content
    {
      this.content := content;
    }

    /** The endpoints are read as a copy, so nothing is touched before the last
        write, and that write cannot fail. */
    method SetServerName(name: string) returns (failure: Option<Failure>)
      modifies this
      ensures failure == if HasTlsConfig(Object(old(content))) then None else Some(Refusal(Object(old(content))))
      ensures Object(content) == WithServerName(Object(old(content)), name)
    {
      TlsConfigAt(Object(content));
      var found := NestedFieldNoCopy(content, ENDPOINTS);
      if found.Blocked? || (found.Found? && !found.value.List?) {
        return Some(EndpointsUnreadable);
      }
      if found.Missing? || found.value.items == [] {
        return Some(EndpointsEmpty);
      }
      var endpoints := found.value.items;
      if !endpoints[0].Object? {
        return Some(EndpointNotAnObject);
      }
      var ep := endpoints[0].fields;
      if "tlsConfig" !in ep || !ep["tlsConfig"].Object? {
        return Some(TlsConfigNotAnObject);
      }
      var tlsConfig := ep["tlsConfig"].fields;
      tlsConfig := tlsConfig["serverName" := Text(name)];
      ep := ep["tlsConfig" := Object(tlsConfig)];
      endpoints := endpoints[0 := Object(ep)];
      var written := SetNested(content, List(endpoints), ENDPOINTS);
      EditedEndpointsArePut(content, name);
      if written.None? {
        return Some(NotSettable);
      }
      content := written.value;
      return None;
    }
  }

  /** Writing back the edited list of endpoints is writing the one value. */
  lemma EditedEndpointsArePut(obj: map<string, Json>, name: string)
    requires HasTlsConfig(Object(obj))
    requires Nested(Object(obj), ENDPOINTS).Found?
    requires var v := Nested(Object(obj), ENDPOINTS).value;
             && v.List? && v.items != [] && v.items[0].Object?
             && "tlsConfig" in v.items[0].fields && v.items[0].fields["tlsConfig"].Object?
    ensures var endpoints := Nested(Object(obj), ENDPOINTS).value.items;
            var ep := endpoints[0].fields;
            var tlsConfig := ep["tlsConfig"].fields["serverName" := Text(name)];
            var edited := endpoints[0 := Object(ep["tlsConfig" := Object(tlsConfig)])];
            var written := SetNested(obj, List(edited), ENDPOINTS);
            written.Some? && Object(written.value) == WithServerName(Object(obj), name)
  {
    var doc := Object(obj);
    var v := Nested(doc, ENDPOINTS).value;
    var ep := v.items[0].fields;
    var tlsConfig := ep["tlsConfig"].fields["serverName" := Text(name)];
    var edited := List(v.items[0 := Object(ep["tlsConfig" := Object(tlsConfig)])]);
    ReadableIsWritable(obj, edited, ENDPOINTS);
    ServerNameFits(doc);
    var inner := [Index(0), Key("tlsConfig"), Key("serverName")];
    assert SERVER_NAME == KeyPath(ENDPOINTS) + inner;
    assert inner[1..] == [Key("tlsConfig"), Key("serverName")] && inner[1..][1..] == [Key("serverName")];
    NestedIsGet(doc, ENDPOINTS, v);
    assert Put(v, inner, Text(name)) == edited;
    PutThrough(doc, KeyPath(ENDPOINTS), inner, Text(name));
  }

  /** A value deep down can be put in two stages. */
  lemma {:induction false} PutThrough(j: Json, outer: seq<Step>, inner: seq<Step>, v: Json)
    requires outer != [] && inner != [] && CanPut(j, outer + inner)
    ensures Get(j, outer).Some? && CanPut(j, outer) && CanPut(Get(j, outer).value, inner)
    ensures Put(j, outer + inner, v) == Put(j, outer, Put(Get(j, outer).value, inner, v))
    decreases |outer|
  {
    var path := outer + inner;
    assert path[0] == outer[0] && path[1..] == outer[1..] + inner;
    var c := Child(j, path[0]).value;
    if |outer| == 1 {
      assert path[1..] == inner && Get(c, outer[1..]) == Some(c);
    } else {
      PutThrough(c, outer[1..], inner, v);
    }
  }

  // ---- the properties -----------------------------------------------------------

  /** The whole effect, for every document: the written name reads back, every value
      whose path neither leads to it nor through it is as before, and on the way to
      it lists keep their length and objects their keys, but for serverName itself. */
  lemma OnlyTheServerNameChanges(doc: Json, name: string)
    requires HasTlsConfig(doc)
    ensures var named := WithServerName(doc, name);
            && Get(named, SERVER_NAME) == Some(Text(name))
            && (forall q :: Diverge(SERVER_NAME, q) ==> Get(named, q) == Get(doc, q))
            && HasTlsConfig(named)
            && Get(named, TLS_CONFIG).value.fields.Keys == Get(doc, TLS_CONFIG).value.fields.Keys + {"serverName"}
            && Nested(doc, ENDPOINTS).Found? && Nested(named, ENDPOINTS).Found?
            && Nested(named, ENDPOINTS).value.List? && Nested(doc, ENDPOINTS).value.List?
            && |Nested(named, ENDPOINTS).value.items| == |Nested(doc, ENDPOINTS).value.items|
  {
    ServerNameFits(doc);
    var named := WithServerName(doc, name);
    PutReadsBack(doc, SERVER_NAME, Text(name));
    forall q | Diverge(SERVER_NAME, q) ensures Get(named, q) == Get(doc, q) {
      PutLeavesTheRest(doc, SERVER_NAME, Text(name), q);
    }
    PutKeepsShape(doc, SERVER_NAME, Text(name), 4);
    assert SERVER_NAME[..4] == TLS_CONFIG;
    TlsConfigAt(doc);
    TlsConfigAt(named);
    PutKeepsShape(doc, SERVER_NAME, Text(name), 2);
    var prefix := SERVER_NAME[..2];
    EndpointsAt(doc, prefix);
    EndpointsAt(named, prefix);
    assert prefix[2..] == [];
  }

  /** Every other endpoint is left alone. */
  lemma OtherEndpointsSurvive(doc: Json, name: string, i: nat)
    requires HasTlsConfig(doc) && i > 0
    ensures var path := [Key("spec"), Key("endpoints"), Index(i)];
            Get(WithServerName(doc, name), path) == Get(doc, path)
  {
    var path := [Key("spec"), Key("endpoints"), Index(i)];
    OnlyTheServerNameChanges(doc, name);
    assert Diverge(SERVER_NAME[2..], path[2..]);
    assert SERVER_NAME[1..][1..] == SERVER_NAME[2..] && path[1..][1..] == path[2..];
    assert Diverge(SERVER_NAME[1..], path[1..]);
    assert Diverge(SERVER_NAME, path);
  }

  lemma LastNameWins(doc: Json, first: string, second: string)
    ensures WithServerName(WithServerName(doc, first), second) == WithServerName(doc, second)
  {
    if HasTlsConfig(doc) {
      ServerNameFits(doc);
      OnlyTheServerNameChanges(doc, first);
      LastPutWins(doc, SERVER_NAME, Text(first), Text(second));
    }
  }

  /** A document comes back unchanged exactly when it is refused or has the name. */
  lemma UnchangedIff(doc: Json, name: string)
    ensures WithServerName(doc, name) == doc <==> !HasTlsConfig(doc) || Get(doc, SERVER_NAME) == Some(Text(name))
  {
    if HasTlsConfig(doc) {
      OnlyTheServerNameChanges(doc, name);
      if Get(doc, SERVER_NAME) == Some(Text(name)) {
        PutWhatIsThere(doc, SERVER_NAME);
      }
    }
  }

  /** The path, written out: the name is read back there. */
  lemma NamedAt(doc: Json, name: string)
    requires HasTlsConfig(doc)
    ensures Get(WithServerName(doc, name),
                [Key("spec"), Key("endpoints"), Index(0), Key("tlsConfig"), Key("serverName")]) == Some(Text(name))
  {
    OnlyTheServerNameChanges(doc, name);
    assert SERVER_NAME == [Key("spec"), Key("endpoints"), Index(0), Key("tlsConfig"), Key("serverName")];
  }

  /** A document is served exactly if there is an object at that place, and otherwise the
      reason tells how far there was anything of use: no readable list, an empty or missing
      one, a first endpoint that is no object, or one without a TLS configuration. */
  lemma RefusalTells(doc: Json)
    requires doc.Object?
    ensures var spec := Get(doc, [Key("spec")]);
            var endpoints := Get(doc, [Key("spec"), Key("endpoints")]);
            var first := Get(doc, [Key("spec"), Key("endpoints"), Index(0)]);
            var tls := Get(doc, [Key("spec"), Key("endpoints"), Index(0), Key("tlsConfig")]);
            && (HasTlsConfig(doc) <==> tls.Some? && tls.value.Object?)
            && (!HasTlsConfig(doc) ==>
                  && (Refusal(doc) == EndpointsUnreadable <==>
                      (spec.Some? && !spec.value.Null? && !spec.value.Object?)
                      || (endpoints.Some? && !endpoints.value.List?))
                  && (Refusal(doc) == EndpointsEmpty <==>
                      spec.None? || spec.value.Null? || (spec.value.Object? && endpoints.None?)
                      || endpoints == Some(List([])))
                  && (Refusal(doc) == EndpointNotAnObject <==> first.Some? && !first.value.Object?)
                  && (Refusal(doc) == TlsConfigNotAnObject <==> first.Some? && first.value.Object?))
  {
    var toSpec, toEndpoints := [Key("spec")], [Key("spec"), Key("endpoints")];
    var toFirst := [Key("spec"), Key("endpoints"), Index(0)];
    assert toSpec[1..] == [] && toEndpoints[1..] == [Key("endpoints")] && [Key("endpoints")][1..] == [];
    assert TLS_CONFIG == [Key("spec"), Key("endpoints"), Index(0), Key("tlsConfig")];
    EndpointsAt(doc, toEndpoints);
    EndpointsAt(doc, toFirst);
    assert toEndpoints[2..] == [] && toFirst[2..] == [Index(0)] && [Index(0)][1..] == [];
    assert ENDPOINTS[1..] == ["endpoints"] && ["endpoints"][1..] == [];
    if doc.Object? && "spec" in doc.fields {
      assert Nested(doc, ENDPOINTS) == Nested(doc.fields["spec"], ["endpoints"]);
    }
    TlsConfigAt(doc);
  }
}
