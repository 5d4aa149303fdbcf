/** The generation list in the operator status: a keyed lookup and an upsert. */
module Generations {
  datatype GenerationKey = GenerationKey(group: string, resource: string, namespace: string, name: string)

  datatype GenerationStatus = GenerationStatus(key: GenerationKey, lastGeneration: int, hash: string)

  /** The operator status: its generation list and everything else. */
  datatype OperatorStatus = OperatorStatus(generations: seq<GenerationStatus>, other: string)

  const OPERAND_NAME := "openshift-cli-manager"

  function DeploymentKey(namespace: string): GenerationKey {
    GenerationKey("apps", "deployments", namespace, OPERAND_NAME)
  }

  /** The index of the first entry for the key, or the length. */
  function IndexOf(generations: seq<GenerationStatus>, key: GenerationKey): (i: nat)
    ensures i <= |generations|
    ensures i < |generations| ==> generations[i].key == key
    ensures forall j :: 0 <= j < i ==> generations[j].key != key
  {
    if generations == [] || generations[0].key == key then 0 else 1 + IndexOf(generations[1..], key)
  }

  /** -1 when nothing has been recorded, which no live object ever has. */
  function Expected(generations: seq<GenerationStatus>, key: GenerationKey): int {
    var i := IndexOf(generations, key);
    if i < |generations| then generations[i].lastGeneration else -1
  }

  function Recorded(generations: seq<GenerationStatus>, g: GenerationStatus): seq<GenerationStatus> {
    var i := IndexOf(generations, g.key);
    if i < |generations| then generations[i := g] else generations + [g]
  }

  method GenerationFor(generations: seq<GenerationStatus>, key: GenerationKey) returns (i: nat)
    ensures i == IndexOf(generations, key)
  {
    i := 0;
    while i < |generations|
      invariant 0 <= i <= |generations|
      invariant forall j :: 0 <= j < i ==> generations[j].key != key
    {
      if generations[i].key == key {
        break;
      }
      i := i + 1;
    }
    FirstIsIndexOf(generations, key, i);
  }

  method SetGeneration(generations: seq<GenerationStatus>, g: GenerationStatus) returns (updated: seq<GenerationStatus>)
    ensures updated == Recorded(generations, g)
  {
    var i := GenerationFor(generations, g.key);
    if i == |generations| {
      return generations + [g];
    }
    updated := generations[i := generations[i].(lastGeneration := g.lastGeneration, hash := g.hash)];
  }

  lemma FirstIsIndexOf(generations: seq<GenerationStatus>, key: GenerationKey, i: nat)
    requires i <= |generations|
    requires i < |generations| ==> generations[i].key == key
    requires forall j :: 0 <= j < i ==> generations[j].key != key
    ensures i == IndexOf(generations, key)
  {}

  /** The recorded value reads back, every other key reads as before, no entry is
      lost or moved, and recording again changes nothing. */
  lemma RecordedReadsBack(generations: seq<GenerationStatus>, g: GenerationStatus)
    ensures Expected(Recorded(generations, g), g.key) == g.lastGeneration
    ensures forall key :: key != g.key ==>
              Expected(Recorded(generations, g), key) == Expected(generations, key)
    ensures forall e <- generations :: e.key != g.key ==> e in Recorded(generations, g)
    ensures Recorded(Recorded(generations, g), g) == Recorded(generations, g)
    ensures |generations| <= |Recorded(generations, g)| <= |generations| + 1
    ensures forall j :: 0 <= j < |generations| ==>
              Recorded(generations, g)[j].key == generations[j].key
              && (generations[j].key != g.key ==> Recorded(generations, g)[j] == generations[j])
  {
    var i := IndexOf(generations, g.key);
    var after := Recorded(generations, g);
    FirstIsIndexOf(after, g.key, i);
    forall key | key != g.key ensures Expected(after, key) == Expected(generations, key) {
      var j := IndexOf(generations, key);
      if j < |generations| {
        assert j != i;
        FirstIsIndexOf(after, key, j);
      } else {
        FirstIsIndexOf(after, key, |after|);
      }
    }
    forall e <- generations | e.key != g.key ensures e in after {
      var j :| 0 <= j < |generations| && generations[j] == e;
      assert j != i && after[j] == e;
    }
  }

  /** Which entry of the list is the operand's: group, resource, namespace and name tell. */
  lemma DeploymentEntry(generations: seq<GenerationStatus>, namespace: string, i: nat)
    requires i < |generations|
    requires generations[i].key.group == "apps" && generations[i].key.resource == "deployments"
    requires generations[i].key.namespace == namespace && generations[i].key.name == "openshift-cli-manager"
    requires forall j :: 0 <= j < i ==>
               || generations[j].key.group != "apps" || generations[j].key.resource != "deployments"
               || generations[j].key.namespace != namespace || generations[j].key.name != "openshift-cli-manager"
    ensures Expected(generations, DeploymentKey(namespace)) == generations[i].lastGeneration
  {
    FirstIsIndexOf(generations, DeploymentKey(namespace), i);
  }

  /** And when there is none, no generation of a live object is expected. */
  lemma NoDeploymentEntry(generations: seq<GenerationStatus>, namespace: string)
    requires forall e <- generations ::
               || e.key.group != "apps" || e.key.resource != "deployments"
               || e.key.namespace != namespace || e.key.name != "openshift-cli-manager"
    ensures Expected(generations, DeploymentKey(namespace)) < 0
  {
    FirstIsIndexOf(generations, DeploymentKey(namespace), |generations|);
  }
}
