/** The merge of owner references, after the labels and annotations the third part
    of an object's metadata that the apply helpers merge. */
module OwnerMerge {
  import opened Wrappers
  import opened LabelMerge

  /** `group` is None when the API version does not parse; such a reference
      matches nothing. */
  datatype OwnerRef = OwnerRef(group: Option<string>, version: string, kind: string, name: string, uid: string)

  predicate OwnerMatches(a: OwnerRef, b: OwnerRef) {
    a.name == b.name && a.kind == b.kind && a.group.Some? && a.group == b.group
  }

  /** The index of the first matching reference, or the length. */
  function OwnerIndex(owners: seq<OwnerRef>, o: OwnerRef): (i: nat)
    ensures i <= |owners|
    ensures i < |owners| ==> OwnerMatches(o, owners[i])
    ensures forall j :: 0 <= j < i ==> !OwnerMatches(o, owners[j])
  {
    if owners == [] || OwnerMatches(o, owners[0]) then 0 else 1 + OwnerIndex(owners[1..], o)
  }

  /** One round: a uid with a trailing dash asks for a removal. */
  function MergeOwner(owners: seq<OwnerRef>, o: OwnerRef): (seq<OwnerRef>, bool) {
    var i := OwnerIndex(owners, o);
    if i == |owners| then
      if IsRemoval(o.uid) then (owners, false) else (owners + [o], true)
    else if IsRemoval(o.uid) then (owners[..i] + owners[i + 1..], true)
    else if owners[i] != o then (owners[i := o], true)
    else (owners, false)
  }

  /** All rounds. */
  function MergeOwners(owners: seq<OwnerRef>, required: seq<OwnerRef>): (seq<OwnerRef>, bool) {
    if required == [] then (owners, false)
    else
      var n := |required| - 1;
      var (merged, changed) := MergeOwners(owners, required[..n]);
      var (merged', changed') := MergeOwner(merged, required[n]);
      (merged', changed || changed')
  }

  method MergeOwnerRefs(existing: seq<OwnerRef>, required: seq<OwnerRef>)
    returns (merged: seq<OwnerRef>, modified: bool)
    ensures (merged, modified) == MergeOwners(existing, required)
    ensures OwnersSettle(required) ==> (modified <==> merged != existing)
  {
    merged, modified := existing, false;
    for k := 0 to |required|
      invariant (merged, modified) == MergeOwners(existing, required[..k])
    {
      assert required[..k + 1][..k] == required[..k];
      var o := required[k];
      var i := 0;
      while i < |merged|
        invariant 0 <= i <= |merged|
        invariant forall j :: 0 <= j < i ==> !OwnerMatches(o, merged[j])
      {
        if OwnerMatches(o, merged[i]) {
          break;
        }
        i := i + 1;
      }
      assert i == OwnerIndex(merged, o);
      if i == |merged| {
        if !IsRemoval(o.uid) {
          merged, modified := merged + [o], true;
        }
      } else if IsRemoval(o.uid) {
        merged, modified := merged[..i] + merged[i + 1..], true;
      } else if merged[i] != o {
        merged, modified := merged[i := o], true;
      }
    }
    assert required[..|required|] == required;
    if OwnersSettle(required) {
      OwnerMergeSettles(existing, required);
    }
  }

  // ---- when the merge settles -----------------------------------------------

  /** A round for this reference would change nothing. */
  predicate IsQuiet(owners: seq<OwnerRef>, o: OwnerRef) { !MergeOwner(owners, o).1 }

  /** The flag stays down exactly when no reference had anything to do. */
  lemma {:induction false} OwnerFlagIsExact(owners: seq<OwnerRef>, required: seq<OwnerRef>)
    ensures !MergeOwners(owners, required).1 <==> forall o <- required :: IsQuiet(owners, o)
    ensures !MergeOwners(owners, required).1 ==> MergeOwners(owners, required).0 == owners
  {
    if required != [] {
      var n := |required| - 1;
      OwnerFlagIsExact(owners, required[..n]);
      assert required[n] in required && forall o <- required[..n] :: o in required;
      if !MergeOwners(owners, required[..n]).1 {
        assert MergeOwners(owners, required).1 <==> !IsQuiet(owners, required[n]);
        forall o <- required | IsQuiet(owners, required[n]) ensures IsQuiet(owners, o) {
          assert o in required[..n] || o == required[n];
        }
      }
    }
  }

  /** No reference asks for a removal, each can match, and no two that match differ.
      (A removal that can match nothing is harmless.) */
  ghost predicate OwnersSettle(required: seq<OwnerRef>) {
    && (forall o <- required :: o.group.Some? <==> !IsRemoval(o.uid))
    && (forall o <- required, p <- required :: OwnerMatches(o, p) ==> o == p)
  }

  lemma FirstIsOwnerIndex(owners: seq<OwnerRef>, o: OwnerRef, i: nat)
    requires i <= |owners| && (i < |owners| ==> OwnerMatches(o, owners[i]))
    requires forall j :: 0 <= j < i ==> !OwnerMatches(o, owners[j])
    ensures OwnerIndex(owners, o) == i
  {}

  /** A round makes its own reference quiet and keeps quiet ones quiet. */
  lemma RoundSettles(owners: seq<OwnerRef>, o: OwnerRef, p: OwnerRef)
    requires o.group.Some? <==> !IsRemoval(o.uid)
    requires p.group.Some? <==> !IsRemoval(p.uid)
    requires OwnerMatches(o, p) ==> o == p
    requires p == o || IsQuiet(owners, p)
    ensures IsQuiet(MergeOwner(owners, o).0, p)
  {
    if p.group.Some? && o.group.Some? {
      var once := MergeOwner(owners, o).0;
      var i := OwnerIndex(owners, p);
      assert i < |once| && once[i] == p;
      assert forall j :: 0 <= j < i ==> !OwnerMatches(p, once[j]);
      FirstIsOwnerIndex(once, p, i);
    }
  }

  lemma {:induction false} RoundsSettle(owners: seq<OwnerRef>, required: seq<OwnerRef>)
    requires OwnersSettle(required)
    ensures forall p <- required :: IsQuiet(MergeOwners(owners, required).0, p)
  {
    if required != [] {
      var n := |required| - 1;
      RoundsSettle(owners, required[..n]);
      var before := MergeOwners(owners, required[..n]).0;
      forall p <- required ensures IsQuiet(MergeOwners(owners, required).0, p) {
        assert p in required[..n] || p == required[n];
        RoundSettles(before, required[n], p);
      }
    }
  }

  /** The second merge changes nothing, the flag is exact, and owners that match no
      required reference stay. */
  lemma {:induction false} OwnerMergeSettles(owners: seq<OwnerRef>, required: seq<OwnerRef>)
    requires OwnersSettle(required)
    ensures var once := MergeOwners(owners, required).0;
            && MergeOwners(once, required) == (once, false)
            && (MergeOwners(owners, required).1 <==> once != owners)
    ensures MergeOwners(CleanOwners(required), required) == (CleanOwners(required), false)
  {
    var once := MergeOwners(owners, required).0;
    RoundsSettle(owners, required);
    OwnerFlagIsExact(once, required);
    OwnerFlagIsExact(owners, required);
    CleanOwnersAreQuiet(required);
    OwnerFlagIsExact(CleanOwners(required), required);
  }

  lemma RoundKeepsForeign(owners: seq<OwnerRef>, o: OwnerRef, x: OwnerRef)
    requires x in owners && !OwnerMatches(o, x)
    ensures x in MergeOwner(owners, o).0
  {
    var j :| 0 <= j < |owners| && owners[j] == x;
    var i := OwnerIndex(owners, o);
    var after := MergeOwner(owners, o).0;
    if j < i {
      assert after[j] == x;
    } else if IsRemoval(o.uid) {
      assert x in owners[i + 1..] by {
        assert owners[i + 1..][j - i - 1] == x;
      }
    } else {
      assert after[j] == x;
    }
  }

  lemma {:induction false} ForeignOwnerSurvives(owners: seq<OwnerRef>, required: seq<OwnerRef>, x: OwnerRef)
    requires x in owners && (forall o <- required :: !OwnerMatches(o, x))
    ensures x in MergeOwners(owners, required).0
  {
    if required != [] {
      var n := |required| - 1;
      assert required[n] in required;
      ForeignOwnerSurvives(owners, required[..n], x);
      RoundKeepsForeign(MergeOwners(owners, required[..n]).0, required[n], x);
    }
  }

  /** What is left of the references when the object has to be created. */
  function CleanOwners(required: seq<OwnerRef>): (clean: seq<OwnerRef>)
    ensures forall o :: o in clean <==> o in required && !IsRemoval(o.uid)
  {
    if required == [] then []
    else (if IsRemoval(required[0].uid) then [] else [required[0]]) + CleanOwners(required[1..])
  }

  lemma CleanOwnersAreQuiet(required: seq<OwnerRef>)
    requires OwnersSettle(required)
    ensures forall p <- required :: IsQuiet(CleanOwners(required), p)
  {
    var clean := CleanOwners(required);
    forall p <- required ensures IsQuiet(clean, p) {
      if !IsRemoval(p.uid) {
        var j :| 0 <= j < |clean| && clean[j] == p;
        assert OwnerMatches(p, clean[j]);
        assert clean[OwnerIndex(clean, p)] in clean;
      }
    }
  }

  function Matches(owners: seq<OwnerRef>, o: OwnerRef): nat {
    if owners == [] then 0 else (if OwnerMatches(o, owners[0]) then 1 else 0) + Matches(owners[1..], o)
  }

  lemma {:induction false} MatchesAppend(a: seq<OwnerRef>, b: seq<OwnerRef>, o: OwnerRef)
    ensures Matches(a + b, o) == Matches(a, o) + Matches(b, o)
  {
    if a == [] {
      assert a + b == b;
    } else {
      assert (a + b)[1..] == a[1..] + b;
      MatchesAppend(a[1..], b, o);
    }
  }

  lemma {:induction false} NoMatches(owners: seq<OwnerRef>, o: OwnerRef)
    requires forall j :: 0 <= j < |owners| ==> !OwnerMatches(o, owners[j])
    ensures Matches(owners, o) == 0
  {
    if owners != [] {
      NoMatches(owners[1..], o);
    }
  }

  lemma MatchesSplit(owners: seq<OwnerRef>, i: nat, o: OwnerRef)
    requires i < |owners|
    ensures var rest := Matches(owners[..i], o) + Matches(owners[i + 1..], o);
            rest <= Matches(owners, o) <= rest + 1
  {
    assert owners == owners[..i] + ([owners[i]] + owners[i + 1..]);
    MatchesAppend(owners[..i], [owners[i]] + owners[i + 1..], o);
    MatchesAppend([owners[i]], owners[i + 1..], o);
  }

  /** A round takes away at most one match. */
  lemma RoundTakesOne(owners: seq<OwnerRef>, o: OwnerRef, p: OwnerRef)
    ensures Matches(MergeOwner(owners, p).0, o) + 1 >= Matches(owners, o)
  {
    var i := OwnerIndex(owners, p);
    if i == |owners| {
      MatchesAppend(owners, [p], o);
    } else {
      MatchesSplit(owners, i, o);
      MatchesAppend(owners[..i], owners[i + 1..], o);
      var replaced := owners[i := p];
      MatchesSplit(replaced, i, o);
      assert replaced[..i] == owners[..i] && replaced[i + 1..] == owners[i + 1..];
    }
  }

  lemma {:induction false} RoundsTakeFew(owners: seq<OwnerRef>, o: OwnerRef, required: seq<OwnerRef>)
    ensures Matches(MergeOwners(owners, required).0, o) + |required| >= Matches(owners, o)
  {
    if required != [] {
      var n := |required| - 1;
      RoundsTakeFew(owners, o, required[..n]);
      RoundTakesOne(MergeOwners(owners, required[..n]).0, o, required[n]);
    }
  }

  predicate SettlesFrom(owners: seq<OwnerRef>, required: seq<OwnerRef>) {
    !MergeOwners(MergeOwners(owners, required).0, required).1
  }

  lemma {:induction false} AllMatch(owners: seq<OwnerRef>, o: OwnerRef)
    requires o.group.Some? && (forall j :: 0 <= j < |owners| ==> owners[j] == o)
    ensures Matches(owners, o) == |owners|
  {
    if owners != [] {
      AllMatch(owners[1..], o);
    }
  }

  /** With enough owners to remove, a removal still finds one in the second merge. */
  lemma RemovalNeverSettles(required: seq<OwnerRef>, o: OwnerRef) returns (many: seq<OwnerRef>)
    requires o in required && o.group.Some? && IsRemoval(o.uid)
    ensures !SettlesFrom(many, required)
  {
    many := seq(|required| + 1, _ => o);
    AllMatch(many, o);
    RoundsTakeFew(many, o, required);
    var once := MergeOwners(many, required).0;
    if OwnerIndex(once, o) == |once| {
      NoMatches(once, o);
    }
    OwnerFlagIsExact(once, required);
  }

  /** The first match of both cannot be both of them. */
  lemma ContradictionNeverSettles(owners: seq<OwnerRef>, required: seq<OwnerRef>, o: OwnerRef, p: OwnerRef)
    requires o in required && p in required && OwnerMatches(o, p) && o != p
    requires !IsRemoval(o.uid) && !IsRemoval(p.uid)
    ensures !SettlesFrom(owners, required)
  {
    var once := MergeOwners(owners, required).0;
    OwnerFlagIsExact(once, required);
    FirstIsOwnerIndex(once, p, OwnerIndex(once, o));
    assert !IsQuiet(once, o) || !IsQuiet(once, p);
  }

  /** A reference that matches nothing is appended every time. */
  lemma UnmatchableNeverSettles(owners: seq<OwnerRef>, required: seq<OwnerRef>, o: OwnerRef)
    requires o in required && o.group.None? && !IsRemoval(o.uid)
    ensures !SettlesFrom(owners, required)
  {
    var once := MergeOwners(owners, required).0;
    OwnerFlagIsExact(once, required);
    assert !IsQuiet(once, o);
  }

  /** The merge settles after one round for every list of owners if and only if the
      required references do not ask for removals or contradict each other. */
  lemma OwnerMergeSettlesIff(required: seq<OwnerRef>)
    ensures (forall owners :: SettlesFrom(owners, required)) <==> OwnersSettle(required)
  {
    if OwnersSettle(required) {
      forall owners ensures SettlesFrom(owners, required) {
        OwnerMergeSettles(owners, required);
      }
    } else if o :| o in required && o.group.Some? && IsRemoval(o.uid) {
      var many := RemovalNeverSettles(required, o);
    } else if o :| o in required && o.group.None? && !IsRemoval(o.uid) {
      UnmatchableNeverSettles([], required, o);
    } else {
      var o, p :| o in required && p in required && OwnerMatches(o, p) && o != p;
      ContradictionNeverSettles([], required, o, p);
    }
  }

  // ---- in fields -----------------------------------------------------------------

  /** One required reference with a parsable group: `i` is the first existing one with the
      same name, kind and group, whatever its uid and version. That one is replaced, or
      taken away if the uid ends in a dash; if there is none, it is appended. */
  lemma OneOwnerMerged(owners: seq<OwnerRef>, o: OwnerRef, i: nat)
    requires o.group.Some? && i <= |owners|
    requires i < |owners| ==> owners[i].name == o.name && owners[i].kind == o.kind && owners[i].group == o.group
    requires forall j :: 0 <= j < i ==>
               owners[j].name != o.name || owners[j].kind != o.kind || owners[j].group != o.group
    ensures MergeOwners(owners, [o]).0
         == if |o.uid| > 0 && o.uid[|o.uid| - 1] == '-' then
              if i < |owners| then owners[..i] + owners[i + 1..] else owners
            else
              if i < |owners| then owners[..i] + [o] + owners[i + 1..] else owners + [o]
  {
    OneIsOneRound(owners, o);
    RoundInFields(owners, o, i);
  }

  lemma OneIsOneRound(owners: seq<OwnerRef>, o: OwnerRef)
    ensures MergeOwners(owners, [o]).0 == MergeOwner(owners, o).0
  {
    assert [o][..0] == [];
    assert MergeOwners(owners, [o][..0]) == (owners, false);
  }

  lemma RoundInFields(owners: seq<OwnerRef>, o: OwnerRef, i: nat)
    requires i <= |owners| && (i < |owners| ==> OwnerMatches(o, owners[i]))
    requires forall j :: 0 <= j < i ==> !OwnerMatches(o, owners[j])
    ensures MergeOwner(owners, o).0
         == if IsRemoval(o.uid) then if i < |owners| then owners[..i] + owners[i + 1..] else owners
            else if i < |owners| then owners[..i] + [o] + owners[i + 1..]
            else owners + [o]
  {
    FirstIsOwnerIndex(owners, o, i);
    if i < |owners| {
      assert owners[i := o] == owners[..i] + [o] + owners[i + 1..];
      assert owners[i] == o ==> owners[i := o] == owners;
    }
  }

  /** So an owner that was deleted and created anew under another uid leaves no dangling
      reference, if there was just the one, and a removal leaves none at all. */
  lemma RecreatedOwnerIsReplaced(owners: seq<OwnerRef>, o: OwnerRef, k: nat)
    requires o.group.Some? && k < |owners|
    requires forall j :: 0 <= j < |owners| ==>
               (j == k <==> owners[j].name == o.name && owners[j].kind == o.kind && owners[j].group == o.group)
    ensures var merged := MergeOwners(owners, [o]).0;
            && (forall x <- merged :: x.name == o.name && x.kind == o.kind && x.group == o.group ==>
                  x == o && !(|o.uid| > 0 && o.uid[|o.uid| - 1] == '-'))
            && (forall x <- owners :: x.name != o.name || x.kind != o.kind || x.group != o.group ==> x in merged)
  {
    OneOwnerMerged(owners, o, k);
    forall x <- owners | x.name != o.name || x.kind != o.kind || x.group != o.group
      ensures x in MergeOwners(owners, [o]).0
    {
      ForeignOwnerSurvives(owners, [o], x);
    }
  }

  /** A list of required references that ask for no removals and do not contradict each
      other: all of them are there afterwards, and nothing else but what was there. */
  lemma {:induction false} RequiredOwnersAreThere(owners: seq<OwnerRef>, required: seq<OwnerRef>)
    requires OwnersSettle(required)
    ensures forall o <- required :: o.group.Some? ==> o in MergeOwners(owners, required).0
    ensures forall x <- MergeOwners(owners, required).0 :: x in owners || x in required
  {
    RoundsSettle(owners, required);
    var merged := MergeOwners(owners, required).0;
    forall o <- required | o.group.Some? ensures o in merged {
      assert IsQuiet(merged, o) && OwnerIndex(merged, o) < |merged|;
    }
    NothingElseIsThere(owners, required);
  }

  lemma {:induction false} NothingElseIsThere(owners: seq<OwnerRef>, required: seq<OwnerRef>)
    ensures forall x <- MergeOwners(owners, required).0 :: x in owners || x in required
  {
    if required != [] {
      var n := |required| - 1;
      NothingElseIsThere(owners, required[..n]);
      var before := MergeOwners(owners, required[..n]).0;
      forall x <- MergeOwners(owners, required).0 ensures x in owners || x in required {
        assert x in before || x == required[n];
      }
    }
  }
}
