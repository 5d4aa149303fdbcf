/** The merge of labels and annotations, with which every apply helper starts: they
    are merged key by key, in whatever order Go's map iteration
    happens to produce, and a key with a trailing dash asks for a removal. */
module LabelMerge {
  type Labels = map<string, string>

  predicate IsRemoval(key: string) {
    |key| > 0 && key[|key| - 1] == '-'
  }

  /** `strings.TrimRight(key, "-")`: every trailing dash goes, not just one. */
  function TrimDashes(key: string): (trimmed: string)
    ensures trimmed <= key && !IsRemoval(trimmed)
    ensures forall i :: |trimmed| <= i < |key| ==> key[i] == '-'
  {
    if IsRemoval(key) then TrimDashes(key[..|key| - 1]) else key
  }

  /** What one iteration of the merge loop does to the existing map, and
      whether it raises the modified flag. */
  function MergeKey(existing: Labels, key: string, value: string): (Labels, bool) {
    if IsRemoval(key) then
      if TrimDashes(key) in existing then (existing - {TrimDashes(key)}, true) else (existing, false)
    else if key in existing && existing[key] == value then (existing, false)
    else (existing[key := value], true)
  }

  /** The whole loop, for one iteration order. */
  function MergeInOrder(existing: Labels, required: Labels, order: seq<string>): (Labels, bool)
    requires forall key <- order :: key in required
  {
    if order == [] then (existing, false)
    else
      var n := |order| - 1;
      var (merged, changed) := MergeInOrder(existing, required, order[..n]);
      var (merged', changed') := MergeKey(merged, order[n], required[order[n]]);
      (merged', changed || changed')
  }

  /** `order` visits every key of `required` exactly once. */
  ghost predicate IsOrder(order: seq<string>, required: Labels) {
    && (forall i, j :: 0 <= i < j < |order| ==> order[i] != order[j])
    && (forall key :: key in order <==> key in required)
  }

  /** The loop of MergeMap. Each iteration picks any key not yet visited. */
  method MergeMap(existing: Labels, required: Labels)
    returns (merged: Labels, modified: bool, ghost order: seq<string>)
    ensures IsOrder(order, required)
    ensures (merged, modified) == MergeInOrder(existing, required, order)
    ensures ConflictFree(required) ==> merged == Merged(existing, required) && (modified <==> merged != existing)
  {
    merged, modified, order := existing, false, [];
    var remaining := required.Keys;
    while remaining != {}
      invariant remaining <= required.Keys
      invariant forall i, j :: 0 <= i < j < |order| ==> order[i] != order[j]
      invariant forall key :: key in order <==> key in required && key !in remaining
      invariant (merged, modified) == MergeInOrder(existing, required, order)
    {
      var key :| key in remaining;
      var (merged', changed) := MergeKey(merged, key, required[key]);
      ghost var longer := order + [key];
      assert longer[..|longer| - 1] == order;
      merged, modified, order := merged', modified || changed, longer;
      remaining := remaining - {key};
    }
    if ConflictFree(required) {
      OrderIsInvisible(existing, required, order);
    }
  }

  /** Processing this key would change `existing`. */
  predicate Touches(existing: Labels, required: Labels, key: string)
    requires key in required
  {
    if IsRemoval(key) then TrimDashes(key) in existing
    else !(key in existing && existing[key] == required[key])
  }

  /** The merge has nothing left to do. */
  ghost predicate Quiet(existing: Labels, required: Labels) {
    forall key <- required :: !Touches(existing, required, key)
  }

  /** No key is both set and asked to be removed. */
  ghost predicate ConflictFree(required: Labels) {
    forall k <- required, q <- required :: IsRemoval(k) && !IsRemoval(q) ==> TrimDashes(k) != q
  }

  /** The order-free reading of the merge. */
  function Merged(existing: Labels, required: Labels): Labels {
    var added := map q | q in required && !IsRemoval(q) :: required[q];
    var removed := set k | k in required && IsRemoval(k) :: TrimDashes(k);
    (existing - removed) + added
  }

  /** The modified flag stays down exactly when nothing had to be touched, and
      then the map is unchanged: in any order, conflicts or not. */
  lemma {:induction false} FlagIsExact(existing: Labels, required: Labels, order: seq<string>)
    requires forall key <- order :: key in required
    ensures var (merged, changed) := MergeInOrder(existing, required, order);
            && (!changed <==> forall key <- order :: !Touches(existing, required, key))
            && (!changed ==> merged == existing)
  {
    if order != [] {
      var n := |order| - 1;
      FlagIsExact(existing, required, order[..n]);
      assert forall key :: key in order <==> key in order[..n] || key == order[n];
      if forall key <- order[..n] :: !Touches(existing, required, key) {
        assert Touches(existing, required, order[n]) ==> MergeKey(existing, order[n], required[order[n]]).1;
      } else {
        var key :| key in order[..n] && Touches(existing, required, key);
        assert key in order;
      }
    }
  }

  /** A key that no visited key names is as it was, in every order. */
  lemma {:induction false} ForeignKeySurvives(existing: Labels, required: Labels, order: seq<string>, q: string)
    requires forall key <- order :: key in required && TrimDashes(key) != q
    ensures var merged := MergeInOrder(existing, required, order).0;
            (q in merged <==> q in existing) && (q in merged ==> merged[q] == existing[q])
  {
    if order != [] {
      ForeignKeySurvives(existing, required, order[..|order| - 1], q);
      assert order[|order| - 1] in order;
    }
  }

  /** After any part of the loop the visited keys are settled. */
  lemma {:induction false} PrefixSettles(existing: Labels, required: Labels, order: seq<string>)
    requires ConflictFree(required)
    requires forall key <- order :: key in required
    requires forall i, j :: 0 <= i < j < |order| ==> order[i] != order[j]
    ensures forall key <- order :: !Touches(MergeInOrder(existing, required, order).0, required, key)
  {
    if order != [] {
      var n := |order| - 1;
      PrefixSettles(existing, required, order[..n]);
      var before := MergeInOrder(existing, required, order[..n]).0;
      var after := MergeInOrder(existing, required, order).0;
      var last := order[n];
      assert after == MergeKey(before, last, required[last]).0;
      forall key <- order ensures !Touches(after, required, key) {
        if key != last {
          assert key in order[..n];
          assert !Touches(before, required, key);
          assert IsRemoval(key) == IsRemoval(last) || TrimDashes(key) != TrimDashes(last);
        }
      }
    }
  }

  lemma MergedAt(existing: Labels, required: Labels, q: string)
    ensures q in required && !IsRemoval(q) ==>
              q in Merged(existing, required) && Merged(existing, required)[q] == required[q]
    ensures !(q in required && !IsRemoval(q)) ==>
              (forall k <- required :: IsRemoval(k) && TrimDashes(k) == q ==> q !in Merged(existing, required))
    ensures (forall k <- required :: TrimDashes(k) != q) ==>
              && (q in Merged(existing, required) <==> q in existing)
              && (q in existing ==> Merged(existing, required)[q] == existing[q])
  {}

  lemma OrderedIsMergedAt(existing: Labels, required: Labels, order: seq<string>, q: string)
    requires ConflictFree(required) && IsOrder(order, required)
    ensures var merged := MergeInOrder(existing, required, order).0;
            var closed := Merged(existing, required);
            (q in merged <==> q in closed) && (q in merged ==> merged[q] == closed[q])
  {
    PrefixSettles(existing, required, order);
    MergedAt(existing, required, q);
    var merged := MergeInOrder(existing, required, order).0;
    if q in required && !IsRemoval(q) {
      assert q in order && !Touches(merged, required, q);
    } else if k :| k in required && IsRemoval(k) && TrimDashes(k) == q {
      assert k in order && !Touches(merged, required, k);
    } else {
      forall key <- order ensures TrimDashes(key) != q {
        assert key in required;
      }
      ForeignKeySurvives(existing, required, order, q);
    }
  }

  /** Without conflicts the iteration order is invisible: every order computes
      `Merged`, reports a change exactly when there is one, and leaves the merge
      quiet. */
  lemma OrderIsInvisible(existing: Labels, required: Labels, order: seq<string>)
    requires ConflictFree(required) && IsOrder(order, required)
    ensures MergeInOrder(existing, required, order)
         == (Merged(existing, required), Merged(existing, required) != existing)
    ensures Quiet(Merged(existing, required), required)
  {
    var (merged, changed) := MergeInOrder(existing, required, order);
    forall q { OrderedIsMergedAt(existing, required, order, q); }
    assert merged == Merged(existing, required);
    PrefixSettles(existing, required, order);
    FlagIsExact(existing, required, order);
    forall key <- required ensures !Touches(merged, required, key) { assert key in order; }
    if merged == existing {
      forall key <- order ensures !Touches(existing, required, key) {}
    }
  }

  /** A second merge reports "unchanged" exactly for conflict-free input: with a
      key both set and removed it reports a change for every map and order. */
  lemma SecondMergeIsQuietIff(existing: Labels, required: Labels, first: seq<string>, second: seq<string>)
    requires IsOrder(first, required) && IsOrder(second, required)
    ensures var once := MergeInOrder(existing, required, first).0;
            !MergeInOrder(once, required, second).1 <==> ConflictFree(required)
  {
    var once := MergeInOrder(existing, required, first).0;
    FlagIsExact(once, required, second);
    if ConflictFree(required) {
      PrefixSettles(existing, required, first);
      forall key <- second ensures !Touches(once, required, key) { assert key in first; }
    } else {
      var k, q :| k in required && q in required && IsRemoval(k) && !IsRemoval(q) && TrimDashes(k) == q;
      assert k in second && q in second;
      assert Touches(once, required, k) || Touches(once, required, q);
    }
  }

  /** What is left of the required labels when the object has to be created. */
  function CleanKeys(labels: Labels): Labels {
    map k | k in labels && !IsRemoval(k) :: labels[k]
  }

  lemma CleanKeysAreQuietIff(required: Labels, order: seq<string>)
    requires IsOrder(order, required)
    ensures !MergeInOrder(CleanKeys(required), required, order).1 <==> ConflictFree(required)
  {
    var clean := CleanKeys(required);
    FlagIsExact(clean, required, order);
    if ConflictFree(required) {
      forall key <- order ensures !Touches(clean, required, key) {}
    } else {
      var k, q :| k in required && q in required && IsRemoval(k) && !IsRemoval(q) && TrimDashes(k) == q;
      assert k in order && Touches(clean, required, k);
    }
  }

  /** Every map has an iteration order. */
  lemma {:induction false} SomeOrder(required: Labels) returns (order: seq<string>)
    ensures IsOrder(order, required)
    decreases required.Keys
  {
    if required == map[] {
      order := [];
    } else {
      var key :| key in required;
      var rest := SomeOrder(required - {key});
      order := rest + [key];
    }
  }

  // ---- key by key ------------------------------------------------------------------

  /** Without contradictions and in every order: a required key has the required value, a
      key that is required with a dash behind it is gone, and a key that no required key
      begins with is as before. */
  lemma MergedKeyByKey(existing: Labels, required: Labels, order: seq<string>, q: string)
    requires ConflictFree(required) && IsOrder(order, required)
    ensures var merged := MergeInOrder(existing, required, order).0;
            && (q in required && !(|q| > 0 && q[|q| - 1] == '-') ==> q in merged && merged[q] == required[q])
            && (q + "-" in required && !(|q| > 0 && q[|q| - 1] == '-') ==> q !in merged)
            && ((forall k <- required :: !(q <= k)) ==>
                  (q in merged <==> q in existing) && (q in merged ==> merged[q] == existing[q]))
  {
    OrderIsInvisible(existing, required, order);
    MergedAt(existing, required, q);
    if q + "-" in required && !(|q| > 0 && q[|q| - 1] == '-') {
      var k := q + "-";
      assert IsRemoval(k) && k[..|k| - 1] == q;
      assert TrimDashes(k) == TrimDashes(q) == q;
    }
  }

  /** What is created: the required keys without a dash at the end. */
  lemma CleanKeyByKey(required: Labels, q: string)
    ensures q in CleanKeys(required) <==> q in required && !(|q| > 0 && q[|q| - 1] == '-')
    ensures q in CleanKeys(required) ==> CleanKeys(required)[q] == required[q]
  {}
}
