/** ApplyOperatorStatus and the transition times of its conditions, for a field
    manager that is alone in writing the status. */
module Transitions {
  import opened Wrappers
  import opened Requests

  /** `detail` stands for reason and message. */
  datatype Condition = Condition(kind: string, status: string, detail: string, time: Option<int>)

  /** The status as applied and as extracted: conditions and everything else. */
  datatype Status = Status(conditions: seq<Condition>, rest: string)

  /** No field at all. */
  const NOTHING := Status([], "")

  /** `owned` is what the manager owns of the status. */
  datatype Server = Server(present: bool, owned: Status)

  /** The status pointer of the extracted configuration: nil when nothing is owned,
      whereas the desired one is always set. */
  function Extracted(s: Server): Option<Status> {
    if s.owned == NOTHING then None else Some(s.owned)
  }

  function Find(conditions: seq<Condition>, kind: string): Option<Condition> {
    if conditions == [] then None
    else if conditions[0].kind == kind then Some(conditions[0])
    else Find(conditions[1..], kind)
  }

  /** The old time when the status is the same, else the supplied time, else now. */
  function Stamp(c: Condition, before: seq<Condition>, now: int): Condition {
    var e := Find(before, c.kind);
    var time := if e.Some? && e.value.status == c.status then e.value.time else c.time;
    c.(time := if time.None? then Some(now) else time)
  }

  function StampAll(conditions: seq<Condition>, before: seq<Condition>, now: int): (stamped: seq<Condition>)
    ensures |stamped| == |conditions|
    ensures forall i :: 0 <= i < |stamped| ==> stamped[i] == Stamp(conditions[i], before, now)
  {
    seq(|conditions|, i requires 0 <= i < |conditions| => Stamp(conditions[i], before, now))
  }

  /** Works on the caller's slice in place. */
  method SetApplyConditionsLastTransitionTime(conditions: array<Condition>, before: seq<Condition>, now: int)
    modifies conditions
    ensures conditions[..] == StampAll(old(conditions[..]), before, now)
  {
    for i := 0 to conditions.Length
      invariant forall j :: 0 <= j < i ==> conditions[j] == Stamp(old(conditions[j]), before, now)
      invariant forall j :: i <= j < conditions.Length ==> conditions[j] == old(conditions[j])
    {
      var condition := conditions[i];
      var existing := FindApplyCondition(before, condition.kind);
      if existing.Some? && existing.value.status == condition.status {
        condition := condition.(time := existing.value.time);
      }
      if condition.time.None? {
        condition := condition.(time := Some(now));
      }
      conditions[i] := condition;
    }
  }

  method FindApplyCondition(haystack: seq<Condition>, kind: string) returns (found: Option<Condition>)
    ensures found == Find(haystack, kind)
  {
    var i := 0;
    while i < |haystack|
      invariant 0 <= i <= |haystack|
      invariant Find(haystack, kind) == Find(haystack[i..], kind)
    {
      if haystack[i].kind == kind {
        return Some(haystack[i]);
      }
      i := i + 1;
    }
    return None;
  }

  // ---- the server and the call ------------------------------------------------

  /** Conditions are keyed by their type; the server rejects a list with repeats. */
  predicate Distinct(conditions: seq<Condition>) {
    forall i, j :: 0 <= i < j < |conditions| ==> conditions[i].kind != conditions[j].kind
  }

  /** `creates` is whether a status apply may create a missing object. */
  function ApplyStatus(s: Server, status: Status, creates: bool): (Server, bool) {
    if (!s.present && !creates) || !Distinct(status.conditions) then (s, false)
    else (Server(true, status), true)
  }

  predicate Skips(s: Server, desired: Status) {
    s.present && Extracted(s) == Some(desired)
  }

  function Before(s: Server): seq<Condition> {
    if s.present then s.owned.conditions else []
  }

  /** What is sent: the comparison comes first, the stamping after it. */
  function Stamped(s: Server, desired: Status, now: int): Status {
    desired.(conditions := StampAll(desired.conditions, Before(s), now))
  }

  /** The whole call. `meanwhile` is what others have made of the server between the
      read and the write. */
  function CallAmid(s: Server, meanwhile: Server, desired: Status, now: int, creates: bool): (Server, bool) {
    if Skips(s, desired) then (meanwhile, true) else ApplyStatus(meanwhile, Stamped(s, desired, now), creates)
  }

  /** The call of a manager that is alone. */
  function Call(s: Server, desired: Status, now: int, creates: bool): (Server, bool) {
    CallAmid(s, s, desired, now, creates)
  }

  class CLIManagerClient {
    var server: Server

    constructor (server: Server)
      ensures this.server == server
    {
      this.server := server;
    }

    /** Called without a configuration (not `given`), or when the read or the
        extraction fails, it does nothing. Otherwise, unless it skips, the caller
        finds its conditions stamped afterwards, since the desired conditions share
        their storage: also when the request then fails. */
    method ApplyOperatorStatus(given: bool, conditions: array<Condition>, rest: string, now: int, creates: bool,
                               readable: bool, extractable: bool, meanwhile: Server, reply: Reply)
      returns (ok: bool)
      modifies this, conditions
      ensures !given || !readable || (old(server).present && !extractable) ==>
                !ok && server == old(server) && conditions[..] == old(conditions[..])
      ensures given && readable && (old(server).present ==> extractable) ==>
                var desired := Status(old(conditions[..]), rest);
                var skips := Skips(old(server), desired);
                var (s', accepted) := CallAmid(old(server), meanwhile, desired, now, creates);
                && (ok <==> skips || (accepted && reply.Accepted?))
                && server == (if Stores(reply) then s' else meanwhile)
                && conditions[..] == (if skips then desired else Stamped(old(server), desired, now)).conditions
    {
      if !given || !readable {
        return false;
      }
      if !server.present {
        SetApplyConditionsLastTransitionTime(conditions, [], now);
      } else {
        if !extractable {
          return false;
        }
        var original := Extracted(server);
        if original == Some(Status(conditions[..], rest)) {
          server := meanwhile;
          return true;
        }
        if original.Some? {
          SetApplyConditionsLastTransitionTime(conditions, original.value.conditions, now);
        } else {
          SetApplyConditionsLastTransitionTime(conditions, [], now);
        }
      }
      server := meanwhile;
      var (s', accepted) := ApplyStatus(server, Status(conditions[..], rest), creates);
      if Stores(reply) {
        server := s';
      }
      ok := accepted && reply.Accepted?;
    }
  }

  // ---- histories ----------------------------------------------------------------

  datatype Request = Request(status: Status, now: int, reply: Reply)

  predicate Timeless(conditions: seq<Condition>) {
    forall i :: 0 <= i < |conditions| ==> conditions[i].time.None?
  }

  /** The server has stored it, whether the caller knows or not. */
  predicate IsEffective(r: Request) { Stores(r.reply) && Distinct(r.status.conditions) }

  function Effective(requests: seq<Request>): (effective: seq<Request>)
    ensures forall i :: 0 <= i < |effective| ==> IsEffective(effective[i])
  {
    if requests == [] then []
    else
      var n := |requests| - 1;
      Effective(requests[..n]) + if IsEffective(requests[n]) then [requests[n]] else []
  }

  ghost predicate AllEffective(requests: seq<Request>) {
    forall i :: 0 <= i < |requests| ==> IsEffective(requests[i])
  }

  /** When the kind began to have its status, according to a request in which it did:
      the time its condition carries, if any, else the clock. */
  function TimeIn(r: Request, kind: string): int {
    var c := Find(r.status.conditions, kind);
    if c.Some? && c.value.time.Some? then c.value.time.value else r.now
  }

  function Run(s: Server, requests: seq<Request>, creates: bool): Server {
    if requests == [] then s
    else
      var n := |requests| - 1;
      var t := Run(s, requests[..n], creates);
      if Stores(requests[n].reply) then Call(t, requests[n].status, requests[n].now, creates).0 else t
  }

  lemma StampingKeepsDistinct(conditions: seq<Condition>, before: seq<Condition>, now: int)
    ensures Distinct(StampAll(conditions, before, now)) <==> Distinct(conditions)
  {
    var stamped := StampAll(conditions, before, now);
    assert forall i :: 0 <= i < |stamped| ==> stamped[i].kind == conditions[i].kind;
  }

  lemma CallKeepsDistinct(t: Server, desired: Status, now: int, creates: bool)
    requires Distinct(t.owned.conditions)
    ensures var u := Call(t, desired, now, creates).0;
            Distinct(u.owned.conditions) && (!Distinct(desired.conditions) ==> u == t)
  {
    StampingKeepsDistinct(desired.conditions, Before(t), now);
  }

  /** Refused and rejected requests leave no trace. */
  lemma {:induction false} OnlyEffectiveCount(s: Server, requests: seq<Request>, creates: bool)
    requires Distinct(s.owned.conditions)
    ensures Run(s, requests, creates) == Run(s, Effective(requests), creates)
    ensures Distinct(Run(s, requests, creates).owned.conditions)
  {
    if requests != [] {
      var n := |requests| - 1;
      OnlyEffectiveCount(s, requests[..n], creates);
      var t, last := Run(s, requests[..n], creates), requests[n];
      CallKeepsDistinct(t, last.status, last.now, creates);
      var effective := Effective(requests);
      if IsEffective(last) {
        assert effective[..|effective| - 1] == Effective(requests[..n]);
      } else {
        assert effective == Effective(requests[..n]);
      }
    }
  }

  /** In request `i` there is a condition of this kind with this status. */
  predicate Reports(requests: seq<Request>, i: nat, kind: string, status: string)
    requires i < |requests|
  {
    var c := Find(requests[i].status.conditions, kind);
    c.Some? && c.value.status == status
  }

  /** The request since which the kind has had the status it has in the last one. */
  function Since(requests: seq<Request>, kind: string, status: string): nat
    requires requests != [] && Reports(requests, |requests| - 1, kind, status)
  {
    var n := |requests| - 1;
    if n > 0 && Reports(requests[..n], n - 1, kind, status) then Since(requests[..n], kind, status) else n
  }

  /** `Since` is what it says: reported without a break from there to the end, and
      not reported just before. */
  lemma {:induction false} SinceIsTheLatestFlip(requests: seq<Request>, kind: string, status: string)
    requires requests != [] && Reports(requests, |requests| - 1, kind, status)
    ensures var k := Since(requests, kind, status);
            && k < |requests|
            && (forall i :: k <= i < |requests| ==> Reports(requests, i, kind, status))
            && (k > 0 ==> !Reports(requests, k - 1, kind, status))
  {
    var n := |requests| - 1;
    if n > 0 && Reports(requests[..n], n - 1, kind, status) {
      SinceIsTheLatestFlip(requests[..n], kind, status);
      var k := Since(requests[..n], kind, status);
      forall i | k <= i < |requests| ensures Reports(requests, i, kind, status) {
        if i < n {
          assert Reports(requests[..n], i, kind, status);
        }
      }
      assert k > 0 ==> Reports(requests, k - 1, kind, status) == Reports(requests[..n], k - 1, kind, status);
    } else if n > 0 {
      assert Reports(requests, n - 1, kind, status) == Reports(requests[..n], n - 1, kind, status);
    }
  }

  lemma {:induction false} FindAt(conditions: seq<Condition>, i: nat)
    requires Distinct(conditions) && i < |conditions|
    ensures Find(conditions, conditions[i].kind) == Some(conditions[i])
  {
    if i > 0 {
      FindAt(conditions[1..], i - 1);
    }
  }

  lemma {:induction false} FindOfStamped(conditions: seq<Condition>, stamped: seq<Condition>, kind: string)
    requires |conditions| == |stamped|
    requires forall i :: 0 <= i < |conditions| ==>
               stamped[i].kind == conditions[i].kind && stamped[i].status == conditions[i].status
    ensures Find(stamped, kind).Some? <==> Find(conditions, kind).Some?
    ensures Find(stamped, kind).Some? ==> Find(stamped, kind).value.status == Find(conditions, kind).value.status
  {
    if conditions != [] {
      FindOfStamped(conditions[1..], stamped[1..], kind);
    }
  }

  lemma {:induction false} FindIsIn(conditions: seq<Condition>, kind: string) returns (i: nat)
    requires Find(conditions, kind).Some?
    ensures i < |conditions| && conditions[i] == Find(conditions, kind).value && conditions[i].kind == kind
  {
    if conditions[0].kind == kind {
      i := 0;
    } else {
      var j := FindIsIn(conditions[1..], kind);
      i := j + 1;
    }
  }

  /** What is stored after the requests: the last one's conditions, each with the time
      of the request since which it has had its status. */
  ghost predicate Chronicles(owned: Status, requests: seq<Request>)
    requires requests != []
  {
    var last := requests[|requests| - 1].status;
    && owned.rest == last.rest
    && |owned.conditions| == |last.conditions|
    && forall i :: 0 <= i < |last.conditions| ==>
         && IsReported(requests, last.conditions[i])
         && owned.conditions[i] == Dated(requests, last.conditions[i])
  }

  ghost predicate IsReported(requests: seq<Request>, c: Condition) {
    requests != [] && Reports(requests, |requests| - 1, c.kind, c.status)
    && Since(requests, c.kind, c.status) < |requests|
  }

  /** The condition with the time of its latest flip. */
  ghost function Dated(requests: seq<Request>, c: Condition): Condition
    requires IsReported(requests, c)
  {
    c.(time := Some(TimeIn(requests[Since(requests, c.kind, c.status)], c.kind)))
  }

  /** Over any sequence of calls, starting from an object without an owned status or
      from no object at all, every stored condition has the time of the latest effective
      call in which it appeared or its status flipped: the time the condition carried
      there, or else that call's clock. The skip never gets in the way of a flip, and
      neither do calls that are refused or whose replies get lost. */
  lemma TimesAreLatestFlips(s: Server, requests: seq<Request>, creates: bool)
    requires s.owned == NOTHING && (s.present || creates)
    ensures var t, effective := Run(s, requests, creates), Effective(requests);
            if effective == [] then t == s else t.present && Chronicles(t.owned, effective)
  {
    OnlyEffectiveCount(s, requests, creates);
    if Effective(requests) != [] {
      EffectiveTimes(s, Effective(requests), creates);
    }
  }

  lemma {:induction false} EffectiveTimes(s: Server, requests: seq<Request>, creates: bool)
    requires AllEffective(requests) && requests != []
    requires s.owned == NOTHING && (s.present || creates)
    ensures var t := Run(s, requests, creates);
            t.present && Chronicles(t.owned, requests)
  {
    var n := |requests| - 1;
    var earlier := requests[..n];
    var last := requests[n];
    assert requests == earlier + [last];
    var t := Run(s, earlier, creates);
    if n > 0 {
      EffectiveTimes(s, earlier, creates);
      StepChronicles(t, earlier, last, creates);
    } else {
      assert t == s;
      forall i | 0 <= i < |last.status.conditions|
        ensures IsReported(requests, last.status.conditions[i])
        ensures Stamp(last.status.conditions[i], [], last.now) == Dated(requests, last.status.conditions[i])
      {
        FindAt(last.status.conditions, i);
      }
    }
  }

  /** One more call on a status that chronicles the calls so far. */
  lemma StepChronicles(t: Server, earlier: seq<Request>, last: Request, creates: bool)
    requires AllEffective(earlier + [last]) && earlier != []
    requires t.present && Chronicles(t.owned, earlier)
    ensures var u := Call(t, last.status, last.now, creates).0;
            u.present && Chronicles(u.owned, earlier + [last])
  {
    var requests := earlier + [last];
    assert requests[|earlier|] == last && forall i :: 0 <= i < |earlier| ==> requests[i] == earlier[i];
    if Skips(t, last.status) {
      SkippedIsStamped(t.owned, last.now);
    }
    forall i | 0 <= i < |last.status.conditions|
      ensures IsReported(requests, last.status.conditions[i])
      ensures Stamp(last.status.conditions[i], t.owned.conditions, last.now)
           == Dated(requests, last.status.conditions[i])
    {
      StampFollowsHistory(t.owned, earlier, last, i);
    }
  }

  /** A call that skips leaves what it would have sent. */
  lemma SkippedIsStamped(owned: Status, now: int)
    requires Distinct(owned.conditions)
    requires forall i :: 0 <= i < |owned.conditions| ==> owned.conditions[i].time.Some?
    ensures StampAll(owned.conditions, owned.conditions, now) == owned.conditions
  {
    forall i | 0 <= i < |owned.conditions|
      ensures Stamp(owned.conditions[i], owned.conditions, now) == owned.conditions[i]
    {
      FindAt(owned.conditions, i);
    }
  }

  lemma StampFollowsHistory(owned: Status, earlier: seq<Request>, last: Request, i: nat)
    requires earlier != [] && Chronicles(owned, earlier) && i < |last.status.conditions|
    requires Distinct(last.status.conditions)
    ensures var c := last.status.conditions[i];
            && IsReported(earlier + [last], c)
            && Stamp(c, owned.conditions, last.now) == Dated(earlier + [last], c)
  {
    var c := last.status.conditions[i];
    var requests := earlier + [last];
    var m := |earlier| - 1;
    FindAt(last.status.conditions, i);
    assert requests[..|earlier|] == earlier;
    assert requests[|earlier|] == last;
    assert Reports(requests, |earlier|, c.kind, c.status);
    FindOfStamped(earlier[m].status.conditions, owned.conditions, c.kind);
    if Reports(earlier, m, c.kind, c.status) {
      var j := FindIsIn(owned.conditions, c.kind);
      var k := Since(earlier, c.kind, c.status);
      SinceIsTheLatestFlip(earlier, c.kind, c.status);
      assert Since(requests, c.kind, c.status) == k;
      assert requests[k] == earlier[k];
      assert owned.conditions[j].status == c.status;
      assert owned.conditions[j].time == Some(TimeIn(earlier[k], c.kind));
    } else {
      assert Since(requests, c.kind, c.status) == |earlier|;
      var e := Find(owned.conditions, c.kind);
      assert e.None? || e.value.status != c.status;
    }
  }

  // ---- the fast path ---------------------------------------------------------------

  /** Stamping the last request once more gives what is stored. */
  lemma RestampedIsOwned(owned: Status, requests: seq<Request>, now: int)
    requires AllEffective(requests) && requests != [] && Chronicles(owned, requests)
    ensures var last := requests[|requests| - 1].status;
            last.(conditions := StampAll(last.conditions, owned.conditions, now)) == owned && Distinct(owned.conditions)
  {
    var last := requests[|requests| - 1].status;
    forall i | 0 <= i < |last.conditions|
      ensures Stamp(last.conditions[i], owned.conditions, now) == owned.conditions[i]
    {
      assert owned.conditions[i].kind == last.conditions[i].kind;
      assert Distinct(owned.conditions);
      FindAt(owned.conditions, i);
    }
    assert StampAll(last.conditions, owned.conditions, now) == owned.conditions;
  }

  lemma OwnedIsLastIff(owned: Status, requests: seq<Request>)
    requires requests != [] && Chronicles(owned, requests)
    ensures var last := requests[|requests| - 1].status;
            owned == last <==>
            forall i :: 0 <= i < |last.conditions| ==> last.conditions[i] == Dated(requests, last.conditions[i])
  {
    var last := requests[|requests| - 1].status;
    if forall i :: 0 <= i < |last.conditions| ==> last.conditions[i] == Dated(requests, last.conditions[i]) {
      assert owned.conditions == last.conditions;
    }
  }

  /** Repeating the last effective request never changes anything, but it is spared only
      if it has a field and each condition carries the very time of its latest flip. */
  lemma RepeatSkipsIff(s: Server, requests: seq<Request>, creates: bool, now: int)
    requires Effective(requests) != [] && s.owned == NOTHING && (s.present || creates)
    ensures var t, effective := Run(s, requests, creates), Effective(requests);
            var last := effective[|effective| - 1].status;
            && (forall i :: 0 <= i < |last.conditions| ==> IsReported(effective, last.conditions[i]))
            && (Skips(t, last) <==>
                last != NOTHING
                && forall i :: 0 <= i < |last.conditions| ==>
                     last.conditions[i] == Dated(effective, last.conditions[i]))
            && Call(t, last, now, creates) == (t, true)
  {
    TimesAreLatestFlips(s, requests, creates);
    var t, effective := Run(s, requests, creates), Effective(requests);
    var last := effective[|effective| - 1].status;
    RestampedIsOwned(t.owned, effective, now);
    OwnedIsLastIff(t.owned, effective);
  }

  /** Because the comparison precedes the stamping, a request whose conditions carry no
      time is spared only if it has no conditions at all, but some other field. */
  lemma RepeatedRequestIsSentAndAbsorbed(s: Server, requests: seq<Request>, creates: bool, now: int)
    requires Effective(requests) != [] && s.owned == NOTHING && (s.present || creates)
    requires Timeless(Effective(requests)[|Effective(requests)| - 1].status.conditions)
    ensures var t, effective := Run(s, requests, creates), Effective(requests);
            var last := effective[|effective| - 1].status;
            && (Skips(t, last) <==> last.conditions == [] && last.rest != "")
            && Call(t, last, now, creates) == (t, true)
  {
    RepeatSkipsIff(s, requests, creates, now);
    var effective := Effective(requests);
    var last := effective[|effective| - 1].status;
    if last.conditions != [] {
      assert Dated(effective, last.conditions[0]).time.Some?;
    }
  }

  /** After any history, a condition that is new or flips is stored with this call's
      clock exactly when it carries no other time. A caller that reuses the slice it
      passed in, which comes back stamped, therefore gets the old time on its next
      flip. */
  lemma FlipIsStampedIff(s: Server, requests: seq<Request>, creates: bool, i: nat)
    requires Effective(requests) != [] && s.owned == NOTHING && (s.present || creates)
    requires i < |Effective(requests)[|Effective(requests)| - 1].status.conditions|
    ensures var t, effective := Run(s, requests, creates), Effective(requests);
            var last := effective[|effective| - 1];
            var c := last.status.conditions[i];
            && IsReported(effective, c) && i < |t.owned.conditions|
            && (Since(effective, c.kind, c.status) == |effective| - 1 ==>
                  (t.owned.conditions[i].time == Some(last.now) <==> c.time.None? || c.time == Some(last.now)))
  {
    TimesAreLatestFlips(s, requests, creates);
    var effective := Effective(requests);
    FindAt(effective[|effective| - 1].status.conditions, i);
  }

  method ReusedSliceKeepsItsTime(client: CLIManagerClient, conditions: array<Condition>, rest: string,
                                 first: int, second: int, flipped: string)
    requires client.server == Server(true, NOTHING) && conditions.Length == 1 && first < second
    requires conditions[0].time.None? && flipped != conditions[0].status
    modifies client, conditions
    ensures client.server.owned == Status([old(conditions[0]).(status := flipped, time := Some(first))], rest)
  {
    var c := conditions[0];
    assert conditions[..] == [c];
    assert StampAll([c], [], first) == [c.(time := Some(first))];
    var ok := client.ApplyOperatorStatus(true, conditions, rest, first, false, true, true, client.server, Accepted);
    assert conditions[..] == [c.(time := Some(first))];
    assert client.server.owned == Status([c.(time := Some(first))], rest);
    conditions[0] := conditions[0].(status := flipped);
    var d := c.(status := flipped, time := Some(first));
    assert conditions[..] == [d];
    assert StampAll([d], [c.(time := Some(first))], second) == [d];
    ok := client.ApplyOperatorStatus(true, conditions, rest, second, false, true, true, client.server, Accepted);
  }

  /** A missing object that a status apply may not create stays missing, and every call
      fails, whatever is asked for. */
  lemma NothingToApplyTo(s: Server, requests: seq<Request>, desired: Status, now: int)
    requires !s.present
    ensures Run(s, requests, false) == s && Call(s, desired, now, false) == (s, false)
  {
    if requests != [] {
      NothingToApplyTo(s, requests[..|requests| - 1], desired, now);
    }
  }

  /** Nor is a list with two conditions of a type ever stored. */
  lemma RepeatsAreRejected(s: Server, desired: Status, now: int, creates: bool, i: nat, j: nat)
    requires Distinct(s.owned.conditions)
    requires i < j < |desired.conditions| && desired.conditions[i].kind == desired.conditions[j].kind
    ensures Call(s, desired, now, creates) == (s, false)
  {
    StampingKeepsDistinct(desired.conditions, Before(s), now);
  }
}
