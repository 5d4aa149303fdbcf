/** The operator client's compare-and-swap: a separate read and write, tied
    together by the caller's resourceVersion, with other writers in between. */
module OperatorClient {
  import opened Wrappers
  import opened Requests
  import opened Generations

  datatype CliManager = CliManager(uid: nat, meta: string, generation: nat, spec: string, status: OperatorStatus,
                                   resourceVersion: nat)

  /** The revision counter is global to the server and never goes back. */
  datatype Server = Server(revision: nat, stored: Option<CliManager>)

  datatype Error = NotFound | Conflict | Invalid | Unavailable

  predicate Valid(s: Server) {
    s.stored.Some? ==> s.stored.value.resourceVersion <= s.revision
  }

  /** Every write that changes something takes a fresh revision as the new
      resourceVersion; a write that changes nothing is absorbed. */
  function Commit(s: Server, x: CliManager): Server {
    if s.stored.Some? && s.stored.value == x.(resourceVersion := s.stored.value.resourceVersion) then s
    else Server(s.revision + 1, Some(x.(resourceVersion := s.revision + 1)))
  }

  // ---- other writers ------------------------------------------------------

  /** Anything anybody else may do to the object: replace any part of it, create
      it, delete it. */
  datatype Write = Put(x: CliManager) | Remove

  function Other(s: Server, w: Write): Server {
    match w
    case Put(x) => Commit(s, x)
    case Remove => if s.stored.None? then s else Server(s.revision + 1, None)
  }

  function At(s: Server, writes: seq<Write>): Server {
    if writes == [] then s else Other(At(s, writes[..|writes| - 1]), writes[|writes| - 1])
  }

  /** Nothing changed at any point along the way. */
  ghost predicate Untouched(s: Server, writes: seq<Write>) {
    forall k :: 0 <= k <= |writes| ==> At(s, writes[..k]) == s
  }

  /** Versions are never reused: either nothing changed at any point, or whatever is
      stored now carries a version newer than everything before. */
  lemma {:induction false} VersionsAreFresh(s: Server, writes: seq<Write>)
    requires Valid(s)
    ensures var t := At(s, writes);
            && Valid(t) && s.revision <= t.revision
            && (t.revision == s.revision <==> Untouched(s, writes))
            && (!Untouched(s, writes) && t.stored.Some? ==> t.stored.value.resourceVersion > s.revision)
  {
    if writes == [] {
      assert forall k :: 0 <= k <= |writes| ==> writes[..k] == [];
    } else {
      var n := |writes| - 1;
      var before := writes[..n];
      VersionsAreFresh(s, before);
      assert forall k :: 0 <= k <= n ==> before[..k] == writes[..k];
      assert writes[..n + 1] == writes;
    }
  }

  lemma {:induction false} AtAppends(s: Server, before: seq<Write>, after: seq<Write>)
    ensures At(s, before + after) == At(At(s, before), after)
  {
    if after == [] {
      assert before + after == before;
    } else {
      var n := |after| - 1;
      assert (before + after)[..|before + after| - 1] == before + after[..n];
      AtAppends(s, before, after[..n]);
    }
  }

  // ---- the server's update requests ----------------------------------------

  datatype Part = Spec | Status

  /** What an update of the main resource or of the status subresource stores:
      each ignores the other's part of what is sent. */
  function Merge(current: CliManager, sent: CliManager, part: Part): CliManager {
    match part
    case Spec =>
      current.(spec := sent.spec, meta := sent.meta,
               generation := if sent.spec != current.spec then current.generation + 1 else current.generation)
    case Status => current.(status := sent.status)
  }

  /** A custom resource cannot be updated without a version (None is the empty
      string), nor under a version that is not the current one. */
  function Update(s: Server, sent: CliManager, version: Option<nat>, part: Part): (Server, Result<CliManager, Error>) {
    if s.stored.None? then (s, Err(NotFound))
    else if version.None? then (s, Err(Invalid))
    else if version.value != s.stored.value.resourceVersion || sent.uid != s.stored.value.uid then (s, Err(Conflict))
    else
      var s' := Commit(s, Merge(s.stored.value, sent, part));
      (s', Ok(s'.stored.value))
  }

  datatype Edit = SetSpec(spec: string) | SetStatus(status: OperatorStatus)

  function PartOf(edit: Edit): Part { if edit.SetSpec? then Spec else Status }

  function With(x: CliManager, edit: Edit): CliManager {
    if edit.SetSpec? then x.(spec := edit.spec) else x.(status := edit.status)
  }

  /** UpdateOperatorSpec and UpdateOperatorStatus: read the object, put the caller's
      version and value into the copy, send it. `between` happens after the read. */
  function Call(s: Server, version: Option<nat>, edit: Edit, between: seq<Write>): (Server, Result<CliManager, Error>) {
    if s.stored.None? then (s, Err(NotFound))
    else Update(At(s, between), With(s.stored.value, edit), version, PartOf(edit))
  }

  /** The same over an unreliable connection. `readable`: the read ends with the object
      or with "not found". A reply can get lost after the server has stored the object. */
  function UnreliableCall(s: Server, version: Option<nat>, edit: Edit, between: seq<Write>, readable: bool,
                          reply: Reply)
    : (Server, Result<CliManager, Error>)
  {
    if !readable then (s, Err(Unavailable))
    else if s.stored.None? then (s, Err(NotFound))
    else
      var (s', result) := Call(s, version, edit, between);
      (if Stores(reply) then s' else At(s, between), if reply.Accepted? then result else Err(Unavailable))
  }

  class CLIManagerClient {
    var server: Server

    constructor (server: Server)
      ensures this.server == server
    {
      this.server := server;
    }

    method GetOperatorState() returns (r: Result<CliManager, Error>)
      ensures r == if server.stored.Some? then Ok(server.stored.value) else Err(NotFound)
    {
      r := if server.stored.Some? then Ok(server.stored.value) else Err(NotFound);
    }

    method UpdateOperatorSpec(version: Option<nat>, spec: string, between: seq<Write>, readable: bool, reply: Reply)
      returns (r: Result<(string, nat), Error>)
      modifies this
      ensures var (s', result) := UnreliableCall(old(server), version, SetSpec(spec), between, readable, reply);
              && server == s'
              && r == if result.Ok? then Ok((result.value.spec, result.value.resourceVersion)) else Err(result.error)
    {
      if !readable {
        return Err(Unavailable);
      }
      var original := GetOperatorState();
      if original.Err? {
        return Err(original.error);
      }
      server := At(server, between);
      var copy := original.value.(spec := spec);
      var (s', result) := Update(server, copy, version, Spec);
      if Stores(reply) {
        server := s';
      }
      if !reply.Accepted? {
        return Err(Unavailable);
      }
      r := if result.Ok? then Ok((result.value.spec, result.value.resourceVersion)) else Err(result.error);
    }

    method UpdateOperatorStatus(version: Option<nat>, status: OperatorStatus, between: seq<Write>, readable: bool,
                                reply: Reply)
      returns (r: Result<OperatorStatus, Error>)
      modifies this
      ensures var (s', result) := UnreliableCall(old(server), version, SetStatus(status), between, readable, reply);
              && server == s'
              && r == if result.Ok? then Ok(result.value.status) else Err(result.error)
    {
      if !readable {
        return Err(Unavailable);
      }
      var original := GetOperatorState();
      if original.Err? {
        return Err(original.error);
      }
      server := At(server, between);
      var copy := original.value.(status := status);
      var (s', result) := Update(server, copy, version, Status);
      if Stores(reply) {
        server := s';
      }
      if !reply.Accepted? {
        return Err(Unavailable);
      }
      r := if result.Ok? then Ok(result.value.status) else Err(result.error);
    }

    /** One attempt at a read-modify-write. `seen` is the version it reads, None when the
        read yields no object. After a conflict the object is gone or has a newer one. */
    method TryUpdateStatus(change: OperatorStatus -> OperatorStatus, attempt: Attempt)
      returns (r: Result<OperatorStatus, Error>, seen: Option<nat>, ghost writes: seq<Write>)
      requires Valid(server)
      modifies this
      ensures writes <= attempt.before + attempt.between && Valid(server)
      ensures IsOutcome(At(old(server), writes), change, server, r)
      ensures r.Err? ==> r.error in {NotFound, Conflict, Unavailable}
      ensures r == Err(NotFound) ==> server.stored.None?
      ensures r == Err(Conflict) ==> attempt.rereadable && attempt.reply.Accepted?
      ensures seen == if attempt.readable && old(server).stored.Some?
                      then Some(old(server).stored.value.resourceVersion)
                      else None
      ensures r == Err(Conflict) ==>
                && writes == attempt.before + attempt.between && seen.Some?
                && (server.stored.Some? ==> server.stored.value.resourceVersion > seen.value)
    {
      seen, writes := None, [];
      if !attempt.readable {
        return Err(Unavailable), seen, writes;
      }
      var snapshot := GetOperatorState();
      if snapshot.Err? {
        return Err(snapshot.error), seen, writes;
      }
      var x := snapshot.value;
      seen := Some(x.resourceVersion);
      var status := change(x.status);
      if status == x.status {
        return Ok(status), seen, writes;
      }
      ghost var start := server;
      var before, between := attempt.before, attempt.between;
      VersionsAreFresh(start, before);
      server := At(server, before);
      VersionsAreFresh(server, between);
      ghost var middle := server;
      r := UpdateOperatorStatus(seen, status, between, attempt.rereadable, attempt.reply);
      if !attempt.rereadable || middle.stored.None? {
        writes := before;
        assert before <= before + between;
      } else {
        writes := before + between;
        CallIsAtomic(start, before, between, SetStatus(status));
      }
    }

    /** A read-modify-write of the status, retried on conflict at most four times while
        others write. `versions` are those the attempts read, each newer than the one
        before: so the second read that is meant for a stale cache, when an attempt
        reads the version of the last one, is never made. */
    method UpdateStatus(change: OperatorStatus -> OperatorStatus, attempts: seq<Attempt>)
      returns (r: Result<OperatorStatus, Error>, ghost others: seq<Write>, ghost versions: seq<nat>)
      requires |attempts| == ATTEMPTS && Valid(server)
      modifies this
      ensures others <= Writes(attempts) && Valid(server)
      ensures IsOutcome(At(old(server), others), change, server, r)
      ensures r == Err(Conflict) ==> others == Writes(attempts) && |versions| == 4
      ensures r.Err? ==> r.error in {NotFound, Conflict, Unavailable}
      ensures r == Err(NotFound) ==> At(old(server), others).stored.None?
      ensures |versions| <= 4 && forall i, j :: 0 <= i < j < |versions| ==> versions[i] < versions[j]
    {
      r, others, versions := Err(Conflict), [], [];
      for i := 0 to ATTEMPTS
        invariant Valid(server) && r == Err(Conflict)
        invariant others == Writes(attempts[..i]) && server == At(old(server), others)
        invariant |versions| == i && forall j, k :: 0 <= j < k < i ==> versions[j] < versions[k]
        invariant server.stored.Some? ==> forall j :: 0 <= j < i ==> versions[j] < server.stored.value.resourceVersion
      {
        ghost var writes;
        var seen;
        r, seen, writes := TryUpdateStatus(change, attempts[i]);
        AtAppends(old(server), others, writes);
        WritesGrow(attempts, i);
        others := others + writes;
        versions := versions + if seen.Some? then [seen.value] else [];
        if r != Err(Conflict) {
          return;
        }
        assert attempts[..i + 1][..i] == attempts[..i];
      }
      assert attempts[..ATTEMPTS] == attempts;
    }
  }

  const ATTEMPTS := 4

  /** What happens in one attempt: whether its reads succeed, what others write after
      the first and after the second, how the request ends. */
  datatype Attempt = Attempt(readable: bool, before: seq<Write>, rereadable: bool, between: seq<Write>, reply: Reply)

  function Writes(attempts: seq<Attempt>): seq<Write> {
    if attempts == [] then []
    else
      var n := |attempts| - 1;
      Writes(attempts[..n]) + (attempts[n].before + attempts[n].between)
  }

  lemma {:induction false} WritesGrow(attempts: seq<Attempt>, i: nat)
    requires i < |attempts|
    ensures Writes(attempts[..i]) + (attempts[i].before + attempts[i].between) <= Writes(attempts)
    decreases |attempts|
  {
    var n := |attempts| - 1;
    if i < n {
      WritesGrow(attempts[..n], i);
      assert attempts[..n][..i] == attempts[..i];
    }
  }

  /** `last` is what others have left. Success: the change was applied to that, in one
      atomic step. Failure: nothing was, or the reply to just that was lost. */
  ghost predicate IsOutcome(last: Server, change: OperatorStatus -> OperatorStatus, s: Server,
                            r: Result<OperatorStatus, Error>) {
    if r.Ok? then IsApplied(last, change, s) && r.value == s.stored.value.status
    else s == last || (r.error == Unavailable && IsApplied(last, change, s))
  }

  ghost predicate IsApplied(last: Server, change: OperatorStatus -> OperatorStatus, s: Server) {
    && last.stored.Some? && s.stored.Some?
    && s == Commit(last, With(last.stored.value, SetStatus(change(last.stored.value.status))))
  }

  /** A call with the version of a snapshot fails with a conflict if the object was
      touched; otherwise it is one step on the snapshot. */
  lemma {:induction false} CallIsAtomic(s: Server, before: seq<Write>, between: seq<Write>, edit: Edit)
    requires edit.SetStatus? && Valid(s) && s.stored.Some? && At(s, before).stored.Some?
    ensures var x := s.stored.value;
            var last := At(s, before + between);
            var (s', result) := Call(At(s, before), Some(x.resourceVersion), edit, between);
            && Valid(last) && Valid(s') && At(At(s, before), between) == last
            && (result.Ok? ==> last == s && s' == Commit(s, With(x, edit)) && s'.stored == Some(result.value))
            && (result.Err? ==> s' == last)
            && (result == Err(Conflict) && last.stored.Some? ==>
                  last.stored.value.resourceVersion > x.resourceVersion)
  {
    var writes := before + between;
    assert writes[..|before|] == before && writes[|before|..] == between;
    SucceedsIffUntouched(s, writes, |before|, edit, true, Accepted);
    AtAppends(s, before, between);
    VersionsAreFresh(s, writes);
    if Untouched(s, writes) {
      assert At(s, writes[..|writes|]) == s && At(s, writes[..|before|]) == s;
      assert writes[..|writes|] == writes;
    }
  }

  // ---- what the compare-and-swap guarantees ----------------------------------

  /** What a successful edit leaves: exactly the spec or the status is replaced. */
  ghost predicate IsReplaced(x: CliManager, edit: Edit, y: CliManager) {
    && y.uid == x.uid && y.meta == x.meta
    && match edit
       case SetSpec(spec) =>
         y.spec == spec && y.status == x.status && y.generation == x.generation + if spec == x.spec then 0 else 1
       case SetStatus(status) =>
         y.status == status && y.spec == x.spec && y.generation == x.generation
  }

  /** A call with the version of an earlier snapshot succeeds if and only if its requests
      are answered and the object was that very snapshot at every moment up to the write,
      although the call itself re-reads it in the middle. Then exactly the spec or the
      status is replaced. Otherwise it changes nothing, unless just the reply was lost. */
  lemma {:induction false} SucceedsIffUntouched(s: Server, writes: seq<Write>, reread: nat, edit: Edit,
                                                readable: bool, reply: Reply)
    requires Valid(s) && s.stored.Some? && reread <= |writes|
    ensures var x := s.stored.value;
            var (s', result) := UnreliableCall(At(s, writes[..reread]), Some(x.resourceVersion), edit,
                                               writes[reread..], readable, reply);
            && (result.Ok? <==> readable && reply.Accepted? && Untouched(s, writes))
            && (result.Ok? ==>
                  && s'.stored == Some(result.value) && IsReplaced(x, edit, result.value)
                  && (s' == s <==> With(x, edit) == x))
            && (result.Err? ==>
                  || s' == At(s, writes) || s' == At(s, writes[..reread])
                  || (reply.LostReply? && Untouched(s, writes)
                      && s'.stored.Some? && IsReplaced(x, edit, s'.stored.value)))
  {
    var middle := At(s, writes[..reread]);
    assert writes == writes[..reread] + writes[reread..];
    AtAppends(s, writes[..reread], writes[reread..]);
    VersionsAreFresh(s, writes);
    VersionsAreFresh(s, writes[..reread]);
    VersionsAreFresh(middle, writes[reread..]);
    if Untouched(s, writes) {
      assert writes[..|writes|] == writes;
      assert At(s, writes) == s && middle == s;
    }
  }

  /** Of two callers holding the same snapshot, once one has changed the object the
      other fails, wherever the change falls in the other's call: no update is lost. */
  lemma {:induction false} SecondCallerConflicts(s: Server, writes: seq<Write>, reread: nat, edit: Edit, first: nat,
                                                 readable: bool, reply: Reply)
    requires Valid(s) && s.stored.Some? && reread <= |writes| && first < |writes|
    requires Other(At(s, writes[..first]), writes[first]) != At(s, writes[..first])
    ensures var (s', result) := UnreliableCall(At(s, writes[..reread]), Some(s.stored.value.resourceVersion), edit,
                                               writes[reread..], readable, reply);
            result.Err? && (s' == At(s, writes) || s' == At(s, writes[..reread]))
  {
    SucceedsIffUntouched(s, writes, reread, edit, readable, reply);
    assert writes[..first + 1][..first] == writes[..first];
    assert At(s, writes[..first + 1]) != At(s, writes[..first]);
  }

  /** The caller's version decides, for both edits and whatever the connection does: a
      call with a version handed out before it, or with none, succeeds if and only if
      its requests are answered and that is the version of the object it re-reads, which
      is then left alone until the write. Each kind of failure has its own condition, and
      without a lost reply a failed call leaves what others have made of the server. */
  lemma {:induction false} VersionDecides(s: Server, version: Option<nat>, edit: Edit, between: seq<Write>,
                                          readable: bool, reply: Reply)
    requires Valid(s) && (version.Some? ==> version.value <= s.revision)
    ensures var t := At(s, between);
            var (s', result) := UnreliableCall(s, version, edit, between, readable, reply);
            var found := readable && s.stored.Some?;
            var current := found && version == Some(s.stored.value.resourceVersion) && Untouched(s, between);
            && (result.Ok? <==> current && reply.Accepted?)
            && (result == Err(Unavailable) <==> !readable || (found && !reply.Accepted?))
            && (result == Err(NotFound) <==>
                readable && (s.stored.None? || (reply.Accepted? && t.stored.None?)))
            && (result == Err(Invalid) <==> found && reply.Accepted? && t.stored.Some? && version.None?)
            && (result == Err(Conflict) <==>
                found && reply.Accepted? && t.stored.Some? && version.Some? && !current)
            && (!current || reply.Refused? ==> s' == if found then t else s)
            && (current && !reply.Refused? ==>
                  s'.stored.Some? && IsReplaced(s.stored.value, edit, s'.stored.value))
  {
    VersionsAreFresh(s, between);
    if Untouched(s, between) {
      assert between[..|between|] == between;
      assert At(s, between) == s;
    }
  }

  /** Without a version the server refuses: there is no blind overwrite. */
  lemma NoVersionNoWrite(s: Server, edit: Edit, between: seq<Write>, readable: bool, reply: Reply)
    ensures var (s', result) := UnreliableCall(s, None, edit, between, readable, reply);
            result.Err? && (s' == s || s' == At(s, between))
  {}
}
