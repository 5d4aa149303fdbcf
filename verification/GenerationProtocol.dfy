/** The generation protocol step by step, with other writers free to act between
    any two requests: a sync reads the recorded generation, compares it when it
    applies the Deployment, and records what it saw in a later request. */
module GenerationProtocol {
  import opened Wrappers
  import opened ResourceApply
  import opened Requests

  type Norm = (Option<Spec>, Spec) -> Spec

  /** The server's normal form of what was sent. */
  predicate IsNormal(norm: Norm, spec: Spec, sent: Spec) { spec == norm(Some(spec), sent) }

  /** The spec-hash annotation stands for the required spec it digests. `edited` is
      history: someone else changed the spec since the operator last wrote it. */
  datatype Deployment = Deployment(uid: nat, generation: nat, hash: Option<Spec>, spec: Spec, edited: bool)

  /** A generation, -1 for none, and (history) the incarnation it was read from. */
  datatype Stamp = Stamp(generation: int, uid: nat)

  const NO_RECORD := Stamp(-1, 0)

  datatype Pc =
    | Idle
    | Started(expected: Stamp, want: Spec)  // the custom resource has been read
    | Applied(seen: Stamp)                  // the Deployment has been applied

  datatype State = State(deployment: Option<Deployment>, recorded: Stamp, pc: Pc, nextUid: nat)

  /** `otherMeta`: some label or other annotation differs; `metaBumps`: the server
      raises the generation for a metadata change; `rise`: by how much. */
  datatype Action =
    | Start(want: Spec)
    | Apply(otherMeta: bool, metaBumps: bool, reply: Reply)
    | Record(reply: Reply)
    | Abort
    | EditSpec(spec: Spec, rise: nat)
    | EditMeta(dropHash: bool, rise: nat)
    | Forge(digest: Spec, rise: nat)
    | Delete
    | Recreate(spec: Spec, hash: Option<Spec>)
    | DropRecord

  predicate Skips(d: Deployment, expected: Stamp, want: Spec, otherMeta: bool) {
    d.hash == Some(want) && !otherMeta && d.generation == expected.generation
  }

  function Written(norm: Norm, d: Deployment, want: Spec, otherMeta: bool, metaBumps: bool): Deployment {
    var spec := norm(Some(d.spec), want);
    var changed := d.spec != spec || (metaBumps && (otherMeta || d.hash != Some(want)));
    d.(hash := Some(want), spec := spec, edited := false,
       generation := if changed then d.generation + 1 else d.generation)
  }

  /** The Deployment after a successful ApplyDeployment. */
  function Target(norm: Norm, s: State, otherMeta: bool, metaBumps: bool): Deployment
    requires s.pc.Started?
  {
    match s.deployment
    case None => Deployment(s.nextUid, 1, Some(s.pc.want), norm(None, s.pc.want), false)
    case Some(d) =>
      if Skips(d, s.pc.expected, s.pc.want, otherMeta) then d
      else Written(norm, d, s.pc.want, otherMeta, metaBumps)
  }

  predicate Enabled(s: State, a: Action) {
    match a
    case Start(_) => s.pc.Idle?
    case Apply(_, _, _) => s.pc.Started?
    case Record(_) => s.pc.Applied?
    case EditSpec(spec, rise) => s.deployment.Some? && spec != s.deployment.value.spec && rise > 0
    case EditMeta(_, _) => s.deployment.Some?
    case Forge(_, _) => s.deployment.Some?
    case Delete => s.deployment.Some?
    case Recreate(_, _) => s.deployment.None?
    case Abort => true
    case DropRecord => true
  }

  function Next(norm: Norm, s: State, a: Action): State
    requires Enabled(s, a)
  {
    match a
    case Start(want) => s.(pc := Started(s.recorded, want))
    case Apply(otherMeta, metaBumps, reply) =>
      if reply.Refused? then s.(pc := Idle)
      else
        var d := Target(norm, s, otherMeta, metaBumps);
        State(Some(d), s.recorded, if reply.Accepted? then Applied(Stamp(d.generation, d.uid)) else Idle,
              if s.deployment.None? then s.nextUid + 1 else s.nextUid)
    case Record(reply) =>
      s.(pc := Idle, recorded := if reply.Refused? then s.recorded else s.pc.seen)
    case Abort => s.(pc := Idle)
    case EditSpec(spec, rise) =>
      var d := s.deployment.value;
      s.(deployment := Some(d.(spec := spec, edited := true, generation := d.generation + rise)))
    case EditMeta(dropHash, rise) =>
      var d := s.deployment.value;
      s.(deployment := Some(d.(hash := if dropHash then None else d.hash, generation := d.generation + rise)))
    case Forge(digest, rise) =>
      var d := s.deployment.value;
      s.(deployment := Some(d.(hash := Some(digest), generation := d.generation + rise)))
    case Delete => s.(deployment := None)
    case Recreate(spec, hash) =>
      s.(deployment := Some(Deployment(s.nextUid, 1, hash, spec, true)), nextUid := s.nextUid + 1)
    case DropRecord => s.(recorded := NO_RECORD)
  }

  ghost predicate Executes(norm: Norm, s: State, run: seq<Action>)
    decreases |run|
  {
    run == [] || (Enabled(s, run[0]) && Executes(norm, Next(norm, s, run[0]), run[1..]))
  }

  function After(norm: Norm, s: State, run: seq<Action>): State
    requires Executes(norm, s, run)
    decreases |run|
  {
    if run == [] then s else After(norm, Next(norm, s, run[0]), run[1..])
  }

  // ---- when a skip can be trusted -----------------------------------------

  /** Someone other than the operator sets the spec-hash annotation. */
  predicate Forges(a: Action) { a.Forge? || (a.Recreate? && a.hash.Some?) }

  /** The helper skips on a generation recorded for another incarnation. */
  predicate CrossesIncarnations(s: State, a: Action) {
    a.Apply? && s.pc.Started? && s.deployment.Some? &&
    Skips(s.deployment.value, s.pc.expected, s.pc.want, a.otherMeta) &&
    s.pc.expected.uid != s.deployment.value.uid
  }

  ghost predicate Admissible(norm: Norm, s: State, run: seq<Action>)
    requires Executes(norm, s, run)
    decreases |run|
  {
    run == [] || (!Forges(run[0]) && !CrossesIncarnations(s, run[0])
                  && Admissible(norm, Next(norm, s, run[0]), run[1..]))
  }

  /** Whenever the helper would skip, the stored spec is the required one. */
  ghost predicate SkipsAreSound(norm: Norm, s: State) {
    s.pc.Started? && s.deployment.Some? && Skips(s.deployment.value, s.pc.expected, s.pc.want, false) ==>
      IsNormal(norm, s.deployment.value.spec, s.pc.want)
  }

  predicate Behind(stamp: Stamp, d: Deployment) {
    stamp.uid == d.uid ==> stamp.generation <= d.generation && (d.edited ==> stamp.generation < d.generation)
  }

  function StampOf(s: State): Stamp {
    match s.pc
    case Idle => NO_RECORD
    case Started(expected, _) => expected
    case Applied(seen) => seen
  }

  ghost predicate Inv(norm: Norm, s: State) {
    && (s.recorded == NO_RECORD || s.recorded.uid < s.nextUid)
    && (StampOf(s) == NO_RECORD || StampOf(s).uid < s.nextUid)
    && (s.deployment.Some? ==>
          var d := s.deployment.value;
          && d.uid < s.nextUid && d.generation >= 1
          && (d.hash.Some? && !d.edited ==> IsNormal(norm, d.spec, d.hash.value))
          && Behind(s.recorded, d) && Behind(StampOf(s), d))
  }

  /** The operator starts with nothing recorded; a Deployment that is already there
      may be anything, as long as its hash, if any, is authentic. */
  ghost predicate Initial(norm: Norm, s: State) {
    && s.recorded == NO_RECORD && s.pc == Idle
    && (s.deployment.Some? ==>
          var d := s.deployment.value;
          && d.uid < s.nextUid && d.generation >= 1
          && (d.hash.Some? && !d.edited ==> IsNormal(norm, d.spec, d.hash.value)))
  }

  lemma StepKeepsInv(norm: Norm, s: State, a: Action)
    requires Settles(norm)
    requires Inv(norm, s) && Enabled(s, a) && !Forges(a) && !CrossesIncarnations(s, a)
    ensures Inv(norm, Next(norm, s, a))
  {}

  lemma {:induction false} InvHoldsThroughout(norm: Norm, s: State, run: seq<Action>)
    requires Settles(norm)
    requires Inv(norm, s) && Executes(norm, s, run) && Admissible(norm, s, run)
    ensures Inv(norm, After(norm, s, run))
    decreases |run|
  {
    if run != [] {
      StepKeepsInv(norm, s, run[0]);
      InvHoldsThroughout(norm, Next(norm, s, run[0]), run[1..]);
    }
  }

  /** Over any run in which nobody else sets the spec-hash annotation and no skip
      went by a generation of another incarnation, a skip of the live incarnation
      is sound: drift is never hidden. */
  lemma DriftIsNeverHidden(norm: Norm, s: State, run: seq<Action>)
    requires Settles(norm)
    requires Initial(norm, s) && Executes(norm, s, run) && Admissible(norm, s, run)
    ensures var t := After(norm, s, run);
            !CrossesIncarnations(t, Apply(false, false, Accepted)) ==> SkipsAreSound(norm, t)
  {
    InvHoldsThroughout(norm, s, run);
  }

  ghost predicate OneIncarnation(s: State) {
    && (s.deployment.Some? ==> s.deployment.value.generation >= 1)
    && (s.recorded.generation >= 1 ==> s.deployment.Some? && s.recorded.uid == s.deployment.value.uid)
    && (StampOf(s).generation >= 1 ==> s.deployment.Some? && StampOf(s).uid == s.deployment.value.uid)
  }

  lemma {:induction false} WithoutDeletesAllIsAdmissible(norm: Norm, s: State, run: seq<Action>)
    requires OneIncarnation(s) && Executes(norm, s, run)
    requires forall i :: 0 <= i < |run| ==> !Forges(run[i]) && !run[i].Delete?
    ensures Admissible(norm, s, run) && OneIncarnation(After(norm, s, run))
    decreases |run|
  {
    if run != [] {
      assert !Forges(run[0]) && !run[0].Delete?;
      WithoutDeletesAllIsAdmissible(norm, Next(norm, s, run[0]), run[1..]);
    }
  }

  /** In particular no drift is hidden, in any interleaving with any edits and any
      failures, as long as the Deployment is not deleted and nobody else sets the
      spec-hash annotation. */
  lemma EditsAreNeverHidden(norm: Norm, s: State, run: seq<Action>)
    requires Settles(norm)
    requires Initial(norm, s) && Executes(norm, s, run)
    requires forall i :: 0 <= i < |run| ==> !Forges(run[i]) && !run[i].Delete?
    ensures SkipsAreSound(norm, After(norm, s, run))
  {
    WithoutDeletesAllIsAdmissible(norm, s, run);
    DriftIsNeverHidden(norm, s, run);
  }

  // ---- one sync -----------------------------------------------------------

  /** A sync that gets as far as the Deployment repairs it whatever state it was
      in, and if its status write is stored the recorded generation is the live one. */
  lemma SyncRepairsAndRecords(norm: Norm, s: State, want: Spec, apply: Action, record: Action)
    requires Settles(norm)
    requires Inv(norm, s) && s.pc.Idle? && apply.Apply? && apply.reply.Accepted? && record.Record?
    requires !CrossesIncarnations(Next(norm, s, Start(want)), apply)
    ensures var t := Next(norm, Next(norm, Next(norm, s, Start(want)), apply), record);
            && t.deployment.Some? && t.deployment.value.hash == Some(want)
            && IsNormal(norm, t.deployment.value.spec, want)
            && (!record.reply.Refused? ==>
                  t.recorded == Stamp(t.deployment.value.generation, t.deployment.value.uid))
  {}

  /** No request of the operator stores a Deployment, and nobody deletes it. */
  ghost predicate LeavesEdits(run: seq<Action>) {
    forall i :: 0 <= i < |run| ==> !run[i].Delete? && (run[i].Apply? ==> run[i].reply.Refused?)
  }

  lemma {:induction false} EditedUntilWritten(norm: Norm, s: State, run: seq<Action>)
    requires Executes(norm, s, run) && LeavesEdits(run)
    requires s.deployment.Some? && s.deployment.value.edited
    ensures var t := After(norm, s, run).deployment;
            t.Some? && t.value.edited && t.value.uid == s.deployment.value.uid
    decreases |run|
  {
    if run != [] {
      assert !run[0].Delete? && (run[0].Apply? ==> run[0].reply.Refused?);
      EditedUntilWritten(norm, Next(norm, s, run[0]), run[1..]);
    }
  }

  lemma {:induction false} AdmissibleParts(norm: Norm, s: State, a: seq<Action>, b: seq<Action>)
    requires Executes(norm, s, a + b) && Admissible(norm, s, a + b)
    ensures Executes(norm, s, a) && Admissible(norm, s, a)
    ensures Executes(norm, After(norm, s, a), b) && Admissible(norm, After(norm, s, a), b)
    ensures After(norm, s, a + b) == After(norm, After(norm, s, a), b)
    decreases |a|
  {
    if a == [] {
      assert a + b == b;
    } else {
      assert (a + b)[0] == a[0] && (a + b)[1..] == a[1..] + b;
      AdmissibleParts(norm, Next(norm, s, a[0]), a[1..], b);
    }
  }

  /** Edit the spec at any moment of any run, in the middle of a sync too, and let
      anything follow but a write of the operator's: then the live generation is past
      both the recorded one and the one a sync under way goes by, and a sync about to
      apply the Deployment writes it, whatever spec it wants. */
  lemma EditIsNoticed(norm: Norm, s: State, before: seq<Action>, edit: Action, later: seq<Action>)
    requires Settles(norm)
    requires Initial(norm, s) && edit.EditSpec? && LeavesEdits(later)
    requires Executes(norm, s, before + [edit] + later) && Admissible(norm, s, before + [edit] + later)
    ensures var t := After(norm, s, before + [edit] + later);
            && t.deployment.Some?
            && var d := t.deployment.value;
               && (t.recorded.uid == d.uid ==> t.recorded.generation < d.generation)
               && (t.pc.Started? && t.pc.expected.uid == d.uid ==>
                     t.pc.expected.generation < d.generation
                     && forall otherMeta :: !Skips(d, t.pc.expected, t.pc.want, otherMeta))
  {
    var run := before + [edit] + later;
    InvHoldsThroughout(norm, s, run);
    AdmissibleParts(norm, s, before + [edit], later);
    AdmissibleParts(norm, s, before, [edit]);
    var u := After(norm, s, before);
    assert After(norm, u, [edit]) == Next(norm, u, edit) by {
      assert [edit][1..] == [];
    }
    EditedUntilWritten(norm, Next(norm, u, edit), later);
  }

  /** After any run, a sync whose status write is refused costs the next one a redundant
      request and nothing else: the server absorbs it, the generation stays, and so
      does what was on record. */
  lemma RedundantWriteIsAbsorbed(norm: Norm, s: State, before: seq<Action>, want: Spec, apply: Action,
                                 metaBumps: bool)
    requires Settles(norm)
    requires Initial(norm, s) && Executes(norm, s, before) && Admissible(norm, s, before)
    requires After(norm, s, before).pc.Idle? && apply.Apply? && apply.reply.Accepted?
    requires !CrossesIncarnations(Next(norm, After(norm, s, before), Start(want)), apply)
    ensures var u := After(norm, s, before);
            var applied := Next(norm, Next(norm, u, Start(want)), apply);
            var again := Next(norm, Next(norm, applied, Record(Refused)), Start(want));
            && again.recorded == u.recorded
            && again.deployment.Some?
            && Target(norm, again, false, metaBumps) == again.deployment.value == applied.deployment.value
  {
    InvHoldsThroughout(norm, s, before);
    var u := After(norm, s, before);
    StepKeepsInv(norm, u, Start(want));
    SyncRepairsAndRecords(norm, u, want, apply, Record(Refused));
  }

  // ---- neither condition can be dropped -----------------------------------

  const WANTED: Spec := map["replicas" := "2"]
  const DRIFTED: Spec := map["replicas" := "0"]

  const EMPTY := State(None, NO_RECORD, Idle, 1)

  function Same(prev: Option<Spec>, sent: Spec): Spec { sent }

  lemma {:induction false} RunAppends(norm: Norm, s: State, run: seq<Action>, a: Action)
    requires Executes(norm, s, run) && Enabled(After(norm, s, run), a)
    ensures Executes(norm, s, run + [a]) && After(norm, s, run + [a]) == Next(norm, After(norm, s, run), a)
    decreases |run|
  {
    if run == [] {
      assert (run + [a])[1..] == [];
      assert Executes(norm, Next(norm, s, a), []);
    } else {
      assert (run + [a])[1..] == run[1..] + [a];
      RunAppends(norm, Next(norm, s, run[0]), run[1..], a);
    }
  }

  const CREATE_AND_RECORD := [Start(WANTED), Apply(false, true, Accepted), Record(Accepted)]

  lemma CreateAndRecord()
    ensures Executes(Same, EMPTY, CREATE_AND_RECORD)
    ensures After(Same, EMPTY, CREATE_AND_RECORD)
         == State(Some(Deployment(1, 1, Some(WANTED), WANTED, false)), Stamp(1, 1), Idle, 2)
  {
    RunAppends(Same, EMPTY, [], Start(WANTED));
    assert [] + [Start(WANTED)] == [Start(WANTED)];
    RunAppends(Same, EMPTY, [Start(WANTED)], Apply(false, true, Accepted));
    assert [Start(WANTED)] + [Apply(false, true, Accepted)] == CREATE_AND_RECORD[..2];
    RunAppends(Same, EMPTY, CREATE_AND_RECORD[..2], Record(Accepted));
    assert CREATE_AND_RECORD[..2] + [Record(Accepted)] == CREATE_AND_RECORD;
  }

  /** Deleting the Deployment and creating it anew from an edited copy, annotations
      included, resets the generation to the recorded one: the next sync, and
      every later one, takes the drifted Deployment for its own. */
  lemma RecreatedCopyHidesDrift()
    ensures var run := CREATE_AND_RECORD + [Delete] + [Recreate(DRIFTED, Some(WANTED))] + [Start(WANTED)];
            && Initial(Same, EMPTY) && Executes(Same, EMPTY, run)
            && !SkipsAreSound(Same, After(Same, EMPTY, run))
  {
    CreateAndRecord();
    var r1 := CREATE_AND_RECORD + [Delete];
    RunAppends(Same, EMPTY, CREATE_AND_RECORD, Delete);
    RunAppends(Same, EMPTY, r1, Recreate(DRIFTED, Some(WANTED)));
    RunAppends(Same, EMPTY, r1 + [Recreate(DRIFTED, Some(WANTED))], Start(WANTED));
    assert WANTED["replicas"] != DRIFTED["replicas"];
  }

  const RECORD_AGAIN :=
    CREATE_AND_RECORD + [EditMeta(false, 1)] + [Start(WANTED)] + [Apply(false, true, Accepted)] + [Record(Accepted)]

  lemma RecordAgain()
    ensures Executes(Same, EMPTY, RECORD_AGAIN)
    ensures After(Same, EMPTY, RECORD_AGAIN)
         == State(Some(Deployment(1, 2, Some(WANTED), WANTED, false)), Stamp(2, 1), Idle, 2)
  {
    CreateAndRecord();
    var r := CREATE_AND_RECORD;
    RunAppends(Same, EMPTY, r, EditMeta(false, 1)); r := r + [EditMeta(false, 1)];
    RunAppends(Same, EMPTY, r, Start(WANTED)); r := r + [Start(WANTED)];
    RunAppends(Same, EMPTY, r, Apply(false, true, Accepted)); r := r + [Apply(false, true, Accepted)];
    RunAppends(Same, EMPTY, r, Record(Accepted));
  }

  /** Without any forging: the operator's own recreation, a lost status write, and
      edits that happen to bring the new incarnation up to the old one's recorded
      generation. The skip that follows crosses incarnations. */
  lemma CrossedIncarnationsHideDrift()
    ensures var run := RECORD_AGAIN + [Delete] + [Start(WANTED)] + [Apply(false, true, LostReply)]
                       + [EditSpec(DRIFTED, 1)] + [Start(WANTED)];
            && Initial(Same, EMPTY) && Executes(Same, EMPTY, run)
            && (forall i :: 0 <= i < |run| ==> !Forges(run[i]))
            && !SkipsAreSound(Same, After(Same, EMPTY, run))
            && CrossesIncarnations(After(Same, EMPTY, run), Apply(false, false, Accepted))
  {
    RecordAgain();
    var r := RECORD_AGAIN;
    RunAppends(Same, EMPTY, r, Delete); r := r + [Delete];
    RunAppends(Same, EMPTY, r, Start(WANTED)); r := r + [Start(WANTED)];
    RunAppends(Same, EMPTY, r, Apply(false, true, LostReply)); r := r + [Apply(false, true, LostReply)];
    assert WANTED["replicas"] != DRIFTED["replicas"];
    RunAppends(Same, EMPTY, r, EditSpec(DRIFTED, 1)); r := r + [EditSpec(DRIFTED, 1)];
    RunAppends(Same, EMPTY, r, Start(WANTED));
  }
}
