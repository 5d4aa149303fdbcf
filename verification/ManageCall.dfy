/** A manage call up close: it reads its object and writes it in a second request, with
    other writers in between, and is still the one step the reconcile pass takes it for. */
module ManageCall {
  import opened Wrappers
  import opened Requests
  import opened ResourceApply
  import opened Sync
  import opened Convergence

  /** Anything anybody else may do to the cluster. */
  datatype Write = Store(r: Resource, content: Object) | Delete(r: Resource) | ChangeCr(cr: Option<Cr>)

  function Other(env: Env, c: Cluster, w: Write): Cluster {
    match w
    case Store(r, content) => Put(env, c, r, content)
    case Delete(r) => if r in c.objects then c.(objects := c.objects - {r}, revision := c.revision + 1) else c
    case ChangeCr(cr) => c.(cr := cr, revision := c.revision + 1)
  }

  function At(env: Env, c: Cluster, writes: seq<Write>): Cluster {
    if writes == [] then c else Other(env, At(env, c, writes[..|writes| - 1]), writes[|writes| - 1])
  }

  ghost predicate Versioned(c: Cluster) {
    forall r: Resource | r in c.objects :: c.objects[r].resourceVersion <= c.revision
  }

  /** An object that has been touched, or created anew, has a new version. */
  predicate IsFresh(c: Cluster, t: Cluster, r: Resource) {
    r in t.objects && !SameEntry(c, t, r) ==> t.objects[r].resourceVersion > c.revision
  }

  lemma {:induction false} TouchedIsFresh(env: Env, c: Cluster, writes: seq<Write>)
    requires Versioned(c)
    ensures var t := At(env, c, writes);
            Versioned(t) && t.revision >= c.revision && forall r: Resource :: IsFresh(c, t, r)
  {
    if writes != [] {
      var n := |writes| - 1;
      TouchedIsFresh(env, c, writes[..n]);
      var s, t := At(env, c, writes[..n]), At(env, c, writes);
      forall r: Resource ensures IsFresh(c, t, r) {
        assert IsFresh(c, s, r);
      }
    }
  }

  /** Whether the object is still the one that was read, or still absent. A create is
      refused when the object exists, an update when it is gone or has another version. */
  predicate Matches(c: Cluster, t: Cluster, r: Resource) {
    if r in c.objects then r in t.objects && t.objects[r].resourceVersion == c.objects[r].resourceVersion
    else r !in t.objects
  }

  /** `readable`: the read ends with the object or with "not found". `skips`: the helper
      finds nothing to do. */
  function Call(env: Env, c: Cluster, cr: Cr, r: Resource, readable: bool, skips: bool, between: seq<Write>,
                reply: Reply)
    : (Cluster, bool)
  {
    var t := At(env, c, between);
    if !env.renders(r, cr.view) || !readable then (t, false)
    else if skips then (t, true)
    else if !Matches(c, t, r) || !Admitted(env, c, cr, r) || reply.Refused? then (t, false)
    else (Put(env, t, r, TargetOf(env, c, cr, r)), reply.Accepted?)
  }

  class Client {
    const env: Env
    var cluster: Cluster

    constructor (env: Env, cluster: Cluster)
      ensures this.env == env && this.cluster == cluster
    {
      this.env, this.cluster := env, cluster;
    }

    method Manage(cr: Cr, r: Resource, readable: bool, skips: bool, between: seq<Write>, reply: Reply)
      returns (ok: bool)
      modifies this
      ensures (cluster, ok) == Call(env, old(cluster), cr, r, readable, skips, between, reply)
    {
      if !env.renders(r, cr.view) || !readable {
        cluster := At(env, cluster, between);
        return false;
      }
      var existing := if r in cluster.objects then Some(cluster.objects[r]) else None;
      var target := env.apply(r, cr.view, Stored(cluster, r), Stale(cluster, cr, r));
      cluster := At(env, cluster, between);
      if skips {
        return true;
      }
      if existing.None? {
        if r in cluster.objects || reply.Refused? {
          return false;
        }
      } else if r !in cluster.objects || cluster.objects[r].resourceVersion != existing.value.resourceVersion
                || (target != existing.value.content && !env.admits(r, existing.value.content, target))
                || reply.Refused?
      {
        return false;
      }
      cluster := Put(env, cluster, r, target);
      ok := reply.Accepted?;
    }
  }

  /** For any writes in between: a call that skips is one step at its read, and any
      other is one step at its write, refused if the object has been touched. */
  lemma CallIsOneStep(env: Env, c: Cluster, cr: Cr, r: Resource, readable: bool, skips: bool, between: seq<Write>,
                      reply: Reply)
    requires Versioned(c)
    requires skips ==> r in c.objects && TargetOf(env, c, cr, r) == c.objects[r].content
    ensures var t := At(env, c, between);
            Call(env, c, cr, r, readable, skips, between, reply)
            == if skips && readable && env.renders(r, cr.view)
               then (At(env, ManageStep(env, c, cr, r, Accepted).0, between), true)
               else ManageStep(env, t, cr, r, if readable && SameEntry(c, t, r) then reply else Refused)
    ensures skips && readable && env.renders(r, cr.view) ==> ManageStep(env, c, cr, r, Accepted) == (c, true)
  {
    TouchedIsFresh(env, c, between);
    var t := At(env, c, between);
    assert IsFresh(c, t, r);
    assert Matches(c, t, r) <==> SameEntry(c, t, r);
  }
}
