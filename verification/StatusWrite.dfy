/** The status write of a sync: four round trips of a retried compare-and-swap are the
    one step that the reconcile pass takes them for. */
module StatusWrite {
  import opened Wrappers
  import opened Requests
  import opened Generations
  import opened Sync
  import Client = OperatorClient

  /** How the custom resource decides what is required. */
  type Reading = (nat, string, string) -> CrView

  function CrOf(reading: Reading, x: Client.CliManager): Cr {
    Cr(reading(x.uid, x.meta, x.spec), x.status.generations, x.status.other, x.resourceVersion)
  }

  /** The cluster, seen through the server that stores the custom resource. */
  function With(reading: Reading, c: Cluster, s: Client.Server): Cluster {
    c.(cr := if s.stored.Some? then Some(CrOf(reading, s.stored.value)) else None, revision := s.revision)
  }

  /** What `sync` passes to UpdateStatus. */
  function Recording(g: GenerationStatus): OperatorStatus -> OperatorStatus {
    (status: OperatorStatus) => status.(generations := Recorded(status.generations, g))
  }

  lemma RecordingIsStatusStep(reading: Reading, c: Cluster, last: Client.Server, view: CrView, generation: int,
                              s: Client.Server)
    requires Client.IsApplied(last, Recording(GenerationStatus(DeploymentKey(view.namespace), generation, "")), s)
    ensures StatusStep(With(reading, c, last), view, generation, Accepted) == (With(reading, c, s), true)
    ensures StatusStep(With(reading, c, last), view, generation, LostReply) == (With(reading, c, s), false)
  {}

  /** For every interference and every way the requests can end there is one reply with
      which the single step, taken on what others have left, has the same effect and
      the same outcome. */
  method RecordGeneration(client: Client.CLIManagerClient, reading: Reading, ghost c: Cluster,
                          view: CrView, generation: int, attempts: seq<Client.Attempt>)
    returns (ok: bool, ghost others: seq<Client.Write>, ghost reply: Reply)
    requires |attempts| == Client.ATTEMPTS && Client.Valid(client.server)
    modifies client
    ensures others <= Client.Writes(attempts)
    ensures var last := Client.At(old(client.server), others);
            (With(reading, c, client.server), ok) == StatusStep(With(reading, c, last), view, generation, reply)
    ensures var last := Client.At(old(client.server), others);
            && (last.stored.Some? <==> client.server.stored.Some?)
            && (last.stored.Some? ==>
                  var x, y := last.stored.value, client.server.stored.value;
                  && y.uid == x.uid && y.meta == x.meta && y.spec == x.spec && y.generation == x.generation
                  && y.status.other == x.status.other)
    ensures ok ==>
              client.server.stored.Some?
              && var generations := client.server.stored.value.status.generations;
                 Expected(generations, DeploymentKey(view.namespace)) == generation
  {
    var g := GenerationStatus(DeploymentKey(view.namespace), generation, "");
    ghost var start := client.server;
    var r;
    ghost var versions;
    r, others, versions := client.UpdateStatus(Recording(g), attempts);
    ghost var last := Client.At(start, others);
    ok := r.Ok?;
    if r.Ok? {
      RecordedReadsBack(last.stored.value.status.generations, g);
      reply := Accepted;
      RecordingIsStatusStep(reading, c, last, view, generation, client.server);
    } else if client.server == last {
      reply := Refused;
    } else {
      reply := LostReply;
      RecordingIsStatusStep(reading, c, last, view, generation, client.server);
    }
  }
}
