/** Concurrent provisioning: the manager's lock covers only the publication, so the applies of several
    calls interleave. */
module EnvironmentRuns {
  import opened Prelude
  import opened Policy
  import opened Text
  import opened Templates
  import opened Slugs
  import opened Blueprint
  import opened Reconciler
  import opened Environment
  import opened Runs

  // ----- Steps -----

  /** A call under way: its operations, and where in the cluster's log each one so far was applied. */
  datatype Job = Job(identity: string, mapper: Mapper, ops: seq<Operation>, at: seq<nat>)

  datatype World = World(services: map<string, map<string, Service>>, applied: seq<Operation>, jobs: map<nat, Job>)

  /** A call renders and maps, applies its operations one by one, and publishes; any number run at once. */
  datatype Step =
    | Begin(client: nat, identity: string, mapper: Mapper)
    | ApplyNext(client: nat, accepted: bool)
    | Publish(client: nat)

  const NOTHING: World := World(map[], [], map[])

  ghost function Next(p: Platform, lib: Library, d: Document, w: World, s: Step): World {
    match s
    case Begin(client, identity, mapper) =>
      var instance := InstanceOf(p, d, identity);
      if client in w.jobs || !IsIdentity(identity) || !AllMap(mapper, instance) then w
      else w.(jobs := w.jobs[client := Job(identity, mapper, OperationsOf(mapper, instance), [])])
    case ApplyNext(client, accepted) =>
      if client !in w.jobs || |w.jobs[client].at| >= |w.jobs[client].ops| then w
      else if !accepted then w.(jobs := w.jobs - {client})
      else
        var job := w.jobs[client];
        w.(applied := w.applied + [job.ops[|job.at|]], jobs := w.jobs[client := job.(at := job.at + [|w.applied|])])
    case Publish(client) =>
      if client !in w.jobs || |w.jobs[client].at| < |w.jobs[client].ops| then w
      else
        var identity := w.jobs[client].identity;
        w.(services := w.services[identity := ServicesOf(lib, InstanceOf(p, d, identity))], jobs := w.jobs - {client})
  }

  ghost function Run(p: Platform, lib: Library, d: Document, steps: seq<Step>): World {
    Fold((w, s) => Next(p, lib, d, w, s), NOTHING, steps)
  }

  // ----- The invariant -----

  /** The operations so far are in the log, at increasing positions. */
  ghost predicate InOrder(applied: seq<Operation>, ops: seq<Operation>, at: seq<nat>) {
    && |at| <= |ops|
    && (forall i :: 0 <= i < |at| ==> at[i] < |applied| && applied[at[i]] == ops[i])
    && (forall i, j :: 0 <= i < j < |at| ==> at[i] < at[j])
  }

  ghost predicate JobFits(p: Platform, d: Document, applied: seq<Operation>, job: Job) {
    && IsIdentity(job.identity) && Covers(job.mapper, InstanceOf(p, d, job.identity), job.ops)
    && InOrder(applied, job.ops, job.at)
  }

  /** The whole environment of the identity is in the log, the namespace first and the resources in order. */
  ghost predicate Applied(p: Platform, d: Document, identity: string, applied: seq<Operation>) {
    exists job: Job :: job.identity == identity && JobFits(p, d, applied, job) && |job.at| == |job.ops|
  }

  ghost predicate PublishedFits(p: Platform, lib: Library, d: Document, w: World, identity: string)
    requires identity in w.services
  {
    && IsIdentity(identity) && w.services[identity] == ServicesOf(lib, InstanceOf(p, d, identity))
    && Applied(p, d, identity, w.applied)
  }

  ghost predicate Inv(p: Platform, lib: Library, d: Document, w: World) {
    && (forall c :: c in w.jobs ==> JobFits(p, d, w.applied, w.jobs[c]))
    && (forall i :: i in w.services ==> PublishedFits(p, lib, d, w, i))
  }

  lemma PublishedStay(p: Platform, lib: Library, d: Document, w: World, w': World)
    requires forall i :: i in w.services ==> PublishedFits(p, lib, d, w, i)
    requires w'.services == w.services && w'.applied == w.applied
    ensures forall i :: i in w'.services ==> PublishedFits(p, lib, d, w', i)
  {
    forall i | i in w'.services ensures PublishedFits(p, lib, d, w', i) {
      assert PublishedFits(p, lib, d, w, i);
    }
  }

  lemma BeginKeeps(p: Platform, lib: Library, d: Document, w: World, client: nat, identity: string, mapper: Mapper)
    requires Inv(p, lib, d, w)
    ensures Inv(p, lib, d, Next(p, lib, d, w, Begin(client, identity, mapper)))
  {
    var w', instance := Next(p, lib, d, w, Begin(client, identity, mapper)), InstanceOf(p, d, identity);
    if client !in w.jobs && IsIdentity(identity) && AllMap(mapper, instance) {
      var job := Job(identity, mapper, OperationsOf(mapper, instance), []);
      assert JobFits(p, d, w.applied, job);
      forall c | c in w'.jobs ensures JobFits(p, d, w'.applied, w'.jobs[c]) {
        assert c != client ==> JobFits(p, d, w.applied, w.jobs[c]);
      }
      PublishedStay(p, lib, d, w, w');
    }
  }

  lemma StillFits(p: Platform, d: Document, applied: seq<Operation>, later: seq<Operation>, job: Job)
    requires JobFits(p, d, applied, job) && applied <= later
    ensures JobFits(p, d, later, job)
  {
  }

  lemma StillApplied(p: Platform, d: Document, identity: string, applied: seq<Operation>, later: seq<Operation>)
    requires Applied(p, d, identity, applied) && applied <= later
    ensures Applied(p, d, identity, later)
  {
    var job: Job :| job.identity == identity && JobFits(p, d, applied, job) && |job.at| == |job.ops|;
    StillFits(p, d, applied, later, job);
  }

  /** The next operation goes to the end of the log, behind all earlier ones. */
  lemma NextFits(p: Platform, d: Document, applied: seq<Operation>, job: Job)
    requires JobFits(p, d, applied, job) && |job.at| < |job.ops|
    ensures JobFits(p, d, applied + [job.ops[|job.at|]], job.(at := job.at + [|applied|]))
  {
  }

  lemma ApplyKeeps(p: Platform, lib: Library, d: Document, w: World, client: nat)
    requires Inv(p, lib, d, w) && client in w.jobs && |w.jobs[client].at| < |w.jobs[client].ops|
    ensures Inv(p, lib, d, Next(p, lib, d, w, ApplyNext(client, true)))
  {
    var w' := Next(p, lib, d, w, ApplyNext(client, true));
    forall c | c in w'.jobs ensures JobFits(p, d, w'.applied, w'.jobs[c]) {
      if c == client {
        NextFits(p, d, w.applied, w.jobs[client]);
      } else {
        StillFits(p, d, w.applied, w'.applied, w.jobs[c]);
      }
    }
    forall i | i in w'.services ensures PublishedFits(p, lib, d, w', i) {
      assert PublishedFits(p, lib, d, w, i);
      StillApplied(p, d, i, w.applied, w'.applied);
    }
  }

  lemma FailKeeps(p: Platform, lib: Library, d: Document, w: World, client: nat)
    requires Inv(p, lib, d, w)
    ensures Inv(p, lib, d, Next(p, lib, d, w, ApplyNext(client, false)))
  {
    PublishedStay(p, lib, d, w, Next(p, lib, d, w, ApplyNext(client, false)));
  }

  lemma PublishKeeps(p: Platform, lib: Library, d: Document, w: World, client: nat)
    requires Inv(p, lib, d, w)
    ensures Inv(p, lib, d, Next(p, lib, d, w, Publish(client)))
  {
    var w' := Next(p, lib, d, w, Publish(client));
    forall i | i in w'.services ensures PublishedFits(p, lib, d, w', i) {
      if client in w.jobs && |w.jobs[client].at| == |w.jobs[client].ops| && i == w.jobs[client].identity {
        assert JobFits(p, d, w.applied, w.jobs[client]);
      } else {
        assert PublishedFits(p, lib, d, w, i);
      }
    }
  }

  lemma NextKeeps(p: Platform, lib: Library, d: Document, w: World, s: Step)
    requires Inv(p, lib, d, w)
    ensures Inv(p, lib, d, Next(p, lib, d, w, s))
  {
    match s
    case Begin(client, identity, mapper) => BeginKeeps(p, lib, d, w, client, identity, mapper);
    case ApplyNext(client, accepted) =>
      if !accepted {
        FailKeeps(p, lib, d, w, client);
      } else if client in w.jobs && |w.jobs[client].at| < |w.jobs[client].ops| {
        ApplyKeeps(p, lib, d, w, client);
      }
    case Publish(client) => PublishKeeps(p, lib, d, w, client);
  }

  /** In every interleaving of provisioning calls, whoever has published services has exactly those of the
      blueprint, and the cluster has applied all its operations, in order and the namespace first. */
  lemma PublishedMeansApplied(p: Platform, lib: Library, d: Document, steps: seq<Step>, identity: string)
    requires identity in Run(p, lib, d, steps).services
    ensures PublishedFits(p, lib, d, Run(p, lib, d, steps), identity)
    ensures DeclaredApplied(p, d, identity, Run(p, lib, d, steps).applied)
  {
    forall w, s | Inv(p, lib, d, w) ensures Inv(p, lib, d, Next(p, lib, d, w, s)) {
      NextKeeps(p, lib, d, w, s);
    }
    Invariance((w, s) => Next(p, lib, d, w, s), NOTHING, steps, w => Inv(p, lib, d, w), (w, s) => true);
    var w := Run(p, lib, d, steps);
    assert PublishedFits(p, lib, d, w, identity);
    AppliedMeans(p, d, identity, w.applied);
  }

  /** The namespace the identity's services are published in. */
  function Home(p: Platform, d: Document, identity: string): string {
    ShortLabel(p, Fill(Parse(d.nameTemplate), Slug(p, identity), d.name))
  }

  /** The log holds the namespace with its labels and, after it and in order, every declared resource with
      nothing but that namespace filled in, each under the REST resource of its own kind. */
  ghost predicate DeclaredAt(p: Platform, d: Document, identity: string, applied: seq<Operation>, mapper: Mapper,
                             at: seq<nat>) {
    var home := Home(p, d, identity);
    && |at| == |d.resources| + 1
    && (forall i :: 0 <= i < |at| ==> at[i] < |applied|) && (forall i, j :: 0 <= i < j < |at| ==> at[i] < at[j])
    && (var first := applied[at[0]];
        && first.resource == "namespaces" && first.namespace == "" && first.name == home
        && first.contents.NamespaceObject? && LabelsRender(p, d, Slug(p, identity), first.contents.labels))
    && (forall n :: 0 <= n < |d.resources| ==>
          ResourceAt(d.resources[n], home, mapper, applied[at[n + 1]]))
  }

  ghost predicate ResourceAt(r: Resource, home: string, mapper: Mapper, op: Operation) {
    var mapping := mapper(r.apiVersion, r.kind);
    && mapping.Some? && mapping.value.namespaced && op.resource == mapping.value.resource
    && op.namespace == home && op.name == r.name
    && op.contents == Rendered(Resource(r.apiVersion, r.kind, r.name, home, r.replicas, r.ports, r.body))
  }

  ghost predicate DeclaredApplied(p: Platform, d: Document, identity: string, applied: seq<Operation>) {
    exists mapper, at :: DeclaredAt(p, d, identity, applied, mapper, at)
  }

  lemma AppliedMeans(p: Platform, d: Document, identity: string, applied: seq<Operation>)
    requires Applied(p, d, identity, applied)
    ensures DeclaredApplied(p, d, identity, applied)
  {
    var job: Job :| job.identity == identity && JobFits(p, d, applied, job) && |job.at| == |job.ops|;
    var instance := InstanceOf(p, d, identity);
    InstanceRenders(p, d, identity);
    forall n | 0 <= n < |d.resources|
      ensures ResourceAt(d.resources[n], Home(p, d, identity), job.mapper, applied[job.at[n + 1]])
    {
      assert Maps(job.mapper, instance.resources[n]);
      assert job.ops[n + 1] == ResourceOperation(job.mapper, instance, instance.resources[n]);
    }
    assert DeclaredAt(p, d, identity, applied, job.mapper, job.at);
  }

  // ----- A call that nothing interrupts -----

  ghost function Repeat(p: Platform, lib: Library, d: Document, w: World, client: nat, n: nat): World {
    if n == 0 then w else Next(p, lib, d, Repeat(p, lib, d, w, client, n - 1), ApplyNext(client, true))
  }

  lemma {:induction false} RepeatApplies(p: Platform, lib: Library, d: Document, w: World, client: nat, n: nat)
    requires client in w.jobs && w.jobs[client].at == [] && n <= |w.jobs[client].ops|
    ensures var w', job := Repeat(p, lib, d, w, client, n), w.jobs[client];
            && w'.services == w.services && w'.applied == w.applied + job.ops[..n]
            && client in w'.jobs && |w'.jobs[client].at| == n
            && w'.jobs[client].ops == job.ops && w'.jobs[client].identity == job.identity
  {
    if n > 0 {
      RepeatApplies(p, lib, d, w, client, n - 1);
      var ops := w.jobs[client].ops;
      assert ops[..n - 1] + [ops[n - 1]] == ops[..n];
    }
  }

  /** What a caller of the manager sees. */
  function Outside(w: World): State { State(w.services, w.applied) }

  /** Begin and n accepted applies in a row. */
  ghost function Alone(p: Platform, lib: Library, d: Document, w: World, client: nat, identity: string,
                       mapper: Mapper, n: nat): World {
    Repeat(p, lib, d, Next(p, lib, d, w, Begin(client, identity, mapper)), client, n)
  }

  /** The steps of one call in a row, every apply accepted, do what Provision promises of a whole call. */
  lemma AloneIsProvision(p: Platform, lib: Library, d: Document, w: World, client: nat, identity: string,
                         mapper: Mapper)
    requires client !in w.jobs && IsIdentity(identity) && AllMap(mapper, InstanceOf(p, d, identity))
    ensures var ops := OperationsOf(mapper, InstanceOf(p, d, identity));
            var after := Next(p, lib, d, Alone(p, lib, d, w, client, identity, mapper, |ops|), Publish(client));
            Provisions(p, lib, d, mapper, identity, Outside(w), Outside(after), true)
  {
    var instance := InstanceOf(p, d, identity);
    var ops := OperationsOf(mapper, instance);
    RepeatApplies(p, lib, d, Next(p, lib, d, w, Begin(client, identity, mapper)), client, |ops|);
    assert ops[..|ops|] == ops;
    AppendedCovers(mapper, instance, w.applied);
  }

  /** And so do its steps when an apply is refused. */
  lemma RefusedIsProvision(p: Platform, lib: Library, d: Document, w: World, client: nat, identity: string,
                           mapper: Mapper, n: nat)
    requires client !in w.jobs && IsIdentity(identity) && AllMap(mapper, InstanceOf(p, d, identity))
    requires n < |OperationsOf(mapper, InstanceOf(p, d, identity))|
    ensures var after := Next(p, lib, d, Alone(p, lib, d, w, client, identity, mapper, n), ApplyNext(client, false));
            Provisions(p, lib, d, mapper, identity, Outside(w), Outside(after), false)
  {
    RepeatApplies(p, lib, d, Next(p, lib, d, w, Begin(client, identity, mapper)), client, n);
  }
}
