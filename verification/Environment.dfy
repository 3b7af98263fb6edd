/** The environment manager: provisioning a blueprint and publishing its services. */
module Environment {
  import opened Prelude
  import opened Policy
  import opened Text
  import opened Slugs
  import opened Blueprint
  import opened Listing
  import opened Reconciler
  import opened Indexes
  import Lifecycle

  // ----- The services of an instance -----

  function Decimal(n: nat): string {
    if n < 10 then [('0' as int + n) as char] else Decimal(n / 10) + [('0' as int + n % 10) as char]
  }

  function JoinHostPort(host: string, port: nat): string {
    if ':' in host || '%' in host then "[" + host + "]:" + Decimal(port) else host + ":" + Decimal(port)
  }

  function Duration(lib: Library, text: string): int {
    var d := lib.parseDuration(text);
    if d.Some? then d.value else 0
  }

  function Published(lib: Library, namespace: string, s: Exposed): Service {
    Service(s.name, JoinHostPort(s.targetService + "." + namespace + ".svc.cluster.local", s.targetPort), s.localPort,
            Some(Workload(LowerAscii(s.targetRef.kind), namespace, s.targetRef.name, s.replicas,
                          Duration(lib, s.readyTimeout), Duration(lib, s.idleTimeout))))
  }

  function Publisher(lib: Library, namespace: string): Exposed -> Service {
    s => Published(lib, namespace, s)
  }

  predicate TimeoutsParse(lib: Library, s: Exposed) {
    lib.parseDuration(s.readyTimeout).Some? && lib.parseDuration(s.idleTimeout).Some?
  }

  /** The declared services under their names; of two with one name the later counts. */
  function ServicesOf(lib: Library, instance: Instance): map<string, Service> {
    IndexOf(Blueprint.NameOf, Publisher(lib, instance.namespace), instance.services)
  }

  method InstanceServices(lib: Library, instance: Instance) returns (r: Result<map<string, Service>>)
    ensures r.Ok? <==> forall i :: 0 <= i < |instance.services| ==> TimeoutsParse(lib, instance.services[i])
    ensures r.Ok? ==> r.value == ServicesOf(lib, instance)
  {
    var m, fine := BuildIndex(Blueprint.NameOf, Publisher(lib, instance.namespace),
                              (s: Exposed) => TimeoutsParse(lib, s), instance.services);
    return if fine then Ok(m) else Err(Invalid);
  }

  /** A validated blueprint publishes exactly its declared services, each under its name. */
  lemma PublishesExactly(p: Platform, lib: Library, d: Document, identity: string)
    requires Blueprint.Valid(lib, d)
    ensures var instance := InstanceOf(p, d, identity);
            var m := ServicesOf(lib, instance);
            Indexed(m, Blueprint.NameOf, Publisher(lib, instance.namespace), d.services, |d.services|) && Named(m)
  {
    DistinctIndex(Blueprint.NameOf, Publisher(lib, InstanceOf(p, d, identity).namespace), d.services);
  }

  // ----- What a published service says -----

  function DigitsValue(s: string): int {
    if s == [] then 0 else 10 * DigitsValue(s[..|s| - 1]) + (s[|s| - 1] as int - '0' as int)
  }

  /** A number written in decimal reads back, in digits and without leading zeros. */
  lemma {:induction false} DecimalReads(n: nat)
    ensures var s := Decimal(n);
            && s != [] && (forall i :: 0 <= i < |s| ==> IsDigit(s[i])) && DigitsValue(s) == n
            && (n > 0 ==> s[0] != '0')
  {
    if n >= 10 {
      DecimalReads(n / 10);
      var front, last := Decimal(n / 10), [('0' as int + n % 10) as char];
      assert Decimal(n) == front + last && (front + last)[..|front|] == front;
    } else {
      var s := Decimal(n);
      assert |s| == 1 && s[..0] == [] && DigitsValue(s[..0]) == 0;
    }
  }

  /** The address of a Service inside the cluster, in brackets if its host part looks like an IPv6 address. */
  ghost predicate IsAddress(target: string, service: string, namespace: string, port: nat) {
    var host, digits := service + "." + namespace + ".svc.cluster.local", Decimal(port);
    target == if ':' in host || '%' in host then "[" + host + "]:" + digits else host + ":" + digits
  }

  /** Whoever was published a declared service is given its name, its in-cluster address, its local port,
      and its workload in the identity's namespace with the declared replicas and parsed timeouts. */
  lemma PublishedMeans(p: Platform, lib: Library, d: Document, identity: string, i: nat)
    requires Valid(lib, d) && i < |d.services|
    ensures var instance, s := InstanceOf(p, d, identity), d.services[i];
            && s.name in ServicesOf(lib, instance)
            && var out := ServicesOf(lib, instance)[s.name];
               && out.name == s.name && out.localPort == s.localPort
               && IsAddress(out.target, s.targetService, instance.namespace, s.targetPort)
               && out.workload.Some?
               && var w := out.workload.value;
                  && w.kind == (if s.targetRef.kind == "Deployment" then "deployment" else "statefulset")
                  && w.namespace == instance.namespace && w.name == s.targetRef.name && w.replicas == s.replicas
                  && lib.parseDuration(s.readyTimeout) == Some(w.readyTimeout)
                  && lib.parseDuration(s.idleTimeout) == Some(w.idleTimeout)
  {
    PublishesExactly(p, lib, d, identity);
    assert AllExposed(lib, d.services, d.resources) && ValidAlone(lib, d.services[i]);
    assert Blueprint.NameOf(d.services[i]) == d.services[i].name;
    LoweredKinds();
    PublishedFields(lib, InstanceOf(p, d, identity).namespace, d.services[i]);
  }

  lemma PublishedFields(lib: Library, namespace: string, s: Exposed)
    requires ValidAlone(lib, s)
    ensures var out := Published(lib, namespace, s);
            && out.name == s.name && out.localPort == s.localPort
            && IsAddress(out.target, s.targetService, namespace, s.targetPort)
  {
  }

  // ----- What a validated blueprint publishes -----

  /** The input checks of the Kubernetes scaler for scaling up, and the lifecycle's own demands. */
  predicate ScalerAccepts(w: Workload) {
    && (w.kind == "deployment" || w.kind == "statefulset")
    && w.namespace != "" && w.name != "" && w.replicas >= 1 && w.readyTimeout > 0 && w.idleTimeout >= 0
  }

  lemma LoweredKinds()
    ensures LowerAscii("Deployment") == "deployment" && LowerAscii("StatefulSet") == "statefulset"
  {
  }

  /** Whatever the names contain, every published workload passes the scaler's checks. */
  lemma PublishedPassesScaler(p: Platform, lib: Library, d: Document, identity: string, i: nat)
    requires Valid(lib, d) && IsIdentity(identity) && i < |d.services|
    ensures var s := Published(lib, InstanceOf(p, d, identity).namespace, d.services[i]);
            s.workload.Some? && ScalerAccepts(s.workload.value)
  {
    var s := d.services[i];
    assert AllExposed(lib, d.services, d.resources);
    assert ValidAlone(lib, s) && References(s, d.resources);
    LoweredKinds();
    SlugIsLabel(p, identity);
    NamespaceRenders(p, lib, d, Slug(p, identity), true);
    if s.targetRef.name == "" {
      NamelessIsNotDeclared(s.targetRef.apiVersion, s.targetRef.kind, d.resources);
    }
  }

  lemma NamelessIsNotDeclared(apiVersion: string, kind: string, rs: seq<Resource>)
    requires ValidResources(rs)
    ensures forall i :: 0 <= i < |rs| ==> KeyOfResource(rs[i]) != ResourceKey(apiVersion, kind, "")
  {
    forall i | 0 <= i < |rs| ensures KeyOfResource(rs[i]) != ResourceKey(apiVersion, kind, "") {
      assert ValidResource(rs[i]);
      var k := KeyOfResource(rs[i]);
      assert k[|k| - 1] == rs[i].name[|rs[i].name| - 1];
      var e := ResourceKey(apiVersion, kind, "");
      assert e[|e| - 1] == NUL;
      assert IsAlnum(k[|k| - 1]);
    }
  }

  function ReferenceTo(r: Resource): Reference { Reference(r.apiVersion, r.kind, r.name) }

  /** The reference names a resource declared at zero replicas. */
  ghost predicate Declared(ref: Reference, rs: seq<Resource>) {
    exists j :: 0 <= j < |rs| && rs[j].replicas == Some(0) && ReferenceTo(rs[j]) == ref
  }

  /** A published workload is a declared one exactly when the name of the reference is free of NUL. */
  lemma PublishedIsDeclared(lib: Library, d: Document, i: nat)
    requires Valid(lib, d) && i < |d.services|
    ensures Declared(d.services[i].targetRef, d.resources) <==> NUL !in d.services[i].targetRef.name
  {
    var s := d.services[i];
    assert AllExposed(lib, d.services, d.resources);
    assert ValidAlone(lib, s) && References(s, d.resources);
    if NUL !in s.targetRef.name {
      var j :| 0 <= j < |d.resources| && KeyOfResource(d.resources[j]) == WorkloadKey(s) &&
        d.resources[j].replicas == Some(0);
      ThreeParts(s.targetRef.apiVersion, s.targetRef.kind, s.targetRef.name,
                 d.resources[j].apiVersion, d.resources[j].kind, d.resources[j].name);
      assert ReferenceTo(d.resources[j]) == s.targetRef;
    } else if Declared(s.targetRef, d.resources) {
      var j :| 0 <= j < |d.resources| && ReferenceTo(d.resources[j]) == s.targetRef;
      assert ValidResource(d.resources[j]);
      NamesHaveNoNul(s.targetRef.name);
      assert false;
    }
  }

  /** A declared v1 Service of that name exposes the port. */
  ghost predicate Exposes(rs: seq<Resource>, name: string, port: int) {
    exists j :: 0 <= j < |rs| && rs[j].apiVersion == "v1" && rs[j].kind == "Service" && rs[j].name == name &&
                port in rs[j].ports
  }

  /** A published service is reached through a declared Service that exposes its port exactly when the
      name it gives for that Service is free of NUL. */
  lemma PublishedIsExposed(lib: Library, d: Document, i: nat)
    requires Valid(lib, d) && i < |d.services|
    ensures Exposes(d.resources, d.services[i].targetService, d.services[i].targetPort) <==>
            NUL !in d.services[i].targetService
  {
    var s := d.services[i];
    assert AllExposed(lib, d.services, d.resources);
    assert ValidAlone(lib, s) && References(s, d.resources);
    if NUL !in s.targetService {
      var j :| 0 <= j < |d.resources| && KeyOfResource(d.resources[j]) == ServiceKey(s) &&
        s.targetPort in d.resources[j].ports;
      ThreeParts("v1", "Service", s.targetService,
                 d.resources[j].apiVersion, d.resources[j].kind, d.resources[j].name);
    } else if Exposes(d.resources, s.targetService, s.targetPort) {
      var j :| 0 <= j < |d.resources| && d.resources[j].name == s.targetService;
      assert ValidResource(d.resources[j]);
      NamesHaveNoNul(s.targetService);
      assert false;
    }
  }

  /** A blueprint with one Service, and one resource whose kind continues into what a reference takes
      for the name of a Deployment. */
  function Misleading(d: Document): Document
    requires d.services != []
  {
    d.(resources := [Resource("v1", "Service", "s", "", None, [80], ""),
                     Resource("apps/v1", "Deployment" + [NUL] + "x", "y", "", Some(0), [], "")],
       services := [Exposed("web", 0, "s", 80, Reference("apps/v1", "Deployment", "x" + [NUL] + "y"), 1,
                            d.services[0].readyTimeout, d.services[0].idleTimeout)])
  }

  lemma MisleadingKeys()
    ensures Join("apps/v1", "Deployment" + [NUL] + "x", "y") == Join("apps/v1", "Deployment", "x" + [NUL] + "y")
    ensures Join("apps/v1", "Deployment" + [NUL] + "x", "y") != Join("v1", "Service", "s")
  {
    var k := "Deployment";
    assert (k + [NUL] + "x") + [NUL] + "y" == k + [NUL] + ("x" + [NUL] + "y");
    assert Join("apps/v1", "Deployment" + [NUL] + "x", "y")[0] == 'a' && Join("v1", "Service", "s")[0] == 'v';
  }

  /** Such a blueprint validates, although it declares no Deployment at all. */
  lemma NulMisleadsReferences(lib: Library, d: Document)
    requires Valid(lib, d)
    ensures Valid(lib, Misleading(d)) && !Declared(Misleading(d).services[0].targetRef, Misleading(d).resources)
  {
    var m := Misleading(d);
    MisleadingReferences(d);
    assert AllExposed(lib, d.services, d.resources) && ValidAlone(lib, d.services[0]);
    assert ValidAlone(lib, m.services[0]);
    assert m.services[0].targetRef.name[1] == NUL;
    PublishedIsDeclared(lib, m, 0);
  }

  lemma MisleadingReferences(d: Document)
    requires d.services != []
    ensures var m := Misleading(d); ValidResources(m.resources) && References(m.services[0], m.resources)
  {
    MisleadingKeys();
    var m := Misleading(d);
    assert KeyOfResource(m.resources[0]) == ServiceKey(m.services[0]) && 80 in m.resources[0].ports;
    assert KeyOfResource(m.resources[1]) == WorkloadKey(m.services[0]);
  }

  lemma NamesHaveNoNul(s: string)
    requires forall i :: 0 <= i < |s| ==> IsNameChar(s[i])
    ensures NUL !in s
  {
  }

  lemma NamespaceIsClean(p: Platform, lib: Library, d: Document, identity: string)
    requires Valid(lib, d) && IsIdentity(identity)
    ensures NUL !in InstanceOf(p, d, identity).namespace
  {
    SlugIsLabel(p, identity);
    NamespaceRenders(p, lib, d, Slug(p, identity), true);
    NamesHaveNoNul(InstanceOf(p, d, identity).namespace);
  }

  lemma KindsAreClean(lib: Library, s: Exposed)
    requires ValidAlone(lib, s)
    ensures NUL !in LowerAscii(s.targetRef.kind)
  {
    LoweredKinds();
  }

  /** Two kinds and two clean namespaces, then anything: the key tells all parts apart. */
  lemma TargetParts(t: Target, u: Target)
    requires NUL !in t.kind && NUL !in u.kind && NUL !in t.namespace && NUL !in u.namespace
    ensures Lifecycle.KeyOf(Lifecycle.Managed(t)) == Lifecycle.KeyOf(Lifecycle.Managed(u)) <==> t == u
  {
    if Lifecycle.KeyOf(Lifecycle.Managed(t)) == Lifecycle.KeyOf(Lifecycle.Managed(u)) {
      SplitAtNul("workload", Join(t.kind, t.namespace, t.name), "workload", Join(u.kind, u.namespace, u.name));
      SplitAtNul(t.kind, t.namespace + [NUL] + t.name, u.kind, u.namespace + [NUL] + u.name);
      SplitAtNul(t.namespace, t.name, u.namespace, u.name);
    }
  }

  /** Two identities share a lifecycle runtime through one blueprint exactly when their namespaces
      coincide, which NamespaceCollision characterises, and the services scale one workload. */
  lemma SharedRuntimeMeansSharedNamespace(p: Platform, lib: Library, d: Document, x: string, y: string, i: nat, j: nat)
    requires Valid(lib, d) && IsIdentity(x) && IsIdentity(y) && i < |d.services| && j < |d.services|
    ensures var sx := Published(lib, InstanceOf(p, d, x).namespace, d.services[i]);
            var sy := Published(lib, InstanceOf(p, d, y).namespace, d.services[j]);
            Lifecycle.RuntimeKey(x, sx) == Lifecycle.RuntimeKey(y, sy) <==>
            && InstanceOf(p, d, x).namespace == InstanceOf(p, d, y).namespace
            && d.services[i].targetRef == d.services[j].targetRef
  {
    var sx := Published(lib, InstanceOf(p, d, x).namespace, d.services[i]);
    var sy := Published(lib, InstanceOf(p, d, y).namespace, d.services[j]);
    assert AllExposed(lib, d.services, d.resources);
    assert ValidAlone(lib, d.services[i]) && ValidAlone(lib, d.services[j]);
    NamespaceIsClean(p, lib, d, x);
    NamespaceIsClean(p, lib, d, y);
    KindsAreClean(lib, d.services[i]);
    KindsAreClean(lib, d.services[j]);
    LoweredKinds();
    TargetParts(TargetOf(sx.workload.value), TargetOf(sy.workload.value));
  }

  /** The end-to-end failure of isolation: an identity that is not its own slug shares the runtime of
      every service with the identity that spells its slug. */
  lemma SpelledIdentitySharesRuntimes(p: Platform, lib: Library, d: Document, x: string, i: nat)
    requires Valid(lib, d) && IsIdentity(x) && !PlainIdentity(x) && i < |d.services|
    ensures var y := Slug(p, x);
            && IsIdentity(y) && y != x
            && Lifecycle.RuntimeKey(x, Published(lib, InstanceOf(p, d, x).namespace, d.services[i])) ==
               Lifecycle.RuntimeKey(y, Published(lib, InstanceOf(p, d, y).namespace, d.services[i]))
  {
    SpelledIdentityShares(p, d, x);
    SharedRuntimeMeansSharedNamespace(p, lib, d, x, Slug(p, x), i, i);
  }

  // ----- The manager -----

  /** The grants a base policy resolves, or None while it cannot be read. */
  type Grants = Option<map<string, map<string, Service>>>

  ghost predicate NamedGrants(base: Grants) {
    base.Some? ==> forall i :: i in base.value ==> Named(base.value[i])
  }

  function GrantsOf(base: map<string, map<string, Service>>, identity: string): map<string, Service> {
    if identity in base then base[identity] else map[]
  }

  function Readable(base: Grants, identity: string): map<string, Service> {
    if base.Some? then GrantsOf(base.value, identity) else map[]
  }

  /** What ResolveService returns from published and granted services. */
  function Resolve(own: map<string, Service>, grants: map<string, Service>, name: string): Option<Service> {
    if name in own then Some(own[name]) else if name in grants then Some(grants[name]) else None
  }

  /** Strictly sorted, and exactly the services that resolve. */
  ghost predicate Agrees(xs: seq<Service>, own: map<string, Service>, grants: map<string, Service>) {
    && StrictlySorted(xs)
    && (forall s :: s in xs <==> Resolve(own, grants, s.name) == Some(s))
    && (forall name :: name in own || name in grants ==> Resolve(own, grants, name).value in xs)
  }

  method Overlaid(own: map<string, Service>, grants: map<string, Service>) returns (xs: seq<Service>)
    requires Named(own) && Named(grants)
    ensures Agrees(xs, own, grants)
  {
    var listed := List(grants);
    var combined := ByName(listed, grants);
    combined := combined + own;
    xs := List(combined);
  }

  /** Rendering an instance of a validated blueprint and its services. */
  method RenderServices(p: Platform, lib: Library, d: Document, identity: string, slugFirst: bool,
                        order: string -> bool)
    returns (r: Option<(Instance, map<string, Service>)>)
    requires Blueprint.Valid(lib, d)
    ensures r == if IsIdentity(identity)
                 then Some((InstanceOf(p, d, identity), ServicesOf(lib, InstanceOf(p, d, identity)))) else None
  {
    var rendered := Instantiate(p, lib, d, identity, slugFirst, order);
    if rendered.Err? {
      return None;
    }
    var instance := rendered.value;
    AllTimeoutsParse(lib, d);
    var published := InstanceServices(lib, instance);
    return Some((instance, published.value));
  }

  lemma AllTimeoutsParse(lib: Library, d: Document)
    requires Blueprint.Valid(lib, d)
    ensures forall i :: 0 <= i < |d.services| ==> TimeoutsParse(lib, d.services[i])
  {
    assert AllExposed(lib, d.services, d.resources);
  }

  /** What is published, and what the cluster was asked to apply. */
  datatype State = State(services: map<string, map<string, Service>>, applied: seq<Operation>)

  /** One call of Provision and how it ended: it publishes the identity's services only after every
      object was applied, namespace first; otherwise it publishes nothing. */
  ghost predicate Provisions(p: Platform, lib: Library, d: Document, mapper: Mapper, identity: string,
                             s: State, s': State, ok: bool) {
    var instance := InstanceOf(p, d, identity);
    && s.applied <= s'.applied
    && (ok ==> IsIdentity(identity) && s'.services == s.services[identity := ServicesOf(lib, instance)] &&
               Covers(mapper, instance, s'.applied[|s.applied|..]))
    && (!ok ==> s'.services == s.services)
    && (!IsIdentity(identity) || !AllMap(mapper, instance) ==> !ok && s'.applied == s.applied)
  }

  lemma AppendedCovers(mapper: Mapper, instance: Instance, before: seq<Operation>)
    requires AllMap(mapper, instance)
    ensures Covers(mapper, instance, (before + OperationsOf(mapper, instance))[|before|..])
  {
    var ops := OperationsOf(mapper, instance);
    assert (before + ops)[|before|..] == ops;
  }

  // ----- The object -----

  class Manager {
    const p: Platform
    const lib: Library
    const document: Document
    const cluster: Cluster
    var services: map<string, map<string, Service>>

    ghost predicate Valid()
      reads this
    {
      && Blueprint.Valid(lib, document)
      && forall i :: i in services ==> IsIdentity(i) && services[i] == ServicesOf(lib, InstanceOf(p, document, i))
    }

    ghost function View(): State
      reads this, cluster
    {
      State(services, cluster.applied)
    }

    constructor (p: Platform, lib: Library, document: Document, cluster: Cluster)
      requires Blueprint.Valid(lib, document)
      ensures Valid() && services == map[]
      ensures this.p == p && this.lib == lib && this.document == document && this.cluster == cluster
    {
      this.p, this.lib, this.document, this.cluster, services := p, lib, document, cluster, map[];
    }

    /** Succeeds exactly when the identity is valid, every resource maps and every apply is accepted. */
    method Provision(mapper: Mapper, identity: string, accepts: nat -> bool, slugFirst: bool, order: string -> bool)
      returns (ok: bool)
      requires Valid()
      modifies this, cluster
      ensures Valid()
      ensures ok <==>
                && IsIdentity(identity) && AllMap(mapper, InstanceOf(p, document, identity))
                && forall n :: 0 <= n <= |document.resources| ==> accepts(n)
      ensures Provisions(p, lib, document, mapper, identity, old(View()), View(), ok)
    {
      var rendered := RenderServices(p, lib, document, identity, slugFirst, order);
      if rendered.None? {
        return false;
      }
      var (instance, published) := rendered.value;
      ghost var before := cluster.applied;
      ok := cluster.Reconcile(mapper, instance, accepts);
      if ok {
        services := services[identity := published];
        AppendedCovers(mapper, instance, before);
      }
    }

    /** A blueprint service first, then a direct grant. */
    method ResolveService(base: Grants, identity: string, name: string) returns (r: Option<Service>)
      ensures r == Resolve(GrantsOf(services, identity), Readable(base, identity), name)
      ensures identity in services && name in services[identity] ==> r == Some(services[identity][name])
      ensures !(identity in services && name in services[identity]) ==>
                r == if base.Some? && identity in base.value && name in base.value[identity]
                     then Some(base.value[identity][name]) else None
    {
      var own := GrantsOf(services, identity);
      if name in own {
        return Some(own[name]);
      }
      if base.None? {
        return None;
      }
      var grants := GrantsOf(base.value, identity);
      return if name in grants then Some(grants[name]) else None;
    }

    lemma OwnAreNamed(identity: string)
      requires Valid()
      ensures Named(GrantsOf(services, identity))
    {
      if identity in services {
        PublishesExactly(p, lib, document, identity);
      }
    }

    /** Whenever the listing succeeds it is strictly sorted by name, and holds a service exactly
        when ResolveService returns it. */
    method Services(base: Grants, identity: string) returns (r: Result<seq<Service>>)
      requires Valid() && NamedGrants(base)
      ensures r.Ok? <==> base.Some?
      ensures r.Ok? ==> Agrees(r.value, GrantsOf(services, identity), Readable(base, identity))
    {
      if base.None? {
        return Err(Unavailable);
      }
      var own, grants := GrantsOf(services, identity), GrantsOf(base.value, identity);
      OwnAreNamed(identity);
      var xs := Overlaid(own, grants);
      return Ok(xs);
    }
  }

  /** NewManager refuses an invalid blueprint, a missing reconciler and a missing base policy. */
  method NewManager(p: Platform, lib: Library, document: Document, reconciler: Cluster?, hasBase: bool)
    returns (m: Manager?)
    ensures m != null <==> Blueprint.Valid(lib, document) && reconciler != null && hasBase
    ensures m != null ==> fresh(m) && m.Valid() && m.services == map[] && m.cluster == reconciler
    ensures m != null ==> m.p == p && m.lib == lib && m.document == document
  {
    var ok := Validate(lib, document);
    if !ok || reconciler == null || !hasBase {
      return null;
    }
    m := new Manager(p, lib, document, reconciler);
  }
}
