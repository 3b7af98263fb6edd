/** Environment blueprints: validation, rendering for an identity, and namespace collisions. */
module Blueprint {
  import opened Prelude
  import opened Text
  import opened Templates
  import opened Slugs
  import opened Indexes

  /** A resource template: the fields validation reads, and the rest of the document as text.
      replicas is spec.replicas when it is a number, ports the numbers under spec.ports. */
  datatype Resource = Resource(
    apiVersion: string, kind: string, name: string, namespace: string,
    replicas: Option<int>, ports: seq<int>, body: string)

  datatype Reference = Reference(apiVersion: string, kind: string, name: string)

  datatype Exposed = Exposed(
    name: string, localPort: nat, targetService: string, targetPort: nat,
    targetRef: Reference, replicas: int, readyTimeout: string, idleTimeout: string)

  datatype Document = Document(
    apiVersion: string, kind: string, name: string,
    nameTemplate: string, labels: map<string, string>,
    resources: seq<Resource>, services: seq<Exposed>)

  datatype Instance = Instance(
    identity: string, identitySlug: string, blueprintName: string, namespace: string,
    labels: map<string, string>, resources: seq<Resource>, services: seq<Exposed>)

  /** Library checks whose inner workings are not modelled. */
  datatype Library = Library(parseDuration: string -> Option<int>, qualified: string -> bool)

  // ----- Validation -----

  function ResourceKey(apiVersion: string, kind: string, name: string): string {
    Join(apiVersion, kind, name)
  }

  function KeyOfResource(r: Resource): string {
    ResourceKey(r.apiVersion, r.kind, r.name)
  }

  predicate ValidResource(r: Resource) {
    r.apiVersion != "" && r.kind != "" && r.name != "" && r.namespace == "" && IsSubdomain(r.name)
  }

  ghost predicate ValidResources(rs: seq<Resource>) {
    && rs != []
    && (forall i :: 0 <= i < |rs| ==> ValidResource(rs[i]))
    && Distinct(KeyOfResource, rs, |rs|)
  }

  predicate PositiveDuration(lib: Library, s: string) {
    lib.parseDuration(s).Some? && lib.parseDuration(s).value > 0
  }

  predicate IdleDuration(lib: Library, s: string) {
    lib.parseDuration(s).Some? && lib.parseDuration(s).value >= 0
  }

  /** Everything about an exposed service that does not depend on the resources. */
  predicate ValidAlone(lib: Library, s: Exposed) {
    && IsServiceName(s.name)
    && 0 < s.targetPort <= 65535 && s.localPort <= 65535
    && s.targetRef.apiVersion == "apps/v1" && (s.targetRef.kind == "Deployment" || s.targetRef.kind == "StatefulSet")
    && s.replicas >= 1 && PositiveDuration(lib, s.readyTimeout) && IdleDuration(lib, s.idleTimeout)
  }

  function WorkloadKey(s: Exposed): string {
    ResourceKey(s.targetRef.apiVersion, s.targetRef.kind, s.targetRef.name)
  }

  function ServiceKey(s: Exposed): string {
    ResourceKey("v1", "Service", s.targetService)
  }

  function NameOf(s: Exposed): string { s.name }

  /** The service's port is exposed by a declared Service, and its workload is declared at zero. */
  ghost predicate References(s: Exposed, rs: seq<Resource>) {
    && (exists i :: 0 <= i < |rs| && KeyOfResource(rs[i]) == ServiceKey(s) && s.targetPort in rs[i].ports)
    && (exists i :: 0 <= i < |rs| && KeyOfResource(rs[i]) == WorkloadKey(s) && rs[i].replicas == Some(0))
  }

  ghost predicate AllExposed(lib: Library, services: seq<Exposed>, rs: seq<Resource>) {
    forall i :: 0 <= i < |services| ==> ValidAlone(lib, services[i]) && References(services[i], rs)
  }

  ghost predicate ValidServices(lib: Library, services: seq<Exposed>, rs: seq<Resource>) {
    && services != []
    && AllExposed(lib, services, rs)
    && Distinct(NameOf, services, |services|)
  }

  ghost predicate ValidLabel(lib: Library, key: string, value: string) {
    lib.qualified(key) && IsLabelValue(Sample(value))
  }

  ghost predicate ValidNamespace(lib: Library, d: Document) {
    && Count(d.nameTemplate, SLUG) == 1 && Count(d.nameTemplate, NAME) == 1
    && IsLabel(Sample(d.nameTemplate))
    && (forall k :: k in d.labels ==> ValidLabel(lib, k, d.labels[k]))
  }

  ghost predicate Valid(lib: Library, d: Document) {
    && d.apiVersion == "tearenv.io/v1alpha1" && d.kind == "EnvironmentBlueprint" && IsLabel(d.name)
    && ValidNamespace(lib, d) && ValidResources(d.resources) && ValidServices(lib, d.services, d.resources)
  }

  function Itself(r: Resource): Resource { r }

  method ValidateResources(rs: seq<Resource>) returns (ok: bool, catalog: map<string, Resource>)
    ensures ok <==> ValidResources(rs)
    ensures ok ==> Indexed(catalog, KeyOfResource, Itself, rs, |rs|)
  {
    catalog := map[];
    if rs == [] {
      return false, catalog;
    }
    for n := 0 to |rs|
      invariant Indexed(catalog, KeyOfResource, Itself, rs, n) && Distinct(KeyOfResource, rs, n)
      invariant forall i :: 0 <= i < n ==> ValidResource(rs[i])
    {
      if !ValidResource(rs[n]) {
        return false, catalog;
      }
      var key := KeyOfResource(rs[n]);
      IndexGrows(catalog, KeyOfResource, Itself, rs, n);
      if key in catalog {
        DistinctPrefix(KeyOfResource, rs, n + 1);
        return false, catalog;
      }
      catalog := catalog[key := rs[n]];
    }
    ok := true;
  }

  predicate Declares(catalog: map<string, Resource>, s: Exposed) {
    && ServiceKey(s) in catalog && s.targetPort in catalog[ServiceKey(s)].ports
    && WorkloadKey(s) in catalog && catalog[WorkloadKey(s)].replicas == Some(0)
  }

  /** Looking a reference up in the catalog is finding it among the resources. */
  lemma CatalogAgrees(catalog: map<string, Resource>, rs: seq<Resource>, s: Exposed)
    requires Indexed(catalog, KeyOfResource, Itself, rs, |rs|)
    ensures References(s, rs) <==> Declares(catalog, s)
  {
    LookupFinds(catalog, KeyOfResource, Itself, rs, ServiceKey(s), (r: Resource) => s.targetPort in r.ports);
    LookupFinds(catalog, KeyOfResource, Itself, rs, WorkloadKey(s), (r: Resource) => r.replicas == Some(0));
  }

  method ValidateServices(lib: Library, services: seq<Exposed>, catalog: map<string, Resource>, ghost rs: seq<Resource>)
    returns (ok: bool)
    requires Indexed(catalog, KeyOfResource, Itself, rs, |rs|)
    ensures ok <==> ValidServices(lib, services, rs)
  {
    if services == [] {
      return false;
    }
    var check := (s: Exposed) => ValidAlone(lib, s) && Declares(catalog, s);
    ok := CheckDistinct(NameOf, check, services);
    forall i | 0 <= i < |services|
      ensures check(services[i]) <==> ValidAlone(lib, services[i]) && References(services[i], rs)
    {
      CatalogAgrees(catalog, rs, services[i]);
    }
    assert AllOk(check, services, |services|) <==> AllExposed(lib, services, rs);
  }

  method ValidateNamespace(lib: Library, d: Document) returns (ok: bool)
    ensures ok <==> ValidNamespace(lib, d)
  {
    if Count(d.nameTemplate, SLUG) != 1 || Count(d.nameTemplate, NAME) != 1 || !IsLabel(Sample(d.nameTemplate)) {
      return false;
    }
    var rest := d.labels.Keys;
    while rest != {}
      invariant rest <= d.labels.Keys
      invariant forall k :: k in d.labels.Keys - rest ==> ValidLabel(lib, k, d.labels[k])
      decreases |rest|
    {
      var k :| k in rest;
      rest := rest - {k};
      if !lib.qualified(k) || !IsLabelValue(Sample(d.labels[k])) {
        assert !ValidLabel(lib, k, d.labels[k]);
        return false;
      }
    }
    ok := true;
  }

  method Validate(lib: Library, d: Document) returns (ok: bool)
    ensures ok <==> Valid(lib, d)
  {
    if d.apiVersion != "tearenv.io/v1alpha1" || d.kind != "EnvironmentBlueprint" || !IsLabel(d.name) {
      return false;
    }
    var named := ValidateNamespace(lib, d);
    if !named {
      return false;
    }
    var resourced, catalog := ValidateResources(d.resources);
    if !resourced {
      return false;
    }
    ok := ValidateServices(lib, d.services, catalog, d.resources);
  }

  // ----- Rendering -----

  /** A map of two replacements may be walked in either order. */
  function Render(t: string, slug: string, name: string, slugFirst: bool): string {
    if slugFirst then SlugFirst(t, slug, name) else NameFirst(t, slug, name)
  }

  function RenderedNamespace(p: Platform, d: Document, slug: string): string {
    ShortLabel(p, Fill(Parse(d.nameTemplate), slug, d.name))
  }

  function RenderedLabel(p: Platform, d: Document, slug: string, value: string): string {
    ShortValue(p, Fill(Parse(value), slug, d.name))
  }

  function Stamped(rs: seq<Resource>, namespace: string): seq<Resource> {
    seq(|rs|, i requires 0 <= i < |rs| => rs[i].(namespace := namespace))
  }

  /** The namespace every identity is given: labels overwritten by the three the gateway owns. */
  function InstanceOf(p: Platform, d: Document, identity: string): Instance {
    var slug := Slug(p, identity);
    var namespace := RenderedNamespace(p, d, slug);
    var labels := map k | k in d.labels :: RenderedLabel(p, d, slug, d.labels[k]);
    Instance(identity, slug, d.name, namespace,
             labels["app.kubernetes.io/managed-by" := "tearenv"]
                   ["tearenv.io/identity" := slug]["tearenv.io/blueprint" := d.name],
             Stamped(d.resources, namespace), d.services)
  }

  predicate IsOwned(key: string) {
    key == "app.kubernetes.io/managed-by" || key == "tearenv.io/identity" || key == "tearenv.io/blueprint"
  }

  /** The labels are the filled declared ones, except for the three the gateway owns. */
  ghost predicate LabelsRender(p: Platform, d: Document, slug: string, labels: map<string, string>) {
    && (forall k :: k in labels <==> k in d.labels || IsOwned(k))
    && (forall k :: k in labels ==>
          labels[k] == if k == "app.kubernetes.io/managed-by" then "tearenv"
                       else if k == "tearenv.io/identity" then slug
                       else if k == "tearenv.io/blueprint" then d.name
                       else if k in d.labels then ShortValue(p, Fill(Parse(d.labels[k]), slug, d.name))
                       else "")
  }

  /** The declared resources, in order, each with nothing but its namespace filled in. */
  ghost predicate ResourcesRender(d: Document, namespace: string, rs: seq<Resource>) {
    && |rs| == |d.resources|
    && forall n :: 0 <= n < |rs| ==>
         && rs[n].apiVersion == d.resources[n].apiVersion && rs[n].kind == d.resources[n].kind
         && rs[n].name == d.resources[n].name && rs[n].namespace == namespace
         && rs[n].replicas == d.resources[n].replicas && rs[n].ports == d.resources[n].ports
         && rs[n].body == d.resources[n].body
  }

  /** The instance is the blueprint filled in for the identity. */
  ghost predicate Renders(p: Platform, d: Document, identity: string, i: Instance) {
    && i.identity == identity && i.identitySlug == Slug(p, identity) && i.blueprintName == d.name
    && i.namespace == ShortLabel(p, Fill(Parse(d.nameTemplate), Slug(p, identity), d.name))
    && LabelsRender(p, d, Slug(p, identity), i.labels)
    && ResourcesRender(d, i.namespace, i.resources)
    && i.services == d.services
  }

  lemma InstanceRenders(p: Platform, d: Document, identity: string)
    ensures Renders(p, d, identity, InstanceOf(p, d, identity))
  {
  }

  lemma LabelHasNoBrace(s: string)
    requires AllLabelChars(s)
    ensures NoBrace(s)
  {
  }

  lemma ValueHasNoBrace(s: string)
    requires forall i :: 0 <= i < |s| ==> IsValueChar(s[i])
    ensures NoBrace(s)
  {
  }

  lemma SampleFills(t: string)
    requires NoBrace(Sample(t))
    ensures Sample(t) == Fill(Parse(t), "identity", "blueprint")
  {
    OrderDoesNotMatter(t, "identity", "blueprint");
  }

  /** Rendering a validated namespace template always gives a label, in either order. */
  lemma NamespaceRenders(p: Platform, lib: Library, d: Document, slug: string, slugFirst: bool)
    requires Valid(lib, d) && IsLabel(slug)
    ensures Render(d.nameTemplate, slug, d.name, slugFirst) == Fill(Parse(d.nameTemplate), slug, d.name)
    ensures IsLabel(RenderedNamespace(p, d, slug))
  {
    var t := d.nameTemplate;
    LabelHasNoBrace(Sample(t));
    LabelHasNoBrace(slug);
    LabelHasNoBrace(d.name);
    OrderDoesNotMatter(t, slug, d.name);
    SampleFills(t);
    FillShaped(Parse(t), slug, d.name, IsLabelChar, IsAlnum);
    ShortLabelIsLabel(p, Fill(Parse(t), slug, d.name));
  }

  /** Rendering a validated label value always gives a label value, in either order. */
  lemma LabelRenders(p: Platform, lib: Library, d: Document, key: string, slug: string, slugFirst: bool)
    requires Valid(lib, d) && IsLabel(slug) && key in d.labels
    ensures Render(d.labels[key], slug, d.name, slugFirst) == Fill(Parse(d.labels[key]), slug, d.name)
    ensures IsLabelValue(RenderedLabel(p, d, slug, d.labels[key]))
  {
    var t := d.labels[key];
    assert ValidLabel(lib, key, t);
    ValueHasNoBrace(Sample(t));
    LabelHasNoBrace(slug);
    LabelHasNoBrace(d.name);
    OrderDoesNotMatter(t, slug, d.name);
    SampleFills(t);
    FillShaped(Parse(t), slug, d.name, IsValueChar, IsValueEdge);
    ShortValueIsLabelValue(p, Fill(Parse(t), slug, d.name));
  }

  method RenderLabel(p: Platform, lib: Library, d: Document, key: string, slug: string, slugFirst: bool)
    returns (r: Result<string>)
    requires Valid(lib, d) && IsLabel(slug) && key in d.labels
    ensures r == Ok(RenderedLabel(p, d, slug, d.labels[key]))
  {
    var rendered := ShortValue(p, Render(d.labels[key], slug, d.name, slugFirst));
    LabelRenders(p, lib, d, key, slug, slugFirst);
    if !IsLabelValue(rendered) {
      assert false;
      return Err(Invalid);
    }
    return Ok(rendered);
  }

  /** The loop that renders the labels of the namespace. */
  method RenderLabels(p: Platform, lib: Library, d: Document, slug: string, order: string -> bool)
    returns (labels: map<string, string>)
    requires Valid(lib, d) && IsLabel(slug)
    ensures labels == map k | k in d.labels :: RenderedLabel(p, d, slug, d.labels[k])
  {
    labels := map[];
    var rest := d.labels.Keys;
    while rest != {}
      invariant rest <= d.labels.Keys && labels.Keys == d.labels.Keys - rest
      invariant forall k :: k in labels ==> labels[k] == RenderedLabel(p, d, slug, d.labels[k])
      decreases |rest|
    {
      var k :| k in rest;
      rest := rest - {k};
      var rendered := RenderLabel(p, lib, d, k, slug, order(k));
      labels := labels[k := rendered.value];
    }
  }

  /** The loop that copies the resources and injects the namespace. */
  method Stamp(rs: seq<Resource>, namespace: string) returns (stamped: seq<Resource>)
    ensures stamped == Stamped(rs, namespace)
  {
    stamped := [];
    for n := 0 to |rs|
      invariant stamped == Stamped(rs[..n], namespace)
    {
      stamped := stamped + [rs[n].(namespace := namespace)];
    }
    assert rs[..|rs|] == rs;
  }

  /** A validated blueprint renders for every valid identity, to one instance whatever the map
      orders: neither render-error branch is reachable. */
  method Instantiate(p: Platform, lib: Library, d: Document, identity: string, slugFirst: bool, order: string -> bool)
    returns (r: Result<Instance>)
    ensures r == if Valid(lib, d) && IsIdentity(identity) then Ok(InstanceOf(p, d, identity)) else Err(Invalid)
    ensures r.Ok? ==> Renders(p, d, identity, r.value)
  {
    InstanceRenders(p, d, identity);
    var ok := Validate(lib, d);
    if !ok {
      return Err(Invalid);
    }
    var slug := SlugIdentity(p, identity);
    if slug.Err? {
      return Err(Invalid);
    }
    SlugIsLabel(p, identity);
    NamespaceRenders(p, lib, d, slug.value, slugFirst);
    var namespace := ShortLabel(p, Render(d.nameTemplate, slug.value, d.name, slugFirst));
    if !IsLabel(namespace) {
      assert false;
      return Err(Invalid);
    }
    var labels := RenderLabels(p, lib, d, slug.value, order);
    labels := labels["app.kubernetes.io/managed-by" := "tearenv"];
    labels := labels["tearenv.io/identity" := slug.value];
    labels := labels["tearenv.io/blueprint" := d.name];
    var resources := Stamp(d.resources, namespace);
    return Ok(Instance(identity, slug.value, d.name, namespace, labels, resources, d.services));
  }

  /** Every instance has a DNS-1123 namespace, valid label values of which three are the gateway's own,
      and every resource in the namespace. */
  lemma InstanceIsWellFormed(p: Platform, lib: Library, d: Document, identity: string)
    requires Valid(lib, d) && IsIdentity(identity)
    ensures var i := InstanceOf(p, d, identity);
            && IsLabel(i.namespace) && IsLabel(i.identitySlug)
            && (forall k :: k in i.labels ==> IsLabelValue(i.labels[k]))
            && "tearenv.io/identity" in i.labels && i.labels["tearenv.io/identity"] == i.identitySlug
            && (forall n :: 0 <= n < |i.resources| ==> i.resources[n].namespace == i.namespace)
  {
    SlugIsLabel(p, identity);
    NamespaceRenders(p, lib, d, Slug(p, identity), true);
    LabelsAreValues(p, lib, d, identity);
  }

  lemma LabelsAreValues(p: Platform, lib: Library, d: Document, identity: string)
    requires Valid(lib, d) && IsIdentity(identity)
    ensures var labels := InstanceOf(p, d, identity).labels; forall k :: k in labels ==> IsLabelValue(labels[k])
  {
    var slug := Slug(p, identity);
    SlugIsLabel(p, identity);
    forall k | k in d.labels ensures IsLabelValue(RenderedLabel(p, d, slug, d.labels[k])) {
      LabelRenders(p, lib, d, k, slug, true);
    }
    LabelIsLabelValue(slug);
    LabelIsLabelValue(d.name);
    LabelIsLabelValue("tearenv");
  }

  lemma LabelIsLabelValue(s: string)
    requires IsLabel(s)
    ensures IsLabelValue(s)
  {
  }

  // ----- Isolation -----

  /** The rendered namespace before it is shortened. */
  function LongNamespace(p: Platform, d: Document, identity: string): string {
    Fill(Parse(d.nameTemplate), Slug(p, identity), d.name)
  }

  /** The namespaces of two identities coincide exactly when one identity spells the other's hashed slug,
      or one rendered name the other's shortened form, or two truncated digests collide under one stem. */
  lemma NamespaceCollision(p: Platform, lib: Library, d: Document, x: string, y: string)
    requires Valid(lib, d) && IsIdentity(x) && IsIdentity(y) && x != y
    ensures var v, w := LongNamespace(p, d, x), LongNamespace(p, d, y);
            InstanceOf(p, d, x).namespace == InstanceOf(p, d, y).namespace <==>
            SlugsCollide(p, x, y) || (v != w && ShortLabelsCollide(p, v, w))
  {
    var v, w := LongNamespace(p, d, x), LongNamespace(p, d, y);
    SlugCollision(p, x, y);
    if v == w {
      LabelHasNoBrace(Sample(d.nameTemplate));
      RenderingInjective(d.nameTemplate, Slug(p, x), Slug(p, y), d.name);
    } else {
      ShortLabelCollision(p, v, w);
    }
  }

  /** Whatever the blueprint, an identity that is not its own slug shares its namespace with the
      identity that spells its slug; so only an identity that is its own slug can have one alone. */
  lemma SpelledIdentityShares(p: Platform, d: Document, x: string)
    requires IsIdentity(x)
    ensures var y := Slug(p, x);
            && IsIdentity(y) && (y != x <==> !PlainIdentity(x))
            && InstanceOf(p, d, y).namespace == InstanceOf(p, d, x).namespace
  {
    SlugIsItsOwnSlug(p, x);
  }
}
