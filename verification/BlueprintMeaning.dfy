/** Blueprint validation without resource keys: what a valid document is when its names are free of NUL. */
module BlueprintMeaning {
  import opened Prelude
  import opened Text
  import opened Templates
  import opened Indexes
  import opened Blueprint
  import Slugs

  /** No part of a resource key holds a NUL. */
  ghost predicate NulFree(d: Document) {
    && (forall i :: 0 <= i < |d.resources| ==> NUL !in d.resources[i].apiVersion && NUL !in d.resources[i].kind)
    && (forall i :: 0 <= i < |d.services| ==>
          NUL !in d.services[i].targetService && NUL !in d.services[i].targetRef.name)
  }

  predicate Is(r: Resource, apiVersion: string, kind: string, name: string) {
    r.apiVersion == apiVersion && r.kind == kind && r.name == name
  }

  ghost predicate PlainHeader(lib: Library, d: Document) {
    && d.apiVersion == "tearenv.io/v1alpha1" && d.kind == "EnvironmentBlueprint" && IsLabel(d.name)
    && Count(d.nameTemplate, "{{ .IdentitySlug }}") == 1 && Count(d.nameTemplate, "{{ .BlueprintName }}") == 1
    && IsLabel(SlugFirst(d.nameTemplate, "identity", "blueprint"))
    && forall k :: k in d.labels ==>
         lib.qualified(k) && Slugs.IsLabelValue(SlugFirst(d.labels[k], "identity", "blueprint"))
  }

  ghost predicate PlainResource(r: Resource) {
    r.apiVersion != "" && r.kind != "" && r.namespace == "" && IsSubdomain(r.name)
  }

  ghost predicate PlainResources(rs: seq<Resource>) {
    && rs != [] && (forall i :: 0 <= i < |rs| ==> PlainResource(rs[i]))
    && (forall i, j :: 0 <= i < j < |rs| ==> !Is(rs[i], rs[j].apiVersion, rs[j].kind, rs[j].name))
  }

  /** A declared v1 Service of that name exposes the port. */
  ghost predicate Exposed(rs: seq<Resource>, name: string, port: int) {
    exists i :: 0 <= i < |rs| && Is(rs[i], "v1", "Service", name) && port in rs[i].ports
  }

  /** The workload is declared with no replicas. */
  ghost predicate Dormant(rs: seq<Resource>, ref: Reference) {
    exists i :: 0 <= i < |rs| && Is(rs[i], ref.apiVersion, ref.kind, ref.name) && rs[i].replicas == Some(0)
  }

  ghost predicate PlainService(lib: Library, rs: seq<Resource>, s: Blueprint.Exposed) {
    && IsServiceName(s.name) && 1 <= s.targetPort <= 65535 && 0 <= s.localPort <= 65535
    && Exposed(rs, s.targetService, s.targetPort)
    && s.targetRef.apiVersion == "apps/v1" && (s.targetRef.kind == "Deployment" || s.targetRef.kind == "StatefulSet")
    && Dormant(rs, s.targetRef) && s.replicas >= 1
    && (exists t :: lib.parseDuration(s.readyTimeout) == Some(t) && t > 0)
    && (exists t :: lib.parseDuration(s.idleTimeout) == Some(t) && t >= 0)
  }

  ghost predicate PlainServices(lib: Library, rs: seq<Resource>, services: seq<Blueprint.Exposed>) {
    && services != [] && (forall i :: 0 <= i < |services| ==> PlainService(lib, rs, services[i]))
    && (forall i, j :: 0 <= i < j < |services| ==> services[i].name != services[j].name)
  }

  lemma KeyMeans(r: Resource, apiVersion: string, kind: string, name: string)
    requires NUL !in apiVersion && NUL !in kind && NUL !in name
    ensures KeyOfResource(r) == ResourceKey(apiVersion, kind, name) <==> Is(r, apiVersion, kind, name)
  {
    if KeyOfResource(r) == ResourceKey(apiVersion, kind, name) {
      ThreeParts(apiVersion, kind, name, r.apiVersion, r.kind, r.name);
    }
  }

  lemma SubdomainHasNoNul(s: string)
    requires IsSubdomain(s)
    ensures NUL !in s
  {
  }

  lemma ResourcesMean(rs: seq<Resource>)
    requires forall i :: 0 <= i < |rs| ==> NUL !in rs[i].apiVersion && NUL !in rs[i].kind
    ensures ValidResources(rs) <==> PlainResources(rs)
  {
    if forall i :: 0 <= i < |rs| ==> IsSubdomain(rs[i].name) {
      forall i, j | 0 <= i < j < |rs|
        ensures KeyOfResource(rs[i]) == KeyOfResource(rs[j]) <==> Is(rs[i], rs[j].apiVersion, rs[j].kind, rs[j].name)
      {
        SubdomainHasNoNul(rs[j].name);
        KeyMeans(rs[i], rs[j].apiVersion, rs[j].kind, rs[j].name);
      }
      assert (forall i :: 0 <= i < |rs| ==> ValidResource(rs[i])) <==>
             (forall i :: 0 <= i < |rs| ==> PlainResource(rs[i]));
    } else {
      var i :| 0 <= i < |rs| && !IsSubdomain(rs[i].name);
      assert !ValidResource(rs[i]) && !PlainResource(rs[i]);
    }
  }

  /** A service finds its Service and its workload by name. */
  lemma ReferencesMean(s: Blueprint.Exposed, rs: seq<Resource>)
    requires NUL !in s.targetService && NUL !in s.targetRef.name
    requires s.targetRef.apiVersion == "apps/v1"
    requires s.targetRef.kind == "Deployment" || s.targetRef.kind == "StatefulSet"
    ensures References(s, rs) <==> Exposed(rs, s.targetService, s.targetPort) && Dormant(rs, s.targetRef)
  {
    forall i | 0 <= i < |rs|
      ensures KeyOfResource(rs[i]) == ServiceKey(s) <==> Is(rs[i], "v1", "Service", s.targetService)
      ensures KeyOfResource(rs[i]) == WorkloadKey(s) <==>
              Is(rs[i], s.targetRef.apiVersion, s.targetRef.kind, s.targetRef.name)
    {
      KeyMeans(rs[i], "v1", "Service", s.targetService);
      KeyMeans(rs[i], s.targetRef.apiVersion, s.targetRef.kind, s.targetRef.name);
    }
  }

  lemma ServiceMeans(lib: Library, s: Blueprint.Exposed, rs: seq<Resource>)
    requires NUL !in s.targetService && NUL !in s.targetRef.name
    ensures ValidAlone(lib, s) && References(s, rs) <==> PlainService(lib, rs, s)
  {
    if s.targetRef.apiVersion == "apps/v1" && (s.targetRef.kind == "Deployment" || s.targetRef.kind == "StatefulSet") {
      ReferencesMean(s, rs);
    }
  }

  lemma ServicesMean(lib: Library, rs: seq<Resource>, services: seq<Blueprint.Exposed>)
    requires forall i :: 0 <= i < |services| ==> NUL !in services[i].targetService && NUL !in services[i].targetRef.name
    ensures ValidServices(lib, services, rs) <==> PlainServices(lib, rs, services)
  {
    forall i | 0 <= i < |services|
      ensures ValidAlone(lib, services[i]) && References(services[i], rs) <==> PlainService(lib, rs, services[i])
    {
      ServiceMeans(lib, services[i], rs);
    }
    assert AllExposed(lib, services, rs) <==> forall i :: 0 <= i < |services| ==> PlainService(lib, rs, services[i]);
    assert Distinct(Blueprint.NameOf, services, |services|) <==>
           forall i, j :: 0 <= i < j < |services| ==> services[i].name != services[j].name;
  }

  lemma HeaderMeans(lib: Library, d: Document)
    ensures PlainHeader(lib, d) <==>
            d.apiVersion == "tearenv.io/v1alpha1" && d.kind == "EnvironmentBlueprint" && IsLabel(d.name) &&
            ValidNamespace(lib, d)
  {
    assert forall k :: k in d.labels ==>
                         (ValidLabel(lib, k, d.labels[k]) <==>
                          lib.qualified(k) && Slugs.IsLabelValue(SlugFirst(d.labels[k], "identity", "blueprint")));
  }

  /** A document free of NUL is valid exactly when its header and namespace template are in order, its
      resources are named, unplaced and pairwise different, and every service is in range, reaches a
      declared Service on an exposed port, and scales a declared workload that starts at zero. */
  lemma ValidMeans(lib: Library, d: Document)
    requires NulFree(d)
    ensures Valid(lib, d) <==>
            PlainHeader(lib, d) && PlainResources(d.resources) && PlainServices(lib, d.resources, d.services)
  {
    HeaderMeans(lib, d);
    ResourcesMean(d.resources);
    ServicesMean(lib, d.resources, d.services);
  }
}
