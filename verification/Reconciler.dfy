/** Applying a rendered instance to a cluster: namespace first, nothing before everything maps. */
module Reconciler {
  import opened Prelude
  import opened Blueprint

  datatype Contents = NamespaceObject(labels: map<string, string>) | Rendered(resource: Resource)

  datatype Operation = Operation(resource: string, namespace: string, name: string, contents: Contents)

  /** A REST mapping; None when the kind is unknown. */
  datatype Mapping = Mapping(resource: string, namespaced: bool)

  type Mapper = (string, string) -> Option<Mapping>

  predicate Maps(mapper: Mapper, r: Resource) {
    var m := mapper(r.apiVersion, r.kind);
    m.Some? && m.value.namespaced
  }

  function NamespaceOperation(instance: Instance): Operation {
    Operation("namespaces", "", instance.namespace, NamespaceObject(instance.labels))
  }

  function ResourceOperation(mapper: Mapper, instance: Instance, r: Resource): Operation
    requires Maps(mapper, r)
  {
    Operation(mapper(r.apiVersion, r.kind).value.resource, instance.namespace, r.name, Rendered(r))
  }

  ghost predicate AllMap(mapper: Mapper, instance: Instance) {
    forall i :: 0 <= i < |instance.resources| ==> Maps(mapper, instance.resources[i])
  }

  /** The namespace, then every resource in order. */
  ghost predicate Covers(mapper: Mapper, instance: Instance, ops: seq<Operation>) {
    && AllMap(mapper, instance)
    && |ops| == |instance.resources| + 1
    && ops[0] == NamespaceOperation(instance)
    && forall i :: 0 <= i < |instance.resources| ==>
         ops[i + 1] == ResourceOperation(mapper, instance, instance.resources[i])
  }

  ghost function OperationsOf(mapper: Mapper, instance: Instance): (ops: seq<Operation>)
    requires AllMap(mapper, instance)
    ensures Covers(mapper, instance, ops)
  {
    [NamespaceOperation(instance)] +
    seq(|instance.resources|, i requires 0 <= i < |instance.resources| =>
      ResourceOperation(mapper, instance, instance.resources[i]))
  }

  lemma CoveredOnce(mapper: Mapper, instance: Instance, ops: seq<Operation>)
    requires Covers(mapper, instance, ops)
    ensures ops == OperationsOf(mapper, instance)
  {
    var all := OperationsOf(mapper, instance);
    forall i | 0 <= i < |ops| ensures ops[i] == all[i] {
      assert i > 0 ==> ops[i] == ResourceOperation(mapper, instance, instance.resources[i - 1]) == all[i];
    }
  }

  method Operations(mapper: Mapper, instance: Instance) returns (r: Result<seq<Operation>>)
    ensures r.Ok? <==> AllMap(mapper, instance)
    ensures r.Ok? ==> Covers(mapper, instance, r.value)
  {
    var ops := [NamespaceOperation(instance)];
    for n := 0 to |instance.resources|
      invariant |ops| == n + 1 && ops[0] == NamespaceOperation(instance)
      invariant forall i :: 0 <= i < n ==>
                  Maps(mapper, instance.resources[i]) &&
                  ops[i + 1] == ResourceOperation(mapper, instance, instance.resources[i])
    {
      if !Maps(mapper, instance.resources[n]) {
        return Err(NotFound);
      }
      ops := ops + [ResourceOperation(mapper, instance, instance.resources[n])];
    }
    return Ok(ops);
  }

  /** What the API server has been asked to apply, successfully. */
  class Cluster {
    var applied: seq<Operation>

    constructor ()
      ensures applied == []
    {
      applied := [];
    }

    /** accepts says which operation of this call the server takes. */
    method Reconcile(mapper: Mapper, instance: Instance, accepts: nat -> bool) returns (ok: bool)
      modifies this
      ensures ok <==> AllMap(mapper, instance) && forall n :: 0 <= n <= |instance.resources| ==> accepts(n)
      ensures !AllMap(mapper, instance) ==> applied == old(applied)
      ensures ok ==> applied == old(applied) + OperationsOf(mapper, instance)
      ensures AllMap(mapper, instance) && !ok ==>
                var ops := OperationsOf(mapper, instance);
                exists n :: 0 <= n < |ops| && !accepts(n) && applied == old(applied) + ops[..n]
    {
      var operations := Operations(mapper, instance);
      if operations.Err? {
        return false;
      }
      var ops := operations.value;
      CoveredOnce(mapper, instance, ops);
      for n := 0 to |ops|
        invariant applied == old(applied) + ops[..n]
        invariant forall i :: 0 <= i < n ==> accepts(i)
      {
        if !accepts(n) {
          return false;
        }
        applied := applied + [ops[n]];
        assert ops[..n] + [ops[n]] == ops[..n + 1];
      }
      assert ops[..|ops|] == ops;
      ok := true;
    }
  }
}
