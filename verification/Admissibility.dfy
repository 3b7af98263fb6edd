/** Both policies resolve only services that meet what the lifecycle gateway and the environment
    manager assume of a policy. */
module Admissibility {
  import opened Prelude
  import opened Policy
  import opened Text
  import opened Credentials
  import CredentialStore
  import Environment
  import Blueprint
  import Lifecycle
  import LifecycleRuns

  lemma GrantsAreNamed(t: Formats, f: File)
    ensures Environment.NamedGrants(Some(MeaningOf(t, f).services))
  {
    forall i | i in f.access {
      CredentialStore.ServicesAreNamed(t, f.access[i]);
    }
  }

  /** A direct grant is apart from every workload unless it has one, and asks for at least one replica. */
  lemma GrantsAreAdmissible(t: Formats, f: File, identity: string, name: string)
    requires Parses(t, f) && identity in f.access && name in Services(t, f.access[identity])
    ensures var s := Services(t, f.access[identity])[name];
            Lifecycle.Apart(identity, s) && Lifecycle.Positive(s)
  {
    assert AccessOk(t, identity, f.access[identity]);
    var s := Services(t, f.access[identity])[name];
    assert IsServiceName(s.name);
    NoNulInIdentity(identity);
    NoNulInServiceName(s.name);
    LifecycleRuns.CleanIsApart(identity, s);
  }

  lemma NoNulInIdentity(s: string)
    requires IsIdentity(s)
    ensures NUL !in s
  {
  }

  lemma NoNulInServiceName(s: string)
    requires IsServiceName(s)
    ensures NUL !in s
  {
  }

  /** So does a service published from a validated blueprint. */
  lemma PublishedIsAdmissible(p: Platform, lib: Blueprint.Library, d: Blueprint.Document, identity: string, i: nat)
    requires Blueprint.Valid(lib, d) && IsIdentity(identity) && i < |d.services|
    ensures var s := Environment.Published(lib, Blueprint.InstanceOf(p, d, identity).namespace, d.services[i]);
            Lifecycle.Apart(identity, s) && Lifecycle.Positive(s)
  {
    Environment.PublishedPassesScaler(p, lib, d, identity, i);
  }
}
