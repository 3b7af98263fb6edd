/** The credential store as a mutable object over its file. */
module CredentialStore {
  import opened Prelude
  import opened Policy
  import opened Text
  import opened Credentials
  import opened CredentialMeaning
  import opened CredentialRuns
  import Listing

  // ----- The loops of parseCredentials -----

  method ParseUsers(t: Formats, us: map<string, UserRecord>) returns (r: Option<map<string, string>>)
    ensures r.Some? <==> forall i :: i in us ==> UserOk(t, i, us[i])
    ensures r.Some? ==> r.value == UserHashes(t, us)
  {
    var users: map<string, string> := map[];
    var rest := us.Keys;
    while rest != {}
      invariant rest <= us.Keys && users.Keys == us.Keys - rest
      invariant forall i :: i in users ==> UserOk(t, i, us[i]) && users[i] == HashOf(t, us[i]).value
      decreases |rest|
    {
      var i :| i in rest;
      rest := rest - {i};
      if !UserOk(t, i, us[i]) {
        return None;
      }
      users := users[i := HashOf(t, us[i]).value];
    }
    return Some(users);
  }

  method ParseInvites(invites: map<string, string>) returns (ok: bool)
    ensures ok <==> forall h :: h in invites ==> InviteOk(h, invites[h])
  {
    var rest := invites.Keys;
    while rest != {}
      invariant rest <= invites.Keys && forall h :: h in invites.Keys - rest ==> InviteOk(h, invites[h])
      decreases |rest|
    {
      var h :| h in rest;
      rest := rest - {h};
      if !InviteOk(h, invites[h]) {
        return false;
      }
    }
    return true;
  }

  method ParseServices(t: Formats, rs: map<string, ServiceRecord>) returns (r: Option<map<string, Service>>)
    ensures r.Some? <==> RecordsOk(t, rs)
    ensures r.Some? ==> r.value == Services(t, rs)
  {
    var services: map<string, Service> := map[];
    var rest := rs.Keys;
    while rest != {}
      invariant rest <= rs.Keys && services.Keys == rs.Keys - rest
      invariant forall n :: n in services ==> ServiceOf(t, n, rs[n]) == Ok(services[n])
      decreases |rest|
    {
      var n :| n in rest;
      rest := rest - {n};
      var s := ServiceOf(t, n, rs[n]);
      if s.Err? {
        return None;
      }
      services := services[n := s.value];
    }
    return Some(services);
  }

  method ParseAccess(t: Formats, access: map<string, map<string, ServiceRecord>>)
    returns (r: Option<map<string, map<string, Service>>>)
    ensures r.Some? <==> forall i :: i in access ==> AccessOk(t, i, access[i])
    ensures r.Some? ==> r.value == map i | i in access :: Services(t, access[i])
  {
    var services: map<string, map<string, Service>> := map[];
    var rest := access.Keys;
    while rest != {}
      invariant rest <= access.Keys && services.Keys == access.Keys - rest
      invariant forall i :: i in services ==> AccessOk(t, i, access[i]) && services[i] == Services(t, access[i])
      decreases |rest|
    {
      var i :| i in rest;
      rest := rest - {i};
      var s := ParseServices(t, access[i]);
      if !IsIdentity(i) || s.None? {
        assert !AccessOk(t, i, access[i]);
        return None;
      }
      services := services[i := s.value];
    }
    return Some(services);
  }

  method ParseCredentials(t: Formats, f: File) returns (r: Option<Meaning>)
    ensures r == Parse(t, f)
  {
    if f.users == map[] && f.invites == map[] && f.access == map[] {
      return None;
    }
    var users := ParseUsers(t, f.users);
    var invitesOk := ParseInvites(f.invites);
    var services := ParseAccess(t, f.access);
    if users.None? || !invitesOk || services.None? {
      return None;
    }
    return Some(Meaning(users.value, f.invites, services.value));
  }

  /** The loop of CreateInvite that drops the identity's earlier invites. */
  method WithoutInvites(invites: map<string, string>, identity: string) returns (kept: map<string, string>)
    ensures kept == map h | h in invites && invites[h] != identity :: invites[h]
  {
    kept := invites;
    var rest := invites.Keys;
    while rest != {}
      invariant rest <= invites.Keys
      invariant kept == map h | h in invites && (h in rest || invites[h] != identity) :: invites[h]
      decreases |rest|
    {
      var h :| h in rest;
      rest := rest - {h};
      if invites[h] == identity {
        kept := kept - {h};
      }
    }
  }

  method SetHashedUsers(users: map<string, string>) returns (records: map<string, UserRecord>)
    ensures records == Hashed(users)
  {
    records := map[];
    var rest := users.Keys;
    while rest != {}
      invariant rest <= users.Keys && records.Keys == users.Keys - rest
      invariant forall i :: i in records ==> records[i] == UserRecord("", users[i])
      decreases |rest|
    {
      var i :| i in rest;
      rest := rest - {i};
      records := records[i := UserRecord("", users[i])];
    }
  }

  lemma ServicesAreNamed(t: Formats, rs: map<string, ServiceRecord>)
    ensures Listing.Named(Services(t, rs))
  {
  }

  class Store {
    const t: Formats
    var file: Option<File>
    // The meaning of the file when it was last loaded.
    var loaded: Meaning

    constructor (t: Formats)
      ensures file == None && loaded == NOTHING && this.t == t
    {
      this.t, file, loaded := t, None, NOTHING;
    }

    /** Reads and parses an existing file; an absent one counts as empty. */
    method ReadOrEmpty() returns (r: Option<(File, map<string, string>)>)
      ensures r.Some? <==> Usable(t, file)
      ensures r.Some? ==> r.value == (Contents(file), UserHashes(t, Contents(file).users))
    {
      if file.None? {
        assert UserHashes(t, map[]) == map[];
        return Some((EMPTY, map[]));
      }
      var parsed := ParseCredentials(t, file.value);
      if parsed.None? {
        return None;
      }
      return Some((file.value, parsed.value.users));
    }

    method CreateInvite(identity: string, token: Option<string>, disk: bool) returns (r: Result<string>)
      modifies this`file
      ensures Written(file, r) == Credentials.CreateInvite(t, old(file), identity, token, disk)
    {
      if !IsIdentity(identity) {
        return Err(Invalid);
      }
      var read := ReadOrEmpty();
      if read.None? {
        return Err(Invalid);
      }
      var (document, users) := read.value;
      var records := SetHashedUsers(users);
      var invites := WithoutInvites(document.invites, identity);
      if token.None? || !disk {
        return Err(Unavailable);
      }
      invites := invites[Sha(t, token.value) := identity];
      file := Some(document.(users := records, invites := invites));
      return Ok(token.value);
    }

    method GrantService(identity: string, s: Service, disk: bool) returns (r: Result<Service>)
      modifies this`file
      ensures Written(file, r) == Credentials.GrantService(t, old(file), identity, s, disk)
    {
      if !IsIdentity(identity) {
        return Err(Invalid);
      }
      var normal := NormalService(t, s);
      if normal.Err? {
        return Err(Invalid);
      }
      var read := ReadOrEmpty();
      if read.None? {
        return Err(Invalid);
      }
      var (document, users) := read.value;
      var access := AccessOf(document, identity);
      access := access[normal.value.name := RecordOf(t, normal.value)];
      var records := SetHashedUsers(users);
      if !disk {
        return Err(Unavailable);
      }
      file := Some(document.(users := records, access := document.access[identity := access]));
      return normal;
    }

    method Enroll(identity: string, invite: string, token: Option<string>, disk: bool) returns (r: Result<string>)
      modifies this
      ensures Written(file, r) == Credentials.Enroll(t, old(file), identity, invite, token, disk)
      ensures r.Ok? ==> Parse(t, file.value) == Some(loaded)
      ensures r.Ok? ==> Authenticates(t, loaded, identity, r.value)
      ensures r.Err? ==> loaded == old(loaded)
    {
      if file.None? {
        return Err(Invalid);
      }
      var document := file.value;
      var parsed := ParseCredentials(t, document);
      if parsed.None? {
        return Err(Invalid);
      }
      if !Redeemable(t, document, identity, invite) {
        return Err(Forbidden);
      }
      if token.None? || !disk {
        return Err(Unavailable);
      }
      EnrollMeaning(t, document, identity, invite, token.value);
      var records := SetHashedUsers(parsed.value.users);
      records := records[identity := UserRecord("", Sha(t, token.value))];
      document := document.(users := records, invites := document.invites - {Sha(t, invite)});
      file := Some(document);
      var reparsed := ParseCredentials(t, document);
      loaded := reparsed.value;
      return Ok(token.value);
    }

    method Reload(readable: bool) returns (ok: bool)
      modifies this`loaded
      ensures ok <==> readable && file.Some? && Parses(t, file.value)
      ensures ok ==> Parse(t, file.value) == Some(loaded)
      ensures !ok ==> loaded == old(loaded)
    {
      if !readable || file.None? {
        return false;
      }
      var parsed := ParseCredentials(t, file.value);
      if parsed.None? {
        return false;
      }
      loaded := parsed.value;
      return true;
    }

    /** Uses the users as last loaded. */
    method AuthenticateToken(identity: string, token: string) returns (ok: bool)
      ensures ok <==> Authenticates(t, loaded, identity, token)
    {
      ok := identity in loaded.users && loaded.users[identity] == Sha(t, token);
    }

    method ResolveService(identity: string, name: string, readable: bool) returns (r: Option<Service>)
      modifies this`loaded
      ensures r == if readable && file.Some? && Parses(t, file.value)
                   then Lookup(MeaningOf(t, file.value), identity, name) else None
      ensures r.Some? <==>
                readable && file.Some? && Parses(t, file.value) &&
                identity in file.value.access && name in file.value.access[identity]
      ensures r.Some? ==> ServiceOf(t, name, file.value.access[identity][name]) == Ok(r.value)
    {
      var ok := Reload(readable);
      return if ok then Lookup(loaded, identity, name) else None;
    }

    /** Sorted by name, and exactly the services ResolveService returns. */
    method ListServices(identity: string, readable: bool) returns (r: Result<seq<Service>>)
      modifies this`loaded
      ensures r.Ok? <==> readable && file.Some? && Parses(t, file.value)
      ensures r.Ok? ==> Listing.StrictlySorted(r.value)
      ensures r.Ok? ==> forall s :: s in r.value <==> Lookup(MeaningOf(t, file.value), identity, s.name) == Some(s)
    {
      var ok := Reload(readable);
      if !ok {
        return Err(Unavailable);
      }
      var grants: map<string, Service> := map[];
      if identity in loaded.services {
        grants := loaded.services[identity];
        ServicesAreNamed(t, file.value.access[identity]);
      }
      var xs := Listing.List(grants);
      return Ok(xs);
    }
  }

  function Lookup(m: Meaning, identity: string, name: string): Option<Service> {
    if identity in m.services && name in m.services[identity] then Some(m.services[identity][name]) else None
  }
}
