/** The file-backed registration store, proved against the put and lookup specifications. */
module RegistrationStore {
  import opened Prelude
  import opened Text
  import opened Names
  import opened Indexes
  import opened Registration
  import opened RegistrationRuns

  // ----- Lookups -----

  /** The first key of that name. */
  function Search(c: Checks, keys: seq<PublicKey>, name: string): Result<string> {
    if keys == [] then Err(NotFound)
    else if keys[0].name != name then Search(c, keys[1..], name)
    else if !ValidKey(c, keys[0]) then Err(Invalid)
    else Ok(Wire(c, keys[0]))
  }

  /** readable says whether the file system plays along. */
  ghost function Get(c: Checks, files: Files, namespace: string, name: string, readable: bool): Result<Document> {
    if !IsLabel(namespace) || !IsSubdomain(name) then Err(Invalid)
    else if !readable then Err(Unavailable)
    else if (namespace, name) !in files then Err(NotFound)
    else if !Valid(c, files[(namespace, name)]) then Err(Invalid)
    else Ok(files[(namespace, name)])
  }

  ghost function GetAs(c: Checks, files: Files, namespace: string, name: string, q: Principal, readable: bool)
    : Result<Document>
  {
    var d := Get(c, files, namespace, name, readable);
    if d.Ok? && q.via == "oidc" && !OwnedBy(d.value, q) then Err(Forbidden) else d
  }

  ghost function KeyFor(c: Checks, files: Files, namespace: string, name: string, keyName: string, q: Principal,
                        readable: bool): Result<string>
  {
    var d := GetAs(c, files, namespace, name, q, readable);
    if d.Err? then Err(d.reason)
    else if !Accepted(d.value) then Err(Forbidden)
    else Search(c, d.value.spec.publicKeys, keyName)
  }

  /** The document lists that key and is the only entry that could. */
  ghost predicate Lists(c: Checks, d: Document, wire: string) {
    exists i :: 0 <= i < |d.spec.publicKeys| && Wire(c, d.spec.publicKeys[i]) == wire
  }

  /** In a stored entry, to list a key is that one of its keys parses to it. */
  lemma ListsMeans(c: Checks, path: Path, d: Document, wire: string)
    requires Entry(c, path, d)
    ensures Lists(c, d, wire) <==>
            exists k :: k in d.spec.publicKeys && c.parseKey(k.key) == Some(Parsed(wire, false))
  {
    if i :| 0 <= i < |d.spec.publicKeys| && Wire(c, d.spec.publicKeys[i]) == wire {
      assert ValidKey(c, d.spec.publicKeys[i]);
      assert d.spec.publicKeys[i] in d.spec.publicKeys;
    }
    if k :| k in d.spec.publicKeys && c.parseKey(k.key) == Some(Parsed(wire, false)) {
      var i :| 0 <= i < |d.spec.publicKeys| && d.spec.publicKeys[i] == k;
      assert Wire(c, d.spec.publicKeys[i]) == wire;
    }
  }

  /** Over every run, the scan accepts an identity and a key exactly when some entry of the namespace holds
      that identity and a key that parses to it. */
  lemma AuthenticatesMeans(c: Checks, files: Files, namespace: string, identity: string, wire: string)
    requires StoreInv(c, files)
    ensures Authenticates(c, files, namespace, identity, wire) <==>
            exists path, k :: path in files && path.0 == namespace && files[path].spec.identity == identity &&
              k in files[path].spec.publicKeys && c.parseKey(k.key) == Some(Parsed(wire, false))
  {
    var own := (namespace, ResourceName(c.p, identity));
    if own in files {
      assert Entry(c, own, files[own]);
      ListsMeans(c, own, files[own], wire);
    }
    if path, k :| path in files && path.0 == namespace && files[path].spec.identity == identity &&
                  k in files[path].spec.publicKeys && c.parseKey(k.key) == Some(Parsed(wire, false)) {
      assert Entry(c, path, files[path]);
      assert path == own;
    }
  }

  ghost predicate Authenticates(c: Checks, files: Files, namespace: string, identity: string, wire: string) {
    var path := (namespace, ResourceName(c.p, identity));
    path in files && files[path].spec.identity == identity && Lists(c, files[path], wire)
  }

  /** The only key of that name is the one found. */
  lemma {:induction false} SearchFinds(c: Checks, keys: seq<PublicKey>, name: string)
    requires AllValid(c, keys, |keys|) && Distinct(KeyLabel, keys, |keys|)
    ensures Search(c, keys, name).Ok? ==>
              exists i :: 0 <= i < |keys| && OnlyKey(keys, i, name) && Search(c, keys, name).value == Wire(c, keys[i])
    ensures Search(c, keys, name).Err? ==> forall i :: 0 <= i < |keys| ==> keys[i].name != name
  {
    if keys != [] {
      if keys[0].name == name {
        assert forall j :: 0 < j < |keys| ==> KeyLabel(keys[0]) != KeyLabel(keys[j]);
        assert OnlyKey(keys, 0, name);
      } else {
        var rest := keys[1..];
        assert forall i :: 0 <= i < |rest| ==> KeyLabel(rest[i]) == KeyLabel(keys[i + 1]);
        SearchFinds(c, rest, name);
        if Search(c, rest, name).Ok? {
          var i :| 0 <= i < |rest| && OnlyKey(rest, i, name) && Search(c, rest, name).value == Wire(c, rest[i]);
          assert OnlyKey(keys, i + 1, name);
        }
      }
    }
  }

  ghost predicate OnlyKey(keys: seq<PublicKey>, i: nat, name: string)
    requires i < |keys|
  {
    forall j :: 0 <= j < |keys| ==> (keys[j].name == name <==> j == i)
  }

  /** The document is stored in that namespace. */
  ghost predicate StoredIn(files: Files, namespace: string, d: Document) {
    d.namespace == namespace && PathOf(d) in files && files[PathOf(d)] == d
  }

  /** Of all the entries of a namespace, only one can be for an identity. */
  lemma OneCandidate(c: Checks, files: Files, ds: seq<Document>, namespace: string, identity: string, wire: string)
    requires StoreInv(c, files)
    requires forall d :: d in ds <==> StoredIn(files, namespace, d)
    ensures (exists d :: d in ds && d.spec.identity == identity && Lists(c, d, wire)) <==>
            Authenticates(c, files, namespace, identity, wire)
  {
    var path := (namespace, ResourceName(c.p, identity));
    if path in files {
      assert Entry(c, path, files[path]);
      assert files[path] in ds;
    }
    forall d | d in ds && d.spec.identity == identity ensures PathOf(d) == path {
      assert Entry(c, PathOf(d), d);
    }
  }

  /** What can be read: the directory of the namespace, unless it does not exist, and each file. */
  datatype Disk = Disk(directory: bool, file: Path -> bool)

  class Store {
    const c: Checks
    const authenticationNamespace: string
    var files: Files

    ghost predicate Valid()
      reads this
    {
      StoreInv(c, files)
    }

    constructor (c: Checks, authenticationNamespace: string)
      ensures Valid() && files == map[] && this.c == c && this.authenticationNamespace == authenticationNamespace
    {
      this.c, this.authenticationNamespace, files := c, authenticationNamespace, map[];
    }

    method WriteFile(d: Document, io: Circumstances, created: bool) returns (r: Result<Receipt>)
      modifies this
      ensures Effect(files, r) == Write(c, old(files), d, io, created)
    {
      var ok := Validate(c, d);
      if !ok {
        return Err(Invalid);
      }
      if !io.writable {
        return Err(Unavailable);
      }
      files := files[PathOf(d) := Stored(d)];
      return Ok(Receipt(d, created));
    }

    method PutAs(d: Document, q: Principal, io: Circumstances) returns (r: Result<Receipt>)
      requires Valid()
      modifies this
      ensures Valid() && EvolveAll(old(files), files)
      ensures Effect(files, r) == Put(c, old(files), d, q, io)
    {
      RegistrationRuns.PutKeeps(c, files, Attempt(d, q, io));
      var ok := Validate(c, d);
      if !ok || d.namespace == "" {
        return Err(Invalid);
      }
      if q.via == "oidc" && q.identity != d.spec.identity {
        return Err(Forbidden);
      }
      if !io.readable {
        return Err(Unavailable);
      }
      if PathOf(d) in files {
        var existing := files[PathOf(d)];
        assert Entry(c, PathOf(d), existing);
        if existing.spec != d.spec {
          return Err(Conflict);
        }
        if q.via == "oidc" && !OwnedBy(existing, q) {
          if OwnerOf(existing).Some? {
            return Err(Forbidden);
          }
          if io.identifier.None? {
            return Err(Unavailable);
          }
          r := WriteFile(Adopted(existing, q, io.identifier.value), io, false);
          return;
        }
        return Ok(Receipt(existing, false));
      }
      if io.identifier.None? {
        return Err(Unavailable);
      }
      r := WriteFile(Created(d, q, io.identifier.value, io.now), io, true);
    }

    method PublicKey(namespace: string, name: string, keyName: string, q: Principal, readable: bool)
      returns (r: Result<string>)
      requires Valid()
      ensures r == KeyFor(c, files, namespace, name, keyName, q, readable)
    {
      if !IsLabel(namespace) || !IsSubdomain(name) {
        return Err(Invalid);
      }
      if !readable {
        return Err(Unavailable);
      }
      if (namespace, name) !in files {
        return Err(NotFound);
      }
      var d := files[(namespace, name)];
      assert Entry(c, (namespace, name), d);
      if q.via == "oidc" && !OwnedBy(d, q) {
        return Err(Forbidden);
      }
      if !Accepted(d) {
        assert false;
        return Err(Forbidden);
      }
      var keys := d.spec.publicKeys;
      for n := 0 to |keys|
        invariant Search(c, keys, keyName) == Search(c, keys[n..], keyName)
      {
        assert keys[n..][1..] == keys[n + 1..];
        if keys[n].name == keyName {
          return if ValidKey(c, keys[n]) then Ok(Wire(c, keys[n])) else Err(Invalid);
        }
      }
      return Err(NotFound);
    }

    /** Everything in the namespace can be read: its directory, if there is one, and every file. */
    ghost predicate Readable(namespace: string, disk: Disk)
      reads this
    {
      disk.directory && forall path :: path in files && path.0 == namespace ==> disk.file(path)
    }

    /** The registrations of a namespace, in directory order; one unreadable file fails the listing. */
    method List(namespace: string, disk: Disk) returns (r: Result<seq<Document>>)
      requires Valid()
      ensures r.Ok? <==> Readable(namespace, disk)
      ensures r.Err? ==> r.reason == Unavailable
      ensures r.Ok? ==> forall d :: d in r.value <==> StoredIn(files, namespace, d)
    {
      if !disk.directory {
        return Err(Unavailable);
      }
      var ds: seq<Document> := [];
      var rest := set path | path in files && path.0 == namespace;
      while rest != {}
        invariant forall path :: path in rest ==> path in files && path.0 == namespace
        invariant forall path :: path in files && path.0 == namespace && path !in rest ==> disk.file(path)
        invariant forall d :: d in ds <==> StoredIn(files, namespace, d) && PathOf(d) !in rest
        decreases |rest|
      {
        var path :| path in rest;
        rest := rest - {path};
        if !disk.file(path) {
          return Err(Unavailable);
        }
        assert Entry(c, path, files[path]);
        assert forall d :: StoredIn(files, namespace, d) && PathOf(d) == path ==> d == files[path];
        ds := ds + [files[path]];
      }
      return Ok(ds);
    }

    /** The scan accepts an identity and a key exactly when the one entry under the identity's
        resource name holds that identity and lists that key; it fails only if something in the
        namespace cannot be read. */
    method Authenticate(identity: string, publicKey: Option<string>, disk: Disk) returns (r: Result<bool>)
      requires Valid()
      ensures r == if publicKey.None? then Ok(false)
                   else if !Readable(authenticationNamespace, disk) then Err(Unavailable)
                   else Ok(Authenticates(c, files, authenticationNamespace, identity, publicKey.value))
    {
      if publicKey.None? {
        return Ok(false);
      }
      var listed := List(authenticationNamespace, disk);
      if listed.Err? {
        return Err(Unavailable);
      }
      var ds := listed.value;
      forall d | d in ds ensures ValidKeys(c, d.spec.publicKeys) && Accepted(d) {
        assert Entry(c, PathOf(d), d);
      }
      var found := Scan(ds, identity, publicKey.value);
      OneCandidate(c, files, ds, authenticationNamespace, identity, publicKey.value);
      return Ok(found);
    }

    method Scan(ds: seq<Document>, identity: string, wire: string) returns (found: bool)
      requires forall d :: d in ds ==> ValidKeys(c, d.spec.publicKeys) && Accepted(d)
      ensures found <==> exists d :: d in ds && d.spec.identity == identity && Lists(c, d, wire)
    {
      for n := 0 to |ds|
        invariant forall d :: d in ds[..n] ==> !(d.spec.identity == identity && Lists(c, d, wire))
      {
        assert ds[n] in ds;
        if ds[n].spec.identity == identity && Accepted(ds[n]) {
          found := Offers(ds[n], wire);
          if found {
            return;
          }
        }
        assert ds[..n + 1] == ds[..n] + [ds[n]];
      }
      assert ds[..|ds|] == ds;
      return false;
    }

    method Offers(d: Document, wire: string) returns (found: bool)
      requires ValidKeys(c, d.spec.publicKeys)
      ensures found <==> Lists(c, d, wire)
    {
      var keys := d.spec.publicKeys;
      for n := 0 to |keys|
        invariant forall i :: 0 <= i < n ==> Wire(c, keys[i]) != wire
      {
        assert ValidKey(c, keys[n]);
        if Wire(c, keys[n]) == wire {
          return true;
        }
      }
      return false;
    }
  }
}
