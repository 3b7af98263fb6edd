/** User registrations: documents, their validation, and what putting one into the store means. */
module Registration {
  import opened Prelude
  import opened Text
  import opened Names
  import opened Indexes

  datatype PublicKey = PublicKey(name: string, key: string)

  datatype Spec = Spec(identity: string, publicKeys: seq<PublicKey>)

  /** The issuer and subject that created or adopted a registration. */
  datatype Owner = Owner(via: string, issuer: string, subject: string)

  datatype Condition = Condition(kind: string, status: string, since: int)

  datatype Status = Status(owner: Option<Owner>, conditions: seq<Condition>)

  /** Times are nanoseconds. */
  datatype Document = Document(
    apiVersion: string, kind: string, name: string, namespace: string,
    uid: string, resourceVersion: string, generation: int, created: int,
    spec: Spec, status: Option<Status>)

  datatype Principal = Principal(via: string, issuer: string, subject: string, identity: string)

  /** An authorized-keys line, parsed: the wire form of the key, and whether text follows it. */
  datatype Parsed = Parsed(wire: string, trailing: bool)

  /** The platform, and the key and URL parsers about which nothing is assumed. */
  datatype Checks = Checks(p: Platform, parseKey: string -> Option<Parsed>, issuerOk: string -> bool)

  // ----- Validation -----

  function KeyLabel(k: PublicKey): string { k.name }

  function Wire(c: Checks, k: PublicKey): string {
    var parsed := c.parseKey(k.key);
    if parsed.Some? then parsed.value.wire else ""
  }

  function WireOf(c: Checks): PublicKey -> string { k => Wire(c, k) }

  predicate ValidKey(c: Checks, k: PublicKey) {
    IsLabel(k.name) && c.parseKey(k.key).Some? && !c.parseKey(k.key).value.trailing
  }

  ghost predicate ValidKeys(c: Checks, keys: seq<PublicKey>) {
    && keys != [] && AllValid(c, keys, |keys|)
    && Distinct(KeyLabel, keys, |keys|) && Distinct(WireOf(c), keys, |keys|)
  }

  predicate ValidOwner(c: Checks, o: Owner) {
    o.via == "oidc" && c.issuerOk(o.issuer) && TrimSpace(o.subject) != ""
  }

  function OwnerOf(d: Document): Option<Owner> {
    if d.status.Some? then d.status.value.owner else None
  }

  ghost predicate Valid(c: Checks, d: Document) {
    && d.apiVersion == "tearenv.io/v1alpha1" && d.kind == "UserRegistration"
    && IsSubdomain(d.name) && (d.namespace == "" || IsLabel(d.namespace))
    && IsIdentity(d.spec.identity) && d.name == ResourceName(c.p, d.spec.identity)
    && (OwnerOf(d).Some? ==> ValidOwner(c, OwnerOf(d).value))
    && ValidKeys(c, d.spec.publicKeys)
  }

  /** The loop of validatePublicKeys, which fills two sets. */
  method ValidatePublicKeys(c: Checks, keys: seq<PublicKey>) returns (ok: bool)
    ensures ok <==> ValidKeys(c, keys)
  {
    if keys == [] {
      return false;
    }
    var names, wires := {}, {};
    var wire := WireOf(c);
    for n := 0 to |keys|
      invariant AllValid(c, keys, n)
      invariant KeySet(names, KeyLabel, keys, n) && Distinct(KeyLabel, keys, n)
      invariant KeySet(wires, wire, keys, n) && Distinct(wire, keys, n)
    {
      KeySetGrows(names, KeyLabel, keys, n);
      KeySetGrows(wires, wire, keys, n);
      if !ValidKey(c, keys[n]) || KeyLabel(keys[n]) in names || wire(keys[n]) in wires {
        Rejected(c, keys, n);
        return false;
      }
      names, wires := names + {KeyLabel(keys[n])}, wires + {wire(keys[n])};
    }
    ok := true;
  }

  ghost predicate AllValid(c: Checks, keys: seq<PublicKey>, n: nat)
    requires n <= |keys|
  {
    forall i :: 0 <= i < n ==> ValidKey(c, keys[i])
  }

  lemma Rejected(c: Checks, keys: seq<PublicKey>, n: nat)
    requires n < |keys|
    requires !ValidKey(c, keys[n]) || !Distinct(KeyLabel, keys, n + 1) || !Distinct(WireOf(c), keys, n + 1)
    ensures !ValidKeys(c, keys)
  {
  }

  method Validate(c: Checks, d: Document) returns (ok: bool)
    ensures ok <==> Valid(c, d)
  {
    if d.apiVersion != "tearenv.io/v1alpha1" || d.kind != "UserRegistration" || !IsSubdomain(d.name) {
      return false;
    }
    if d.namespace != "" && !IsLabel(d.namespace) {
      return false;
    }
    if !IsIdentity(d.spec.identity) || d.name != ResourceName(c.p, d.spec.identity) {
      return false;
    }
    if OwnerOf(d).Some? && !ValidOwner(c, OwnerOf(d).value) {
      return false;
    }
    ok := ValidatePublicKeys(c, d.spec.publicKeys);
  }

  /** With valid keys and a namespace, a valid document for an identity exists exactly when the identity
      is registrable; a validated identity such as a..b is not. */
  lemma RegistrableExactly(c: Checks, namespace: string, identity: string, keys: seq<PublicKey>)
    requires IsIdentity(identity) && IsLabel(namespace) && ValidKeys(c, keys)
    ensures (exists d :: Valid(c, d) && d.namespace == namespace && d.spec == Spec(identity, keys)) <==>
            Registrable(identity)
  {
    SubdomainExactly(c.p, identity);
    if Registrable(identity) {
      var d := Fresh(c.p, namespace, Spec(identity, keys));
      assert Valid(c, d) && d.namespace == namespace && d.spec == Spec(identity, keys);
    }
  }

  /** The document a client puts for an identity. */
  function Fresh(p: Platform, namespace: string, spec: Spec): Document {
    Document("tearenv.io/v1alpha1", "UserRegistration", ResourceName(p, spec.identity), namespace,
             "", "", 0, 0, spec, None)
  }

  /** The keys can be told apart by name and by what they parse to, and every one parses alone. */
  ghost predicate PlainKeys(c: Checks, keys: seq<PublicKey>) {
    && keys != []
    && (forall i :: 0 <= i < |keys| ==>
          IsLabel(keys[i].name) && exists wire :: c.parseKey(keys[i].key) == Some(Parsed(wire, false)))
    && (forall i, j :: 0 <= i < j < |keys| ==>
          keys[i].name != keys[j].name && c.parseKey(keys[i].key) != c.parseKey(keys[j].key))
  }

  lemma KeysMean(c: Checks, keys: seq<PublicKey>)
    ensures ValidKeys(c, keys) <==> PlainKeys(c, keys)
  {
    forall i | 0 <= i < |keys|
      ensures ValidKey(c, keys[i]) <==>
              IsLabel(keys[i].name) && exists wire :: c.parseKey(keys[i].key) == Some(Parsed(wire, false))
    {
      if ValidKey(c, keys[i]) {
        assert c.parseKey(keys[i].key) == Some(Parsed(Wire(c, keys[i]), false));
      }
    }
    if AllValid(c, keys, |keys|) {
      forall i, j | 0 <= i < j < |keys|
        ensures KeyLabel(keys[i]) == KeyLabel(keys[j]) <==> keys[i].name == keys[j].name
        ensures WireOf(c)(keys[i]) == WireOf(c)(keys[j]) <==> c.parseKey(keys[i].key) == c.parseKey(keys[j].key)
      {
        assert ValidKey(c, keys[i]) && ValidKey(c, keys[j]);
      }
    }
  }

  /** A registration is valid exactly when its envelope is the expected one, it is named after a registrable
      identity, an owner is an OIDC issuer and subject, and its keys are in order. */
  lemma ValidMeans(c: Checks, d: Document)
    ensures Valid(c, d) <==>
            && d.apiVersion == "tearenv.io/v1alpha1" && d.kind == "UserRegistration"
            && IsIdentity(d.spec.identity) && Registrable(d.spec.identity)
            && d.name == ResourceName(c.p, d.spec.identity) && (d.namespace == "" || IsLabel(d.namespace))
            && (d.status.Some? && d.status.value.owner.Some? ==>
                  var o := d.status.value.owner.value;
                  o.via == "oidc" && c.issuerOk(o.issuer) && TrimSpace(o.subject) != "")
            && PlainKeys(c, d.spec.publicKeys)
  {
    KeysMean(c, d.spec.publicKeys);
    if IsIdentity(d.spec.identity) {
      SubdomainExactly(c.p, d.spec.identity);
    }
  }

  /** The first Accepted condition says True. */
  function FirstAccepted(cs: seq<Condition>): Option<Condition> {
    if cs == [] then None else if cs[0].kind == "Accepted" then Some(cs[0]) else FirstAccepted(cs[1..])
  }

  predicate Accepted(d: Document) {
    d.status.Some? && FirstAccepted(d.status.value.conditions).Some? &&
    FirstAccepted(d.status.value.conditions).value.status == "True"
  }

  // ----- Ownership -----

  function Bound(q: Principal): Owner { Owner("oidc", q.issuer, q.subject) }

  predicate OwnedBy(d: Document, q: Principal) {
    q.via == "oidc" && OwnerOf(d) == Some(Bound(q))
  }

  // ----- Files -----

  type Path = (string, string)
  type Files = map<Path, Document>

  function PathOf(d: Document): Path { (d.namespace, d.name) }

  /** A timestamp is stored to the second. */
  function Seconds(t: int): int { t - t % SECOND }

  function SecondsOf(cs: seq<Condition>): seq<Condition> {
    seq(|cs|, i requires 0 <= i < |cs| => cs[i].(since := Seconds(cs[i].since)))
  }

  /** What reading a stored document back gives. */
  function Stored(d: Document): Document {
    d.(created := Seconds(d.created),
       status := if d.status.None? then None
                 else Some(d.status.value.(conditions := SecondsOf(d.status.value.conditions))))
  }

  // ----- Putting -----

  /** The random identifier, the clock, and whether the file system plays along. */
  datatype Circumstances = Circumstances(identifier: Option<string>, now: int, readable: bool, writable: bool)

  datatype Receipt = Receipt(document: Document, created: bool)

  datatype Effect = Effect(files: Files, result: Result<Receipt>)

  function Created(d: Document, q: Principal, id: string, now: int): Document {
    Document("tearenv.io/v1alpha1", "UserRegistration", d.name, d.namespace, id, id, 1, now, d.spec,
             Some(Status(if q.via == "oidc" then Some(Bound(q)) else None, [Condition("Accepted", "True", now)])))
  }

  function Adopted(d: Document, q: Principal, id: string): Document {
    var conditions := if d.status.Some? then d.status.value.conditions else [];
    d.(status := Some(Status(Some(Bound(q)), conditions)), resourceVersion := id)
  }

  ghost function Write(c: Checks, files: Files, d: Document, io: Circumstances, created: bool): Effect {
    if !Valid(c, d) then Effect(files, Err(Invalid))
    else if !io.writable then Effect(files, Err(Unavailable))
    else Effect(files[PathOf(d) := Stored(d)], Ok(Receipt(d, created)))
  }

  /** PutAs on an entry that exists: replay, conflict, adopt or forbid. */
  ghost function PutExisting(c: Checks, files: Files, existing: Document, d: Document, q: Principal,
                             io: Circumstances): Effect
  {
    if !Valid(c, existing) then Effect(files, Err(Invalid))
    else if existing.spec != d.spec then Effect(files, Err(Conflict))
    else if q.via == "oidc" && !OwnedBy(existing, q) then
      if OwnerOf(existing).Some? then Effect(files, Err(Forbidden))
      else if io.identifier.None? then Effect(files, Err(Unavailable))
      else Write(c, files, Adopted(existing, q, io.identifier.value), io, false)
    else Effect(files, Ok(Receipt(existing, false)))
  }

  ghost function Put(c: Checks, files: Files, d: Document, q: Principal, io: Circumstances): Effect {
    if !Valid(c, d) || d.namespace == "" then Effect(files, Err(Invalid))
    else if q.via == "oidc" && q.identity != d.spec.identity then Effect(files, Err(Forbidden))
    else if !io.readable then Effect(files, Err(Unavailable))
    else if PathOf(d) in files then PutExisting(c, files, files[PathOf(d)], d, q, io)
    else if io.identifier.None? then Effect(files, Err(Unavailable))
    else Write(c, files, Created(d, q, io.identifier.value, io.now), io, true)
  }
}
