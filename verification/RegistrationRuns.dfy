/** What every run of registrations keeps. */
module RegistrationRuns {
  import opened Prelude
  import opened Text
  import opened Names
  import opened Indexes
  import opened Registration
  import opened Runs

  // ----- One entry over time -----

  /** Everything but the owner and the resource version. */
  function Fixed(d: Document): Document {
    d.(resourceVersion := "", status := if d.status.Some? then Some(d.status.value.(owner := None)) else None)
  }

  /** An entry may only change by gaining an owner it did not have. */
  ghost predicate Evolves(d: Document, e: Document) {
    Fixed(d) == Fixed(e) && (OwnerOf(d).Some? ==> d == e)
  }

  ghost predicate EvolveAll(files: Files, later: Files) {
    forall path :: path in files ==> path in later && Evolves(files[path], later[path])
  }

  // ----- The invariant of the store -----

  ghost predicate Entry(c: Checks, path: Path, d: Document) {
    && Valid(c, d) && path == PathOf(d) && d.namespace != "" && d.generation == 1
    && Stored(d) == d && d.status.Some? && Accepted(d)
  }

  ghost predicate StoreInv(c: Checks, files: Files) {
    forall path :: path in files ==> Entry(c, path, files[path])
  }

  lemma StoredTwice(d: Document)
    ensures Stored(Stored(d)) == Stored(d)
  {
    if d.status.Some? {
      assert SecondsOf(SecondsOf(d.status.value.conditions)) == SecondsOf(d.status.value.conditions);
    }
  }

  lemma CreatedIsEntry(c: Checks, d: Document, q: Principal, id: string, now: int)
    requires Valid(c, Created(d, q, id, now)) && d.namespace != ""
    ensures Entry(c, PathOf(d), Stored(Created(d, q, id, now)))
  {
    StoredTwice(Created(d, q, id, now));
  }

  lemma AdoptedIsEntry(c: Checks, path: Path, d: Document, q: Principal, id: string)
    requires Entry(c, path, d) && Valid(c, Adopted(d, q, id)) && OwnerOf(d).None?
    ensures Entry(c, path, Stored(Adopted(d, q, id))) && Evolves(d, Stored(Adopted(d, q, id)))
    ensures OwnerOf(Stored(Adopted(d, q, id))) == Some(Bound(q))
  {
    StoredTwice(Adopted(d, q, id));
  }

  // ----- Every put keeps it -----

  datatype Attempt = Attempt(document: Document, principal: Principal, io: Circumstances)

  ghost function Attempted(c: Checks, files: Files, a: Attempt): Files {
    Put(c, files, a.document, a.principal, a.io).files
  }

  /** The caller may put this document: it is valid, and an OIDC caller names itself. */
  ghost predicate MayPut(c: Checks, a: Attempt) {
    && Valid(c, a.document) && a.document.namespace != ""
    && (a.principal.via == "oidc" ==> a.principal.identity == a.document.spec.identity)
  }

  ghost predicate Creates(c: Checks, files: Files, a: Attempt) {
    && MayPut(c, a) && PathOf(a.document) !in files && a.io.identifier.Some?
    && var d := Created(a.document, a.principal, a.io.identifier.value, a.io.now);
       Valid(c, d) && Attempted(c, files, a) == files[PathOf(a.document) := Stored(d)]
  }

  ghost predicate Adopts(c: Checks, files: Files, a: Attempt) {
    && MayPut(c, a) && a.principal.via == "oidc" && PathOf(a.document) in files && a.io.identifier.Some?
    && var existing := files[PathOf(a.document)];
       var d := Adopted(existing, a.principal, a.io.identifier.value);
       && OwnerOf(existing).None? && existing.spec == a.document.spec
       && Valid(c, d) && Attempted(c, files, a) == files[PathOf(existing) := Stored(d)]
  }

  /** The three things a put can do to the store. */
  lemma PutShape(c: Checks, files: Files, a: Attempt)
    ensures Attempted(c, files, a) == files || Creates(c, files, a) || Adopts(c, files, a)
  {
  }

  lemma PutKeeps(c: Checks, files: Files, a: Attempt)
    requires StoreInv(c, files)
    ensures StoreInv(c, Attempted(c, files, a)) && EvolveAll(files, Attempted(c, files, a))
  {
    PutShape(c, files, a);
    var path := PathOf(a.document);
    if Creates(c, files, a) {
      CreatedIsEntry(c, a.document, a.principal, a.io.identifier.value, a.io.now);
      EntryKeeps(c, files, path, Stored(Created(a.document, a.principal, a.io.identifier.value, a.io.now)));
    } else if Adopts(c, files, a) {
      assert Entry(c, path, files[path]);
      AdoptedIsEntry(c, path, files[path], a.principal, a.io.identifier.value);
      EntryKeeps(c, files, path, Stored(Adopted(files[path], a.principal, a.io.identifier.value)));
    }
  }

  lemma EntryKeeps(c: Checks, files: Files, path: Path, d: Document)
    requires StoreInv(c, files) && Entry(c, path, d) && (path in files ==> Evolves(files[path], d))
    ensures StoreInv(c, files[path := d]) && EvolveAll(files, files[path := d])
  {
  }

  /** The store after any sequence of attempts by any mix of principals. */
  ghost function Run(c: Checks, attempts: seq<Attempt>): Files {
    Fold((files, a) => Attempted(c, files, a), map[], attempts)
  }

  lemma EveryRunKeeps(c: Checks, start: Files, attempts: seq<Attempt>)
    requires StoreInv(c, start)
    ensures var end := Fold((files, a) => Attempted(c, files, a), start, attempts);
            StoreInv(c, end) && EvolveAll(start, end)
  {
    forall files, a | StoreInv(c, files) && EvolveAll(start, files)
      ensures StoreInv(c, Attempted(c, files, a)) && EvolveAll(start, Attempted(c, files, a))
    {
      PutKeeps(c, files, a);
      EvolveTransitive(start, files, Attempted(c, files, a));
    }
    Invariance((files, a) => Attempted(c, files, a), start, attempts,
               files => StoreInv(c, files) && EvolveAll(start, files), (files, a) => true);
  }

  lemma EvolveTransitive(x: Files, y: Files, z: Files)
    requires EvolveAll(x, y) && EvolveAll(y, z)
    ensures EvolveAll(x, z)
  {
  }

  // ----- The promises -----

  /** Once an entry exists, every longer run still has it, with the same spec, UID, generation,
      creation time and acceptance; and an owner, once there, never changes. */
  lemma EntriesAreWriteOnce(c: Checks, attempts: seq<Attempt>, n: nat, path: Path)
    requires n <= |attempts| && path in Run(c, attempts[..n])
    ensures path in Run(c, attempts)
    ensures var d, e := Run(c, attempts[..n])[path], Run(c, attempts)[path];
            && e.spec == d.spec && e.uid == d.uid && e.generation == d.generation && e.created == d.created
            && Accepted(e) && (OwnerOf(d).Some? ==> e == d)
  {
    RunEvolves(c, attempts, n);
    assert Entry(c, path, Run(c, attempts)[path]);
  }

  /** Whoever owns an entry put that very spec, authenticated by OIDC as spec.identity. */
  ghost predicate Justified(d: Document, a: Attempt) {
    && OwnerOf(d) == Some(Bound(a.principal)) && a.principal.via == "oidc"
    && a.principal.identity == d.spec.identity && a.document.spec == d.spec && PathOf(a.document) == PathOf(d)
  }

  lemma CreatorIsJustified(c: Checks, files: Files, a: Attempt)
    requires Creates(c, files, a)
    ensures var d := Attempted(c, files, a)[PathOf(a.document)]; OwnerOf(d).Some? ==> Justified(d, a)
  {
  }

  lemma AdopterIsJustified(c: Checks, files: Files, a: Attempt)
    requires StoreInv(c, files) && Adopts(c, files, a)
    ensures Justified(Attempted(c, files, a)[PathOf(a.document)], a)
  {
    assert Entry(c, PathOf(a.document), files[PathOf(a.document)]);
  }

  lemma OwnerChangesByPut(c: Checks, files: Files, a: Attempt, path: Path)
    requires StoreInv(c, files) && path in Attempted(c, files, a)
    requires path !in files || files[path] != Attempted(c, files, a)[path]
    requires OwnerOf(Attempted(c, files, a)[path]).Some?
    ensures Justified(Attempted(c, files, a)[path], a)
  {
    PutShape(c, files, a);
    if Creates(c, files, a) {
      CreatorIsJustified(c, files, a);
    } else {
      assert Entry(c, PathOf(a.document), files[PathOf(a.document)]);
      AdopterIsJustified(c, files, a);
    }
  }

  lemma RunSnoc(c: Checks, attempts: seq<Attempt>)
    requires attempts != []
    ensures Run(c, attempts) == Attempted(c, Run(c, attempts[..|attempts| - 1]), attempts[|attempts| - 1])
  {
  }

  /** In every run, whoever owns an entry put it earlier in the run. */
  lemma {:induction false} OwnersAreJustified(c: Checks, attempts: seq<Attempt>, path: Path)
    requires path in Run(c, attempts) && OwnerOf(Run(c, attempts)[path]).Some?
    ensures exists a :: a in attempts && Justified(Run(c, attempts)[path], a)
  {
    if attempts != [] {
      var before, last := attempts[..|attempts| - 1], attempts[|attempts| - 1];
      RunSnoc(c, attempts);
      EveryRunKeeps(c, map[], before);
      var files, later := Run(c, before), Run(c, attempts);
      if path in files && files[path] == later[path] {
        OwnersAreJustified(c, before, path);
        var a :| a in before && Justified(files[path], a);
        assert a in attempts;
      } else {
        OwnerChangesByPut(c, files, last, path);
        assert last in attempts;
      }
    }
  }

  /** After a successful put the entry has the spec, and an OIDC caller owns it. */
  ghost predicate Holds(files: Files, a: Attempt) {
    && PathOf(a.document) in files && files[PathOf(a.document)].spec == a.document.spec
    && (a.principal.via == "oidc" ==> OwnedBy(files[PathOf(a.document)], a.principal))
  }

  lemma SuccessfulPutHolds(c: Checks, files: Files, a: Attempt)
    requires StoreInv(c, files) && Put(c, files, a.document, a.principal, a.io).result.Ok?
    ensures Holds(Attempted(c, files, a), a) && MayPut(c, a)
  {
    PutShape(c, files, a);
    var path := PathOf(a.document);
    assert path in files ==> Entry(c, path, files[path]);
  }

  lemma HeldPutReplays(c: Checks, files: Files, a: Attempt)
    requires StoreInv(c, files) && Holds(files, a) && MayPut(c, a)
    ensures Attempted(c, files, a) == files
    ensures a.io.readable ==>
              Put(c, files, a.document, a.principal, a.io).result == Ok(Receipt(files[PathOf(a.document)], false))
  {
    assert Entry(c, PathOf(a.document), files[PathOf(a.document)]);
  }

  lemma HoldsForever(files: Files, later: Files, a: Attempt)
    requires EvolveAll(files, later) && Holds(files, a)
    ensures Holds(later, a)
  {
  }

  /** Over every run: once a put has succeeded, a repeat at any later time, by the same principal or by
      a caller without OIDC, leaves the store unchanged whatever happens to the disk, and is answered
      with the stored entry if that can be read. */
  lemma RepeatChangesNothing(c: Checks, attempts: seq<Attempt>, n: nat, q: Principal, io: Circumstances)
    requires n < |attempts|
    requires var a := attempts[n]; Put(c, Run(c, attempts[..n]), a.document, a.principal, a.io).result.Ok?
    requires q == attempts[n].principal || q.via != "oidc"
    ensures var files, d := Run(c, attempts), attempts[n].document;
            && Attempted(c, files, Attempt(d, q, io)) == files
            && (io.readable ==>
                  PathOf(d) in files && Put(c, files, d, q, io).result == Ok(Receipt(files[PathOf(d)], false)))
  {
    SuccessHolds(c, attempts, n);
    RepeatIsHeld(c, Run(c, attempts), attempts[n], q, io);
  }

  lemma RepeatIsHeld(c: Checks, files: Files, a: Attempt, q: Principal, io: Circumstances)
    requires StoreInv(c, files) && Holds(files, a) && MayPut(c, a) && (q == a.principal || q.via != "oidc")
    ensures Attempted(c, files, Attempt(a.document, q, io)) == files
    ensures io.readable ==>
              Put(c, files, a.document, q, io).result == Ok(Receipt(files[PathOf(a.document)], false))
  {
    HeldPutReplays(c, files, Attempt(a.document, q, io));
  }

  lemma RunNext(c: Checks, attempts: seq<Attempt>, n: nat)
    requires n < |attempts|
    ensures Run(c, attempts[..n + 1]) == Attempted(c, Run(c, attempts[..n]), attempts[n])
  {
    assert attempts[..n + 1][..n] == attempts[..n];
    RunSnoc(c, attempts[..n + 1]);
  }

  /** What a successful put establishes holds for the rest of the run. */
  lemma SuccessHolds(c: Checks, attempts: seq<Attempt>, n: nat)
    requires n < |attempts|
    requires var a := attempts[n]; Put(c, Run(c, attempts[..n]), a.document, a.principal, a.io).result.Ok?
    ensures StoreInv(c, Run(c, attempts)) && Holds(Run(c, attempts), attempts[n]) && MayPut(c, attempts[n])
  {
    var a, before, after := attempts[n], Run(c, attempts[..n]), Run(c, attempts[..n + 1]);
    EveryRunKeeps(c, map[], attempts[..n]);
    SuccessfulPutHolds(c, before, a);
    PutKeeps(c, before, a);
    RunNext(c, attempts, n);
    RunEvolves(c, attempts, n + 1);
    HoldsForever(after, Run(c, attempts), a);
  }

  /** What a run holds after n attempts, it still holds, evolved, at the end. */
  lemma RunEvolves(c: Checks, attempts: seq<Attempt>, n: nat)
    requires n <= |attempts|
    ensures StoreInv(c, Run(c, attempts)) && EvolveAll(Run(c, attempts[..n]), Run(c, attempts))
  {
    EveryRunKeeps(c, map[], attempts[..n]);
    FoldSplit((files, a) => Attempted(c, files, a), map[], attempts, n);
    EveryRunKeeps(c, Run(c, attempts[..n]), attempts[n..]);
  }

  /** A stored entry is a conflict exactly for another spec, and forbidden exactly to an OIDC caller
      when somebody else owns it. */
  ghost predicate RefusesRightly(existing: Document, a: Attempt, result: Result<Receipt>) {
    && (result == Err(Conflict) <==> existing.spec != a.document.spec)
    && (result == Err(Forbidden) <==>
          existing.spec == a.document.spec && a.principal.via == "oidc" &&
          OwnerOf(existing).Some? && OwnerOf(existing) != Some(Bound(a.principal)))
  }

  lemma ExistingRefuses(c: Checks, files: Files, existing: Document, a: Attempt)
    requires Valid(c, existing)
    ensures RefusesRightly(existing, a, PutExisting(c, files, existing, a.document, a.principal, a.io).result)
  {
  }

  lemma StoredEntryRefuses(c: Checks, files: Files, a: Attempt)
    requires StoreInv(c, files) && MayPut(c, a) && a.io.readable && PathOf(a.document) in files
    ensures RefusesRightly(files[PathOf(a.document)], a, Put(c, files, a.document, a.principal, a.io).result)
  {
    var existing := files[PathOf(a.document)];
    assert Entry(c, PathOf(a.document), existing);
    ExistingRefuses(c, files, existing, a);
  }

  /** A namespace never holds two registrations for one identity. */
  lemma OneRegistrationPerIdentity(c: Checks, attempts: seq<Attempt>, p1: Path, p2: Path)
    requires p1 in Run(c, attempts) && p2 in Run(c, attempts) && p1.0 == p2.0
    requires Run(c, attempts)[p1].spec.identity == Run(c, attempts)[p2].spec.identity
    ensures p1 == p2 == (p1.0, ResourceName(c.p, Run(c, attempts)[p1].spec.identity))
  {
    EveryRunKeeps(c, map[], attempts);
    assert Entry(c, p1, Run(c, attempts)[p1]) && Entry(c, p2, Run(c, attempts)[p2]);
  }

  /** Over every run, only registrable identities are ever registered. */
  lemma OnlyRegistrable(c: Checks, attempts: seq<Attempt>, path: Path)
    requires path in Run(c, attempts)
    ensures Registrable(Run(c, attempts)[path].spec.identity)
  {
    EveryRunKeeps(c, map[], attempts);
    assert Entry(c, path, Run(c, attempts)[path]);
    SubdomainExactly(c.p, Run(c, attempts)[path].spec.identity);
  }

  // ----- What a put is answered, and what it writes -----

  /** The put would have to write: nothing is there, or an OIDC caller finds an entry nobody owns. */
  ghost predicate MustWrite(files: Files, a: Attempt) {
    var path := (a.document.namespace, a.document.name);
    path !in files || (a.principal.via == "oidc" && OwnerOf(files[path]).None?)
  }

  /** What is asked of a put. */
  datatype Demand =
    | ValidDocument | OwnIdentity | Readable | SameSpec | NotForeign | NewIdentifier | NamedOwner | Writable

  ghost predicate Meets(c: Checks, files: Files, a: Attempt, demand: Demand) {
    var path, q, d := (a.document.namespace, a.document.name), a.principal, a.document;
    match demand
    case ValidDocument => Valid(c, d) && d.namespace != ""
    case OwnIdentity => q.via == "oidc" ==> q.identity == d.spec.identity
    case Readable => a.io.readable
    case SameSpec => path in files ==> files[path].spec == d.spec
    case NotForeign =>
      path in files && q.via == "oidc" ==>
        OwnerOf(files[path]).None? || OwnerOf(files[path]) == Some(Owner("oidc", q.issuer, q.subject))
    case NewIdentifier => MustWrite(files, a) ==> a.io.identifier.Some?
    case NamedOwner => MustWrite(files, a) && q.via == "oidc" ==> c.issuerOk(q.issuer) && TrimSpace(q.subject) != ""
    case Writable => MustWrite(files, a) ==> a.io.writable
  }

  /** The demands in the order they are checked. */
  const DEMANDS: seq<Demand> :=
    [ValidDocument, OwnIdentity, Readable, SameSpec, NotForeign, NewIdentifier, NamedOwner, Writable]

  function ReasonFor(demand: Demand): Reason {
    match demand
    case ValidDocument => Invalid
    case OwnIdentity => Forbidden
    case Readable => Unavailable
    case SameSpec => Conflict
    case NotForeign => Forbidden
    case NewIdentifier => Unavailable
    case NamedOwner => Invalid
    case Writable => Unavailable
  }

  /** Everything before it is met, and it is not. */
  ghost predicate FirstFails(c: Checks, files: Files, a: Attempt, i: nat)
    requires i < |DEMANDS|
  {
    !Meets(c, files, a, DEMANDS[i]) && forall j :: 0 <= j < i ==> Meets(c, files, a, DEMANDS[j])
  }

  lemma CreatedIsValid(c: Checks, a: Attempt, id: string)
    requires Valid(c, a.document)
    ensures Valid(c, Created(a.document, a.principal, id, a.io.now)) <==>
            (a.principal.via == "oidc" ==> c.issuerOk(a.principal.issuer) && TrimSpace(a.principal.subject) != "")
  {
  }

  lemma AdoptedIsValid(c: Checks, d: Document, q: Principal, id: string)
    requires Valid(c, d)
    ensures Valid(c, Adopted(d, q, id)) <==> c.issuerOk(q.issuer) && TrimSpace(q.subject) != ""
  {
  }

  /** An OIDC caller puts the spec of an entry that nobody owns. */
  ghost predicate MayAdopt(c: Checks, files: Files, a: Attempt) {
    var path := (a.document.namespace, a.document.name);
    && MayPut(c, a) && a.io.readable && path in files && a.principal.via == "oidc"
    && files[path].spec == a.document.spec && OwnerOf(files[path]).None?
  }

  lemma AdoptingPut(c: Checks, files: Files, a: Attempt)
    requires StoreInv(c, files) && MayAdopt(c, files, a)
    ensures var before := files[(a.document.namespace, a.document.name)];
            && Entry(c, (a.document.namespace, a.document.name), before)
            && Put(c, files, a.document, a.principal, a.io) ==
               if a.io.identifier.None? then Effect(files, Err(Unavailable))
               else Write(c, files, Adopted(before, a.principal, a.io.identifier.value), a.io, false)
  {
    assert Entry(c, (a.document.namespace, a.document.name), files[(a.document.namespace, a.document.name)]);
  }

  predicate MayOwn(c: Checks, q: Principal) { c.issuerOk(q.issuer) && TrimSpace(q.subject) != "" }

  lemma AdoptingPutRefuses(c: Checks, files: Files, a: Attempt)
    requires StoreInv(c, files) && MayAdopt(c, files, a)
    ensures var effect, io := Put(c, files, a.document, a.principal, a.io), a.io;
            && (io.identifier.None? ==> effect == Effect(files, Err(Unavailable)))
            && (io.identifier.Some? && !MayOwn(c, a.principal) ==> effect == Effect(files, Err(Invalid)))
            && (io.identifier.Some? && MayOwn(c, a.principal) && !io.writable ==>
                  effect == Effect(files, Err(Unavailable)))
  {
    AdoptingPut(c, files, a);
    if a.io.identifier.Some? {
      AdoptedIsValid(c, files[(a.document.namespace, a.document.name)], a.principal, a.io.identifier.value);
    }
  }

  lemma NewPutRefuses(c: Checks, files: Files, a: Attempt)
    requires MayPut(c, a) && a.io.readable && (a.document.namespace, a.document.name) !in files
    ensures var effect, io := Put(c, files, a.document, a.principal, a.io), a.io;
            var fine := a.principal.via == "oidc" ==> MayOwn(c, a.principal);
            && (io.identifier.None? ==> effect == Effect(files, Err(Unavailable)))
            && (io.identifier.Some? && !fine ==> effect == Effect(files, Err(Invalid)))
            && (io.identifier.Some? && fine && !io.writable ==> effect == Effect(files, Err(Unavailable)))
  {
    if a.io.identifier.Some? {
      CreatedIsValid(c, a, a.io.identifier.value);
    }
  }

  lemma RefusedUnchanged(c: Checks, files: Files, a: Attempt)
    requires Put(c, files, a.document, a.principal, a.io).result.Err?
    ensures Put(c, files, a.document, a.principal, a.io).files == files
  {
  }

  /** A put is refused with the reason of the first demand it fails, and then changes nothing. */
  lemma PutRefuses(c: Checks, files: Files, a: Attempt, i: nat)
    requires StoreInv(c, files) && i < |DEMANDS| && FirstFails(c, files, a, i)
    ensures Put(c, files, a.document, a.principal, a.io) == Effect(files, Err(ReasonFor(DEMANDS[i])))
  {
    assert i > 0 ==> Meets(c, files, a, DEMANDS[0]);
    assert i > 1 ==> Meets(c, files, a, DEMANDS[1]);
    assert i > 2 ==> Meets(c, files, a, DEMANDS[2]);
    if i > 2 {
      assert i > 3 ==> Meets(c, files, a, DEMANDS[3]);
      assert i > 4 ==> Meets(c, files, a, DEMANDS[4]);
      assert i > 5 ==> Meets(c, files, a, DEMANDS[5]);
      assert i > 6 ==> Meets(c, files, a, DEMANDS[6]);
      if i <= 4 {
        StoredEntryRefuses(c, files, a);
        RefusedUnchanged(c, files, a);
      } else if (a.document.namespace, a.document.name) in files {
        AdoptingPutRefuses(c, files, a);
      } else {
        NewPutRefuses(c, files, a);
      }
    }
  }

  /** A new entry: the given spec under the given name, identified by the random identifier, created now to
      the second, accepted, and owned by an OIDC caller but by nobody else. */
  ghost predicate IsNew(e: Document, a: Attempt) {
    && e.apiVersion == "tearenv.io/v1alpha1" && e.kind == "UserRegistration" && e.generation == 1
    && e.name == a.document.name && e.namespace == a.document.namespace && e.spec == a.document.spec
    && a.io.identifier == Some(e.uid) && e.resourceVersion == e.uid
    && a.io.now - SECOND < e.created <= a.io.now && e.created % SECOND == 0
    && e.status == Some(Status(if a.principal.via == "oidc"
                               then Some(Owner("oidc", a.principal.issuer, a.principal.subject)) else None,
                               [Condition("Accepted", "True", e.created)]))
  }

  /** The entry with an owner and a new resource version, and nothing else changed. */
  ghost predicate IsAdopted(e: Document, before: Document, a: Attempt) {
    && e.apiVersion == before.apiVersion && e.kind == before.kind && e.generation == before.generation
    && e.name == before.name && e.namespace == before.namespace && e.spec == before.spec
    && e.uid == before.uid && e.created == before.created && a.io.identifier == Some(e.resourceVersion)
    && e.status.Some? && before.status.Some? && e.status.value.conditions == before.status.value.conditions
    && e.status.value.owner == Some(Owner("oidc", a.principal.issuer, a.principal.subject))
  }

  lemma NewIsStored(a: Attempt, id: string)
    requires a.io.identifier == Some(id)
    ensures IsNew(Stored(Created(a.document, a.principal, id, a.io.now)), a)
  {
    var e := Stored(Created(a.document, a.principal, id, a.io.now));
    assert e.status.value.conditions == [Condition("Accepted", "True", e.created)];
    assert Seconds(a.io.now) == a.io.now / SECOND * SECOND;
  }

  /** What a successful put wrote and answered. */
  ghost predicate Accepts(files: Files, a: Attempt, effect: Effect) {
    var path := (a.document.namespace, a.document.name);
    && effect.result.Ok? && effect.result.value.created == (path !in files)
    && path in effect.files && effect.files == files[path := effect.files[path]]
    && Stored(effect.result.value.document) == effect.files[path]
    && (if path !in files then IsNew(effect.files[path], a)
        else if a.principal.via == "oidc" && OwnerOf(files[path]).None?
        then IsAdopted(effect.files[path], files[path], a)
        else effect.files == files)
  }

  lemma NewPutAccepts(c: Checks, files: Files, a: Attempt)
    requires MayPut(c, a) && a.io.readable && a.io.writable && a.io.identifier.Some?
    requires (a.document.namespace, a.document.name) !in files
    requires a.principal.via == "oidc" ==> c.issuerOk(a.principal.issuer) && TrimSpace(a.principal.subject) != ""
    ensures Accepts(files, a, Put(c, files, a.document, a.principal, a.io))
  {
    CreatedIsValid(c, a, a.io.identifier.value);
    NewIsStored(a, a.io.identifier.value);
  }

  lemma AdoptingPutAccepts(c: Checks, files: Files, a: Attempt)
    requires StoreInv(c, files) && MayAdopt(c, files, a) && a.io.writable && a.io.identifier.Some?
    requires c.issuerOk(a.principal.issuer) && TrimSpace(a.principal.subject) != ""
    ensures Accepts(files, a, Put(c, files, a.document, a.principal, a.io))
  {
    AdoptingPut(c, files, a);
    AdoptedIsValid(c, files[(a.document.namespace, a.document.name)], a.principal, a.io.identifier.value);
  }

  lemma ReplayAccepts(c: Checks, files: Files, a: Attempt)
    requires StoreInv(c, files) && MayPut(c, a) && a.io.readable && (a.document.namespace, a.document.name) in files
    requires files[(a.document.namespace, a.document.name)].spec == a.document.spec
    requires a.principal.via == "oidc" ==>
               OwnerOf(files[(a.document.namespace, a.document.name)]) ==
               Some(Owner("oidc", a.principal.issuer, a.principal.subject))
    ensures Accepts(files, a, Put(c, files, a.document, a.principal, a.io))
  {
    assert Entry(c, (a.document.namespace, a.document.name), files[(a.document.namespace, a.document.name)]);
  }

  /** A put that meets every demand succeeds: it creates what was not there, an OIDC caller adopts what
      nobody owns, and everything else is answered with the entry as it is. */
  lemma PutAccepts(c: Checks, files: Files, a: Attempt)
    requires StoreInv(c, files) && forall i :: 0 <= i < |DEMANDS| ==> Meets(c, files, a, DEMANDS[i])
    ensures Accepts(files, a, Put(c, files, a.document, a.principal, a.io))
  {
    assert Meets(c, files, a, DEMANDS[0]) && Meets(c, files, a, DEMANDS[1]) && Meets(c, files, a, DEMANDS[2]);
    assert Meets(c, files, a, DEMANDS[3]) && Meets(c, files, a, DEMANDS[4]) && Meets(c, files, a, DEMANDS[5]);
    assert Meets(c, files, a, DEMANDS[6]) && Meets(c, files, a, DEMANDS[7]);
    if (a.document.namespace, a.document.name) !in files {
      NewPutAccepts(c, files, a);
    } else if MayAdopt(c, files, a) {
      AdoptingPutAccepts(c, files, a);
    } else {
      ReplayAccepts(c, files, a);
    }
  }
}
