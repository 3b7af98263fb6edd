/** Exchanging an OIDC token for an SSH certificate, the profile of section 2.1 of RFC 8693. */
module TokenExchange {
  import opened Prelude
  import opened Text
  import opened Names
  import opened Registration
  import opened RegistrationRuns
  import opened RegistrationStore
  import opened Runs

  // ----- The certificate issuer -----

  datatype Issuer = Issuer(ttl: int, clockSkew: int)

  function NewIssuer(hasSigner: bool, ttl: int, clockSkew: int): (r: Result<Issuer>)
    ensures r.Ok? ==> ValidIssuer(r.value) && r.value == Issuer(if ttl == 0 then 10 * MINUTE else ttl, clockSkew)
    ensures r.Ok? <==> hasSigner && (ttl == 0 || MINUTE <= ttl <= 60 * MINUTE) && 0 <= clockSkew <= 5 * MINUTE
  {
    var chosen := if ttl == 0 then 10 * MINUTE else ttl;
    if !hasSigner then Err(Invalid)
    else if chosen < MINUTE || chosen > 60 * MINUTE then Err(Invalid)
    else if clockSkew < 0 || clockSkew > 5 * MINUTE then Err(Invalid)
    else Ok(Issuer(chosen, clockSkew))
  }

  ghost predicate ValidIssuer(i: Issuer) {
    MINUTE <= i.ttl <= 60 * MINUTE && 0 <= i.clockSkew <= 5 * MINUTE
  }

  datatype Certificate = Certificate(
    key: string, keyId: string, principals: seq<string>, validAfter: int, validBefore: int)

  const TWO_TO_THE_64: int := 0x1_0000_0000_0000_0000

  /** Seconds since the epoch, rounded down, as an unsigned 64-bit number. */
  function Unix(t: int): int { (t / SECOND) % TWO_TO_THE_64 }

  function KeyId(p: Platform, q: Principal, keyName: string): string {
    "oidc:" + Digest(p, q.issuer + [NUL] + q.subject + [NUL] + keyName, 24)
  }

  function Issue(p: Platform, issuer: Issuer, q: Principal, keyName: string, wire: string, now: int, signs: bool)
    : Result<Certificate>
  {
    if TrimSpace(q.identity) == "" || TrimSpace(keyName) == "" then Err(Invalid)
    else if !signs then Err(Unavailable)
    else Ok(Certificate(wire, KeyId(p, q, keyName), [q.identity], Unix(now - issuer.clockSkew), Unix(now + issuer.ttl)))
  }

  // ----- The decision chain -----

  const GRANT_TYPE := "urn:ietf:params:oauth:grant-type:token-exchange"
  const CERTIFICATE_TYPE := "https://tearenv.io/oauth/token-type/ssh-certificate"
  const SCOPE := "ssh:connect"

  datatype Request = Request(
    formEncoded: bool, bodyParses: bool, grantType: string, subjectTokenType: string, subjectToken: string,
    requestedTokenType: string, audience: string, scopes: seq<string>, keyId: string)

  datatype Options = Options(namespace: string, audience: string, subjectTokenType: string, issuer: Issuer)

  datatype Refusal =
    | UnsupportedMediaType | InvalidRequest | UnsupportedGrantType | InvalidTarget | InvalidScope | InvalidGrant
    | ServerError

  datatype Response = Refused(refusal: Refusal) | Issued(certificate: Certificate, expiresIn: int)

  /** The authenticator's verdict on the subject token, the clock, and whether the store can be read
      and signing works. */
  datatype Moment = Moment(principal: Option<Principal>, now: int, readable: bool, signs: bool)

  /** The checks before the subject token is looked at. */
  function Screen(o: Options, r: Request): Option<Refusal> {
    if !r.formEncoded then Some(UnsupportedMediaType)
    else if !r.bodyParses then Some(InvalidRequest)
    else if r.grantType != GRANT_TYPE then Some(UnsupportedGrantType)
    else if r.subjectTokenType != o.subjectTokenType || TrimSpace(r.subjectToken) == "" then Some(InvalidRequest)
    else if r.requestedTokenType != CERTIFICATE_TYPE then Some(InvalidRequest)
    else if r.audience != o.audience then Some(InvalidTarget)
    else if SCOPE !in r.scopes then Some(InvalidScope)
    else if TrimSpace(r.keyId) == "" then Some(InvalidRequest)
    else None
  }

  function Answer(c: Checks, o: Options, q: Principal, keyName: string, key: Result<string>, m: Moment): Response {
    if key == Err(Forbidden) then Refused(InvalidTarget)
    else if key.Err? then Refused(InvalidRequest)
    else
      var certificate := Issue(c.p, o.issuer, q, keyName, key.value, m.now, m.signs);
      if certificate.Err? then Refused(ServerError)
      else Issued(certificate.value, o.issuer.ttl / SECOND)
  }

  ghost function Respond(c: Checks, o: Options, files: Files, r: Request, m: Moment): Response {
    var screened := Screen(o, r);
    if screened.Some? then Refused(screened.value)
    else if m.principal.None? || m.principal.value.via != "oidc" then Refused(InvalidGrant)
    else
      var q, keyName := m.principal.value, TrimSpace(r.keyId);
      Answer(c, o, q, keyName, KeyFor(c, files, o.namespace, ResourceName(c.p, q.identity), keyName, q, m.readable), m)
  }

  /** The handler against a store: it only reads. */
  method Handle(store: Store, o: Options, r: Request, m: Moment) returns (response: Response)
    requires store.Valid()
    ensures response == Respond(store.c, o, store.files, r, m)
  {
    var screened := Screen(o, r);
    if screened.Some? {
      return Refused(screened.value);
    }
    if m.principal.None? || m.principal.value.via != "oidc" {
      return Refused(InvalidGrant);
    }
    var q, keyName := m.principal.value, TrimSpace(r.keyId);
    var key := store.PublicKey(o.namespace, ResourceName(store.c.p, q.identity), keyName, q, m.readable);
    response := Answer(store.c, o, q, keyName, key, m);
  }

  // ----- Runs of registrations and exchanges -----

  datatype Grant = Grant(request: Request, response: Response, principal: Principal, now: int)

  datatype Ledger = Ledger(files: Files, grants: seq<Grant>)

  datatype Step = Register(attempt: Attempt) | Exchange(request: Request, moment: Moment)

  ghost function Apply(c: Checks, o: Options, l: Ledger, s: Step): Ledger {
    match s
    case Register(a) => l.(files := Attempted(c, l.files, a))
    case Exchange(r, m) =>
      var response := Respond(c, o, l.files, r, m);
      if response.Refused? then l
      else l.(grants := l.grants + [Grant(r, response, m.principal.value, m.now)])
  }

  ghost function Run(c: Checks, o: Options, steps: seq<Step>): Ledger {
    Fold((l, s) => Apply(c, o, l, s), Ledger(map[], []), steps)
  }

  /** The certificate certifies the only key of the requested name in an accepted registration owned by
      the principal, names the principal's identity alone, and is identified by the principal and the name. */
  ghost predicate Backed(c: Checks, o: Options, files: Files, g: Grant) {
    var path := (o.namespace, ResourceName(c.p, g.principal.identity));
    var name, q := TrimSpace(g.request.keyId), g.principal;
    && g.response.Issued? && q.via == "oidc" && path in files
    && OwnerOf(files[path]) == Some(Owner("oidc", q.issuer, q.subject)) && Accepted(files[path])
    && (exists i :: 0 <= i < |files[path].spec.publicKeys|
          && OnlyKey(files[path].spec.publicKeys, i, name)
          && c.parseKey(files[path].spec.publicKeys[i].key).Some?
          && g.response.certificate.key == c.parseKey(files[path].spec.publicKeys[i].key).value.wire)
    && g.response.certificate.principals == [q.identity]
    && g.response.certificate.keyId == "oidc:" + Digest(c.p, q.issuer + [NUL] + q.subject + [NUL] + name, 24)
  }

  /** It ends within the last second of its lifetime, begins within the second that ends with the allowed
      skew, and the response is off by less than a second from what is left of it. */
  ghost predicate Timely(o: Options, g: Grant)
    requires g.response.Issued?
  {
    var end, begin := g.response.certificate.validBefore * SECOND, g.response.certificate.validAfter * SECOND;
    && g.now + o.issuer.ttl - SECOND < end <= g.now + o.issuer.ttl
    && g.now - o.issuer.clockSkew - SECOND < begin <= g.now - o.issuer.clockSkew
    && -SECOND < g.response.expiresIn * SECOND - (end - g.now) < SECOND
  }

  /** What every request that is answered with a certificate says. */
  ghost predicate Proper(o: Options, r: Request) {
    && r.formEncoded && r.bodyParses
    && r.grantType == "urn:ietf:params:oauth:grant-type:token-exchange"
    && r.subjectTokenType == o.subjectTokenType && TrimSpace(r.subjectToken) != ""
    && r.requestedTokenType == "https://tearenv.io/oauth/token-type/ssh-certificate"
    && r.audience == o.audience && "ssh:connect" in r.scopes && TrimSpace(r.keyId) != ""
  }

  lemma ScreenedIsProper(o: Options, r: Request)
    ensures Screen(o, r).None? <==> Proper(o, r)
  {
  }

  /** A clock between five minutes after the epoch and the last second a certificate can express. */
  ghost predicate SensibleClock(s: Step) {
    s.Exchange? ==> 5 * MINUTE <= s.moment.now < (TWO_TO_THE_64 - 3601) * SECOND
  }

  lemma UnixInRange(t: int)
    requires 0 <= t < TWO_TO_THE_64 * SECOND
    ensures t - SECOND < Unix(t) * SECOND <= t
  {
  }

  lemma IssuedIsTimely(o: Options, g: Grant, p: Platform, q: Principal, keyName: string, wire: string)
    requires ValidIssuer(o.issuer) && 5 * MINUTE <= g.now < (TWO_TO_THE_64 - 3601) * SECOND
    requires g.response.Issued? && g.response.expiresIn == o.issuer.ttl / SECOND
    requires Issue(p, o.issuer, q, keyName, wire, g.now, true) == Ok(g.response.certificate)
    ensures Timely(o, g)
  {
    UnixInRange(g.now + o.issuer.ttl);
    UnixInRange(g.now - o.issuer.clockSkew);
  }

  lemma ExchangeIsBacked(c: Checks, o: Options, files: Files, r: Request, m: Moment)
    requires StoreInv(c, files) && Respond(c, o, files, r, m).Issued?
    ensures m.principal.Some? &&
            Backed(c, o, files, Grant(r, Respond(c, o, files, r, m), m.principal.value, m.now))
  {
    var q, keyName := m.principal.value, TrimSpace(r.keyId);
    var path := (o.namespace, ResourceName(c.p, q.identity));
    assert KeyFor(c, files, path.0, path.1, keyName, q, m.readable).Ok?;
    assert Entry(c, path, files[path]);
    SearchFinds(c, files[path].spec.publicKeys, keyName);
  }

  /** The principal owns the registration under its resource name, which lists a key of that name. */
  ghost predicate Entitled(c: Checks, files: Files, namespace: string, q: Principal, keyName: string) {
    var path := (namespace, ResourceName(c.p, q.identity));
    && path in files && OwnerOf(files[path]) == Some(Owner("oidc", q.issuer, q.subject))
    && exists i :: 0 <= i < |files[path].spec.publicKeys| && files[path].spec.publicKeys[i].name == keyName
  }

  lemma KeyForExactly(c: Checks, files: Files, namespace: string, q: Principal, keyName: string, readable: bool)
    requires StoreInv(c, files) && q.via == "oidc"
    ensures KeyFor(c, files, namespace, ResourceName(c.p, q.identity), keyName, q, readable).Ok? <==>
            readable && Entitled(c, files, namespace, q, keyName)
  {
    var path := (namespace, ResourceName(c.p, q.identity));
    if path in files {
      assert Entry(c, path, files[path]);
      SearchFinds(c, files[path].spec.publicKeys, keyName);
    }
  }

  lemma AnswerIssues(c: Checks, o: Options, q: Principal, keyName: string, key: Result<string>, m: Moment)
    ensures Answer(c, o, q, keyName, key, m).Issued? <==>
            key.Ok? && TrimSpace(q.identity) != "" && TrimSpace(keyName) != "" && m.signs
  {
  }

  lemma TrimTwice(s: string)
    ensures TrimSpace(TrimSpace(s)) == TrimSpace(s)
  {
    TrimKeeps(s, IsSpace);
    TrimKeeps(TrimSpace(s), IsSpace);
  }

  /** A request is answered with a certificate exactly when it is proper, its token is that of an OIDC
      principal with an identity that is entitled to the requested key, the store can be read, and
      signing works. */
  lemma IssuedExactlyWhen(c: Checks, o: Options, files: Files, r: Request, m: Moment)
    requires StoreInv(c, files)
    ensures Respond(c, o, files, r, m).Issued? <==>
            && Proper(o, r) && IsOidc(m) && TrimSpace(m.principal.value.identity) != "" && m.readable && m.signs
            && Entitled(c, files, o.namespace, m.principal.value, TrimSpace(r.keyId))
  {
    ScreenedIsProper(o, r);
    TrimTwice(r.keyId);
    if Screen(o, r).None? && IsOidc(m) {
      var q, keyName := m.principal.value, TrimSpace(r.keyId);
      KeyForExactly(c, files, o.namespace, q, keyName, m.readable);
      var key := KeyFor(c, files, o.namespace, ResourceName(c.p, q.identity), keyName, q, m.readable);
      AnswerIssues(c, o, q, keyName, key, m);
    }
  }

  predicate IsOidc(m: Moment) { m.principal.Some? && m.principal.value.via == "oidc" }

  // ----- Which refusal -----

  /** The registration under the principal's resource name can be read and belongs to somebody else. */
  ghost predicate Foreign(c: Checks, o: Options, files: Files, m: Moment)
    requires IsOidc(m)
  {
    var q := m.principal.value;
    var path := (o.namespace, ResourceName(c.p, q.identity));
    m.readable && path in files && OwnerOf(files[path]) != Some(Owner("oidc", q.issuer, q.subject))
  }

  /** What is asked of a request, in order, and the refusal for whoever fails it first. */
  ghost function Demands(c: Checks, o: Options, files: Files, r: Request, m: Moment): seq<(bool, Refusal)> {
    [(r.formEncoded, UnsupportedMediaType),
     (r.bodyParses, InvalidRequest),
     (r.grantType == "urn:ietf:params:oauth:grant-type:token-exchange", UnsupportedGrantType),
     (r.subjectTokenType == o.subjectTokenType && TrimSpace(r.subjectToken) != "", InvalidRequest),
     (r.requestedTokenType == "https://tearenv.io/oauth/token-type/ssh-certificate", InvalidRequest),
     (r.audience == o.audience, InvalidTarget),
     ("ssh:connect" in r.scopes, InvalidScope),
     (TrimSpace(r.keyId) != "", InvalidRequest),
     (IsOidc(m), InvalidGrant),
     (IsOidc(m) ==> !Foreign(c, o, files, m), InvalidTarget),
     (IsOidc(m) ==> m.readable && Entitled(c, files, o.namespace, m.principal.value, TrimSpace(r.keyId)),
      InvalidRequest),
     (IsOidc(m) ==> TrimSpace(m.principal.value.identity) != "" && m.signs, ServerError)]
  }

  ghost predicate FirstFails(demands: seq<(bool, Refusal)>, i: nat)
    requires i < |demands|
  {
    !demands[i].0 && forall j :: 0 <= j < i ==> demands[j].0
  }

  lemma ForbiddenIsForeign(c: Checks, o: Options, files: Files, keyName: string, m: Moment)
    requires StoreInv(c, files) && IsOidc(m)
    ensures var q := m.principal.value;
            KeyFor(c, files, o.namespace, ResourceName(c.p, q.identity), keyName, q, m.readable) == Err(Forbidden) <==>
            Foreign(c, o, files, m)
  {
    var q := m.principal.value;
    var path := (o.namespace, ResourceName(c.p, q.identity));
    if path in files {
      assert Entry(c, path, files[path]);
      SearchIsNotForbidden(c, files[path].spec.publicKeys, keyName);
      assert Get(c, files, path.0, path.1, m.readable) == if m.readable then Ok(files[path]) else Err(Unavailable);
    } else {
      assert Get(c, files, path.0, path.1, m.readable) != Err(Forbidden);
    }
  }

  lemma SearchIsNotForbidden(c: Checks, keys: seq<PublicKey>, name: string)
    ensures Search(c, keys, name) != Err(Forbidden)
  {
  }

  lemma AnswerRefuses(c: Checks, o: Options, q: Principal, keyName: string, key: Result<string>, m: Moment)
    requires TrimSpace(keyName) != ""
    ensures var answer := Answer(c, o, q, keyName, key, m);
            && (key == Err(Forbidden) ==> answer == Refused(InvalidTarget))
            && (key.Err? && key != Err(Forbidden) ==> answer == Refused(InvalidRequest))
            && (key.Ok? && !(TrimSpace(q.identity) != "" && m.signs) ==> answer == Refused(ServerError))
  {
  }

  /** A request is refused with the refusal of the first demand that fails. */
  lemma RefusedExactly(c: Checks, o: Options, files: Files, r: Request, m: Moment, i: nat)
    requires StoreInv(c, files) && i < 12 && FirstFails(Demands(c, o, files, r, m), i)
    ensures Respond(c, o, files, r, m) == Refused(Demands(c, o, files, r, m)[i].1)
  {
    var demands := Demands(c, o, files, r, m);
    if i < 8 {
      EarlyRefusal(c, o, files, r, m, i);
    } else {
      assert demands[0].0 && demands[1].0 && demands[2].0 && demands[3].0;
      assert demands[4].0 && demands[5].0 && demands[6].0 && demands[7].0;
      assert i > 8 ==> demands[8].0;
      assert i > 9 ==> demands[9].0;
      assert i > 10 ==> demands[10].0;
      LateRefusal(c, o, files, r, m, i);
    }
  }

  lemma EarlyRefusal(c: Checks, o: Options, files: Files, r: Request, m: Moment, i: nat)
    requires i < 8 && FirstFails(Demands(c, o, files, r, m), i)
    ensures Respond(c, o, files, r, m) == Refused(Demands(c, o, files, r, m)[i].1)
  {
    var demands := Demands(c, o, files, r, m);
    assert i > 0 ==> demands[0].0;
    assert i > 1 ==> demands[1].0;
    assert i > 2 ==> demands[2].0;
    assert i > 3 ==> demands[3].0;
    assert i > 4 ==> demands[4].0;
    assert i > 5 ==> demands[5].0;
    assert i > 6 ==> demands[6].0;
  }

  lemma LateRefusal(c: Checks, o: Options, files: Files, r: Request, m: Moment, i: nat)
    requires StoreInv(c, files) && 8 <= i < 12 && Proper(o, r)
    requires var demands := Demands(c, o, files, r, m);
             && !demands[i].0 && (i > 8 ==> IsOidc(m)) && (i > 9 ==> !Foreign(c, o, files, m))
             && (i > 10 ==> m.readable && Entitled(c, files, o.namespace, m.principal.value, TrimSpace(r.keyId)))
    ensures Respond(c, o, files, r, m) == Refused(Demands(c, o, files, r, m)[i].1)
  {
    ScreenedIsProper(o, r);
    TrimTwice(r.keyId);
    if IsOidc(m) {
      var q, keyName := m.principal.value, TrimSpace(r.keyId);
      var key := KeyFor(c, files, o.namespace, ResourceName(c.p, q.identity), keyName, q, m.readable);
      ForbiddenIsForeign(c, o, files, keyName, m);
      KeyForExactly(c, files, o.namespace, q, keyName, m.readable);
      AnswerRefuses(c, o, q, keyName, key, m);
    }
  }

  lemma BackedForever(c: Checks, o: Options, files: Files, later: Files, g: Grant)
    requires EvolveAll(files, later) && Backed(c, o, files, g)
    ensures Backed(c, o, later, g)
  {
    var path := (o.namespace, ResourceName(c.p, g.principal.identity));
    assert later[path] == files[path];
  }

  ghost predicate Sound(c: Checks, o: Options, l: Ledger) {
    StoreInv(c, l.files) && forall g :: g in l.grants ==> Backed(c, o, l.files, g) && Proper(o, g.request)
  }

  lemma RegisterIsSound(c: Checks, o: Options, l: Ledger, a: Attempt)
    requires Sound(c, o, l)
    ensures Sound(c, o, Apply(c, o, l, Register(a)))
  {
    PutKeeps(c, l.files, a);
    forall g | g in l.grants ensures Backed(c, o, Attempted(c, l.files, a), g) {
      BackedForever(c, o, l.files, Attempted(c, l.files, a), g);
    }
  }

  lemma GrantIsSound(c: Checks, o: Options, l: Ledger, g: Grant)
    requires Sound(c, o, l) && Backed(c, o, l.files, g) && Proper(o, g.request)
    ensures Sound(c, o, l.(grants := l.grants + [g]))
  {
  }

  lemma StepIsSound(c: Checks, o: Options, l: Ledger, s: Step)
    requires Sound(c, o, l)
    ensures Sound(c, o, Apply(c, o, l, s))
  {
    match s
    case Register(a) => RegisterIsSound(c, o, l, a);
    case Exchange(r, m) =>
      if Respond(c, o, l.files, r, m).Issued? {
        ExchangeIsBacked(c, o, l.files, r, m);
        ScreenedIsProper(o, r);
        GrantIsSound(c, o, l, Grant(r, Respond(c, o, l.files, r, m), m.principal.value, m.now));
      }
  }

  /** Over every run of registrations and exchanges, every certificate ever issued answers a proper request
      and is backed by a registration that its principal owns now and forever. */
  lemma CertificatesAreBacked(c: Checks, o: Options, steps: seq<Step>, g: Grant)
    requires g in Run(c, o, steps).grants
    ensures Backed(c, o, Run(c, o, steps).files, g) && Proper(o, g.request) && StoreInv(c, Run(c, o, steps).files)
  {
    forall l, s | Sound(c, o, l) ensures Sound(c, o, Apply(c, o, l, s)) {
      StepIsSound(c, o, l, s);
    }
    Invariance((l, s) => Apply(c, o, l, s), Ledger(map[], []), steps, l => Sound(c, o, l), (l, s) => true);
  }

  ghost predicate AllTimely(o: Options, grants: seq<Grant>) {
    forall g :: g in grants ==> g.response.Issued? && Timely(o, g)
  }

  lemma ExchangeIsTimely(c: Checks, o: Options, files: Files, r: Request, m: Moment)
    requires ValidIssuer(o.issuer) && SensibleClock(Exchange(r, m)) && Respond(c, o, files, r, m).Issued?
    ensures m.principal.Some? &&
            Timely(o, Grant(r, Respond(c, o, files, r, m), m.principal.value, m.now))
  {
    var g := Grant(r, Respond(c, o, files, r, m), m.principal.value, m.now);
    var name := ResourceName(c.p, g.principal.identity);
    var key := KeyFor(c, files, o.namespace, name, TrimSpace(g.request.keyId), g.principal, m.readable);
    IssuedIsTimely(o, g, c.p, g.principal, TrimSpace(g.request.keyId), key.value);
  }

  lemma StepIsTimely(c: Checks, o: Options, l: Ledger, s: Step)
    requires AllTimely(o, l.grants) && ValidIssuer(o.issuer) && SensibleClock(s)
    ensures AllTimely(o, Apply(c, o, l, s).grants)
  {
    if s.Exchange? && Respond(c, o, l.files, s.request, s.moment).Issued? {
      ExchangeIsTimely(c, o, l.files, s.request, s.moment);
    }
  }

  /** Over every run, with an issuer as NewIssuer makes it and a sensible clock, every certificate
      ever issued is timely. */
  lemma CertificatesAreTimely(c: Checks, o: Options, steps: seq<Step>, g: Grant)
    requires ValidIssuer(o.issuer) && (forall i :: 0 <= i < |steps| ==> SensibleClock(steps[i]))
    requires g in Run(c, o, steps).grants
    ensures g.response.Issued? && Timely(o, g)
  {
    forall l: Ledger, s | AllTimely(o, l.grants) && SensibleClock(s) ensures AllTimely(o, Apply(c, o, l, s).grants) {
      StepIsTimely(c, o, l, s);
    }
    Invariance((l, s) => Apply(c, o, l, s), Ledger(map[], []), steps, (l: Ledger) => AllTimely(o, l.grants),
               (l, s) => SensibleClock(s));
  }

  // ----- Whom a certificate names -----

  /** A certificate names an identity other than the registered one only if the two identities
      share a resource name, in one of the ways ResourceNameCollision lists. */
  lemma CertifiedIdentity(c: Checks, o: Options, files: Files, g: Grant)
    requires StoreInv(c, files) && Backed(c, o, files, g) && IsIdentity(g.principal.identity)
    ensures var x, y := files[PathFor(c, o, g)].spec.identity, g.principal.identity;
            x != y ==> NamesCollide(c.p, x, y)
  {
    var path := PathFor(c, o, g);
    assert Entry(c, path, files[path]);
    if files[path].spec.identity != g.principal.identity {
      ResourceNameCollision(c.p, files[path].spec.identity, g.principal.identity);
    }
  }

  function PathFor(c: Checks, o: Options, g: Grant): Path {
    (o.namespace, ResourceName(c.p, g.principal.identity))
  }

  function Registrations(steps: seq<Step>): seq<Attempt> {
    if steps == [] then []
    else
      var last := steps[|steps| - 1];
      Registrations(steps[..|steps| - 1]) + if last.Register? then [last.attempt] else []
  }

  lemma LedgerSnoc(c: Checks, o: Options, steps: seq<Step>, s: Step)
    ensures Run(c, o, steps + [s]) == Apply(c, o, Run(c, o, steps), s)
  {
    FoldSnoc((l, s) => Apply(c, o, l, s), Ledger(map[], []), steps, s);
  }

  lemma OneMoreRegistration(c: Checks, attempts: seq<Attempt>, a: Attempt)
    ensures RegistrationRuns.Run(c, attempts + [a]) == Attempted(c, RegistrationRuns.Run(c, attempts), a)
  {
    assert (attempts + [a])[..|attempts|] == attempts;
    RunSnoc(c, attempts + [a]);
  }

  /** Exchanges do not touch the store: its files are those of the registrations alone. */
  lemma {:induction false} FilesAreRegistered(c: Checks, o: Options, steps: seq<Step>)
    ensures Run(c, o, steps).files == RegistrationRuns.Run(c, Registrations(steps))
  {
    if steps != [] {
      var before, last := steps[..|steps| - 1], steps[|steps| - 1];
      FilesAreRegistered(c, o, before);
      LedgerSnoc(c, o, before, last);
      assert before + [last] == steps;
      if last.Register? {
        OneMoreRegistration(c, Registrations(before), last.attempt);
      } else {
        assert Registrations(steps) == Registrations(before);
      }
    }
  }

  lemma {:induction false} RegistrationsAreSteps(steps: seq<Step>, a: Attempt)
    requires a in Registrations(steps)
    ensures Register(a) in steps
  {
    var before, last := steps[..|steps| - 1], steps[|steps| - 1];
    if a in Registrations(before) {
      RegistrationsAreSteps(before, a);
    }
  }

  predicate OwnerIs(r: Principal, q: Principal) { r.via == "oidc" && Bound(r) == Bound(q) }

  /** In the run, this issuer and subject always stood for this identity. */
  ghost predicate OneIdentity(steps: seq<Step>, q: Principal) {
    forall s :: s in steps && s.Register? && OwnerIs(s.attempt.principal, q) ==>
      s.attempt.principal.identity == q.identity
  }

  /** Over every run, if its issuer and subject always stood for one identity, a certificate names
      the registered identity itself, whatever names collide. */
  lemma CertifiedIsRegistered(c: Checks, o: Options, steps: seq<Step>, g: Grant)
    requires g in Run(c, o, steps).grants && OneIdentity(steps, g.principal)
    ensures var files := Run(c, o, steps).files;
            PathFor(c, o, g) in files && files[PathFor(c, o, g)].spec.identity == g.principal.identity
  {
    CertificatesAreBacked(c, o, steps, g);
    FilesAreRegistered(c, o, steps);
    var path := PathFor(c, o, g);
    OwnersAreJustified(c, Registrations(steps), path);
    var a :| a in Registrations(steps) && Justified(Run(c, o, steps).files[path], a);
    RegistrationsAreSteps(steps, a);
    assert Register(a).attempt == a;
  }

  // ----- A certificate for an identity that did not register -----

  lemma CapitalIsRegistrable(c: Checks, namespace: string, keys: seq<PublicKey>)
    requires IsLabel(namespace) && ValidKeys(c, keys)
    ensures Registration.Valid(c, Fresh(c.p, namespace, Spec("A", keys)))
  {
    SubdomainExactly(c.p, "A");
    TrimRightKeeps("A", IsPunctuation);
  }

  /** Putting a new valid document as its own OIDC principal stores it under that owner. */
  lemma FirstPut(c: Checks, a: Attempt, id: string)
    requires Registration.Valid(c, a.document) && IsLabel(a.document.namespace) && a.document.status.None?
    requires a.principal.via == "oidc" && a.principal.identity == a.document.spec.identity
    requires ValidOwner(c, Bound(a.principal)) && a.io.readable && a.io.writable && a.io.identifier == Some(id)
    ensures var files := Attempted(c, map[], a);
            && StoreInv(c, files) && PathOf(a.document) in files
            && files[PathOf(a.document)].spec == a.document.spec
            && OwnerOf(files[PathOf(a.document)]) == Some(Bound(a.principal))
  {
    PutKeeps(c, map[], a);
    assert Registration.Valid(c, Created(a.document, a.principal, id, a.io.now));
  }

  function Changed(issuer: string, subject: string, identity: string): Principal {
    Principal("oidc", issuer, subject, identity)
  }

  /** One issuer and subject registers the identity A, and later stands for the identity that spells
      the resource name of A. */
  function ChangedRun(c: Checks, o: Options, keys: seq<PublicKey>, issuer: string, subject: string, id: string,
                      r: Request, now: int): seq<Step> {
    [Register(Attempt(Fresh(c.p, o.namespace, Spec("A", keys)), Changed(issuer, subject, "A"),
                      Circumstances(Some(id), now, true, true)))] +
    [Exchange(r, Moment(Some(Changed(issuer, subject, ResourceName(c.p, "A"))), now, true, true))]
  }

  /** Then it is given a certificate for that identity with the key that A registered. */
  lemma ChangedIdentityIsCertified(c: Checks, o: Options, keys: seq<PublicKey>, issuer: string, subject: string,
                                   id: string, r: Request, now: int)
    requires ValidKeys(c, keys) && IsLabel(o.namespace) && ValidOwner(c, Owner("oidc", issuer, subject))
    requires Screen(o, r).None? && TrimSpace(r.keyId) == keys[0].name
    ensures var l, y := Run(c, o, ChangedRun(c, o, keys, issuer, subject, id, r, now)), ResourceName(c.p, "A");
            && y != "A" && |l.grants| == 1 && l.grants[0].response.Issued?
            && l.grants[0].response.certificate.principals == [y]
            && PathFor(c, o, l.grants[0]) in l.files && l.files[PathFor(c, o, l.grants[0])].spec.identity == "A"
  {
    ResourceNameNotInjective(c.p);
    var y := ResourceName(c.p, "A");
    var a := Attempt(Fresh(c.p, o.namespace, Spec("A", keys)), Changed(issuer, subject, "A"),
                     Circumstances(Some(id), now, true, true));
    CapitalIsRegistrable(c, o.namespace, keys);
    FirstPut(c, a, id);
    EntitledIsIssued(c, o, Attempted(c, map[], a), r, Changed(issuer, subject, y), now, keys);
    RegisterThenExchange(c, o, a, r, Moment(Some(Changed(issuer, subject, y)), now, true, true));
  }

  lemma EntitledIsIssued(c: Checks, o: Options, files: Files, r: Request, q: Principal, now: int, keys: seq<PublicKey>)
    requires StoreInv(c, files) && Screen(o, r).None? && keys != [] && TrimSpace(r.keyId) == keys[0].name
    requires q.via == "oidc" && IsIdentity(q.identity)
    requires var path := (o.namespace, ResourceName(c.p, q.identity));
             path in files && OwnedBy(files[path], q) && files[path].spec.publicKeys == keys
    ensures var response := Respond(c, o, files, r, Moment(Some(q), now, true, true));
            response.Issued? && response.certificate.principals == [q.identity]
  {
    var m := Moment(Some(q), now, true, true);
    IdentityHasNoSpace(q.identity);
    assert keys[0].name == TrimSpace(r.keyId);
    IssuedExactlyWhen(c, o, files, r, m);
    ExchangeIsBacked(c, o, files, r, m);
  }

  lemma RegisterThenExchange(c: Checks, o: Options, a: Attempt, r: Request, m: Moment)
    ensures Run(c, o, [Register(a)] + [Exchange(r, m)]) ==
            Apply(c, o, Ledger(Attempted(c, map[], a), []), Exchange(r, m))
  {
    LedgerSnoc(c, o, [], Register(a));
    assert [] + [Register(a)] == [Register(a)];
    LedgerSnoc(c, o, [Register(a)], Exchange(r, m));
  }
}
