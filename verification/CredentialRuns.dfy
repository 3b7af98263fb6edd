/** What the writers of the credential file promise each other, and every run of them. */
module CredentialRuns {
  import opened Prelude
  import opened Policy
  import opened Text
  import opened Credentials
  import opened CredentialMeaning
  import opened Runs

  // ----- Users survive rewriting -----

  ghost predicate IsHash(h: string) { |h| == 64 && forall i :: 0 <= i < 64 ==> IsHex(h[i]) }

  lemma DecodeFixed(h: string)
    requires IsHash(h)
    ensures DecodeHash(h) == Some(h)
  {
    assert forall i :: 0 <= i < 64 ==> IsAnyHex(h[i]);
    assert DecodeHash(h).value == h;
  }

  lemma ShaIsHash(t: Formats, s: string)
    ensures IsHash(Sha(t, s))
  {
    assert Genuine(t.p);
  }

  lemma HashOfIsHash(t: Formats, r: UserRecord)
    requires HashOf(t, r).Some?
    ensures IsHash(HashOf(t, r).value)
  {
    if r.tokenHash != "" {
      var h := HashOf(t, r).value;
      forall i | 0 <= i < 64 ensures IsHex(h[i]) {
        assert IsAnyHex(r.tokenHash[i]);
      }
    } else {
      ShaIsHash(t, r.token);
    }
  }

  lemma RehashedUser(t: Formats, h: string)
    requires IsHash(h)
    ensures HashOf(t, UserRecord("", h)) == Some(h)
  {
    DecodeFixed(h);
  }

  /** Rewriting the users as hashes keeps who they are and what they present, legacy tokens too. */
  lemma UsersSurvive(t: Formats, us: map<string, UserRecord>)
    ensures UserHashes(t, Hashed(UserHashes(t, us))) == UserHashes(t, us)
    ensures (forall i :: i in us ==> UserOk(t, i, us[i])) ==>
              forall i :: i in Hashed(UserHashes(t, us)) ==> UserOk(t, i, Hashed(UserHashes(t, us))[i])
  {
    forall i | i in us && HashOf(t, us[i]).Some?
      ensures HashOf(t, UserRecord("", HashOf(t, us[i]).value)) == HashOf(t, us[i])
    {
      HashOfIsHash(t, us[i]);
      RehashedUser(t, HashOf(t, us[i]).value);
    }
  }

  // ----- A normalised service survives its record -----

  lemma NormalTwice(t: Formats, s: Service, n: Service)
    requires Lawful(t) && NormalService(t, s) == Ok(n)
    ensures NormalService(t, n) == Ok(n) && n.name == s.name && n.localPort > 0
    ensures n.workload.Some? ==>
              n.workload.value.replicas >= 1 && n.workload.value.idleTimeout == s.workload.value.idleTimeout
  {
  }

  lemma RecordRoundTrip(t: Formats, s: Service, n: Service)
    requires Lawful(t) && NormalService(t, s) == Ok(n)
    ensures ServiceOf(t, n.name, RecordOf(t, n)) == Ok(n)
  {
    NormalTwice(t, s, n);
    if n.workload.Some? {
      var w := n.workload.value;
      assert t.parseDuration(t.printDuration(w.readyTimeout)) == Some(w.readyTimeout);
      assert t.parseDuration(t.printDuration(w.idleTimeout)) == Some(w.idleTimeout);
      assert WorkloadOf(t, RecordOf(t, n).workload.value) == Ok(w);
    }
  }

  // ----- What each writer means -----

  function MeaningOfOld(t: Formats, file: Option<File>): Meaning {
    if file.Some? then MeaningOf(t, file.value) else NOTHING
  }

  lemma GrantedAccess(t: Formats, rs: map<string, ServiceRecord>, s: Service, n: Service)
    requires Lawful(t) && NormalService(t, s) == Ok(n)
    requires RecordsOk(t, rs)
    ensures Services(t, rs[n.name := RecordOf(t, n)]) == Services(t, rs)[n.name := n]
    ensures RecordsOk(t, rs[n.name := RecordOf(t, n)])
  {
    RecordRoundTrip(t, s, n);
  }

  lemma GrantedParses(t: Formats, f: File, identity: string, s: Service, n: Service)
    requires Lawful(t) && NormalService(t, s) == Ok(n) && IsIdentity(identity) && (f == EMPTY || Parses(t, f))
    ensures Parses(t, Granted(t, f, identity, n))
    ensures MeaningOf(t, Granted(t, f, identity, n)).users == UserHashes(t, f.users)
  {
    var f' := Granted(t, f, identity, n);
    UsersSurvive(t, f.users);
    assert identity in f.access ==> AccessOk(t, identity, f.access[identity]);
    GrantedAccess(t, AccessOf(f, identity), s, n);
    forall i | i in f'.access ensures AccessOk(t, i, f'.access[i]) {
      assert i != identity ==> AccessOk(t, i, f.access[i]);
    }
    assert identity in f'.access;
  }

  lemma GrantedServices(t: Formats, f: File, identity: string, s: Service, n: Service)
    requires Lawful(t) && NormalService(t, s) == Ok(n) && RecordsOk(t, AccessOf(f, identity))
    ensures var before := MeaningOf(t, f).services;
            MeaningOf(t, Granted(t, f, identity, n)).services ==
            before[identity := (if identity in before then before[identity] else map[])[n.name := n]]
  {
    var rs := AccessOf(f, identity);
    GrantedAccess(t, rs, s, n);
    var before := MeaningOf(t, f).services;
    assert (if identity in before then before[identity] else map[]) == Services(t, rs);
    var after := f.access[identity := rs[n.name := RecordOf(t, n)]];
    assert (map i | i in after :: Services(t, after[i])) == before[identity := Services(t, rs)[n.name := n]];
  }

  /** Granting and loading: the written file parses, the service resolves normalised, and every
      other grant, every invite and every token hash is what it was. */
  lemma GrantRoundTrip(t: Formats, file: Option<File>, identity: string, s: Service)
    requires Lawful(t) && GrantService(t, file, identity, s, true).result.Ok?
    ensures var w := GrantService(t, file, identity, s, true);
            var before := MeaningOfOld(t, file);
            var mine := if identity in before.services then before.services[identity] else map[];
            && Parse(t, w.file.value) ==
                 Some(before.(services := before.services[identity := mine[s.name := w.result.value]]))
            && NormalService(t, s) == w.result && Normalised(t, s, w.result.value)
  {
    NormalMeans(t, s);
    var n, f := NormalService(t, s).value, Contents(file);
    NormalTwice(t, s, n);
    GrantedParses(t, f, identity, s, n);
    assert identity in f.access ==> AccessOk(t, identity, f.access[identity]);
    GrantedServices(t, f, identity, s, n);
    assert file.None? ==> MeaningOf(t, EMPTY) == NOTHING;
  }

  /** Inviting replaces the identity's outstanding invites by one, and changes nothing else. */
  lemma InviteMeaning(t: Formats, file: Option<File>, identity: string, token: string)
    requires IsIdentity(identity) && Usable(t, file)
    ensures var before := MeaningOfOld(t, file);
            Parse(t, Invited(t, Contents(file), identity, token)) ==
            Some(before.(invites := (map h | h in before.invites && before.invites[h] != identity :: before.invites[h])
                                    [Sha(t, token) := identity]))
  {
    var f := Contents(file);
    var f' := Invited(t, f, identity, token);
    UsersSurvive(t, f.users);
    ShaIsHash(t, token);
    DecodeFixed(Sha(t, token));
    assert Sha(t, token) in f'.invites;
    assert Parses(t, f');
  }

  lemma EnrolledUsers(t: Formats, us: map<string, UserRecord>, identity: string, token: string)
    ensures UserHashes(t, Hashed(UserHashes(t, us))[identity := UserRecord("", Sha(t, token))]) ==
            UserHashes(t, us)[identity := Sha(t, token)]
  {
    UsersSurvive(t, us);
    ShaIsHash(t, token);
    RehashedUser(t, Sha(t, token));
    var rewritten := Hashed(UserHashes(t, us));
    var added := UserRecord("", Sha(t, token));
    assert forall i :: i in rewritten[identity := added] && i != identity ==>
                         rewritten[identity := added][i] == rewritten[i];
  }

  lemma EnrolledParses(t: Formats, f: File, identity: string, invite: string, token: string)
    requires Parses(t, f) && Redeemable(t, f, identity, invite)
    ensures Parses(t, Enrolled(t, f, identity, invite, token))
  {
    var f' := Enrolled(t, f, identity, invite, token);
    UsersSurvive(t, f.users);
    ShaIsHash(t, token);
    RehashedUser(t, Sha(t, token));
    assert InviteOk(Sha(t, invite), f.invites[Sha(t, invite)]);
    assert identity in f'.users;
  }

  /** Enrolling replaces exactly that identity's token and consumes exactly that invite. */
  lemma EnrollMeaning(t: Formats, f: File, identity: string, invite: string, token: string)
    requires Parses(t, f) && Redeemable(t, f, identity, invite)
    ensures var before := MeaningOf(t, f);
            Parse(t, Enrolled(t, f, identity, invite, token)) ==
            Some(before.(users := before.users[identity := Sha(t, token)],
                         invites := before.invites - {Sha(t, invite)}))
  {
    EnrolledParses(t, f, identity, invite, token);
    EnrolledUsers(t, f.users, identity, token);
  }

  // ----- Tokens survive every writer -----

  ghost predicate SameTokens(t: Formats, m: Meaning, m': Meaning, except: set<string>) {
    forall i, token :: i !in except ==> (Authenticates(t, m, i, token) <==> Authenticates(t, m', i, token))
  }

  /** A successful grant leaves every token valid or invalid as it was, legacy plaintext included. */
  lemma GrantKeepsTokens(t: Formats, file: Option<File>, identity: string, s: Service)
    requires Lawful(t) && GrantService(t, file, identity, s, true).result.Ok?
    ensures SameTokens(t, MeaningOfOld(t, file), MeaningOf(t, GrantService(t, file, identity, s, true).file.value), {})
  {
    GrantRoundTrip(t, file, identity, s);
  }

  /** So does an invite. */
  lemma InviteKeepsTokens(t: Formats, file: Option<File>, identity: string, token: string)
    requires IsIdentity(identity) && Usable(t, file)
    ensures SameTokens(t, MeaningOfOld(t, file), MeaningOf(t, Invited(t, Contents(file), identity, token)), {})
  {
    InviteMeaning(t, file, identity, token);
  }

  /** An enrolment does so for everybody else, and makes the new token the identity's only one. */
  lemma EnrollKeepsTokens(t: Formats, f: File, identity: string, invite: string, token: string)
    requires Parses(t, f) && Redeemable(t, f, identity, invite)
    ensures var m' := MeaningOf(t, Enrolled(t, f, identity, invite, token));
            && SameTokens(t, MeaningOf(t, f), m', {identity})
            && forall x :: Authenticates(t, m', identity, x) <==> Sha(t, x) == Sha(t, token)
  {
    EnrollMeaning(t, f, identity, invite, token);
  }

  // ----- What the writers answer -----

  /** An invite is made exactly for a valid identity, from a file that parses or is absent, when a token
      can be generated and the disk plays along. The token answered is the one now outstanding. */
  lemma InviteExactly(t: Formats, file: Option<File>, identity: string, token: Option<string>, disk: bool)
    ensures var w := CreateInvite(t, file, identity, token, disk);
            var fine := IsIdentity(identity) && (file.Some? ==> Parses(t, file.value));
            && (w.result.Ok? <==> fine && token.Some? && disk) && (w.result == Err(Invalid) <==> !fine)
            && (w.result.Err? ==> w.file == file)
            && (w.result.Ok? ==>
                  && token == Some(w.result.value) && w.file.Some? && Parses(t, w.file.value)
                  && Sha(t, w.result.value) in MeaningOf(t, w.file.value).invites
                  && MeaningOf(t, w.file.value).invites[Sha(t, w.result.value)] == identity)
  {
    if IsIdentity(identity) && Usable(t, file) && token.Some? {
      InviteMeaning(t, file, identity, token.value);
    }
  }

  /** An enrolment succeeds exactly when the file parses, the invite is outstanding and made out to the
      identity, a token can be generated and the disk plays along. The token answered authenticates. */
  lemma EnrollExactly(t: Formats, file: Option<File>, identity: string, invite: string, token: Option<string>,
                      disk: bool)
    ensures var w := Enroll(t, file, identity, invite, token, disk);
            var fine := file.Some? && Parses(t, file.value);
            var due := fine && Sha(t, invite) in file.value.invites && file.value.invites[Sha(t, invite)] == identity;
            && (w.result.Ok? <==> due && token.Some? && disk)
            && (w.result == Err(Invalid) <==> !fine) && (w.result == Err(Forbidden) <==> fine && !due)
            && (w.result.Err? ==> w.file == file)
            && (w.result.Ok? ==>
                  && token == Some(w.result.value) && w.file.Some? && Parses(t, w.file.value)
                  && Authenticates(t, MeaningOf(t, w.file.value), identity, w.result.value)
                  && Sha(t, invite) !in MeaningOf(t, w.file.value).invites)
  {
    if file.Some? && Parses(t, file.value) && Redeemable(t, file.value, identity, invite) && token.Some? {
      EnrollMeaning(t, file.value, identity, invite, token.value);
    }
  }

  // ----- Runs -----

  /** The file, every invite ever issued by hash, and every redemption in order. */
  datatype State = State(file: Option<File>, issued: map<string, string>, redeemed: seq<(string, string)>)

  datatype Step =
    | Invites(identity: string, token: Option<string>, disk: bool)
    | Grants(identity: string, service: Service, disk: bool)
    | Enrolls(identity: string, invite: string, token: Option<string>, disk: bool)

  ghost function Apply(t: Formats, s: State, a: Step): State {
    match a
    case Invites(identity, token, disk) =>
      var w := CreateInvite(t, s.file, identity, token, disk);
      if w.result.Ok? then s.(file := w.file, issued := s.issued[Sha(t, w.result.value) := identity]) else s
    case Grants(identity, service, disk) => s.(file := GrantService(t, s.file, identity, service, disk).file)
    case Enrolls(identity, invite, token, disk) =>
      var w := Enroll(t, s.file, identity, invite, token, disk);
      if w.result.Ok? then s.(file := w.file, redeemed := s.redeemed + [(Sha(t, invite), identity)]) else s
  }

  /** A generated invite hashes to nothing issued before. */
  ghost predicate Unused(t: Formats, s: State, a: Step) {
    a.Invites? && a.token.Some? ==> Sha(t, a.token.value) !in s.issued
  }

  const FRESH_STATE: State := State(None, map[], [])

  ghost function Run(t: Formats, steps: seq<Step>): State {
    Fold((s, a) => Apply(t, s, a), FRESH_STATE, steps)
  }

  ghost predicate EveryTokenFresh(t: Formats, steps: seq<Step>) {
    forall i :: 0 <= i < |steps| ==> Unused(t, Run(t, steps[..i]), steps[i])
  }

  function Outstanding(s: State): map<string, string> { Contents(s.file).invites }

  ghost predicate OnePerIdentity(invites: map<string, string>) {
    forall g, h :: g in invites && h in invites && invites[g] == invites[h] ==> g == h
  }

  /** Outstanding invites are issued ones, redeemed ones are issued and no longer outstanding, and
      nothing is redeemed twice. */
  ghost predicate Tracked(outstanding: map<string, string>, issued: map<string, string>,
                          redeemed: seq<(string, string)>) {
    && (forall h :: h in outstanding ==> h in issued && issued[h] == outstanding[h])
    && (forall i :: 0 <= i < |redeemed| ==>
          redeemed[i].0 in issued && issued[redeemed[i].0] == redeemed[i].1 && redeemed[i].0 !in outstanding)
    && (forall i, j :: 0 <= i < j < |redeemed| ==> redeemed[i].0 != redeemed[j].0)
  }

  ghost predicate Inv(t: Formats, s: State) {
    Usable(t, s.file) && OnePerIdentity(Outstanding(s)) && Tracked(Outstanding(s), s.issued, s.redeemed)
  }

  lemma InviteTracks(before: map<string, string>, issued: map<string, string>, redeemed: seq<(string, string)>,
                     hash: string, identity: string, after: map<string, string>)
    requires OnePerIdentity(before) && Tracked(before, issued, redeemed) && hash !in issued
    requires after == (map h | h in before && before[h] != identity :: before[h])[hash := identity]
    ensures OnePerIdentity(after) && Tracked(after, issued[hash := identity], redeemed)
  {
  }

  lemma RedeemTracks(before: map<string, string>, issued: map<string, string>, redeemed: seq<(string, string)>,
                     hash: string)
    requires OnePerIdentity(before) && Tracked(before, issued, redeemed) && hash in before
    ensures OnePerIdentity(before - {hash}) && Tracked(before - {hash}, issued, redeemed + [(hash, before[hash])])
  {
  }

  lemma InviteKeeps(t: Formats, s: State, identity: string, token: string)
    requires Inv(t, s) && IsIdentity(identity) && Sha(t, token) !in s.issued
    ensures Inv(t, State(Some(Invited(t, Contents(s.file), identity, token)),
                         s.issued[Sha(t, token) := identity], s.redeemed))
  {
    InviteMeaning(t, s.file, identity, token);
    InviteTracks(Outstanding(s), s.issued, s.redeemed, Sha(t, token), identity,
                 Invited(t, Contents(s.file), identity, token).invites);
  }

  lemma EnrollKeeps(t: Formats, s: State, identity: string, invite: string, token: string)
    requires Inv(t, s) && s.file.Some? && Redeemable(t, s.file.value, identity, invite)
    ensures Inv(t, State(Some(Enrolled(t, s.file.value, identity, invite, token)),
                         s.issued, s.redeemed + [(Sha(t, invite), identity)]))
  {
    EnrollMeaning(t, s.file.value, identity, invite, token);
    RedeemTracks(Outstanding(s), s.issued, s.redeemed, Sha(t, invite));
  }

  lemma StepKeeps(t: Formats, s: State, a: Step)
    requires Lawful(t) && Inv(t, s) && Unused(t, s, a)
    ensures Inv(t, Apply(t, s, a))
  {
    match a
    case Invites(identity, token, disk) =>
      if CreateInvite(t, s.file, identity, token, disk).result.Ok? {
        InviteKeeps(t, s, identity, token.value);
      }
    case Grants(identity, service, disk) =>
      if disk && GrantService(t, s.file, identity, service, true).result.Ok? {
        GrantRoundTrip(t, s.file, identity, service);
      }
    case Enrolls(identity, invite, token, disk) =>
      if Enroll(t, s.file, identity, invite, token, disk).result.Ok? {
        EnrollKeeps(t, s, identity, invite, token.value);
      }
  }

  /** Over every run from an absent file with fresh tokens: the file always parses, each identity has
      at most one outstanding invite, and each invite is redeemed at most once, by its own identity. */
  lemma InvitesAreSingleUse(t: Formats, steps: seq<Step>)
    requires Lawful(t) && EveryTokenFresh(t, steps)
    ensures Inv(t, Run(t, steps))
  {
    forall s, a | Inv(t, s) && Unused(t, s, a) ensures Inv(t, Apply(t, s, a)) {
      StepKeeps(t, s, a);
    }
    Invariance((s, a) => Apply(t, s, a), FRESH_STATE, steps, s => Inv(t, s), (s, a) => Unused(t, s, a));
  }

  // ----- Several processes -----

  /** A writer that has read the file and not yet written it. */
  datatype Draft = Draft(step: Step, seen: Option<File>)

  /** Nothing holds a lock across processes: reading and writing are two moves, and others come between. */
  datatype Move = Reads(process: nat, step: Step) | Writes(process: nat)

  datatype Office = Office(state: State, drafts: map<nat, Draft>)

  ghost predicate Succeeds(t: Formats, file: Option<File>, a: Step) {
    match a
    case Invites(identity, token, disk) => CreateInvite(t, file, identity, token, disk).result.Ok?
    case Grants(identity, service, disk) => GrantService(t, file, identity, service, disk).result.Ok?
    case Enrolls(identity, invite, token, disk) => Enroll(t, file, identity, invite, token, disk).result.Ok?
  }

  /** A draft replaces the file by what it made of the file it read; a failed one leaves it alone. */
  ghost function WriteBack(t: Formats, s: State, d: Draft): State {
    if Succeeds(t, d.seen, d.step) then Apply(t, s.(file := d.seen), d.step) else s
  }

  ghost function Moved(t: Formats, o: Office, m: Move): Office {
    match m
    case Reads(p, step) =>
      if p in o.drafts then o else o.(drafts := o.drafts[p := Draft(step, o.state.file)])
    case Writes(p) =>
      if p !in o.drafts then o else Office(WriteBack(t, o.state, o.drafts[p]), o.drafts - {p})
  }

  const FRESH_OFFICE: Office := Office(FRESH_STATE, map[])

  ghost function RunOf(t: Formats, moves: seq<Move>): Office {
    Fold((o, m) => Moved(t, o, m), FRESH_OFFICE, moves)
  }

  lemma RunOfSnoc(t: Formats, moves: seq<Move>, m: Move)
    ensures RunOf(t, moves + [m]) == Moved(t, RunOf(t, moves), m)
  {
    FoldSnoc((o, m) => Moved(t, o, m), FRESH_OFFICE, moves, m);
  }

  // ----- Which stale writes do harm -----

  /** The invites a draft saw outstanding and carries into what it writes; one it redeems counts. */
  function Carried(d: Draft): map<string, string> {
    var seen := Contents(d.seen).invites;
    if d.step.Invites? then map h | h in seen && seen[h] != d.step.identity :: seen[h] else seen
  }

  /** The draft carries no invite that has been redeemed by now. */
  ghost predicate Harmless(s: State, d: Draft) {
    forall i :: 0 <= i < |s.redeemed| ==> s.redeemed[i].0 !in Carried(d)
  }

  /** What a process has read: a usable file with issued invites, one for each identity. */
  ghost predicate SeenFits(t: Formats, issued: map<string, string>, seen: Option<File>) {
    var invites := Contents(seen).invites;
    Usable(t, seen) && OnePerIdentity(invites) && forall h :: h in invites ==> h in issued && issued[h] == invites[h]
  }

  /** The state with the file a draft saw, and no redemption in it yet. */
  lemma SeenIsState(t: Formats, s: State, d: Draft)
    requires SeenFits(t, s.issued, d.seen)
    ensures Inv(t, State(d.seen, s.issued, []))
  {
  }

  lemma AtomicWithoutPast(t: Formats, s: State, d: Draft)
    requires Lawful(t) && SeenFits(t, s.issued, d.seen) && Unused(t, s, d.step)
    ensures Inv(t, Apply(t, State(d.seen, s.issued, []), d.step))
  {
    SeenIsState(t, s, d);
    StepKeeps(t, State(d.seen, s.issued, []), d.step);
  }

  /** The invites after the write, and what it redeems. */
  function WrittenInvites(t: Formats, d: Draft): map<string, string> {
    match d.step
    case Invites(identity, token, _) => if token.Some? then Carried(d)[Sha(t, token.value) := identity] else Carried(d)
    case Grants(_, _, _) => Carried(d)
    case Enrolls(_, invite, _, _) => Carried(d) - {Sha(t, invite)}
  }

  function Redemption(t: Formats, a: Step): seq<(string, string)> {
    if a.Enrolls? then [(Sha(t, a.invite), a.identity)] else []
  }

  lemma WriteBackParts(t: Formats, s: State, d: Draft)
    requires Succeeds(t, d.seen, d.step)
    ensures var s', u := WriteBack(t, s, d), Apply(t, State(d.seen, s.issued, []), d.step);
            && s'.file == u.file && s'.issued == u.issued && Outstanding(s') == WrittenInvites(t, d)
            && s'.redeemed == s.redeemed + Redemption(t, d.step) && u.redeemed == Redemption(t, d.step)
    ensures d.step.Enrolls? ==> Sha(t, d.step.invite) in Carried(d)
  {
  }

  /** Past redemptions fit the new invites and the new redemption exactly when none is carried. */
  lemma PastFits(t: Formats, s: State, d: Draft, issued: map<string, string>)
    requires Inv(t, s) && Unused(t, s, d.step) && (d.step.Enrolls? ==> Sha(t, d.step.invite) in Carried(d))
    requires Tracked(WrittenInvites(t, d), issued, Redemption(t, d.step))
    requires forall h :: h in s.issued ==> h in issued && issued[h] == s.issued[h]
    ensures Tracked(WrittenInvites(t, d), issued, s.redeemed + Redemption(t, d.step)) <==> Harmless(s, d)
  {
    var after, all := WrittenInvites(t, d), s.redeemed + Redemption(t, d.step);
    if Harmless(s, d) {
      forall i | 0 <= i < |all| ensures all[i].0 in issued && issued[all[i].0] == all[i].1 && all[i].0 !in after {
        if i >= |s.redeemed| {
          assert all[i] == Redemption(t, d.step)[i - |s.redeemed|];
        }
      }
    } else {
      var i :| 0 <= i < |s.redeemed| && s.redeemed[i].0 in Carried(d);
      assert all[i] == s.redeemed[i];
      if d.step.Enrolls? && all[i].0 == Sha(t, d.step.invite) {
        assert all[|s.redeemed|].0 == all[i].0;
      } else {
        assert all[i].0 in after;
      }
    }
  }

  /** A successful write of a draft with a fresh invite keeps the invariant exactly when it is harmless. */
  lemma HarmlessExactly(t: Formats, s: State, d: Draft)
    requires Lawful(t) && Inv(t, s) && SeenFits(t, s.issued, d.seen)
    requires Succeeds(t, d.seen, d.step) && Unused(t, s, d.step)
    ensures Inv(t, WriteBack(t, s, d)) <==> Harmless(s, d)
  {
    AtomicWithoutPast(t, s, d);
    WriteBackParts(t, s, d);
    PastFits(t, s, d, WriteBack(t, s, d).issued);
  }

  // ----- Every interleaving -----

  ghost predicate OfficeInv(t: Formats, o: Office) {
    Inv(t, o.state) && forall p :: p in o.drafts ==> SeenFits(t, o.state.issued, o.drafts[p].seen)
  }

  /** Generated invites are fresh when they are written. */
  ghost predicate Fresh(t: Formats, o: Office, m: Move) {
    m.Writes? && m.process in o.drafts ==> Unused(t, o.state, o.drafts[m.process].step)
  }

  /** A write does no harm: it fails, or its draft carries nothing redeemed. */
  ghost predicate Safe(t: Formats, o: Office, m: Move) {
    m.Writes? && m.process in o.drafts && Succeeds(t, o.drafts[m.process].seen, o.drafts[m.process].step) ==>
      Harmless(o.state, o.drafts[m.process])
  }

  lemma IssuedGrows(t: Formats, s: State, d: Draft)
    requires Unused(t, s, d.step)
    ensures forall h :: h in s.issued ==> h in WriteBack(t, s, d).issued && WriteBack(t, s, d).issued[h] == s.issued[h]
  {
  }

  lemma SeenStillFits(t: Formats, issued: map<string, string>, later: map<string, string>, seen: Option<File>)
    requires SeenFits(t, issued, seen) && forall h :: h in issued ==> h in later && later[h] == issued[h]
    ensures SeenFits(t, later, seen)
  {
  }

  lemma WriteExactly(t: Formats, o: Office, p: nat)
    requires Lawful(t) && OfficeInv(t, o) && Fresh(t, o, Writes(p)) && p in o.drafts
    ensures Inv(t, Moved(t, o, Writes(p)).state) <==> Safe(t, o, Writes(p))
    ensures Safe(t, o, Writes(p)) ==> OfficeInv(t, Moved(t, o, Writes(p)))
  {
    var d := o.drafts[p];
    if Succeeds(t, d.seen, d.step) {
      HarmlessExactly(t, o.state, d);
    }
    IssuedGrows(t, o.state, d);
    var o' := Moved(t, o, Writes(p));
    forall q | q in o'.drafts ensures SeenFits(t, o'.state.issued, o'.drafts[q].seen) {
      SeenStillFits(t, o.state.issued, o'.state.issued, o.drafts[q].seen);
    }
  }

  /** One move keeps single use exactly when it is safe. */
  lemma MoveExactly(t: Formats, o: Office, m: Move)
    requires Lawful(t) && OfficeInv(t, o) && Fresh(t, o, m)
    ensures Inv(t, Moved(t, o, m).state) <==> Safe(t, o, m)
    ensures Safe(t, o, m) ==> OfficeInv(t, Moved(t, o, m))
  {
    if m.Writes? && m.process in o.drafts {
      WriteExactly(t, o, m.process);
    }
  }

  ghost predicate AllFresh(t: Formats, moves: seq<Move>) {
    forall n :: 0 <= n < |moves| ==> Fresh(t, RunOf(t, moves[..n]), moves[n])
  }

  ghost predicate AllSafe(t: Formats, moves: seq<Move>) {
    forall n :: 0 <= n < |moves| ==> Safe(t, RunOf(t, moves[..n]), moves[n])
  }

  ghost predicate AlwaysSingleUse(t: Formats, moves: seq<Move>) {
    forall n :: 0 <= n <= |moves| ==> Inv(t, RunOf(t, moves[..n]).state)
  }

  /** In every interleaving of processes with fresh tokens, the file always parses and invites stay
      single-use exactly when no write carries an invite that was redeemed since it was read. */
  lemma SingleUseExactly(t: Formats, moves: seq<Move>)
    requires Lawful(t) && AllFresh(t, moves)
    ensures AlwaysSingleUse(t, moves) <==> AllSafe(t, moves)
  {
    forall o, m | OfficeInv(t, o) && Fresh(t, o, m)
      ensures (Inv(t, Moved(t, o, m).state) <==> Safe(t, o, m)) && (Safe(t, o, m) ==> OfficeInv(t, Moved(t, o, m)))
    {
      MoveExactly(t, o, m);
    }
    var step := (o, m) => Moved(t, o, m);
    assert forall n :: 0 <= n <= |moves| ==> At(step, FRESH_OFFICE, moves, n) == RunOf(t, moves[..n]);
    Exactness(step, FRESH_OFFICE, moves, o => OfficeInv(t, o), (o: Office) => Inv(t, o.state),
              (o, m) => Fresh(t, o, m), (o, m) => Safe(t, o, m));
  }

  /** A write finds the file its process read. */
  ghost predicate Current(o: Office, m: Move) {
    m.Writes? && m.process in o.drafts ==> o.drafts[m.process].seen == o.state.file
  }

  lemma CurrentIsSafe(t: Formats, o: Office, m: Move)
    requires Inv(t, o.state) && Current(o, m)
    ensures Safe(t, o, m)
  {
  }

  /** In particular one writer at a time is enough: then every write finds the file it read. */
  lemma OneWriterIsEnough(t: Formats, moves: seq<Move>)
    requires Lawful(t) && AllFresh(t, moves)
    requires forall n :: 0 <= n < |moves| ==> Current(RunOf(t, moves[..n]), moves[n])
    ensures Inv(t, RunOf(t, moves).state)
  {
    forall o, m | OfficeInv(t, o) && Fresh(t, o, m) && Current(o, m) ensures OfficeInv(t, Moved(t, o, m)) {
      CurrentIsSafe(t, o, m);
      MoveExactly(t, o, m);
    }
    Invariance((o, m) => Moved(t, o, m), FRESH_OFFICE, moves, o => OfficeInv(t, o),
               (o, m) => Fresh(t, o, m) && Current(o, m));
  }

  // ----- Runs that redeem an invite twice -----

  ghost predicate Ready(t: Formats, o: Office, p: nat, q: nat, identity: string, invite: string) {
    && p != q && p !in o.drafts && q !in o.drafts
    && o.state.file.Some? && Parses(t, o.state.file.value) && Redeemable(t, o.state.file.value, identity, invite)
  }

  /** Two processes that both read before either writes both redeem the invite. */
  lemma OverlapRedeemsTwice(t: Formats, o: Office, p: nat, q: nat, identity: string, invite: string, x: string,
                            y: string)
    requires Ready(t, o, p, q, identity, invite)
    ensures var o1 := Moved(t, o, Reads(p, Enrolls(identity, invite, Some(x), true)));
            var o2 := Moved(t, o1, Reads(q, Enrolls(identity, invite, Some(y), true)));
            var o4 := Moved(t, Moved(t, o2, Writes(p)), Writes(q));
            o4.state.redeemed == o.state.redeemed + [(Sha(t, invite), identity), (Sha(t, invite), identity)]
  {
    var o1 := Moved(t, o, Reads(p, Enrolls(identity, invite, Some(x), true)));
    var o2 := Moved(t, o1, Reads(q, Enrolls(identity, invite, Some(y), true)));
    assert o2.drafts[p].seen == o.state.file == o2.drafts[q].seen;
    assert Moved(t, o2, Writes(p)).drafts[q] == o2.drafts[q];
  }

  /** A grant written over an enrolment it did not see brings the redeemed invite back. */
  lemma StaleGrantRevivesInvite(t: Formats, o: Office, p: nat, q: nat, identity: string, invite: string, x: string,
                                other: string, service: Service)
    requires Lawful(t) && Ready(t, o, p, q, identity, invite)
    requires Succeeds(t, o.state.file, Grants(other, service, true))
    ensures var o1 := Moved(t, o, Reads(p, Enrolls(identity, invite, Some(x), true)));
            var o2 := Moved(t, o1, Reads(q, Grants(other, service, true)));
            var o4 := Moved(t, Moved(t, o2, Writes(p)), Writes(q));
            && o4.state.redeemed == o.state.redeemed + [(Sha(t, invite), identity)]
            && Ready(t, o4, p, q, identity, invite)
  {
    var o1 := Moved(t, o, Reads(p, Enrolls(identity, invite, Some(x), true)));
    var o2 := Moved(t, o1, Reads(q, Grants(other, service, true)));
    assert o2.drafts[p].seen == o.state.file == o2.drafts[q].seen;
    assert Moved(t, o2, Writes(p)).drafts[q] == o2.drafts[q];
    GrantRoundTrip(t, o.state.file, other, service);
  }

  /** Inviting somebody on a fresh file makes the office ready. */
  lemma InvitedIsReady(t: Formats, p: nat, q: nat, identity: string, invite: string)
    requires p != q && IsIdentity(identity)
    ensures var o := RunOf(t, [Reads(p, Invites(identity, Some(invite), true)), Writes(p)]);
            Ready(t, o, p, q, identity, invite) && o.state.redeemed == []
  {
    var a := Invites(identity, Some(invite), true);
    RunOfSnoc(t, [], Reads(p, a));
    assert [] + [Reads(p, a)] == [Reads(p, a)];
    RunOfSnoc(t, [Reads(p, a)], Writes(p));
    assert [Reads(p, a)] + [Writes(p)] == [Reads(p, a), Writes(p)];
    InviteMeaning(t, None, identity, invite);
  }

  /** The whole run, from a fresh file: invite, and two overlapping enrolments that both succeed. */
  lemma OverlapRun(t: Formats, p: nat, q: nat, identity: string, invite: string, x: string, y: string)
    requires p != q && IsIdentity(identity)
    ensures var moves := [Reads(p, Invites(identity, Some(invite), true)), Writes(p)] +
                         [Reads(p, Enrolls(identity, invite, Some(x), true))] +
                         [Reads(q, Enrolls(identity, invite, Some(y), true))] + [Writes(p)] + [Writes(q)];
            RunOf(t, moves).state.redeemed == [(Sha(t, invite), identity), (Sha(t, invite), identity)]
  {
    InvitedIsReady(t, p, q, identity, invite);
    var m0 := [Reads(p, Invites(identity, Some(invite), true)), Writes(p)];
    var m1 := m0 + [Reads(p, Enrolls(identity, invite, Some(x), true))];
    var m2 := m1 + [Reads(q, Enrolls(identity, invite, Some(y), true))];
    RunOfSnoc(t, m0, Reads(p, Enrolls(identity, invite, Some(x), true)));
    RunOfSnoc(t, m1, Reads(q, Enrolls(identity, invite, Some(y), true)));
    RunOfSnoc(t, m2, Writes(p));
    RunOfSnoc(t, m2 + [Writes(p)], Writes(q));
    OverlapRedeemsTwice(t, RunOf(t, m0), p, q, identity, invite, x, y);
  }

  lemma EnrollsOnce(t: Formats, o: Office, p: nat, q: nat, identity: string, invite: string, x: string)
    requires Ready(t, o, p, q, identity, invite)
    ensures var o2 := Moved(t, Moved(t, o, Reads(p, Enrolls(identity, invite, Some(x), true))), Writes(p));
            o2.state.redeemed == o.state.redeemed + [(Sha(t, invite), identity)]
  {
  }

  /** The whole run, from a fresh file: invite, an enrolment, a grant that read before and wrote after it,
      and a second enrolment with the same invite. The two enrolments do not overlap. */
  lemma RevivalRun(t: Formats, p: nat, q: nat, identity: string, invite: string, x: string, y: string,
                   other: string, service: Service)
    requires Lawful(t) && p != q && IsIdentity(identity) && IsIdentity(other) && NormalService(t, service).Ok?
    ensures var moves := [Reads(p, Invites(identity, Some(invite), true)), Writes(p)] +
                         [Reads(p, Enrolls(identity, invite, Some(x), true))] +
                         [Reads(q, Grants(other, service, true))] + [Writes(p)] + [Writes(q)] +
                         [Reads(p, Enrolls(identity, invite, Some(y), true))] + [Writes(p)];
            RunOf(t, moves).state.redeemed == [(Sha(t, invite), identity), (Sha(t, invite), identity)]
  {
    InvitedIsReady(t, p, q, identity, invite);
    var m0 := [Reads(p, Invites(identity, Some(invite), true)), Writes(p)];
    var m1 := m0 + [Reads(p, Enrolls(identity, invite, Some(x), true))];
    var m2 := m1 + [Reads(q, Grants(other, service, true))];
    var m4 := m2 + [Writes(p)] + [Writes(q)];
    var m5 := m4 + [Reads(p, Enrolls(identity, invite, Some(y), true))];
    RunOfSnoc(t, m0, Reads(p, Enrolls(identity, invite, Some(x), true)));
    RunOfSnoc(t, m1, Reads(q, Grants(other, service, true)));
    RunOfSnoc(t, m2, Writes(p));
    RunOfSnoc(t, m2 + [Writes(p)], Writes(q));
    StaleGrantRevivesInvite(t, RunOf(t, m0), p, q, identity, invite, x, other, service);
    RunOfSnoc(t, m4, Reads(p, Enrolls(identity, invite, Some(y), true)));
    RunOfSnoc(t, m5, Writes(p));
    EnrollsOnce(t, RunOf(t, m4), p, q, identity, invite, y);
  }
}
