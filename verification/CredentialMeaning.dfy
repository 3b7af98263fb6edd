/** What grants, records and credential files mean, told without the functions that compute it. */
module CredentialMeaning {
  import opened Prelude
  import opened Policy
  import opened Text
  import opened Credentials

  // ----- What normalising does -----

  /** What a grant must say to be accepted. */
  predicate Grantable(t: Formats, s: Service) {
    && IsServiceName(s.name) && t.portOf(s.target).Some? && s.localPort <= 65535
    && (s.workload.Some? ==>
          var w := s.workload.value;
          w.kind != "" && w.name != "" && w.replicas >= 0 && w.readyTimeout >= 0 && w.idleTimeout >= 0)
  }

  /** The service as given, with zeros filled in: the target's own port, one replica, two minutes to get
      ready. A zero idle timeout stays zero. */
  predicate Normalised(t: Formats, s: Service, n: Service) {
    && n.name == s.name && n.target == s.target
    && (if s.localPort != 0 then n.localPort == s.localPort else t.portOf(s.target) == Some(n.localPort))
    && n.workload.Some? == s.workload.Some?
    && (s.workload.Some? ==>
          var w, m := s.workload.value, n.workload.value;
          && m.kind == w.kind && m.namespace == w.namespace && m.name == w.name && m.idleTimeout == w.idleTimeout
          && m.replicas == (if w.replicas == 0 then 1 else w.replicas)
          && m.readyTimeout == (if w.readyTimeout == 0 then 120 * SECOND else w.readyTimeout))
  }

  lemma NormalMeans(t: Formats, s: Service)
    requires Lawful(t)
    ensures NormalService(t, s).Ok? <==> Grantable(t, s)
    ensures NormalService(t, s).Ok? ==> Normalised(t, s, NormalService(t, s).value)
    ensures NormalService(t, s).Err? ==> NormalService(t, s) == Err(Invalid)
  {
  }

  /** A grant succeeds exactly when the identity and the service are in order, the file parses or is
      absent, and the disk plays along; it answers the normalised service and otherwise changes nothing. */
  lemma GrantExactly(t: Formats, file: Option<File>, identity: string, s: Service, disk: bool)
    requires Lawful(t)
    ensures var w := GrantService(t, file, identity, s, disk);
            var fine := IsIdentity(identity) && Grantable(t, s) && (file.Some? ==> Parses(t, file.value));
            && (w.result.Ok? <==> fine && disk) && (w.result == Err(Invalid) <==> !fine)
            && (w.result.Ok? ==> Normalised(t, s, w.result.value)) && (w.result.Err? ==> w.file == file)
  {
    NormalMeans(t, s);
  }

  // ----- What a file says -----

  /** 32 bytes in hexadecimal of either case. */
  predicate IsHashText(s: string) {
    |s| == 64 && forall i :: 0 <= i < 64 ==> IsDigit(s[i]) || 'a' <= s[i] <= 'f' || 'A' <= s[i] <= 'F'
  }

  /** A timeout, or what a blank one means. */
  predicate SaysTimeout(t: Formats, text: string, blank: int, value: int) {
    if text == "" then value == blank else t.parseDuration(text) == Some(value)
  }

  predicate SaysReady(t: Formats, text: string, value: int) { SaysTimeout(t, text, 120 * SECOND, value) }
  predicate SaysIdle(t: Formats, text: string, value: int) { SaysTimeout(t, text, 600 * SECOND, value) }

  /** The service a record describes before it is normalised: a blank ready timeout is two minutes, a
      blank idle timeout ten. */
  predicate Describes(t: Formats, name: string, r: ServiceRecord, s: Service) {
    && s.name == name && s.target == r.target && s.localPort == r.localPort
    && s.workload.Some? == r.workload.Some?
    && (r.workload.Some? ==>
          var w, m := r.workload.value, s.workload.value;
          && m.kind == w.kind && m.namespace == w.namespace && m.name == w.name && m.replicas == w.replicas
          && SaysReady(t, w.readyTimeout, m.readyTimeout) && SaysIdle(t, w.idleTimeout, m.idleTimeout))
  }

  lemma WorkloadMeans(t: Formats, r: WorkloadRecord)
    ensures WorkloadOf(t, r).Ok? <==>
            (exists a :: SaysReady(t, r.readyTimeout, a)) && (exists b :: SaysIdle(t, r.idleTimeout, b))
    ensures WorkloadOf(t, r).Ok? ==>
              var w := WorkloadOf(t, r).value;
              && w.kind == r.kind && w.namespace == r.namespace && w.name == r.name && w.replicas == r.replicas
              && SaysReady(t, r.readyTimeout, w.readyTimeout) && SaysIdle(t, r.idleTimeout, w.idleTimeout)
  {
    if WorkloadOf(t, r).Ok? {
      var w := WorkloadOf(t, r).value;
      assert SaysReady(t, r.readyTimeout, w.readyTimeout) && SaysIdle(t, r.idleTimeout, w.idleTimeout);
    } else {
      assert forall a, b :: !(SaysReady(t, r.readyTimeout, a) && SaysIdle(t, r.idleTimeout, b));
    }
  }

  /** A record is loaded exactly when what it describes can be granted, and as that normalised. */
  lemma RecordMeans(t: Formats, name: string, r: ServiceRecord)
    requires Lawful(t)
    ensures ServiceOf(t, name, r).Ok? <==> exists s :: Describes(t, name, r, s) && Grantable(t, s)
    ensures ServiceOf(t, name, r).Ok? ==>
              exists s :: Describes(t, name, r, s) && Normalised(t, s, ServiceOf(t, name, r).value)
  {
    if r.workload.Some? {
      WorkloadMeans(t, r.workload.value);
    }
    if r.workload.None? || WorkloadOf(t, r.workload.value).Ok? {
      var s := Service(name, r.target, r.localPort,
                       if r.workload.None? then None else Some(WorkloadOf(t, r.workload.value).value));
      assert Describes(t, name, r, s);
      NormalMeans(t, s);
    }
    forall s | Describes(t, name, r, s)
      ensures s.workload.Some? ==> WorkloadOf(t, r.workload.value) == Ok(s.workload.value)
    {
      DescribedWorkload(t, name, r, s);
      NormalMeans(t, s);
    }
  }

  lemma DescribedWorkload(t: Formats, name: string, r: ServiceRecord, s: Service)
    requires Describes(t, name, r, s)
    ensures s.workload.Some? ==> WorkloadOf(t, r.workload.value) == Ok(s.workload.value)
  {
  }

  /** A user record is accepted with a stored hash or a legacy token of sixteen characters. */
  lemma UserMeans(t: Formats, identity: string, r: UserRecord)
    ensures UserOk(t, identity, r) <==>
            IsIdentity(identity) && if r.tokenHash != "" then IsHashText(r.tokenHash) else |r.token| >= 16
  {
  }

  /** A loaded user presents a legacy token itself, or a token with the stored hash in either case. */
  lemma LoadedUserAuthenticates(t: Formats, f: File, identity: string, token: string)
    requires Parses(t, f) && identity in f.users
    ensures var r := f.users[identity];
            Authenticates(t, MeaningOf(t, f), identity, token) <==>
            if r.tokenHash == "" then Sha(t, token) == Sha(t, r.token) else Sha(t, token) == LowerHash(r.tokenHash)
  {
    assert UserOk(t, identity, f.users[identity]);
    var r := f.users[identity];
    if r.tokenHash != "" {
      assert HashOf(t, r).value == LowerHash(r.tokenHash);
    }
  }

  function LowerHash(s: string): string { seq(|s|, i requires 0 <= i < |s| => AsciiLower(s[i])) }

  /** The token belongs to the identity. */
  predicate Authenticates(t: Formats, m: Meaning, identity: string, token: string) {
    identity in m.users && m.users[identity] == Sha(t, token)
  }

  /** A file parses exactly when it says something, its identities are valid, its users have hashes or
      legacy tokens, its invites are hashes, and its services can be granted. */
  lemma ParsesMeans(t: Formats, f: File)
    requires Lawful(t)
    ensures Parses(t, f) <==>
            && (exists k :: k in f.users || k in f.invites || k in f.access)
            && (forall i :: i in f.users ==>
                  IsIdentity(i) &&
                  if f.users[i].tokenHash != "" then IsHashText(f.users[i].tokenHash) else |f.users[i].token| >= 16)
            && (forall h :: h in f.invites ==> IsHashText(h) && IsIdentity(f.invites[h]))
            && (forall i :: i in f.access ==> IsIdentity(i))
            && (forall i, n :: i in f.access && n in f.access[i] ==>
                  exists s :: Describes(t, n, f.access[i][n], s) && Grantable(t, s))
  {
    NonEmptyMeans(f);
    forall i | i in f.users
      ensures UserOk(t, i, f.users[i]) <==>
              IsIdentity(i) &&
              if f.users[i].tokenHash != "" then IsHashText(f.users[i].tokenHash) else |f.users[i].token| >= 16
    {
      UserMeans(t, i, f.users[i]);
    }
    forall h | h in f.invites ensures InviteOk(h, f.invites[h]) <==> IsHashText(h) && IsIdentity(f.invites[h]) {
    }
    forall i | i in f.access
      ensures AccessOk(t, i, f.access[i]) <==>
              IsIdentity(i) &&
              forall n :: n in f.access[i] ==> exists s :: Describes(t, n, f.access[i][n], s) && Grantable(t, s)
    {
      forall n | n in f.access[i]
        ensures ServiceOf(t, n, f.access[i][n]).Ok? <==>
                exists s :: Describes(t, n, f.access[i][n], s) && Grantable(t, s)
      {
        RecordMeans(t, n, f.access[i][n]);
      }
    }
  }

  lemma NonEmptyMeans(f: File)
    ensures (f.users != map[] || f.invites != map[] || f.access != map[]) <==>
            exists k :: k in f.users || k in f.invites || k in f.access
  {
    if f.users != map[] {
      var k :| k in f.users;
    } else if f.invites != map[] {
      var k :| k in f.invites;
    } else if f.access != map[] {
      var k :| k in f.access;
    }
  }
}
