/** The credential and grant file: one parser, three writers. */
module Credentials {
  import opened Prelude
  import opened Policy
  import opened Text

  // ----- The file -----

  datatype UserRecord = UserRecord(token: string, tokenHash: string)

  datatype WorkloadRecord = WorkloadRecord(
    kind: string, namespace: string, name: string, replicas: int, readyTimeout: string, idleTimeout: string)

  datatype ServiceRecord = ServiceRecord(target: string, localPort: nat, workload: Option<WorkloadRecord>)

  /** invites maps the hash of an invite to its identity. */
  datatype File = File(
    users: map<string, UserRecord>, invites: map<string, string>, access: map<string, map<string, ServiceRecord>>)

  const EMPTY: File := File(map[], map[], map[])

  /** What a file means; token hashes are in lower-case hexadecimal. */
  datatype Meaning = Meaning(
    users: map<string, string>, invites: map<string, string>, services: map<string, map<string, Service>>)

  const NOTHING: Meaning := Meaning(map[], map[], map[])

  /** Durations parse and print, and a target has a host and a port or is refused. */
  datatype Formats = Formats(
    p: Platform, parseDuration: string -> Option<int>, printDuration: int -> string, portOf: string -> Option<nat>)

  /** Printing a duration is undone by parsing it, and ports are 16-bit and not zero. */
  ghost predicate Lawful(t: Formats) {
    && (forall d :: t.parseDuration(t.printDuration(d)) == Some(d) && t.printDuration(d) != "")
    && (forall s :: t.portOf(s).Some? ==> 0 < t.portOf(s).value <= 65535)
  }

  function Sha(t: Formats, token: string): string { t.p.sha(token) }

  // ----- Services -----

  function NormalWorkload(w: Workload): Result<Workload> {
    if w.kind == "" || w.name == "" || w.replicas < 0 then Err(Invalid)
    else
      var n := w.(replicas := if w.replicas == 0 then 1 else w.replicas,
                  readyTimeout := if w.readyTimeout == 0 then 2 * MINUTE else w.readyTimeout);
      if n.readyTimeout < 0 || n.idleTimeout < 0 then Err(Invalid) else Ok(n)
  }

  function NormalService(t: Formats, s: Service): Result<Service> {
    if !IsServiceName(s.name) || t.portOf(s.target).None? then Err(Invalid)
    else
      var port := if s.localPort == 0 then t.portOf(s.target).value else s.localPort;
      if port > 65535 then Err(Invalid)
      else if s.workload.None? then Ok(s.(localPort := port))
      else
        var w := NormalWorkload(s.workload.value);
        if w.Err? then Err(Invalid) else Ok(s.(localPort := port, workload := Some(w.value)))
  }

  function DurationOr(t: Formats, text: string, fallback: int): Option<int> {
    if text == "" then Some(fallback) else t.parseDuration(text)
  }

  function WorkloadOf(t: Formats, r: WorkloadRecord): Result<Workload> {
    var ready, idle := DurationOr(t, r.readyTimeout, 2 * MINUTE), DurationOr(t, r.idleTimeout, 10 * MINUTE);
    if ready.None? || idle.None? then Err(Invalid)
    else Ok(Workload(r.kind, r.namespace, r.name, r.replicas, ready.value, idle.value))
  }

  function ServiceOf(t: Formats, name: string, r: ServiceRecord): Result<Service> {
    if r.workload.None? then NormalService(t, Service(name, r.target, r.localPort, None))
    else
      var w := WorkloadOf(t, r.workload.value);
      if w.Err? then Err(Invalid) else NormalService(t, Service(name, r.target, r.localPort, Some(w.value)))
  }

  function RecordOf(t: Formats, s: Service): ServiceRecord {
    ServiceRecord(
      s.target, s.localPort,
      if s.workload.None? then None
      else
        var w := s.workload.value;
        Some(WorkloadRecord(w.kind, w.namespace, w.name, w.replicas,
                            t.printDuration(w.readyTimeout), t.printDuration(w.idleTimeout))))
  }

  // ----- Parsing -----

  predicate IsAnyHex(c: char) { IsHex(c) || 'A' <= c <= 'F' }

  /** 32 bytes in hexadecimal of either case. */
  function DecodeHash(s: string): Option<string> {
    if |s| == 64 && (forall i :: 0 <= i < 64 ==> IsAnyHex(s[i]))
    then Some(seq(64, i requires 0 <= i < 64 => AsciiLower(s[i])))
    else None
  }

  /** A stored hash, or the hash of a legacy token of sixteen characters or more. */
  function HashOf(t: Formats, r: UserRecord): Option<string> {
    if r.tokenHash != "" then DecodeHash(r.tokenHash)
    else if |r.token| >= 16 then Some(Sha(t, r.token))
    else None
  }

  predicate UserOk(t: Formats, identity: string, r: UserRecord) { IsIdentity(identity) && HashOf(t, r).Some? }

  predicate InviteOk(hash: string, identity: string) { DecodeHash(hash).Some? && IsIdentity(identity) }

  ghost predicate RecordsOk(t: Formats, rs: map<string, ServiceRecord>) {
    forall n :: n in rs ==> ServiceOf(t, n, rs[n]).Ok?
  }

  ghost predicate AccessOk(t: Formats, identity: string, rs: map<string, ServiceRecord>) {
    IsIdentity(identity) && RecordsOk(t, rs)
  }

  ghost predicate Parses(t: Formats, f: File) {
    && (f.users != map[] || f.invites != map[] || f.access != map[])
    && (forall i :: i in f.users ==> UserOk(t, i, f.users[i]))
    && (forall h :: h in f.invites ==> InviteOk(h, f.invites[h]))
    && (forall i :: i in f.access ==> AccessOk(t, i, f.access[i]))
  }

  function UserHashes(t: Formats, us: map<string, UserRecord>): map<string, string> {
    map i | i in us && HashOf(t, us[i]).Some? :: HashOf(t, us[i]).value
  }

  function Services(t: Formats, rs: map<string, ServiceRecord>): map<string, Service> {
    map n | n in rs && ServiceOf(t, n, rs[n]).Ok? :: ServiceOf(t, n, rs[n]).value
  }

  function MeaningOf(t: Formats, f: File): Meaning {
    Meaning(UserHashes(t, f.users), f.invites, map i | i in f.access :: Services(t, f.access[i]))
  }

  ghost function Parse(t: Formats, f: File): Option<Meaning> {
    if Parses(t, f) then Some(MeaningOf(t, f)) else None
  }

  // ----- Writing -----

  function Hashed(users: map<string, string>): map<string, UserRecord> {
    map i | i in users :: UserRecord("", users[i])
  }

  function Invited(t: Formats, f: File, identity: string, token: string): File {
    f.(users := Hashed(UserHashes(t, f.users)),
       invites := (map h | h in f.invites && f.invites[h] != identity :: f.invites[h])[Sha(t, token) := identity])
  }

  function Granted(t: Formats, f: File, identity: string, s: Service): File {
    f.(users := Hashed(UserHashes(t, f.users)),
       access := f.access[identity := AccessOf(f, identity)[s.name := RecordOf(t, s)]])
  }

  function AccessOf(f: File, identity: string): map<string, ServiceRecord> {
    if identity in f.access then f.access[identity] else map[]
  }

  function Enrolled(t: Formats, f: File, identity: string, invite: string, token: string): File {
    f.(users := Hashed(UserHashes(t, f.users))[identity := UserRecord("", Sha(t, token))],
       invites := f.invites - {Sha(t, invite)})
  }

  /** What the three writers do to the file that may or may not be there; disk says whether it can be
      read and replaced. */
  datatype Written<T> = Written(file: Option<File>, result: Result<T>)

  function Contents(file: Option<File>): File { if file.Some? then file.value else EMPTY }

  ghost predicate Usable(t: Formats, file: Option<File>) { file.Some? ==> Parses(t, file.value) }

  ghost function CreateInvite(t: Formats, file: Option<File>, identity: string, token: Option<string>, disk: bool)
    : Written<string>
  {
    if !IsIdentity(identity) || !Usable(t, file) then Written(file, Err(Invalid))
    else if token.None? || !disk then Written(file, Err(Unavailable))
    else Written(Some(Invited(t, Contents(file), identity, token.value)), Ok(token.value))
  }

  ghost function GrantService(t: Formats, file: Option<File>, identity: string, s: Service, disk: bool)
    : Written<Service>
  {
    var normal := NormalService(t, s);
    if !IsIdentity(identity) || normal.Err? || !Usable(t, file) then Written(file, Err(Invalid))
    else if !disk then Written(file, Err(Unavailable))
    else Written(Some(Granted(t, Contents(file), identity, normal.value)), Ok(normal.value))
  }

  /** The invite is outstanding and made out to this identity. */
  predicate Redeemable(t: Formats, f: File, identity: string, invite: string) {
    Sha(t, invite) in f.invites && f.invites[Sha(t, invite)] == identity
  }

  ghost function Enroll(t: Formats, file: Option<File>, identity: string, invite: string, token: Option<string>,
                        disk: bool): Written<string>
  {
    if file.None? || !Parses(t, file.value) then Written(file, Err(Invalid))
    else if !Redeemable(t, file.value, identity, invite) then Written(file, Err(Forbidden))
    else if token.None? || !disk then Written(file, Err(Unavailable))
    else Written(Some(Enrolled(t, file.value, identity, invite, token.value)), Ok(token.value))
  }
}
