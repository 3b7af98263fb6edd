/** Concurrent key registration in one Kubernetes Secret, with conflict retry. */
module AuthorizedKeys {
  import opened Prelude
  import opened Text
  import opened Runs

  // ----- The document -----

  type Document = map<string, seq<string>>

  /** A value of the Secret: blank, a JSON document of public keys, or something else. */
  datatype Contents = Blank | Json(document: Document) | Garbage

  /** Parsing a line gives the wire form of its one key; printing a key is undone by parsing. */
  datatype Codec = Codec(parse: string -> Option<string>, show: string -> string)

  ghost predicate Lawful(c: Codec) { forall k :: c.parse(c.show(k)) == Some(k) }

  datatype Verdict = Present | Absent | Broken

  /** Walks the lines up to the key, and stops at the first line that does not parse. */
  function Look(c: Codec, lines: seq<string>, key: string): Verdict {
    if lines == [] then Absent
    else if c.parse(lines[0]).None? then Broken
    else if c.parse(lines[0]).value == key then Present
    else Look(c, lines[1..], key)
  }

  function LinesOf(d: Document, identity: string): seq<string> {
    if identity in d then d[identity] else []
  }

  function DocumentOf(contents: Option<Contents>): Document {
    if contents.Some? && contents.value.Json? then contents.value.document else map[]
  }

  function Upsert(c: Codec, contents: Option<Contents>, identity: string, key: string): Result<Document> {
    var d := DocumentOf(contents);
    if !IsIdentity(identity) || (contents.Some? && contents.value.Garbage?) then Err(Invalid)
    else match Look(c, LinesOf(d, identity), key)
         case Broken => Err(Invalid)
         case Present => Ok(d)
         case Absent => Ok(d[identity := LinesOf(d, identity) + [c.show(key)]])
  }

  /** The loop of UpsertPublicKey. */
  method UpsertPublicKey(c: Codec, contents: Option<Contents>, identity: string, key: Option<string>)
    returns (r: Result<Document>)
    ensures r == if key.None? then Err(Invalid) else Upsert(c, contents, identity, key.value)
  {
    if !IsIdentity(identity) || key.None? || (contents.Some? && contents.value.Garbage?) {
      return Err(Invalid);
    }
    var d := DocumentOf(contents);
    var lines := LinesOf(d, identity);
    for n := 0 to |lines|
      invariant Look(c, lines, key.value) == Look(c, lines[n..], key.value)
    {
      assert lines[n..][1..] == lines[n + 1..];
      var candidate := c.parse(lines[n]);
      if candidate.None? {
        return Err(Invalid);
      }
      if candidate.value == key.value {
        return Ok(d);
      }
    }
    return Ok(d[identity := lines + [c.show(key.value)]]);
  }

  ghost predicate HasKey(c: Codec, d: Document, identity: string, key: string) {
    exists i :: 0 <= i < |LinesOf(d, identity)| && c.parse(LinesOf(d, identity)[i]) == Some(key)
  }

  /** No identity lists one key twice. */
  ghost predicate NoDuplicates(c: Codec, d: Document) {
    forall identity :: identity in d ==> NoRepeats(c, d[identity])
  }

  ghost predicate NoRepeats(c: Codec, lines: seq<string>) {
    forall i, j :: 0 <= i < j < |lines| && c.parse(lines[i]).Some? ==> c.parse(lines[i]) != c.parse(lines[j])
  }

  /** Every line stays where it was; new ones come after. */
  ghost predicate Grows(d: Document, e: Document) {
    forall identity :: identity in d ==> identity in e && d[identity] <= e[identity]
  }

  lemma {:induction false} LookMeans(c: Codec, lines: seq<string>, key: string)
    ensures Look(c, lines, key).Present? ==> exists i :: 0 <= i < |lines| && c.parse(lines[i]) == Some(key)
    ensures Look(c, lines, key).Absent? ==>
              forall i :: 0 <= i < |lines| ==> c.parse(lines[i]).Some? && c.parse(lines[i]) != Some(key)
  {
    if lines != [] {
      LookMeans(c, lines[1..], key);
      if c.parse(lines[0]).Some? && c.parse(lines[0]).value != key && Look(c, lines[1..], key).Present? {
        var i :| 0 <= i < |lines[1..]| && c.parse(lines[1..][i]) == Some(key);
        assert lines[i + 1] == lines[1..][i];
      }
    }
  }

  /** Every line before the first one with the key parses. */
  ghost predicate Readable(c: Codec, lines: seq<string>, key: string) {
    forall j :: 0 <= j < |lines| && c.parse(lines[j]).None? ==> exists i :: 0 <= i < j && c.parse(lines[i]) == Some(key)
  }

  lemma {:induction false} LookExactly(c: Codec, lines: seq<string>, key: string)
    ensures Look(c, lines, key).Broken? <==> !Readable(c, lines, key)
  {
    if lines != [] {
      var rest := lines[1..];
      LookExactly(c, rest, key);
      forall j | 0 <= j < |rest| ensures rest[j] == lines[j + 1] {
      }
      if c.parse(lines[0]).Some? && c.parse(lines[0]).value != key {
        if Readable(c, rest, key) {
          forall j | 0 <= j < |lines| && c.parse(lines[j]).None?
            ensures exists i :: 0 <= i < j && c.parse(lines[i]) == Some(key)
          {
            var i :| 0 <= i < j - 1 && c.parse(rest[i]) == Some(key);
            assert c.parse(lines[i + 1]) == Some(key);
          }
        } else {
          var j :| 0 <= j < |rest| && c.parse(rest[j]).None? &&
            forall i :: 0 <= i < j ==> c.parse(rest[i]) != Some(key);
          assert c.parse(lines[j + 1]).None?;
          forall i | 0 <= i < j + 1 ensures c.parse(lines[i]) != Some(key) {
            assert i > 0 ==> rest[i - 1] == lines[i];
          }
        }
      }
    }
  }

  /** The document with at most one line more, for this identity and this key, and only if it was missing. */
  ghost predicate Adds(c: Codec, d: Document, identity: string, key: string, e: Document) {
    && (forall other :: other != identity ==> (other in e <==> other in d))
    && (forall other :: other != identity && other in d ==> e[other] == d[other])
    && identity in e
    && (if HasKey(c, d, identity, key) then e == d
        else exists line :: c.parse(line) == Some(key) && e[identity] == LinesOf(d, identity) + [line])
  }

  /** An upsert succeeds exactly for a valid identity in a document that parses and whose lines for that
      identity can be read up to the key, and then adds the key to that identity alone. */
  lemma UpsertExactly(c: Codec, contents: Option<Contents>, identity: string, key: string)
    requires Lawful(c)
    ensures var d, r := DocumentOf(contents), Upsert(c, contents, identity, key);
            && (r.Ok? <==> IsIdentity(identity) && contents != Some(Garbage) && Readable(c, LinesOf(d, identity), key))
            && (r.Ok? ==> Adds(c, d, identity, key, r.value)) && (r.Err? ==> r == Err(Invalid))
  {
    var d := DocumentOf(contents);
    var lines := LinesOf(d, identity);
    LookExactly(c, lines, key);
    LookMeans(c, lines, key);
    assert Look(c, lines, key).Absent? ==> c.parse(c.show(key)) == Some(key);
  }

  /** An upsert keeps every line, adds the key, and adds it only if it was missing. */
  lemma UpsertGrows(c: Codec, contents: Option<Contents>, identity: string, key: string)
    requires Lawful(c) && Upsert(c, contents, identity, key).Ok?
    ensures var d, e := DocumentOf(contents), Upsert(c, contents, identity, key).value;
            && Grows(d, e) && HasKey(c, e, identity, key)
            && (NoDuplicates(c, d) ==> NoDuplicates(c, e))
  {
    var d := DocumentOf(contents);
    var lines := LinesOf(d, identity);
    LookMeans(c, lines, key);
    if Look(c, lines, key).Absent? {
      var e := Upsert(c, contents, identity, key).value;
      assert LinesOf(e, identity)[|lines|] == c.show(key);
    }
  }

  // ----- The Secret and its clients -----

  const DATA_KEY := "authorized_keys.json"

  datatype Secret = Secret(version: nat, data: map<string, Contents>)

  /** Where a client is in its attempts; Holding has what it read, None when nothing was found. */
  datatype Phase = Ready(attempt: nat) | Holding(attempt: nat, read: Option<Secret>) | Succeeded | Failed

  datatype Client = Client(identity: string, key: string, phase: Phase)

  datatype World = World(secret: Option<Secret>, next: nat, clients: map<nat, Client>)

  /** A request is answered, applied but its answer lost, or never applied. */
  datatype Reply = Answered | Lost | Down

  datatype Step =
    | Begin(client: nat, identity: string, key: string)
    | Get(client: nat, ok: bool)
    | Commit(client: nat, reply: Reply)
    | Foreign(name: string, contents: Contents)  // somebody edits another value of the Secret

  const ATTEMPTS: nat := 5

  function ValueIn(s: Option<Secret>): Option<Contents> {
    if s.Some? && DATA_KEY in s.value.data then Some(s.value.data[DATA_KEY]) else None
  }

  function DocumentIn(s: Option<Secret>): Document { DocumentOf(ValueIn(s)) }

  function To(w: World, id: nat, phase: Phase): World
    requires id in w.clients
  {
    w.(clients := w.clients[id := w.clients[id].(phase := phase)])
  }

  /** The server stores the value under a fresh version. */
  function Store(w: World, data: map<string, Contents>): World {
    w.(secret := Some(Secret(w.next, data)), next := w.next + 1)
  }

  /** Create or update with the document the client computed from what it read. */
  function CommitStep(c: Codec, w: World, id: nat, attempt: nat, read: Option<Secret>, reply: Reply): World
    requires id in w.clients
  {
    var client := w.clients[id];
    var upserted := Upsert(c, ValueIn(read), client.identity, client.key);
    if upserted.Err? || reply.Down? then To(w, id, Failed)
    else
      var data := (if read.Some? then read.value.data else map[])[DATA_KEY := Json(upserted.value)];
      var done := if reply.Answered? then Succeeded else Failed;
      if read.None? then
        // A duplicate create is rejected, and that is not retried.
        if w.secret.Some? then To(w, id, Failed) else To(Store(w, data), id, done)
      else if w.secret.None? || w.secret.value.version != read.value.version then
        // A stale update is rejected; the conflict is retried while attempts are left.
        To(w, id, if attempt + 1 < ATTEMPTS then Ready(attempt + 1) else Failed)
      else To(Store(w, data), id, done)
  }

  function Apply(c: Codec, w: World, s: Step): World {
    match s
    case Begin(id, identity, key) =>
      if id in w.clients then w else w.(clients := w.clients[id := Client(identity, key, Ready(0))])
    case Get(id, ok) =>
      if id !in w.clients || !w.clients[id].phase.Ready? then w
      else To(w, id, if ok then Holding(w.clients[id].phase.attempt, w.secret) else Failed)
    case Commit(id, reply) =>
      if id !in w.clients || !w.clients[id].phase.Holding? then w
      else CommitStep(c, w, id, w.clients[id].phase.attempt, w.clients[id].phase.read, reply)
    case Foreign(name, contents) =>
      if w.secret.None? || name == DATA_KEY then w else Store(w, w.secret.value.data[name := contents])
  }

  /** A Secret that may or may not be there, with any contents, and nobody at work yet. */
  function Start(secret: Option<Secret>): World {
    World(secret, if secret.Some? then secret.value.version + 1 else 0, map[])
  }

  function Run(c: Codec, secret: Option<Secret>, steps: seq<Step>): World {
    Fold((w, s) => Apply(c, w, s), Start(secret), steps)
  }

  // ----- The invariant -----

  /** A version says what was stored under it. */
  ghost predicate ReadFits(w: World, read: Option<Secret>) {
    read.Some? ==> read.value.version < w.next &&
                   (w.secret.Some? && w.secret.value.version == read.value.version ==> w.secret == read)
  }

  ghost predicate ClientFits(c: Codec, w: World, client: Client) {
    && (client.phase.Ready? || client.phase.Holding? ==> client.phase.attempt < ATTEMPTS)
    && (client.phase.Holding? ==> ReadFits(w, client.phase.read))
    && (client.phase.Succeeded? ==> HasKey(c, DocumentIn(w.secret), client.identity, client.key))
  }

  ghost predicate Inv(c: Codec, w: World) {
    && (w.secret.Some? ==> w.secret.value.version < w.next)
    && (forall id :: id in w.clients ==> ClientFits(c, w, w.clients[id]))
  }

  lemma KeyStays(c: Codec, d: Document, e: Document, identity: string, key: string)
    requires Grows(d, e) && HasKey(c, d, identity, key)
    ensures HasKey(c, e, identity, key)
  {
    var i :| 0 <= i < |LinesOf(d, identity)| && c.parse(LinesOf(d, identity)[i]) == Some(key);
    assert LinesOf(e, identity)[i] == LinesOf(d, identity)[i];
  }

  lemma StoreKeeps(c: Codec, w: World, data: map<string, Contents>)
    requires Inv(c, w) && Grows(DocumentIn(w.secret), DocumentIn(Store(w, data).secret))
    ensures Inv(c, Store(w, data))
  {
    var w' := Store(w, data);
    forall id | id in w'.clients ensures ClientFits(c, w', w'.clients[id]) {
      var client := w.clients[id];
      assert ClientFits(c, w, client);
      if client.phase.Succeeded? {
        KeyStays(c, DocumentIn(w.secret), DocumentIn(w'.secret), client.identity, client.key);
      }
    }
  }

  lemma PhaseKeeps(c: Codec, w: World, id: nat, phase: Phase)
    requires Inv(c, w) && id in w.clients && ClientFits(c, w, w.clients[id].(phase := phase))
    ensures Inv(c, To(w, id, phase))
  {
    var w' := To(w, id, phase);
    forall j | j in w'.clients ensures ClientFits(c, w', w'.clients[j]) {
      assert j != id ==> ClientFits(c, w, w.clients[j]);
    }
  }

  /** Storing what a client computed from the current Secret. */
  lemma CommitKeeps(c: Codec, w: World, id: nat, attempt: nat, read: Option<Secret>, reply: Reply)
    requires Lawful(c) && Inv(c, w) && id in w.clients && ReadFits(w, read)
    ensures Inv(c, CommitStep(c, w, id, attempt, read, reply))
    ensures Advances(c, w, CommitStep(c, w, id, attempt, read, reply))
  {
    var client := w.clients[id];
    var upserted := Upsert(c, ValueIn(read), client.identity, client.key);
    if upserted.Ok? && !reply.Down? && w.secret == read {
      UpsertGrows(c, ValueIn(read), client.identity, client.key);
      var data := (if read.Some? then read.value.data else map[])[DATA_KEY := Json(upserted.value)];
      assert DocumentIn(Store(w, data).secret) == upserted.value;
      StoreKeeps(c, w, data);
      PhaseKeeps(c, Store(w, data), id, if reply.Answered? then Succeeded else Failed);
    } else {
      PhaseKeeps(c, w, id, if attempt + 1 < ATTEMPTS then Ready(attempt + 1) else Failed);
      PhaseKeeps(c, w, id, Failed);
    }
  }

  /** No line is lost in a step, and no duplicate appears. */
  ghost predicate Advances(c: Codec, w: World, w': World) {
    && Grows(DocumentIn(w.secret), DocumentIn(w'.secret))
    && (NoDuplicates(c, DocumentIn(w.secret)) ==> NoDuplicates(c, DocumentIn(w'.secret)))
  }

  lemma StepKeeps(c: Codec, w: World, s: Step)
    requires Lawful(c) && Inv(c, w)
    ensures Inv(c, Apply(c, w, s)) && Advances(c, w, Apply(c, w, s))
  {
    match s
    case Begin(id, identity, key) =>
      var w' := Apply(c, w, s);
      forall j | j in w'.clients ensures ClientFits(c, w', w'.clients[j]) {
        assert j in w.clients ==> ClientFits(c, w, w.clients[j]);
      }
    case Get(id, ok) =>
      if id in w.clients && w.clients[id].phase.Ready? {
        assert ClientFits(c, w, w.clients[id]);
        PhaseKeeps(c, w, id, if ok then Holding(w.clients[id].phase.attempt, w.secret) else Failed);
      }
    case Commit(id, reply) =>
      if id in w.clients && w.clients[id].phase.Holding? {
        assert ClientFits(c, w, w.clients[id]);
        CommitKeeps(c, w, id, w.clients[id].phase.attempt, w.clients[id].phase.read, reply);
      }
    case Foreign(name, contents) =>
      if w.secret.Some? && name != DATA_KEY {
        StoreKeeps(c, w, w.secret.value.data[name := contents]);
      }
  }

  lemma GrowsTransitive(d: Document, e: Document, f: Document)
    requires Grows(d, e) && Grows(e, f)
    ensures Grows(d, f)
  {
  }

  lemma EveryRunKeeps(c: Codec, start: World, steps: seq<Step>)
    requires Lawful(c) && Inv(c, start)
    ensures var end := Fold((w, s) => Apply(c, w, s), start, steps); Inv(c, end) && Advances(c, start, end)
  {
    forall w, s | Inv(c, w) && Advances(c, start, w)
      ensures Inv(c, Apply(c, w, s)) && Advances(c, start, Apply(c, w, s))
    {
      StepKeeps(c, w, s);
      GrowsTransitive(DocumentIn(start.secret), DocumentIn(w.secret), DocumentIn(Apply(c, w, s).secret));
    }
    Invariance((w, s) => Apply(c, w, s), start, steps, w => Inv(c, w) && Advances(c, start, w), (w, s) => true);
  }

  // ----- The promises -----

  /** In every interleaving no stored line ever disappears or moves. */
  lemma NoKeyIsLost(c: Codec, secret: Option<Secret>, steps: seq<Step>, n: nat)
    requires Lawful(c) && n <= |steps|
    ensures Grows(DocumentIn(Run(c, secret, steps[..n]).secret), DocumentIn(Run(c, secret, steps).secret))
  {
    EveryRunKeeps(c, Start(secret), steps[..n]);
    FoldSplit((w, s) => Apply(c, w, s), Start(secret), steps, n);
    EveryRunKeeps(c, Run(c, secret, steps[..n]), steps[n..]);
  }

  ghost predicate HasKeyOnce(c: Codec, d: Document, identity: string, key: string) {
    exists i :: 0 <= i < |LinesOf(d, identity)| && OnlyLine(c, LinesOf(d, identity), i, key)
  }

  ghost predicate OnlyLine(c: Codec, lines: seq<string>, i: nat, key: string) {
    forall j :: 0 <= j < |lines| ==> (c.parse(lines[j]) == Some(key) <==> j == i)
  }

  lemma OnceWithoutDuplicates(c: Codec, d: Document, identity: string, key: string)
    requires NoDuplicates(c, d) && HasKey(c, d, identity, key)
    ensures HasKeyOnce(c, d, identity, key)
  {
    var lines := LinesOf(d, identity);
    var i :| 0 <= i < |lines| && c.parse(lines[i]) == Some(key);
    assert NoRepeats(c, lines);
    assert OnlyLine(c, lines, i, key);
  }

  /** A client that has returned success after n steps has its key in the document of every longer
      run, and exactly once if the document had no duplicates to begin with. */
  lemma SuccessIsDurable(c: Codec, secret: Option<Secret>, steps: seq<Step>, n: nat, id: nat)
    requires Lawful(c) && n <= |steps|
    requires id in Run(c, secret, steps[..n]).clients && Run(c, secret, steps[..n]).clients[id].phase.Succeeded?
    ensures var client := Run(c, secret, steps[..n]).clients[id];
            var d := DocumentIn(Run(c, secret, steps).secret);
            && HasKey(c, d, client.identity, client.key)
            && (NoDuplicates(c, DocumentIn(secret)) ==> HasKeyOnce(c, d, client.identity, client.key))
  {
    EveryRunKeeps(c, Start(secret), steps[..n]);
    var w := Run(c, secret, steps[..n]);
    var client := w.clients[id];
    assert ClientFits(c, w, client);
    NoKeyIsLost(c, secret, steps, n);
    var d := DocumentIn(Run(c, secret, steps).secret);
    KeyStays(c, DocumentIn(w.secret), d, client.identity, client.key);
    EveryRunKeeps(c, Start(secret), steps);
    if NoDuplicates(c, DocumentIn(secret)) {
      OnceWithoutDuplicates(c, d, client.identity, client.key);
    }
  }

  // ----- Nothing else is written -----

  /** Every line after the first so many of each identity has the key of a client of that identity. */
  ghost predicate Accounted(c: Codec, before: Document, clients: map<nat, Client>, d: Document) {
    forall identity, i :: |LinesOf(before, identity)| <= i < |LinesOf(d, identity)| ==>
      AsksFor(c, clients, identity, LinesOf(d, identity)[i])
  }

  ghost predicate AsksFor(c: Codec, clients: map<nat, Client>, identity: string, line: string) {
    exists id :: id in clients && clients[id].identity == identity && c.parse(line) == Some(clients[id].key)
  }

  /** Clients keep their identity and key. */
  ghost predicate SameClients(w: World, w': World) {
    forall id :: id in w.clients ==>
      id in w'.clients && w'.clients[id].identity == w.clients[id].identity && w'.clients[id].key == w.clients[id].key
  }

  lemma ClientsStay(c: Codec, w: World, s: Step)
    ensures SameClients(w, Apply(c, w, s))
  {
  }

  lemma AddedIsAccounted(c: Codec, before: Document, w: World, id: nat, d: Document, e: Document)
    requires id in w.clients && Accounted(c, before, w.clients, d)
    requires Adds(c, d, w.clients[id].identity, w.clients[id].key, e)
    ensures Accounted(c, before, w.clients, e)
  {
    forall identity, i | |LinesOf(before, identity)| <= i < |LinesOf(e, identity)|
      ensures AsksFor(c, w.clients, identity, LinesOf(e, identity)[i])
    {
      if i < |LinesOf(d, identity)| {
        assert LinesOf(e, identity)[i] == LinesOf(d, identity)[i];
        assert AsksFor(c, w.clients, identity, LinesOf(d, identity)[i]);
      } else {
        assert identity == w.clients[id].identity;
      }
    }
  }

  lemma AccountedLater(c: Codec, before: Document, w: World, w': World, d: Document)
    requires Accounted(c, before, w.clients, d) && SameClients(w, w')
    ensures Accounted(c, before, w'.clients, d)
  {
    forall identity, i | |LinesOf(before, identity)| <= i < |LinesOf(d, identity)|
      ensures AsksFor(c, w'.clients, identity, LinesOf(d, identity)[i])
    {
      assert AsksFor(c, w.clients, identity, LinesOf(d, identity)[i]);
      var id :| id in w.clients && w.clients[id].identity == identity &&
        c.parse(LinesOf(d, identity)[i]) == Some(w.clients[id].key);
      assert id in w'.clients;
    }
  }

  // ----- What a commit does -----

  ghost predicate IsCurrent(w: World, read: Option<Secret>) {
    if read.None? then w.secret.None? else w.secret.Some? && w.secret.value.version == read.value.version
  }

  /** The client's request is answered, lost or refused: only a current one with a good document is stored,
      under a fresh version and with every other value as it was; a stale update is tried again, five
      times in all. */
  ghost predicate Commits(c: Codec, w: World, id: nat, reply: Reply, w': World)
    requires id in w.clients && w.clients[id].phase.Holding?
  {
    var client, read := w.clients[id], w.clients[id].phase.read;
    var fine := Upsert(c, ValueIn(read), client.identity, client.key).Ok? && !reply.Down?;
    && w'.clients.Keys == w.clients.Keys && (forall j :: j in w.clients && j != id ==> w'.clients[j] == w.clients[j])
    && w'.clients[id].identity == client.identity && w'.clients[id].key == client.key
    && (if fine && IsCurrent(w, read) then
          && w'.secret.Some? && w'.secret.value.version == w.next && w'.next == w.next + 1
          && Adds(c, DocumentIn(w.secret), client.identity, client.key, DocumentIn(w'.secret))
          && (forall name :: name != "authorized_keys.json" ==>
                (name in w'.secret.value.data <==> w.secret.Some? && name in w.secret.value.data))
          && (forall name :: name != "authorized_keys.json" && w.secret.Some? && name in w.secret.value.data ==>
                w'.secret.value.data[name] == w.secret.value.data[name])
          && w'.clients[id].phase == if reply.Answered? then Succeeded else Failed
        else
          && w'.secret == w.secret && w'.next == w.next
          && w'.clients[id].phase == if fine && read.Some? && client.phase.attempt < 4
                                     then Ready(client.phase.attempt + 1) else Failed)
  }

  lemma CommitDoes(c: Codec, w: World, id: nat, reply: Reply)
    requires Lawful(c) && Inv(c, w) && id in w.clients && w.clients[id].phase.Holding?
    ensures Commits(c, w, id, reply, Apply(c, w, Commit(id, reply)))
  {
    var client, read := w.clients[id], w.clients[id].phase.read;
    assert ClientFits(c, w, client);
    UpsertExactly(c, ValueIn(read), client.identity, client.key);
    if IsCurrent(w, read) {
      assert w.secret == read;
    }
  }

  /** In every interleaving, a client's commit does exactly that. */
  lemma CommitTrace(c: Codec, secret: Option<Secret>, steps: seq<Step>, id: nat, reply: Reply)
    requires Lawful(c) && id in Run(c, secret, steps).clients && Run(c, secret, steps).clients[id].phase.Holding?
    ensures var w := Run(c, secret, steps); Commits(c, w, id, reply, Apply(c, w, Commit(id, reply)))
  {
    EveryRunKeeps(c, Start(secret), steps);
    CommitDoes(c, Run(c, secret, steps), id, reply);
  }

  ghost predicate Faithful(c: Codec, before: Document, w: World) {
    Inv(c, w) && Accounted(c, before, w.clients, DocumentIn(w.secret))
  }

  lemma FaithfulStep(c: Codec, before: Document, w: World, s: Step)
    requires Lawful(c) && Faithful(c, before, w)
    ensures Faithful(c, before, Apply(c, w, s))
  {
    StepKeeps(c, w, s);
    ClientsStay(c, w, s);
    var w' := Apply(c, w, s);
    if s.Commit? && s.client in w.clients && w.clients[s.client].phase.Holding? {
      CommitDoes(c, w, s.client, s.reply);
      if w'.secret != w.secret {
        AddedIsAccounted(c, before, w, s.client, DocumentIn(w.secret), DocumentIn(w'.secret));
      }
    } else {
      assert DocumentIn(w'.secret) == DocumentIn(w.secret);
    }
    AccountedLater(c, before, w, w', DocumentIn(w'.secret));
  }

  lemma RunsAreAccounted(c: Codec, secret: Option<Secret>, steps: seq<Step>)
    requires Lawful(c)
    ensures var w := Run(c, secret, steps); Accounted(c, DocumentIn(secret), w.clients, DocumentIn(w.secret))
  {
    var before := DocumentIn(secret);
    forall w, s | Faithful(c, before, w) ensures Faithful(c, before, Apply(c, w, s)) {
      FaithfulStep(c, before, w, s);
    }
    Invariance((w, s) => Apply(c, w, s), Start(secret), steps, w => Faithful(c, before, w), (w, s) => true);
  }

  lemma {:induction false} ClientsBegan(c: Codec, secret: Option<Secret>, steps: seq<Step>, id: nat)
    requires id in Run(c, secret, steps).clients
    ensures var client := Run(c, secret, steps).clients[id]; Begin(id, client.identity, client.key) in steps
  {
    if steps != [] {
      var before, last := steps[..|steps| - 1], steps[|steps| - 1];
      assert before + [last] == steps;
      FoldSnoc((w, s) => Apply(c, w, s), Start(secret), before, last);
      ClientsStay(c, Run(c, secret, before), last);
      if id in Run(c, secret, before).clients {
        ClientsBegan(c, secret, before, id);
      }
    }
  }

  /** In every interleaving, a line that was not there at the start has a key that some client began to
      register, under that client's identity. */
  lemma NothingElseIsWritten(c: Codec, secret: Option<Secret>, steps: seq<Step>, identity: string, i: nat)
    requires Lawful(c)
    requires |LinesOf(DocumentIn(secret), identity)| <= i
    requires i < |LinesOf(DocumentIn(Run(c, secret, steps).secret), identity)|
    ensures exists s :: s in steps && s.Begin? && s.identity == identity &&
              c.parse(LinesOf(DocumentIn(Run(c, secret, steps).secret), identity)[i]) == Some(s.key)
  {
    RunsAreAccounted(c, secret, steps);
    var w := Run(c, secret, steps);
    var line := LinesOf(DocumentIn(w.secret), identity)[i];
    assert AsksFor(c, w.clients, identity, line);
    var id :| id in w.clients && w.clients[id].identity == identity && c.parse(line) == Some(w.clients[id].key);
    ClientsBegan(c, secret, steps, id);
    assert Begin(id, identity, w.clients[id].key) in steps;
  }

  /** A client that is ready reads the Secret as it is, or gives up. */
  lemma GetTrace(c: Codec, w: World, id: nat, ok: bool)
    requires id in w.clients && w.clients[id].phase.Ready?
    ensures var client, w' := w.clients[id], Apply(c, w, Get(id, ok));
            w' == w.(clients := w.clients[id := Client(client.identity, client.key,
                                                       if ok then Holding(client.phase.attempt, w.secret) else Failed)])
  {
  }
}
