// One server and any number of clients. Each client saves, edits and deletes at any time,
// and has any number of sync rounds under way at once: every save and edit starts one.
module Protocol {
  import opened ClientDb
  import opened Envelope
  import opened Int32
  import opened Models
  import opened NoteStore
  import opened ServerHistory
  import opened SyncEngine
  import opened SyncRoute
  import opened SyncService
  import opened Wrappers

  /** One round: the rows it selected, the answers of the server so far, and how many of
      them the client has written back. A request or a reply that is lost just stops. */
  datatype Flight = Flight(sent: seq<NoteEntry>, clock: seq<Uuid>, results: seq<SyncResult<Note>>, written: nat)

  datatype Client = Client(user: Uuid, rows: seq<NoteEntry>, nextId: int, flights: seq<Flight>)

  datatype World = World(server: Server, clients: map<int, Client>)

  datatype Action =
    | Save(title: SecretBox, content: SecretBox, now: Time)
    | Edit(id: int, title: SecretBox, content: SecretBox, currentVersion: Option<int>, now: Time, resets: bool)
    | Delete(id: int)
    | Select(clock: seq<Uuid>)
    | Serve(f: nat, fault: Fault)
    | Write(f: nat)

  datatype Move = Move(client: int, action: Action)

  // ----- steps

  // The server goes through a decodable batch entry by entry; the client writes results
  // once it has them all.
  predicate Allowed(c: Client, a: Action) {
    match a
    case Save(title, content, _) => |title.nonce| == NONCE_LENGTH && |content.nonce| == NONCE_LENGTH
    case Edit(_, title, content, _, _, _) => |title.nonce| == NONCE_LENGTH && |content.nonce| == NONCE_LENGTH
    case Delete(_) => true
    case Select(clock) => |clock| == |Pending(c.rows)|
    case Serve(f, _) =>
      f < |c.flights| && var x := c.flights[f];
      |x.results| < |x.sent| == |x.clock| && Decodable(x.sent)
    case Write(f) =>
      f < |c.flights| && var x := c.flights[f];
      x.written < |x.results| == |x.sent|
  }

  // The entry of flight f that the server handles next.
  function Outgoing(c: Client, f: nat, fault: Fault): Attempt
    requires Allowed(c, Serve(f, fault))
  {
    var x := c.flights[f];
    var k := |x.results|;
    assert x.sent[k] in x.sent;
    Attempt(PayloadEntry(x.sent[k], c.user, x.clock[k]), fault.fetchOk, fault.upsertOk, fault.now)
  }

  function ClientNext(c: Client, t: Table, a: Action): Client
    requires Allowed(c, a)
  {
    match a
    case Save(title, content, now) =>
      c.(rows := c.rows + [NewRow(c.nextId, Build(title), Build(content), now)], nextId := c.nextId + 1)
    case Edit(id, title, content, currentVersion, now, resets) =>
      c.(rows := EditRows(c.rows, id, Build(title), Build(content), currentVersion, now, resets))
    case Delete(id) => c.(rows := Without(c.rows, id))
    case Select(clock) => c.(flights := c.flights + [Flight(Pending(c.rows), clock, [], 0)])
    case Serve(f, fault) =>
      var x := c.flights[f];
      c.(flights := c.flights[f := x.(results := x.results + [SyncEntry(t, c.user, Outgoing(c, f, fault)).result])])
    case Write(f) =>
      var x := c.flights[f];
      c.(rows := WriteBack(c.rows, x.sent[x.written].id, x.results[x.written]),
         flights := c.flights[f := x.(written := x.written + 1)])
  }

  function ServerNext(s: Server, c: Client, a: Action): Server
    requires Allowed(c, a)
  {
    if a.Serve? then ServeEntry(s, c.user, Outgoing(c, a.f, a.fault)) else s
  }

  predicate Enabled(w: World, m: Move) {
    m.client in w.clients && Allowed(w.clients[m.client], m.action)
  }

  function Next(w: World, m: Move): World
    requires Enabled(w, m)
  {
    var c := w.clients[m.client];
    World(ServerNext(w.server, c, m.action),
          w.clients[m.client := ClientNext(c, w.server.table, m.action)])
  }

  ghost predicate Initial(w: World) {
    && w.server == EMPTY
    && forall k :: k in w.clients ==> w.clients[k].rows == [] && w.clients[k].flights == []
  }

  // The worlds that some run from the initial one leads through, in order.
  ghost predicate IsRun(worlds: seq<World>, moves: seq<Move>) {
    && |worlds| == |moves| + 1
    && Initial(worlds[0])
    && forall i :: 0 <= i < |moves| ==> Leads(worlds, moves, i)
  }

  ghost predicate Leads(worlds: seq<World>, moves: seq<Move>, i: nat)
    requires i < |moves| < |worlds|
  {
    Enabled(worlds[i], moves[i]) && worlds[i + 1] == Next(worlds[i], moves[i])
  }

  // ----- what holds in any run, whoever owns what and whatever fails

  // The stored nonce is the head of the title cipher.
  predicate NonceOk(title: Bytes, nonce: Bytes) {
    |title| >= NONCE_LENGTH && nonce == title[..NONCE_LENGTH]
  }

  ghost predicate HistoryNonces(held: History) {
    forall id, im :: id in held && im in held[id] ==> NonceOk(im.title, im.nonce)
  }

  predicate Held(held: History, id: Uuid, im: Image) {
    id in held && im in held[id]
  }

  // Each row is the newest image of its history.
  ghost predicate Recorded(s: Server) {
    && s.table.Keys == s.held.Keys
    && forall id :: id in s.table ==>
         s.table[id].id == id && s.held[id] != [] && s.held[id][|s.held[id]| - 1] == ImageOf(s.table[id])
  }

  predicate LocalRowOk(r: NoteEntry, held: History) {
    NonceOk(r.titleCipher, r.nonce) && (r.serverId.Some? ==> r.serverId.value in held)
  }

  // A Success is the row as it was sent, at its new version; a Conflict is what the
  // server held. Both have been held under the id the row went out under.
  predicate ReplyOk(sent: NoteEntry, clock: Uuid, result: SyncResult<Note>, held: History) {
    match result
    case Success(n) => n.id == OutId(sent, clock) && Held(held, n.id, RowImage(sent).(version := n.version))
    case Conflict(n) => n.id == OutId(sent, clock) && Held(held, n.id, ImageOf(n))
    case Error(_) => true
  }

  ghost predicate FlightOk(x: Flight, held: History) {
    && x.written <= |x.results| <= |x.sent| == |x.clock|
    && (forall i :: 0 <= i < |x.sent| ==> LocalRowOk(x.sent[i], held))
    && (forall i :: 0 <= i < |x.results| ==> ReplyOk(x.sent[i], x.clock[i], x.results[i], held))
  }

  ghost predicate ClientOk(c: Client, held: History) {
    && Numbered(c.rows, c.nextId)
    && (forall r :: r in c.rows ==> LocalRowOk(r, held))
    && (forall f :: 0 <= f < |c.flights| ==> FlightOk(c.flights[f], held))
  }

  ghost predicate WorldOk(w: World) {
    && Recorded(w.server)
    && HistoryNonces(w.server.held)
    && forall k :: k in w.clients ==> ClientOk(w.clients[k], w.server.held)
  }

  // ----- the server handles an entry

  lemma HeldGrows(held: History, more: History, id: Uuid, im: Image)
    requires Grows(held, more) && Held(held, id, im)
    ensures Held(more, id, im)
  {
    var i :| 0 <= i < |held[id]| && held[id][i] == im;
    assert more[id][i] == im;
  }

  lemma WriteRecorded(s: Server, n: Note, h: seq<Image>)
    requires Recorded(s) && h != [] && h[|h| - 1] == ImageOf(n) && (n.id in s.held ==> s.held[n.id] <= h)
    ensures Recorded(Server(s.table[n.id := n], s.held[n.id := h])) && Grows(s.held, s.held[n.id := h])
  {
  }

  lemma EntryRecorded(s: Server, session: Uuid, a: Attempt)
    requires Recorded(s)
    ensures Recorded(ServeEntry(s, session, a)) && Grows(s.held, ServeEntry(s, session, a).held)
  {
    var u, id := ServeEntry(s, session, a), a.entry.id;
    if SyncEntry(s.table, session, a).result.Success? {
      WriteRecorded(s, u.table[id], u.held[id]);
      assert u == Server(s.table[id := u.table[id]], s.held[id := u.held[id]]);
    } else {
      assert u == s;
    }
  }

  // Every note in an answer is an image that the server holds now, under the entry's id;
  // a Success is the entry itself at its new version.
  lemma EntryAnswered(s: Server, session: Uuid, a: Attempt)
    requires Recorded(s)
    ensures var u := ServeEntry(s, session, a);
            match SyncEntry(s.table, session, a).result
            case Success(n) =>
              n.id == a.entry.id && ImageOf(n) == ImageOf(a.entry).(version := n.version)
              && n.id in u.table && ImageOf(u.table[n.id]) == ImageOf(n) && Held(u.held, n.id, ImageOf(n))
            case Conflict(n) =>
              n.id == a.entry.id && n.id in u.table && u.table[n.id] == n && Held(u.held, n.id, ImageOf(n))
            case Error(_) => u == s
  {
    var u := ServeEntry(s, session, a);
    EntryRecorded(s, session, a);
    if a.entry.id in u.table {
      var h := u.held[a.entry.id];
      assert h[|h| - 1] == ImageOf(u.table[a.entry.id]);
    }
  }

  lemma EntryNonces(s: Server, session: Uuid, a: Attempt)
    requires HistoryNonces(s.held) && NonceOk(a.entry.titleCipher, a.entry.nonce)
    ensures HistoryNonces(ServeEntry(s, session, a).held)
  {
    var u := ServeEntry(s, session, a);
    forall id, im | id in u.held && im in u.held[id] ensures NonceOk(im.title, im.nonce) {
      assert im in (if id in s.held then s.held[id] else []) || NonceOk(im.title, im.nonce);
    }
  }

  lemma ReplyGrows(sent: NoteEntry, clock: Uuid, result: SyncResult<Note>, held: History, more: History)
    requires Grows(held, more) && ReplyOk(sent, clock, result, held)
    ensures ReplyOk(sent, clock, result, more)
  {
    match result {
      case Success(n) => HeldGrows(held, more, n.id, RowImage(sent).(version := n.version));
      case Conflict(n) => HeldGrows(held, more, n.id, ImageOf(n));
      case Error(_) =>
    }
  }

  lemma FlightGrows(x: Flight, held: History, more: History)
    requires Grows(held, more) && FlightOk(x, held)
    ensures FlightOk(x, more)
  {
    forall i | 0 <= i < |x.sent| ensures LocalRowOk(x.sent[i], more) {
      RowGrows(x.sent[i], held, more);
    }
    forall i | 0 <= i < |x.results| ensures ReplyOk(x.sent[i], x.clock[i], x.results[i], more) {
      ReplyGrows(x.sent[i], x.clock[i], x.results[i], held, more);
    }
  }

  lemma RowGrows(r: NoteEntry, held: History, more: History)
    requires Grows(held, more) && LocalRowOk(r, held)
    ensures LocalRowOk(r, more)
  {
    if r.serverId.Some? {
      var s: Uuid := r.serverId.value;
      assert s in held;
    }
  }

  lemma ClientGrows(c: Client, held: History, more: History)
    requires Grows(held, more) && ClientOk(c, held)
    ensures ClientOk(c, more)
  {
    forall r | r in c.rows ensures LocalRowOk(r, more) {
      RowGrows(r, held, more);
    }
    forall f | 0 <= f < |c.flights| ensures FlightOk(c.flights[f], more) {
      FlightGrows(c.flights[f], held, more);
    }
  }

  // ----- each action keeps the invariant

  lemma FlightAnswered(x: Flight, result: SyncResult<Note>, held: History)
    requires FlightOk(x, held) && |x.results| < |x.sent|
    requires ReplyOk(x.sent[|x.results|], x.clock[|x.results|], result, held)
    ensures FlightOk(x.(results := x.results + [result]), held)
  {
  }

  lemma FlightChanges(c: Client, f: nat, x: Flight, held: History)
    requires ClientOk(c, held) && f < |c.flights| && FlightOk(x, held)
    ensures ClientOk(c.(flights := c.flights[f := x]), held)
  {
  }

  lemma ServeKeeps(s: Server, c: Client, f: nat, fault: Fault)
    requires Recorded(s) && HistoryNonces(s.held) && ClientOk(c, s.held) && Allowed(c, Serve(f, fault))
    ensures var u := ServerNext(s, c, Serve(f, fault));
            && Recorded(u) && HistoryNonces(u.held) && Grows(s.held, u.held)
            && ClientOk(ClientNext(c, s.table, Serve(f, fault)), u.held)
  {
    var x, a := c.flights[f], Outgoing(c, f, fault);
    var u, result := ServeEntry(s, c.user, a), SyncEntry(s.table, c.user, a).result;
    assert LocalRowOk(x.sent[|x.results|], s.held);
    EntryRecorded(s, c.user, a);
    EntryAnswered(s, c.user, a);
    EntryNonces(s, c.user, a);
    ClientGrows(c, s.held, u.held);
    assert FlightOk(x, u.held);
    FlightAnswered(x, result, u.held);
    FlightChanges(c, f, x.(results := x.results + [result]), u.held);
  }

  lemma SaveKeeps(c: Client, t: Table, a: Action, held: History)
    requires a.Save? && ClientOk(c, held) && Allowed(c, a)
    ensures ClientOk(ClientNext(c, t, a), held)
  {
    var d := ClientNext(c, t, a);
    assert d.rows[|c.rows|].id == c.nextId;
  }

  lemma EditKeeps(c: Client, t: Table, a: Action, held: History)
    requires a.Edit? && ClientOk(c, held) && Allowed(c, a)
    ensures ClientOk(ClientNext(c, t, a), held)
  {
    var d := ClientNext(c, t, a);
    forall r | r in d.rows ensures LocalRowOk(r, held) && r.id < d.nextId {
      var i :| 0 <= i < |d.rows| && d.rows[i] == r;
      assert c.rows[i] in c.rows;
    }
  }

  lemma DeleteKeeps(c: Client, t: Table, a: Action, held: History)
    requires a.Delete? && ClientOk(c, held)
    ensures ClientOk(ClientNext(c, t, a), held)
  {
    WithoutRemoves(c.rows, a.id);
  }

  lemma SelectKeeps(c: Client, t: Table, a: Action, held: History)
    requires a.Select? && ClientOk(c, held) && Allowed(c, a)
    ensures ClientOk(ClientNext(c, t, a), held)
  {
    PendingSelects(c.rows);
    var x := Flight(Pending(c.rows), a.clock, [], 0);
    forall i | 0 <= i < |x.sent| ensures LocalRowOk(x.sent[i], held) {
      assert x.sent[i] in x.sent;
    }
    assert FlightOk(x, held);
  }

  // Whatever has become of the row since it was sent.
  lemma MergeKeeps(r: NoteEntry, sent: NoteEntry, clock: Uuid, result: SyncResult<Note>, held: History)
    requires LocalRowOk(r, held) && ReplyOk(sent, clock, result, held) && HistoryNonces(held)
    ensures LocalRowOk(Merge(r, result), held)
  {
  }

  lemma WriteBackKeepsIds(rows: seq<NoteEntry>, nextId: int, id: int, result: SyncResult<Note>)
    requires Numbered(rows, nextId)
    ensures Numbered(WriteBack(rows, id, result), nextId)
  {
    var after := WriteBack(rows, id, result);
    forall i | 0 <= i < |after| ensures after[i].id == rows[i].id && after[i].id < nextId {
      assert rows[i] in rows;
    }
  }

  lemma WriteKeeps(c: Client, t: Table, a: Action, held: History)
    requires a.Write? && ClientOk(c, held) && Allowed(c, a) && HistoryNonces(held)
    ensures ClientOk(ClientNext(c, t, a), held)
  {
    var x := c.flights[a.f];
    var k := x.written;
    assert FlightOk(x, held);
    var rows := WriteBack(c.rows, x.sent[k].id, x.results[k]);
    WriteBackKeepsIds(c.rows, c.nextId, x.sent[k].id, x.results[k]);
    forall r | r in rows ensures LocalRowOk(r, held) {
      var i :| 0 <= i < |rows| && rows[i] == r;
      assert c.rows[i] in c.rows;
      MergeKeeps(c.rows[i], x.sent[k], x.clock[k], x.results[k], held);
    }
    FlightChanges(c.(rows := rows), a.f, x.(written := k + 1), held);
  }

  lemma MoveKeeps(w: World, m: Move)
    requires WorldOk(w) && Enabled(w, m)
    ensures WorldOk(Next(w, m))
    ensures Grows(w.server.held, Next(w, m).server.held)
  {
    var c, t, held := w.clients[m.client], w.server.table, w.server.held;
    match m.action {
      case Save(_, _, _) => SaveKeeps(c, t, m.action, held);
      case Edit(_, _, _, _, _, _) => EditKeeps(c, t, m.action, held);
      case Delete(_) => DeleteKeeps(c, t, m.action, held);
      case Select(_) => SelectKeeps(c, t, m.action, held);
      case Serve(f, fault) =>
        ServeKeeps(w.server, c, f, fault);
        var more := ServerNext(w.server, c, m.action).held;
        forall k | k in w.clients ensures ClientOk(w.clients[k], more) {
          ClientGrows(w.clients[k], held, more);
        }
      case Write(_) => WriteKeeps(c, t, m.action, held);
    }
  }

  lemma {:induction false} RunKeeps(worlds: seq<World>, moves: seq<Move>, i: nat)
    requires IsRun(worlds, moves) && i < |worlds|
    ensures WorldOk(worlds[i])
  {
    if i > 0 {
      RunKeeps(worlds, moves, i - 1);
      assert Leads(worlds, moves, i - 1);
      MoveKeeps(worlds[i - 1], moves[i - 1]);
    }
  }

  lemma StepGrows(worlds: seq<World>, moves: seq<Move>, i: nat)
    requires IsRun(worlds, moves) && i < |moves|
    ensures Grows(worlds[i].server.held, worlds[i + 1].server.held)
  {
    RunKeeps(worlds, moves, i);
    assert Leads(worlds, moves, i);
    MoveKeeps(worlds[i], moves[i]);
  }

  lemma GrowsOn(a: History, b: History, c: History)
    requires Grows(a, b) && Grows(b, c)
    ensures Grows(a, c)
  {
    forall id | id in a ensures id in c && a[id] <= c[id] {
      assert a[id] <= b[id] && b[id] <= c[id];
    }
  }

  lemma {:induction false} RunGrows(worlds: seq<World>, moves: seq<Move>, i: nat, j: nat)
    requires IsRun(worlds, moves) && i <= j < |worlds|
    ensures Grows(worlds[i].server.held, worlds[j].server.held)
  {
    if i < j {
      RunGrows(worlds, moves, i, j - 1);
      StepGrows(worlds, moves, j - 1);
      GrowsOn(worlds[i].server.held, worlds[j - 1].server.held, worlds[j].server.held);
    }
  }

  ghost predicate HasRow(w: World, k: int, r: NoteEntry) {
    k in w.clients && r in w.clients[k].rows
  }

  // The nonce column is the head of the title cipher in every row, local or on the server.
  lemma NoncesFollowTitles(worlds: seq<World>, moves: seq<Move>, i: nat)
    requires IsRun(worlds, moves) && i < |worlds|
    ensures forall k, r :: HasRow(worlds[i], k, r) ==> |r.titleCipher| >= 12 && r.nonce == r.titleCipher[..12]
    ensures forall id :: id in worlds[i].server.table ==>
      var n := worlds[i].server.table[id];
      |n.titleCipher| >= 12 && n.nonce == n.titleCipher[..12]
  {
    RunKeeps(worlds, moves, i);
    var w := worlds[i];
    forall k, r | HasRow(w, k, r) ensures NonceOk(r.titleCipher, r.nonce) {
      assert ClientOk(w.clients[k], w.server.held);
      assert LocalRowOk(r, w.server.held);
    }
    forall id | id in w.server.table ensures NonceOk(w.server.table[id].titleCipher, w.server.table[id].nonce) {
      assert ImageOf(w.server.table[id]) in w.server.held[id];
    }
  }

  // A server id that is set names a row of the server.
  lemma ServerIdsExist(worlds: seq<World>, moves: seq<Move>, i: nat, k: int, r: NoteEntry)
    requires IsRun(worlds, moves) && i < |worlds| && HasRow(worlds[i], k, r) && r.serverId.Some?
    ensures r.serverId.value in worlds[i].server.table
    ensures worlds[i].server.table[r.serverId.value].id == r.serverId.value
  {
    RunKeeps(worlds, moves, i);
    var w := worlds[i];
    assert ClientOk(w.clients[k], w.server.held);
    assert LocalRowOk(r, w.server.held);
    var s: Uuid := r.serverId.value;
    assert s in w.server.held;
  }

  // ----- what holds if a clock reading is only used by the owner of that id

  ghost predicate RespectedAt(worlds: seq<World>, moves: seq<Move>, owner: Uuid -> Uuid, i: nat)
    requires i < |moves| < |worlds|
  {
    var m := moves[i];
    m.action.Select? && m.client in worlds[i].clients ==>
      forall id :: id in m.action.clock ==> owner(id) == worlds[i].clients[m.client].user
  }

  ghost predicate Respected(worlds: seq<World>, moves: seq<Move>, owner: Uuid -> Uuid) {
    |moves| < |worlds| && forall i :: 0 <= i < |moves| ==> RespectedAt(worlds, moves, owner, i)
  }

  ghost predicate TableOwned(t: Table, owner: Uuid -> Uuid) {
    forall id :: id in t ==> t[id].userId == owner(id)
  }

  ghost predicate ClientOwns(c: Client, owner: Uuid -> Uuid) {
    && (forall r :: r in c.rows && r.serverId.Some? ==> owner(r.serverId.value) == c.user)
    && (forall f :: 0 <= f < |c.flights| ==> FlightOwned(c.flights[f], c.user, owner))
  }

  ghost predicate FlightOwned(x: Flight, user: Uuid, owner: Uuid -> Uuid) {
    |x.sent| == |x.clock| && forall i :: 0 <= i < |x.sent| ==> owner(OutId(x.sent[i], x.clock[i])) == user
  }

  ghost predicate WorldOwned(w: World, owner: Uuid -> Uuid) {
    TableOwned(w.server.table, owner) && forall k :: k in w.clients ==> ClientOwns(w.clients[k], owner)
  }

  lemma SelectOwns(c: Client, t: Table, a: Action, owner: Uuid -> Uuid)
    requires a.Select? && Allowed(c, a) && ClientOwns(c, owner) && forall id :: id in a.clock ==> owner(id) == c.user
    ensures ClientOwns(ClientNext(c, t, a), owner)
  {
    PendingSelects(c.rows);
    var sent := Pending(c.rows);
    forall i | 0 <= i < |sent| ensures owner(OutId(sent[i], a.clock[i])) == c.user {
      assert sent[i] in sent && a.clock[i] in a.clock;
    }
    assert FlightOwned(Flight(sent, a.clock, [], 0), c.user, owner);
  }

  lemma WriteOwns(c: Client, t: Table, a: Action, held: History, owner: Uuid -> Uuid)
    requires a.Write? && Allowed(c, a) && ClientOwns(c, owner) && ClientOk(c, held)
    ensures ClientOwns(ClientNext(c, t, a), owner)
  {
    var d, x := ClientNext(c, t, a), c.flights[a.f];
    assert FlightOwned(x, c.user, owner) && FlightOk(x, held);
    assert ReplyOk(x.sent[x.written], x.clock[x.written], x.results[x.written], held);
    forall r | r in d.rows && r.serverId.Some? ensures owner(r.serverId.value) == c.user {
      var i :| 0 <= i < |d.rows| && d.rows[i] == r;
      assert c.rows[i] in c.rows;
    }
  }

  lemma LocalOwns(c: Client, t: Table, a: Action, owner: Uuid -> Uuid)
    requires (a.Save? || a.Edit? || a.Delete?) && Allowed(c, a) && ClientOwns(c, owner)
    ensures ClientOwns(ClientNext(c, t, a), owner)
  {
    var d := ClientNext(c, t, a);
    if a.Delete? {
      WithoutRemoves(c.rows, a.id);
    }
    forall r | r in d.rows && r.serverId.Some? ensures owner(r.serverId.value) == c.user {
      var i :| 0 <= i < |d.rows| && d.rows[i] == r;
      if a.Edit? {
        assert c.rows[i] in c.rows;
      }
    }
  }

  lemma MoveOwns(worlds: seq<World>, moves: seq<Move>, owner: Uuid -> Uuid, i: nat)
    requires IsRun(worlds, moves) && i < |moves| && RespectedAt(worlds, moves, owner, i) && WorldOwned(worlds[i], owner)
    ensures WorldOwned(worlds[i + 1], owner)
  {
    assert Leads(worlds, moves, i);
    RunKeeps(worlds, moves, i);
    var m, w := moves[i], worlds[i];
    var c, t := w.clients[m.client], w.server.table;
    match m.action {
      case Select(_) => SelectOwns(c, t, m.action, owner);
      case Write(_) => WriteOwns(c, t, m.action, w.server.held, owner);
      case Serve(f, fault) =>
        assert FlightOwned(c.flights[f], c.user, owner);
      case _ => LocalOwns(c, t, m.action, owner);
    }
  }

  lemma {:induction false} RunOwns(worlds: seq<World>, moves: seq<Move>, owner: Uuid -> Uuid, i: nat)
    requires IsRun(worlds, moves) && Respected(worlds, moves, owner) && i < |worlds|
    ensures WorldOwned(worlds[i], owner)
  {
    if i > 0 {
      RunOwns(worlds, moves, owner, i - 1);
      assert RespectedAt(worlds, moves, owner, i - 1);
      MoveOwns(worlds, moves, owner, i - 1);
    }
  }

  // Then the server finds the row that a server id names.
  lemma ServerIdsAreFound(worlds: seq<World>, moves: seq<Move>, owner: Uuid -> Uuid, i: nat, k: int, r: NoteEntry)
    requires IsRun(worlds, moves) && Respected(worlds, moves, owner) && i < |worlds|
    requires HasRow(worlds[i], k, r) && r.serverId.Some?
    ensures var s: Uuid := r.serverId.value;
            && owner(s) == worlds[i].clients[k].user
            && Fetch(worlds[i].server.table, s, worlds[i].clients[k].user).Some?
            && worlds[i].server.table[s].id == s
  {
    ServerIdsExist(worlds, moves, i, k, r);
    RunOwns(worlds, moves, owner, i);
    assert ClientOwns(worlds[i].clients[k], owner);
  }

  // ----- what holds if, besides, fetches work: the version laws

  ghost predicate FetchesWork(moves: seq<Move>) {
    forall m :: m in moves && m.action.Serve? ==> m.action.fault.fetchOk
  }

  ghost predicate LawfulRun(worlds: seq<World>, moves: seq<Move>, owner: Uuid -> Uuid) {
    IsRun(worlds, moves) && Respected(worlds, moves, owner) && FetchesWork(moves)
  }

  lemma {:induction false} VersionsStayLawful(worlds: seq<World>, moves: seq<Move>, owner: Uuid -> Uuid, i: nat)
    requires LawfulRun(worlds, moves, owner) && i < |worlds|
    ensures HistoryOk(worlds[i].server, owner)
  {
    if i > 0 {
      VersionsStayLawful(worlds, moves, owner, i - 1);
      RunOwns(worlds, moves, owner, i - 1);
      assert Leads(worlds, moves, i - 1);
      var m, w := moves[i - 1], worlds[i - 1];
      if m.action.Serve? {
        var c := w.clients[m.client];
        assert m in moves;
        assert ClientOwns(c, owner) && FlightOwned(c.flights[m.action.f], c.user, owner);
        ServeEntryKeepsHistory(w.server, c.user, Outgoing(c, m.action.f, m.action.fault), owner);
      }
    }
  }

  // An id and a version then name one image, as long as the id has had at most 2^32.
  lemma VersionNamesImage(worlds: seq<World>, moves: seq<Move>, owner: Uuid -> Uuid, i: nat, s: Uuid,
                          a: Image, b: Image)
    requires LawfulRun(worlds, moves, owner) && i < |worlds|
    requires Held(worlds[i].server.held, s, a) && Held(worlds[i].server.held, s, b)
    requires a.version == b.version && |worlds[i].server.held[s]| <= SPAN
    ensures a == b
  {
    VersionsStayLawful(worlds, moves, owner, i);
    var h := worlds[i].server.held[s];
    assert RowOk(worlds[i].server.table[s], h, s, owner);
    var x :| 0 <= x < |h| && h[x] == a;
    var y :| 0 <= y < |h| && h[y] == b;
    ConsecutiveRepeats(h, x, y);
  }

  // ----- a round that nothing disturbs is the sync service's round

  // m entries of flight f served, one after the other.
  function EntriesServed(c: Client, s: Server, f: nat, faults: seq<Fault>, m: nat): (Client, Server)
    requires f < |c.flights| && m <= |faults| == |c.flights[f].sent| == |c.flights[f].clock|
    requires c.flights[f].results == [] && Decodable(c.flights[f].sent)
    ensures var d := EntriesServed(c, s, f, faults, m).0;
            && d.user == c.user && d.rows == c.rows && |d.flights| == |c.flights|
            && d.flights[f] == c.flights[f].(results := d.flights[f].results) && |d.flights[f].results| == m
  {
    if m == 0 then (c, s)
    else
      var (d, u) := EntriesServed(c, s, f, faults, m - 1);
      var a := Serve(f, faults[m - 1]);
      (ClientNext(d, u.table, a), ServerNext(u, d, a))
  }

  // m results of flight f written back, one after the other.
  function ResultsWritten(c: Client, t: Table, f: nat, m: nat): (d: Client)
    requires f < |c.flights| && m <= |c.flights[f].results| == |c.flights[f].sent| && c.flights[f].written == 0
    ensures |d.flights| == |c.flights| && d.flights[f] == c.flights[f].(written := m)
  {
    if m == 0 then c else ClientNext(ResultsWritten(c, t, f, m - 1), t, Write(f))
  }

  lemma EntryInBatch(c: Client, f: nat, faults: seq<Fault>)
    requires f < |c.flights| && |c.flights[f].results| < |faults| == |c.flights[f].sent| == |c.flights[f].clock|
    requires Decodable(c.flights[f].sent)
    ensures var x := c.flights[f];
            Outgoing(c, f, faults[|x.results|]) == Attempts(x.sent, c.user, x.clock, faults)[|x.results|]
  {
  }

  lemma NextIsProcessed(d: Client, u: Server, f: nat, faults: seq<Fault>, t: Table, k: nat)
    requires f < |d.flights| && k == |d.flights[f].results|
    requires k < |faults| == |d.flights[f].sent| == |d.flights[f].clock| && Decodable(d.flights[f].sent)
    requires var x := d.flights[f];
             Process(t, d.user, Attempts(x.sent, d.user, x.clock, faults)[..k]) == Outcome(u.table, x.results)
    ensures var x := d.flights[f];
            var a := Serve(f, faults[k]);
            Process(t, d.user, Attempts(x.sent, d.user, x.clock, faults)[..k + 1])
              == Outcome(ServerNext(u, d, a).table, ClientNext(d, u.table, a).flights[f].results)
  {
    var x := d.flights[f];
    var batch := Attempts(x.sent, d.user, x.clock, faults);
    assert batch[..k + 1] == batch[..k] + [batch[k]];
    ProcessSnoc(t, d.user, batch[..k], batch[k]);
    EntryInBatch(d, f, faults);
  }

  lemma {:induction false} EntriesAreProcessed(c: Client, s: Server, f: nat, faults: seq<Fault>, m: nat)
    requires f < |c.flights| && m <= |faults| == |c.flights[f].sent| == |c.flights[f].clock|
    requires c.flights[f].results == [] && Decodable(c.flights[f].sent)
    ensures var (d, u) := EntriesServed(c, s, f, faults, m);
            var x := c.flights[f];
            Process(s.table, c.user, Attempts(x.sent, c.user, x.clock, faults)[..m])
              == Outcome(u.table, d.flights[f].results)
  {
    if m > 0 {
      EntriesAreProcessed(c, s, f, faults, m - 1);
      var (d, u) := EntriesServed(c, s, f, faults, m - 1);
      NextIsProcessed(d, u, f, faults, s.table, m - 1);
    }
  }

  lemma {:induction false} ResultsAreReceived(c: Client, t: Table, f: nat, m: nat)
    requires f < |c.flights| && m <= |c.flights[f].results| == |c.flights[f].sent| && c.flights[f].written == 0
    ensures ResultsWritten(c, t, f, m).rows == Received(c.rows, c.flights[f].sent, c.flights[f].results, m)
  {
    if m > 0 {
      ResultsAreReceived(c, t, f, m - 1);
    }
  }

  // The client and the server once the batch selected now has been served in one go.
  function AllServed(c: Client, s: Server, clock: seq<Uuid>, faults: seq<Fault>): (Client, Server)
    requires Decodable(Pending(c.rows)) && |clock| == |faults| == |Pending(c.rows)|
  {
    EntriesServed(ClientNext(c, s.table, Select(clock)), s, |c.flights|, faults, |faults|)
  }

  lemma AllServedAnswers(c: Client, s: Server, clock: seq<Uuid>, faults: seq<Fault>)
    requires Decodable(Pending(c.rows)) && |clock| == |faults| == |Pending(c.rows)|
    ensures var (d, u) := AllServed(c, s, clock, faults);
            && d.rows == c.rows && |d.flights| == |c.flights| + 1
            && d.flights[|c.flights|].sent == Pending(c.rows) && d.flights[|c.flights|].written == 0
            && |d.flights[|c.flights|].results| == |clock|
            && Process(s.table, c.user, Attempts(Pending(c.rows), c.user, clock, faults))
                 == Outcome(u.table, d.flights[|c.flights|].results)
  {
    var b := ClientNext(c, s.table, Select(clock));
    var batch := Attempts(Pending(c.rows), c.user, clock, faults);
    EntriesAreProcessed(b, s, |c.flights|, faults, |faults|);
    assert batch[..|faults|] == batch;
  }

  // Selecting, serving all entries and writing all results in one go leaves table and
  // rows as a delivered round does; without the writing, as a lost reply does.
  lemma {:induction false} RoundIsItsSteps(c: Client, s: Server, clock: seq<Uuid>, faults: seq<Fault>)
    requires Pending(c.rows) != [] && Decodable(Pending(c.rows)) && |clock| == |faults| == |Pending(c.rows)|
    ensures var (d, u) := AllServed(c, s, clock, faults);
            && u.table == ServerAfter(s.table, c.rows, c.user, clock, faults, Delivered)
            && u.table == ServerAfter(s.table, c.rows, c.user, clock, faults, ReplyLost)
            && d.rows == RowsAfter(s.table, c.rows, c.user, clock, faults, ReplyLost)
            && |d.flights| == |c.flights| + 1
            && d.flights[|c.flights|].written == 0
            && |clock| == |d.flights[|c.flights|].results| == |d.flights[|c.flights|].sent|
            && ResultsWritten(d, u.table, |c.flights|, |clock|).rows
                 == RowsAfter(s.table, c.rows, c.user, clock, faults, Delivered)
  {
    var (d, u) := AllServed(c, s, clock, faults);
    AllServedAnswers(c, s, clock, faults);
    ResultsAreReceived(d, u.table, |c.flights|, |clock|);
  }
}
