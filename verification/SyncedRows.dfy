// When a row marked as synced is what the server has held.
module SyncedRows {
  import opened ClientDb
  import opened Int32
  import opened Models
  import opened NoteStore
  import opened Protocol
  import opened ServerHistory
  import opened SyncEngine
  import opened SyncService
  import opened Wrappers

  // ----- read off the run

  predicate SameText(r: NoteEntry, sent: NoteEntry) {
    r.titleCipher == sent.titleCipher && r.contentCipher == sent.contentCipher && r.nonce == sent.nonce
  }

  // The action writes a Success or a Conflict into the row with this id.
  predicate Rewrites(c: Client, a: Action, id: int) {
    a.Write? && Allowed(c, a) && var x := c.flights[a.f];
    x.sent[x.written].id == id && !x.results[x.written].Error?
  }

  // What the client can check before it writes: a Success meets the text it was sent for.
  predicate Meets(c: Client, a: Action, id: int)
    requires Rewrites(c, a, id)
  {
    var x := c.flights[a.f];
    x.results[x.written].Conflict? || forall r :: r in c.rows && r.id == id ==> SameText(r, x.sent[x.written])
  }

  // The latest receipt that was written into the row met it as it was sent.
  predicate LastReceiptMet(worlds: seq<World>, moves: seq<Move>, i: nat, k: int, id: int)
    requires i <= |moves| < |worlds|
  {
    if i == 0 then true
    else
      var w, m := worlds[i - 1], moves[i - 1];
      if m.client == k && k in w.clients && Rewrites(w.clients[k], m.action, id)
      then Meets(w.clients[k], m.action, id)
      else LastReceiptMet(worlds, moves, i - 1, k, id)
  }

  // ----- the invariant

  // The server has held another image at that version.
  ghost predicate Contradicted(held: History, s: Uuid, im: Image) {
    exists other :: Held(held, s, other) && other.version == im.version && other != im
  }

  ghost predicate Told(r: NoteEntry, held: History, met: bool) {
    r.isSynced ==>
      r.serverId.Some? &&
      if met then Held(held, r.serverId.value, RowImage(r)) else Contradicted(held, r.serverId.value, RowImage(r))
  }

  lemma ToldGrows(r: NoteEntry, held: History, more: History, met: bool)
    requires Grows(held, more) && Told(r, held, met)
    ensures Told(r, more, met)
  {
    if r.isSynced {
      var s: Uuid := r.serverId.value;
      if met {
        HeldGrows(held, more, s, RowImage(r));
      } else {
        var other :| Held(held, s, other) && other.version == r.version && other != RowImage(r);
        HeldGrows(held, more, s, other);
      }
    }
  }

  // What a receipt makes of a row, whatever has become of it since it was sent.
  lemma ReceiptTells(r: NoteEntry, sent: NoteEntry, clock: Uuid, result: SyncResult<Note>, held: History)
    requires ReplyOk(sent, clock, result, held) && !result.Error?
    ensures Told(Merge(r, result), held, result.Conflict? || SameText(r, sent))
  {
    if result.Success? && !SameText(r, sent) {
      assert RowImage(sent).(version := result.note.version) != RowImage(Merge(r, result));
    }
  }

  lemma RowBefore(c: Client, t: Table, a: Action, r: NoteEntry) returns (q: NoteEntry)
    requires Allowed(c, a) && r in ClientNext(c, t, a).rows && r.isSynced
    ensures q in c.rows && q.id == r.id
    ensures r == if Rewrites(c, a, r.id) then Merge(q, c.flights[a.f].results[c.flights[a.f].written]) else q
  {
    var d := ClientNext(c, t, a);
    if a.Delete? {
      WithoutRemoves(c.rows, a.id);
      q := r;
    } else {
      var i :| 0 <= i < |d.rows| && d.rows[i] == r;
      q := c.rows[i];
    }
  }

  lemma StepTells(c: Client, t: Table, a: Action, held: History, r: NoteEntry, q: NoteEntry)
    requires Allowed(c, a) && ClientOk(c, held) && Rewrites(c, a, q.id) && q in c.rows
    requires r == Merge(q, c.flights[a.f].results[c.flights[a.f].written])
    ensures Told(r, held, Meets(c, a, q.id))
  {
    var x := c.flights[a.f];
    assert FlightOk(x, held);
    ReceiptTells(q, x.sent[x.written], x.clock[x.written], x.results[x.written], held);
    assert forall o :: o in c.rows && o.id == q.id ==> o == q;
  }

  lemma {:induction false} RunTells(worlds: seq<World>, moves: seq<Move>, i: nat, k: int, r: NoteEntry)
    requires IsRun(worlds, moves) && i < |worlds| && HasRow(worlds[i], k, r)
    ensures Told(r, worlds[i].server.held, LastReceiptMet(worlds, moves, i, k, r.id))
  {
    if i > 0 && r.isSynced {
      var w, m := worlds[i - 1], moves[i - 1];
      RunKeeps(worlds, moves, i - 1);
      assert Leads(worlds, moves, i - 1);
      StepGrows(worlds, moves, i - 1);
      var q := r;
      if m.client == k {
        q := RowBefore(w.clients[k], w.server.table, m.action, r);
      }
      if m.client == k && Rewrites(w.clients[k], m.action, r.id) {
        assert ClientOk(w.clients[k], w.server.held);
        StepTells(w.clients[k], w.server.table, m.action, w.server.held, r, q);
      } else {
        RunTells(worlds, moves, i - 1, k, r);
        ToldGrows(r, w.server.held, worlds[i].server.held, LastReceiptMet(worlds, moves, i - 1, k, r.id));
      }
    }
  }

  // ----- the laws

  // In any run, with any number of rounds under way, edits at any time and anything
  // failing: a row marked as synced says, at its version, something the server has held
  // under its server id, provided its last receipt met it as it was sent.
  lemma SyncedRowsWereHeld(worlds: seq<World>, moves: seq<Move>, i: nat, k: int, r: NoteEntry)
    requires IsRun(worlds, moves) && i < |worlds| && HasRow(worlds[i], k, r) && r.isSynced
    ensures r.serverId.Some? && r.serverId.value in worlds[i].server.held
    ensures LastReceiptMet(worlds, moves, i, k, r.id) ==> Held(worlds[i].server.held, r.serverId.value, RowImage(r))
  {
    RunTells(worlds, moves, i, k, r);
  }

  // And only then, as long as versions do not repeat.
  lemma SyncedRowWasHeldIff(worlds: seq<World>, moves: seq<Move>, owner: Uuid -> Uuid, i: nat, k: int, r: NoteEntry)
    requires LawfulRun(worlds, moves, owner) && i < |worlds| && HasRow(worlds[i], k, r) && r.isSynced
    requires forall s :: r.serverId == Some(s) && s in worlds[i].server.held ==> |worlds[i].server.held[s]| <= SPAN
    ensures r.serverId.Some?
    ensures Held(worlds[i].server.held, r.serverId.value, RowImage(r)) <==> LastReceiptMet(worlds, moves, i, k, r.id)
  {
    RunTells(worlds, moves, i, k, r);
    var held, s := worlds[i].server.held, r.serverId.value;
    if !LastReceiptMet(worlds, moves, i, k, r.id) && Held(held, s, RowImage(r)) {
      var other :| Held(held, s, other) && other.version == r.version && other != RowImage(r);
      VersionNamesImage(worlds, moves, owner, i, s, RowImage(r), other);
    }
  }

  // Two rows synced at the same version of the same note, on whatever clients and at
  // whatever points of the run, the first of them by a receipt that met it: they hold the
  // same ciphertexts iff the second one's receipt met it as well.
  lemma SyncedRowsAgreeIff(worlds: seq<World>, moves: seq<Move>, owner: Uuid -> Uuid,
                           i: nat, k: int, r: NoteEntry, j: nat, l: int, q: NoteEntry)
    requires LawfulRun(worlds, moves, owner) && i < |worlds| && j < |worlds|
    requires HasRow(worlds[i], k, r) && HasRow(worlds[j], l, q) && r.isSynced && q.isSynced
    requires r.serverId == q.serverId && r.version == q.version
    requires var n := if i <= j then j else i;
             forall s :: r.serverId == Some(s) && s in worlds[n].server.held ==> |worlds[n].server.held[s]| <= SPAN
    requires LastReceiptMet(worlds, moves, i, k, r.id)
    ensures RowImage(r) == RowImage(q) <==> LastReceiptMet(worlds, moves, j, l, q.id)
  {
    var n := if i <= j then j else i;
    RunTells(worlds, moves, i, k, r);
    RunTells(worlds, moves, j, l, q);
    RunGrows(worlds, moves, i, n);
    RunGrows(worlds, moves, j, n);
    var held, s := worlds[n].server.held, r.serverId.value;
    HeldGrows(worlds[i].server.held, held, s, RowImage(r));
    if LastReceiptMet(worlds, moves, j, l, q.id) {
      HeldGrows(worlds[j].server.held, held, s, RowImage(q));
      VersionNamesImage(worlds, moves, owner, n, s, RowImage(r), RowImage(q));
    } else {
      var other :| Held(worlds[j].server.held, s, other) && other.version == q.version && other != RowImage(q);
      HeldGrows(worlds[j].server.held, held, s, other);
      VersionNamesImage(worlds, moves, owner, n, s, RowImage(r), other);
    }
  }

  // ----- when receipts meet their rows

  // The action rewrites the row: an edit, or a receipt of any round.
  predicate Disturbs(c: Client, a: Action, id: int) {
    (a.Edit? && a.id == id) || Rewrites(c, a, id)
  }

  ghost predicate Undisturbed(worlds: seq<World>, moves: seq<Move>, b: nat, m: nat, k: int, id: int)
    requires m <= |moves| < |worlds|
  {
    forall n :: b < n < m && moves[n].client == k && k in worlds[n].clients ==>
      !Disturbs(worlds[n].clients[k], moves[n].action, id)
  }

  // What is known at time n of the row that flight f sent at position p.
  ghost predicate AsSent(c: Client, f: nat, p: nat, sent: seq<NoteEntry>) {
    && f < |c.flights| && c.flights[f].sent == sent && p < |sent|
    && sent[p].id < c.nextId
    && forall r :: r in c.rows && r.id == sent[p].id ==> r == sent[p]
  }

  lemma StepLeavesAsSent(c: Client, t: Table, a: Action, f: nat, p: nat, sent: seq<NoteEntry>)
    requires Allowed(c, a) && Numbered(c.rows, c.nextId) && AsSent(c, f, p, sent) && !Disturbs(c, a, sent[p].id)
    ensures AsSent(ClientNext(c, t, a), f, p, sent)
  {
    var d := ClientNext(c, t, a);
    if a.Delete? {
      WithoutRemoves(c.rows, a.id);
    }
    forall r | r in d.rows && r.id == sent[p].id ensures r == sent[p] {
      var i :| 0 <= i < |d.rows| && d.rows[i] == r;
      if !a.Delete? && i < |c.rows| {
        assert c.rows[i] in c.rows;
      }
    }
  }

  lemma SelectedAsSent(c: Client, t: Table, a: Action, p: nat)
    requires a.Select? && Allowed(c, a) && Numbered(c.rows, c.nextId) && p < |Pending(c.rows)|
    ensures AsSent(ClientNext(c, t, a), |c.flights|, p, Pending(c.rows))
  {
    PendingSelects(c.rows);
    assert Pending(c.rows)[p] in Pending(c.rows);
  }

  lemma {:induction false} StaysAsSent(worlds: seq<World>, moves: seq<Move>, b: nat, m: nat, k: int, f: nat, p: nat)
    requires IsRun(worlds, moves) && b < m <= |moves|
    requires moves[b].client == k && moves[b].action.Select? && Leads(worlds, moves, b)
    requires f == |worlds[b].clients[k].flights| && p < |Pending(worlds[b].clients[k].rows)|
    requires Undisturbed(worlds, moves, b, m, k, Pending(worlds[b].clients[k].rows)[p].id)
    ensures k in worlds[m].clients && AsSent(worlds[m].clients[k], f, p, Pending(worlds[b].clients[k].rows))
  {
    var sent := Pending(worlds[b].clients[k].rows);
    if m == b + 1 {
      RunKeeps(worlds, moves, b);
      assert ClientOk(worlds[b].clients[k], worlds[b].server.held);
      SelectedAsSent(worlds[b].clients[k], worlds[b].server.table, moves[b].action, p);
    } else {
      StaysAsSent(worlds, moves, b, m - 1, k, f, p);
      RunKeeps(worlds, moves, m - 1);
      assert Leads(worlds, moves, m - 1);
      var w := worlds[m - 1];
      if moves[m - 1].client == k {
        assert ClientOk(w.clients[k], w.server.held);
        StepLeavesAsSent(w.clients[k], w.server.table, moves[m - 1].action, f, p, sent);
      }
    }
  }

  // A receipt meets its row unless, since the row was selected, it was edited or another
  // round has written into it.
  lemma UndisturbedRowsAreMet(worlds: seq<World>, moves: seq<Move>, b: nat, m: nat, k: int)
    requires IsRun(worlds, moves) && b < m < |moves|
    requires moves[b].client == moves[m].client == k && moves[b].action.Select? && moves[m].action.Write?
    requires Leads(worlds, moves, b) && Leads(worlds, moves, m)
    requires moves[m].action.f == |worlds[b].clients[k].flights|
    ensures var c, a := worlds[m].clients[k], moves[m].action;
            var id := c.flights[a.f].sent[c.flights[a.f].written].id;
            Undisturbed(worlds, moves, b, m, k, id) && Rewrites(c, a, id) ==> Meets(c, a, id)
  {
    var c, a := worlds[m].clients[k], moves[m].action;
    var f, p := a.f, c.flights[a.f].written;
    SentIsSelected(worlds, moves, b, m, k, f);
    if Undisturbed(worlds, moves, b, m, k, c.flights[f].sent[p].id) {
      StaysAsSent(worlds, moves, b, m, k, f, p);
    }
  }

  lemma {:induction false} SentIsSelected(worlds: seq<World>, moves: seq<Move>, b: nat, m: nat, k: int, f: nat)
    requires IsRun(worlds, moves) && b < m <= |moves|
    requires moves[b].client == k && moves[b].action.Select? && Leads(worlds, moves, b)
    requires f == |worlds[b].clients[k].flights|
    ensures k in worlds[m].clients && f < |worlds[m].clients[k].flights|
    ensures worlds[m].clients[k].flights[f].sent == Pending(worlds[b].clients[k].rows)
  {
    if m > b + 1 {
      SentIsSelected(worlds, moves, b, m - 1, k, f);
      assert Leads(worlds, moves, m - 1);
    }
  }

  lemma {:induction false} FlightWasSelected(worlds: seq<World>, moves: seq<Move>, i: nat, k: int, f: nat)
    returns (b: nat)
    requires IsRun(worlds, moves) && i < |worlds| && k in worlds[i].clients && f < |worlds[i].clients[k].flights|
    ensures b < i && moves[b].client == k && moves[b].action.Select? && k in worlds[b].clients
    ensures f == |worlds[b].clients[k].flights|
  {
    assert Leads(worlds, moves, i - 1);
    if f < |worlds[i - 1].clients[k].flights| {
      b := FlightWasSelected(worlds, moves, i - 1, k, f);
    } else {
      b := i - 1;
    }
  }

  // The write at m ends what the selection at b began, for one row.
  predicate Pairs(worlds: seq<World>, moves: seq<Move>, b: nat, m: nat, k: int, id: int)
    requires b < m < |moves| < |worlds|
  {
    && moves[b].client == moves[m].client == k && moves[b].action.Select? && moves[m].action.Write?
    && k in worlds[b].clients && k in worlds[m].clients
    && moves[m].action.f == |worlds[b].clients[k].flights|
    && Rewrites(worlds[m].clients[k], moves[m].action, id)
  }

  ghost predicate QuietRounds(worlds: seq<World>, moves: seq<Move>)
    requires |moves| < |worlds|
  {
    forall b: nat, m: nat, k, id :: b < m < |moves| && Pairs(worlds, moves, b, m, k, id) ==>
      Undisturbed(worlds, moves, b, m, k, id)
  }

  // So in a run where no row is edited or written by another round while its own push is
  // under way, every row marked as synced is what the server has held.
  lemma {:induction false} QuietRoundsAreTruthful(worlds: seq<World>, moves: seq<Move>, i: nat, k: int, id: int)
    requires IsRun(worlds, moves) && QuietRounds(worlds, moves) && i < |worlds|
    ensures LastReceiptMet(worlds, moves, i, k, id)
  {
    if i > 0 {
      var w, m := worlds[i - 1], moves[i - 1];
      QuietRoundsAreTruthful(worlds, moves, i - 1, k, id);
      if m.client == k && k in w.clients && Rewrites(w.clients[k], m.action, id) {
        var b := FlightWasSelected(worlds, moves, i - 1, k, m.action.f);
        assert Pairs(worlds, moves, b, i - 1, k, id);
        assert Leads(worlds, moves, b) && Leads(worlds, moves, i - 1);
        UndisturbedRowsAreMet(worlds, moves, b, i - 1, k);
      }
    }
  }
}
