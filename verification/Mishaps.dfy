// Runs in which a row marked as synced says what the server has never held. Both end with
// a Success that meets another text than the one it was sent for.
module Mishaps {
  import opened ClientDb
  import opened Envelope
  import opened Models
  import opened NoteStore
  import opened Protocol
  import opened ServerHistory
  import opened SyncEngine
  import opened SyncRoute
  import opened SyncService
  import opened Wrappers

  const FINE := Fault(true, true, 0)

  // ----- clients of user 1 with one row, pushed under clock reading 5

  function One(r: NoteEntry, flights: seq<Flight>): Client {
    Client(1, [r], 2, flights)
  }

  function Sent(r: NoteEntry): Flight {
    Flight([r], [5], [], 0)
  }

  function Answered(r: NoteEntry, result: SyncResult<Note>): Flight {
    Flight([r], [5], [result], 0)
  }

  function Done(r: NoteEntry, result: SyncResult<Note>): Flight {
    Flight([r], [5], [result], 1)
  }

  predicate IsNew(r: NoteEntry) {
    r.id == 1 && !r.isSynced && r.serverId.None? && r.version == 1
  }

  function Entry(r: NoteEntry): Attempt
    requires IsNew(r)
  {
    Attempt(PayloadEntry(r, 1, 5), true, true, 0)
  }

  lemma Selecting(r: NoteEntry, flights: seq<Flight>, t: Table)
    requires IsNew(r)
    ensures Allowed(One(r, flights), Select([5]))
    ensures ClientNext(One(r, flights), t, Select([5])) == One(r, flights + [Sent(r)])
  {
    assert [r][..0] == [];
    assert Pending([r]) == [r];
  }

  lemma Serving(s: Server, r: NoteEntry, q: NoteEntry, flights: seq<Flight>, f: nat)
    requires f < |flights| && flights[f] == Sent(q) && IsNew(q)
    ensures var c, a := One(r, flights), Serve(f, FINE);
            && Allowed(c, a) && ServerNext(s, c, a) == ServeEntry(s, 1, Entry(q))
            && ClientNext(c, s.table, a) == One(r, flights[f := Answered(q, SyncEntry(s.table, 1, Entry(q)).result)])
  {
    var result := SyncEntry(s.table, 1, Entry(q)).result;
    assert Outgoing(One(r, flights), f, FINE) == Entry(q);
    assert [] + [result] == [result];
  }

  lemma Writing(r: NoteEntry, q: NoteEntry, result: SyncResult<Note>, flights: seq<Flight>, f: nat, t: Table)
    requires f < |flights| && flights[f] == Answered(q, result) && q.id == r.id
    ensures Allowed(One(r, flights), Write(f))
    ensures ClientNext(One(r, flights), t, Write(f)) == One(Merge(r, result), flights[f := Done(q, result)])
  {
    assert WriteBack([r], q.id, result) == [Merge(r, result)];
  }

  lemma Saving(title: SecretBox, content: SecretBox, t: Table)
    requires |title.nonce| == |content.nonce| == NONCE_LENGTH
    ensures Allowed(Client(1, [], 1, []), Save(title, content, 0))
    ensures ClientNext(Client(1, [], 1, []), t, Save(title, content, 0))
         == One(NewRow(1, Build(title), Build(content), 0), [])
  {
    var r := NewRow(1, Build(title), Build(content), 0);
    assert [] + [r] == [r];
  }

  lemma Editing(q: NoteEntry, y: SecretBox, z: SecretBox, resets: bool, flights: seq<Flight>, t: Table)
    requires |y.nonce| == |z.nonce| == NONCE_LENGTH && q.id == 1
    ensures Allowed(One(q, flights), Edit(1, y, z, Some(1), 1, resets))
    ensures ClientNext(One(q, flights), t, Edit(1, y, z, Some(1), 1, resets))
         == One(Edited(q, Build(y), Build(z), Some(1), 1, resets), flights)
  {
    assert EditRows([q], 1, Build(y), Build(z), Some(1), 1, resets)
        == [Edited(q, Build(y), Build(z), Some(1), 1, resets)];
  }

  lemma Moving(worlds: seq<World>, moves: seq<Move>, i: nat, d: Client, s: Server)
    requires i < |moves| < |worlds| && Enabled(worlds[i], moves[i])
    requires ClientNext(worlds[i].clients[moves[i].client], worlds[i].server.table, moves[i].action) == d
    requires ServerNext(worlds[i].server, worlds[i].clients[moves[i].client], moves[i].action) == s
    requires worlds[i + 1] == World(s, worlds[i].clients[moves[i].client := d])
    ensures Leads(worlds, moves, i)
  {
  }

  // The server after the note has been created.
  function Holding(r: NoteEntry): Server
    requires IsNew(r)
  {
    var n := PayloadEntry(r, 1, 5);
    Server(map[5 := Note(5, 1, n.titleCipher, n.contentCipher, n.nonce, 1, "markdown", [], 0, 0, None)],
           map[5 := [RowImage(r)]])
  }

  lemma Creating(r: NoteEntry)
    requires IsNew(r)
    ensures ServeEntry(EMPTY, 1, Entry(r)) == Holding(r)
    ensures SyncEntry(EMPTY.table, 1, Entry(r)).result == Success(PayloadEntry(r, 1, 5))
  {
    assert [] + [RowImage(r)] == [RowImage(r)];
  }

  // ----- an edit while the reply is on its way

  function EditWorlds(r: NoteEntry, e: NoteEntry): seq<World>
    requires IsNew(r) && e.id == 1
  {
    var ok := Success(PayloadEntry(r, 1, 5));
    [World(EMPTY, map[0 := Client(1, [], 1, [])]),
     World(EMPTY, map[0 := One(r, [])]),
     World(EMPTY, map[0 := One(r, [Sent(r)])]),
     World(Holding(r), map[0 := One(r, [Answered(r, ok)])]),
     World(Holding(r), map[0 := One(e, [Answered(r, ok)])]),
     World(Holding(r), map[0 := One(Merge(e, ok), [Done(r, ok)])])]
  }

  function EditMoves(x: SecretBox, y: SecretBox, z: SecretBox, resets: bool): seq<Move> {
    [Move(0, Save(x, z, 0)), Move(0, Select([5])), Move(0, Serve(0, FINE)),
     Move(0, Edit(1, y, z, Some(1), 1, resets)), Move(0, Write(0))]
  }

  lemma EditLeads(x: SecretBox, y: SecretBox, z: SecretBox, resets: bool, i: nat)
    requires |x.nonce| == |y.nonce| == |z.nonce| == NONCE_LENGTH && i < 5
    ensures var q := NewRow(1, Build(x), Build(z), 0);
            Leads(EditWorlds(q, Edited(q, Build(y), Build(z), Some(1), 1, resets)), EditMoves(x, y, z, resets), i)
  {
    var q := NewRow(1, Build(x), Build(z), 0);
    var e := Edited(q, Build(y), Build(z), Some(1), 1, resets);
    var worlds, moves := EditWorlds(q, e), EditMoves(x, y, z, resets);
    var ok := Success(PayloadEntry(q, 1, 5));
    match i {
      case 0 =>
        Saving(x, z, EMPTY.table);
        Moving(worlds, moves, i, One(q, []), EMPTY);
      case 1 =>
        Selecting(q, [], EMPTY.table);
        assert [] + [Sent(q)] == [Sent(q)];
        Moving(worlds, moves, i, One(q, [Sent(q)]), EMPTY);
      case 2 =>
        Serving(EMPTY, q, q, [Sent(q)], 0);
        Creating(q);
        assert [Sent(q)][0 := Answered(q, ok)] == [Answered(q, ok)];
        Moving(worlds, moves, i, One(q, [Answered(q, ok)]), Holding(q));
      case 3 =>
        Editing(q, y, z, resets, [Answered(q, ok)], Holding(q).table);
        Moving(worlds, moves, i, One(e, [Answered(q, ok)]), Holding(q));
      case _ =>
        Writing(e, q, ok, [Answered(q, ok)], 0, Holding(q).table);
        assert [Answered(q, ok)][0 := Done(q, ok)] == [Done(q, ok)];
        Moving(worlds, moves, i, One(Merge(e, ok), [Done(q, ok)]), Holding(q));
    }
  }

  // A note is saved and pushed, edited while the reply is on its way, and then marked as
  // synced by that reply: with the edited text, which has not left the device.
  lemma EditInFlightRun(x: SecretBox, y: SecretBox, z: SecretBox, resets: bool)
    returns (worlds: seq<World>, moves: seq<Move>, r: NoteEntry)
    requires |x.nonce| == |y.nonce| == |z.nonce| == NONCE_LENGTH && Build(x) != Build(y)
    ensures IsRun(worlds, moves) && HasRow(worlds[|moves|], 0, r)
    ensures r.isSynced && r.serverId == Some(5) && r.titleCipher == Build(y)
    ensures !Held(worlds[|moves|].server.held, 5, RowImage(r))
  {
    var q := NewRow(1, Build(x), Build(z), 0);
    var e := Edited(q, Build(y), Build(z), Some(1), 1, resets);
    worlds, moves := EditWorlds(q, e), EditMoves(x, y, z, resets);
    forall i | 0 <= i < |moves| ensures Leads(worlds, moves, i) {
      EditLeads(x, y, z, resets, i);
    }
    r := Merge(e, Success(PayloadEntry(q, 1, 5)));
    assert worlds[5].clients[0].rows == [r];
  }

  // ----- two rounds of one device under way at once

  // The server after q's entry has been taken on top of r's.
  function Overtaken(r: NoteEntry, q: NoteEntry): Server
    requires IsNew(r) && IsNew(q)
  {
    ServeEntry(Holding(r), 1, Entry(q))
  }

  lemma Overtaking(r: NoteEntry, q: NoteEntry)
    requires IsNew(r) && IsNew(q)
    ensures var u := Overtaken(r, q);
            && 5 in u.table && u.table[5].id == 5 && ImageOf(u.table[5]) == RowImage(q).(version := 2)
            && u.held == map[5 := [RowImage(r), RowImage(q).(version := 2)]]
            && SyncEntry(u.table, 1, Entry(r)).result == Conflict(u.table[5])
            && ServeEntry(u, 1, Entry(r)) == u
  {
    assert [RowImage(r)] + [RowImage(q).(version := 2)] == [RowImage(r), RowImage(q).(version := 2)];
  }

  function OverlapWorlds(r: NoteEntry, q: NoteEntry): seq<World>
    requires IsNew(r) && IsNew(q)
  {
    var new_ := Client(1, [], 1, []);
    var u := Overtaken(r, q);
    var ok, yes := Success(PayloadEntry(r, 1, 5)), SyncEntry(Holding(r).table, 1, Entry(q)).result;
    var no := SyncEntry(u.table, 1, Entry(r)).result;
    var far := One(q, [Answered(q, yes)]);
    [World(EMPTY, map[0 := new_, 1 := new_]),
     World(EMPTY, map[0 := One(r, []), 1 := new_]),
     World(EMPTY, map[0 := One(r, []), 1 := One(q, [])]),
     World(EMPTY, map[0 := One(r, [Sent(r)]), 1 := One(q, [])]),
     World(EMPTY, map[0 := One(r, [Sent(r), Sent(r)]), 1 := One(q, [])]),
     World(EMPTY, map[0 := One(r, [Sent(r), Sent(r)]), 1 := One(q, [Sent(q)])]),
     World(Holding(r), map[0 := One(r, [Answered(r, ok), Sent(r)]), 1 := One(q, [Sent(q)])]),
     World(u, map[0 := One(r, [Answered(r, ok), Sent(r)]), 1 := far]),
     World(u, map[0 := One(r, [Answered(r, ok), Answered(r, no)]), 1 := far]),
     World(u, map[0 := One(Merge(r, no), [Answered(r, ok), Done(r, no)]), 1 := far]),
     World(u, map[0 := One(Merge(Merge(r, no), ok), [Done(r, ok), Done(r, no)]), 1 := far])]
  }

  function OverlapMoves(x: SecretBox, y: SecretBox, z: SecretBox): seq<Move> {
    [Move(0, Save(x, z, 0)), Move(1, Save(y, z, 0)),
     Move(0, Select([5])), Move(0, Select([5])), Move(1, Select([5])),
     Move(0, Serve(0, FINE)), Move(1, Serve(0, FINE)), Move(0, Serve(1, FINE)),
     Move(0, Write(1)), Move(0, Write(0))]
  }

  lemma OverlapStart(x: SecretBox, y: SecretBox, z: SecretBox, i: nat)
    requires |x.nonce| == |y.nonce| == |z.nonce| == NONCE_LENGTH && i < 5
    ensures var r, q := NewRow(1, Build(x), Build(z), 0), NewRow(1, Build(y), Build(z), 0);
            Leads(OverlapWorlds(r, q), OverlapMoves(x, y, z), i)
  {
    var r, q := NewRow(1, Build(x), Build(z), 0), NewRow(1, Build(y), Build(z), 0);
    var worlds, moves := OverlapWorlds(r, q), OverlapMoves(x, y, z);
    match i {
      case 0 =>
        Saving(x, z, EMPTY.table);
        Moving(worlds, moves, i, One(r, []), EMPTY);
      case 1 =>
        Saving(y, z, EMPTY.table);
        Moving(worlds, moves, i, One(q, []), EMPTY);
      case 2 =>
        Selecting(r, [], EMPTY.table);
        assert [] + [Sent(r)] == [Sent(r)];
        Moving(worlds, moves, i, One(r, [Sent(r)]), EMPTY);
      case 3 =>
        Selecting(r, [Sent(r)], EMPTY.table);
        assert [Sent(r)] + [Sent(r)] == [Sent(r), Sent(r)];
        Moving(worlds, moves, i, One(r, [Sent(r), Sent(r)]), EMPTY);
      case _ =>
        Selecting(q, [], EMPTY.table);
        assert [] + [Sent(q)] == [Sent(q)];
        Moving(worlds, moves, i, One(q, [Sent(q)]), EMPTY);
    }
  }

  lemma OverlapServed(x: SecretBox, y: SecretBox, z: SecretBox, i: nat)
    requires |x.nonce| == |y.nonce| == |z.nonce| == NONCE_LENGTH && 5 <= i < 8
    ensures var r, q := NewRow(1, Build(x), Build(z), 0), NewRow(1, Build(y), Build(z), 0);
            Leads(OverlapWorlds(r, q), OverlapMoves(x, y, z), i)
  {
    var r, q := NewRow(1, Build(x), Build(z), 0), NewRow(1, Build(y), Build(z), 0);
    var worlds, moves := OverlapWorlds(r, q), OverlapMoves(x, y, z);
    var u, ok := Overtaken(r, q), Success(PayloadEntry(r, 1, 5));
    match i {
      case 5 =>
        Creating(r);
        Serving(EMPTY, r, r, [Sent(r), Sent(r)], 0);
        assert [Sent(r), Sent(r)][0 := Answered(r, ok)] == [Answered(r, ok), Sent(r)];
        Moving(worlds, moves, i, One(r, [Answered(r, ok), Sent(r)]), Holding(r));
      case 6 =>
        var yes := SyncEntry(Holding(r).table, 1, Entry(q)).result;
        Serving(Holding(r), q, q, [Sent(q)], 0);
        assert [Sent(q)][0 := Answered(q, yes)] == [Answered(q, yes)];
        Moving(worlds, moves, i, One(q, [Answered(q, yes)]), u);
      case _ =>
        var no := SyncEntry(u.table, 1, Entry(r)).result;
        Overtaking(r, q);
        Serving(u, r, r, [Answered(r, ok), Sent(r)], 1);
        assert [Answered(r, ok), Sent(r)][1 := Answered(r, no)] == [Answered(r, ok), Answered(r, no)];
        Moving(worlds, moves, i, One(r, [Answered(r, ok), Answered(r, no)]), u);
    }
  }

  lemma OverlapWritten(x: SecretBox, y: SecretBox, z: SecretBox, i: nat)
    requires |x.nonce| == |y.nonce| == |z.nonce| == NONCE_LENGTH && 8 <= i < 10
    ensures var r, q := NewRow(1, Build(x), Build(z), 0), NewRow(1, Build(y), Build(z), 0);
            Leads(OverlapWorlds(r, q), OverlapMoves(x, y, z), i)
  {
    var r, q := NewRow(1, Build(x), Build(z), 0), NewRow(1, Build(y), Build(z), 0);
    var worlds, moves := OverlapWorlds(r, q), OverlapMoves(x, y, z);
    var u, ok := Overtaken(r, q), Success(PayloadEntry(r, 1, 5));
    var no := SyncEntry(u.table, 1, Entry(r)).result;
    if i == 8 {
      Writing(r, r, no, [Answered(r, ok), Answered(r, no)], 1, u.table);
      assert [Answered(r, ok), Answered(r, no)][1 := Done(r, no)] == [Answered(r, ok), Done(r, no)];
      Moving(worlds, moves, i, One(Merge(r, no), [Answered(r, ok), Done(r, no)]), u);
    } else {
      Writing(Merge(r, no), r, ok, [Answered(r, ok), Done(r, no)], 0, u.table);
      assert [Answered(r, ok), Done(r, no)][0 := Done(r, ok)] == [Done(r, ok), Done(r, no)];
      Moving(worlds, moves, i, One(Merge(Merge(r, no), ok), [Done(r, ok), Done(r, no)]), u);
    }
  }

  // Two devices of one user and no edit at all. The first one's note goes out in two
  // rounds, since each operation starts one, under one clock reading; the second one's
  // note happens to go out under the same. The first round creates the note, the second
  // device updates it, the second round gets Conflict. That reply is written first, and
  // then the first round's Success: the row has the other device's text at version 1.
  lemma OverlappingRoundsRun(x: SecretBox, y: SecretBox, z: SecretBox)
    returns (worlds: seq<World>, moves: seq<Move>, r: NoteEntry)
    requires |x.nonce| == |y.nonce| == |z.nonce| == NONCE_LENGTH && Build(x) != Build(y)
    ensures IsRun(worlds, moves) && HasRow(worlds[|moves|], 0, r)
    ensures r.isSynced && r.serverId == Some(5) && r.titleCipher == Build(y)
    ensures !Held(worlds[|moves|].server.held, 5, RowImage(r))
    ensures forall m :: m in moves ==> !m.action.Edit?
  {
    var a, b := NewRow(1, Build(x), Build(z), 0), NewRow(1, Build(y), Build(z), 0);
    worlds, moves := OverlapWorlds(a, b), OverlapMoves(x, y, z);
    forall i | 0 <= i < |moves| ensures Leads(worlds, moves, i) {
      if i < 5 {
        OverlapStart(x, y, z, i);
      } else if i < 8 {
        OverlapServed(x, y, z, i);
      } else {
        OverlapWritten(x, y, z, i);
      }
    }
    Overtaking(a, b);
    var u := Overtaken(a, b);
    r := Merge(Merge(a, Conflict(u.table[5])), Success(PayloadEntry(a, 1, 5)));
    assert worlds[10].clients[0].rows == [r];
  }
}
