// What a client may rely on in every world that a run leads to, with any number of rounds
// under way.
module Guarantees {
  import opened ClientDb
  import opened Edits
  import opened Int32
  import opened LostReplies
  import opened Models
  import opened Protocol
  import opened ServerHistory
  import opened SyncRounds
  import opened SyncedRows
  import opened Wrappers

  // The rows of a client in a reachable world are in order, and the server has the note
  // that a server id names.
  lemma ReachableRow(worlds: seq<World>, moves: seq<Move>, owner: Uuid -> Uuid, n: nat, k: int, i: nat)
    requires IsRun(worlds, moves) && Respected(worlds, moves, owner) && n < |worlds| && k in worlds[n].clients
    requires i < |worlds[n].clients[k].rows| && worlds[n].clients[k].rows[i].serverId.Some?
    ensures var c := worlds[n].clients[k];
            DistinctRows(c.rows) && Owns(worlds[n].server.table, c.user, c.rows[i].serverId.value)
  {
    RunKeeps(worlds, moves, n);
    var c := worlds[n].clients[k];
    assert ClientOk(c, worlds[n].server.held);
    ServerIdsAreFound(worlds, moves, owner, n, k, c.rows[i]);
  }

  // Losing the replies to any number of pushes makes no difference to a row that goes out
  // alone under its server id, nor to its server note.
  lemma LostRepliesInAnyRun(worlds: seq<World>, moves: seq<Move>, owner: Uuid -> Uuid, n: nat,
                                               k: int, tries: seq<Try>, last: Try, direct: Try, i: nat, j: nat, s: Uuid)
    requires IsRun(worlds, moves) && Respected(worlds, moves, owner) && n < |worlds| && k in worlds[n].clients
    requires var rows := worlds[n].clients[k].rows;
             && Queued(rows, i, j) && rows[i].serverId == Some(s) && AllFit(rows, tries)
             && (forall q :: 0 <= q < |tries| ==> Solo(rows, tries[q], j, s))
             && Solo(rows, last, j, s) && last.faults[j].upsertOk
             && Solo(rows, direct, j, s) && direct.faults[j].upsertOk
    ensures var c, t := worlds[n].clients[k], worlds[n].server.table;
            var u := LostPushes(t, c.rows, c.user, tries);
            && RowsNext(u, c.rows, c.user, last)[i] == RowsNext(t, c.rows, c.user, direct)[i]
            && s in Served(u, c.rows, c.user, last) && s in Served(t, c.rows, c.user, direct)
            && ImageOf(Served(u, c.rows, c.user, last)[s]) == ImageOf(Served(t, c.rows, c.user, direct)[s])
  {
    var c := worlds[n].clients[k];
    ReachableRow(worlds, moves, owner, n, k, i);
    LostRepliesAreHarmless(worlds[n].server.table, c.rows, c.user, tries, last, direct, i, j, s);
  }

  // With rivals under the same server id, losing replies makes no difference to the row,
  // or to the note, iff no entry sent again in the meantime carries the version at which
  // the row, or the note, was left at first.
  lemma LostRepliesMatterInAnyRun(worlds: seq<World>, moves: seq<Move>, owner: Uuid -> Uuid,
                                                     n: nat, k: int, first: Try, lost: seq<Try>, last: Try,
                                                     i: nat, j: nat, s: Uuid)
    requires IsRun(worlds, moves) && Respected(worlds, moves, owner) && n < |worlds| && k in worlds[n].clients
    requires var c := worlds[n].clients[k];
             && Queued(c.rows, i, j) && c.rows[i].serverId == Some(s)
             && Sendings(c.rows, c.user, first, lost, last, s)
             && first.faults[j].upsertOk && last.faults[j].upsertOk
    ensures var c, t := worlds[n].clients[k], worlds[n].server.table;
            && NoteKeptIff(t, c.rows, c.user, first, lost, last, s)
            && RowKeptIff(t, c.rows, c.user, first, lost, last, i, j, s)
  {
    var c, t := worlds[n].clients[k], worlds[n].server.table;
    ReachableRow(worlds, moves, owner, n, k, i);
    ResendLeavesNoteIff(t, c.rows, c.user, first, lost, last, s);
    LostRepliesMatterIff(t, c.rows, c.user, first, lost, last, i, j, s);
  }

  // Take a synced row whose last receipt met it, and which is up to date with the server.
  // Edit it any number of times and let one round be answered, with any rivals. If the
  // edits keep the server id, the row is back at what it said before, iff no rival that is
  // pushed before it carries the old version and gets through. Whether they keep it or
  // not, the server's note stays as it is iff no entry at all does.
  lemma EditsOfACurrentRow(worlds: seq<World>, moves: seq<Move>, owner: Uuid -> Uuid, n: nat, k: int,
                                              i: nat, j: nat, s: Uuid, g: Uuid, changes: seq<Change>, resets: bool,
                                              x: Try)
    requires LawfulRun(worlds, moves, owner) && n < |worlds| && k in worlds[n].clients
    requires var c, t := worlds[n].clients[k], worlds[n].server.table;
             && i < |c.rows| && c.rows[i].isSynced && c.rows[i].serverId == Some(s)
             && LastReceiptMet(worlds, moves, n, k, c.rows[i].id)
             && s in t && t[s].version == c.rows[i].version
             && (s in worlds[n].server.held ==> |worlds[n].server.held[s]| <= SPAN)
             && var rows := c.rows[i := EditedBy(c.rows[i], changes, resets)];
             && EditedRow(t, rows, c.user, x, i, j, g, c.rows[i], changes, resets)
             && Sees(c.user, Batch(rows, c.user, x), s) && |Pending(rows)| < SPAN
    ensures var c, t := worlds[n].clients[k], worlds[n].server.table;
            var r := c.rows[i];
            var rows := c.rows[i := EditedBy(r, changes, resets)];
            var b, u := Batch(rows, c.user, x), Served(t, rows, c.user, x);
            && s in u && (ImageOf(u[s]) == ImageOf(t[s]) <==> Misses(c.user, b, s, r.version))
            && (!resets ==> (RowImage(RowsNext(t, rows, c.user, x)[i]) == RowImage(r)
                             <==> Misses(c.user, b[..j], s, r.version)))
            && MeetsNote(t, rows, c.user, x, i, j, g)
  {
    var c, t := worlds[n].clients[k], worlds[n].server.table;
    var r := c.rows[i];
    ReachableRow(worlds, moves, owner, n, k, i);
    RunKeeps(worlds, moves, n);
    SyncedRowsWereHeld(worlds, moves, n, k, r);
    VersionsStayLawful(worlds, moves, owner, n);
    assert RowOk(t[s], worlds[n].server.held[s], s, owner);
    VersionNamesImage(worlds, moves, owner, n, s, RowImage(r), ImageOf(t[s]));
    QuietEdits(t, c.rows[i := EditedBy(r, changes, resets)], c.user, x, i, j, g, s, r, changes, resets);
    EditsAreTakenIff(t, c.rows[i := EditedBy(r, changes, resets)], c.user, x, i, j, g, r, changes, resets);
  }

  // Edit a row that has a server id, with a delivered round after each edit, and let the
  // edits reset the id: the server ends up with one more note for each of them, all saying
  // what was written then, next to the first one, which has not changed.
  lemma ResetEditsForkInAnyRun(worlds: seq<World>, moves: seq<Move>, owner: Uuid -> Uuid, n: nat,
                                                  k: int, i: nat, s: Uuid, revisions: seq<Revision>)
    requires IsRun(worlds, moves) && Respected(worlds, moves, owner) && n < |worlds| && k in worlds[n].clients
    requires var c := worlds[n].clients[k];
             && i < |c.rows| && c.rows[i].serverId == Some(s)
             && AllClean(Pair(worlds[n].server.table, c.rows), c.user, i, revisions)
    ensures var c := worlds[n].clients[k];
            var d := Pair(worlds[n].server.table, c.rows);
            var e := AfterAll(d, c.user, i, revisions);
            && |IdsOf(d, c.user, i, revisions)| == |revisions| + 1
            && (forall o :: o in IdsOf(d, c.user, i, revisions) ==> o.Some? && o.value in e.table)
            && s in d.table && s in e.table && e.table[s] == d.table[s]
            && forall q :: 0 <= q < |revisions| ==> Kept(d, c.user, i, revisions, q)
  {
    var c := worlds[n].clients[k];
    var d := Pair(worlds[n].server.table, c.rows);
    ReachableRow(worlds, moves, owner, n, k, i);
    ResetEditsFork(d, c.user, i, s, revisions);
    forall q | 0 <= q < |revisions| ensures Kept(d, c.user, i, revisions, q) {
      ForksKeepTheirText(d, c.user, i, s, revisions, q);
    }
  }
}
