// Local edits of a synced row, and what the next rounds make of them. `resets` tells
// whether an edit drops the row's server id.
module Edits {
  import opened ClientDb
  import opened Int32
  import opened LostReplies
  import opened Models
  import opened NoteStore
  import opened SyncEngine
  import opened SyncRoute
  import opened SyncRounds
  import opened SyncService
  import opened Wrappers

  datatype Change = Change(title: Bytes, content: Bytes, now: Time)

  // Each edit is made on the version that the previous one left.
  function EditedBy(r: NoteEntry, changes: seq<Change>, resets: bool): NoteEntry {
    if changes == [] then r
    else
      var before, c := EditedBy(r, changes[..|changes| - 1], resets), changes[|changes| - 1];
      Edited(before, c.title, c.content, Some(before.version), c.now, resets)
  }

  lemma {:induction false} EditsCount(r: NoteEntry, changes: seq<Change>, resets: bool)
    ensures var e := EditedBy(r, changes, resets);
            e.id == r.id && e.version == r.version + |changes|
            && (changes != [] ==> !e.isSynced && e.serverId == if resets then None else r.serverId)
  {
    if changes != [] {
      EditsCount(r, changes[..|changes| - 1], resets);
    }
  }

  // ----- which of several entries for one note are taken

  function VersionOf(t: Table, g: Uuid): Option<I32> {
    if g in t then Some(t[g].version) else None
  }

  // An entry gets through if its upsert works and it carries the version the note is at,
  // or no note is to be seen.
  predicate Taken(v: Option<I32>, a: Attempt) {
    a.upsertOk && (!a.fetchOk || v.None? || v.value == a.entry.version)
  }

  // The version of note g after these entries, read off the versions they carry.
  function VersionAfter(v: Option<I32>, user: Uuid, attempts: seq<Attempt>, g: Uuid): Option<I32> {
    if attempts == [] then v
    else
      var a := attempts[|attempts| - 1];
      var before := VersionAfter(v, user, attempts[..|attempts| - 1], g);
      if !Names(user, a, g) || !Taken(before, a) then before
      else if !a.fetchOk || before.None? then Some(a.entry.version)
      else Some(Bump(a.entry.version))
  }

  ghost predicate NoneTaken(v: Option<I32>, user: Uuid, attempts: seq<Attempt>, g: Uuid) {
    forall k :: 0 <= k < |attempts| && Names(user, attempts[k], g) ==>
      !Taken(VersionAfter(v, user, attempts[..k], g), attempts[k])
  }

  lemma EntryTracked(t: Table, user: Uuid, a: Attempt, g: Uuid)
    requires g in t ==> Owns(t, user, g)
    ensures var step, v := SyncEntry(t, user, a), VersionOf(t, g);
            && (g in step.table ==> Owns(step.table, user, g))
            && (!Names(user, a, g) || !Taken(v, a) ==> Agree(t, step.table, g))
            && (Names(user, a, g) ==> (step.result.Success? <==> Taken(v, a)))
            && (Names(user, a, g) && Taken(v, a) ==>
                  VersionOf(step.table, g)
                    == Some(if !a.fetchOk || v.None? then a.entry.version else Bump(a.entry.version)))
  {
  }

  // Rivals and failing statements included, that is the version.
  lemma {:induction false} VersionIsTracked(t: Table, user: Uuid, attempts: seq<Attempt>, g: Uuid)
    requires g in t ==> Owns(t, user, g)
    ensures var u := Process(t, user, attempts).table;
            (g in u ==> Owns(u, user, g)) && VersionOf(u, g) == VersionAfter(VersionOf(t, g), user, attempts, g)
  {
    if attempts != [] {
      var front := attempts[..|attempts| - 1];
      VersionIsTracked(t, user, front, g);
      EntryTracked(Process(t, user, front).table, user, attempts[|attempts| - 1], g);
    }
  }

  lemma NoneTakenBefore(v: Option<I32>, user: Uuid, attempts: seq<Attempt>, g: Uuid)
    requires attempts != [] && NoneTaken(v, user, attempts, g)
    ensures NoneTaken(v, user, attempts[..|attempts| - 1], g)
  {
    var front := attempts[..|attempts| - 1];
    forall k | 0 <= k < |front| && Names(user, front[k], g)
      ensures !Taken(VersionAfter(v, user, front[..k], g), front[k])
    {
      assert front[..k] == attempts[..k] && front[k] == attempts[k];
    }
  }

  // Without an entry that gets through, the note is not touched.
  lemma {:induction false} NoneTakenLeaves(t: Table, user: Uuid, attempts: seq<Attempt>, g: Uuid)
    requires (g in t ==> Owns(t, user, g)) && NoneTaken(VersionOf(t, g), user, attempts, g)
    ensures Agree(t, Process(t, user, attempts).table, g)
  {
    if attempts != [] {
      var n := |attempts| - 1;
      NoneTakenBefore(VersionOf(t, g), user, attempts, g);
      NoneTakenLeaves(t, user, attempts[..n], g);
      VersionIsTracked(t, user, attempts[..n], g);
      EntryTracked(Process(t, user, attempts[..n]).table, user, attempts[n], g);
    }
  }

  // So of several entries for one note, exactly those are told Success that carry the
  // version which the ones before have left.
  lemma TakenIff(t: Table, user: Uuid, batch: seq<Attempt>, g: Uuid, k: nat)
    requires (g in t ==> Owns(t, user, g)) && k < |batch| && Names(user, batch[k], g)
    ensures var v := VersionAfter(VersionOf(t, g), user, batch[..k], g);
            Process(t, user, batch).results[k].Success? <==> Taken(v, batch[k])
  {
    VersionIsTracked(t, user, batch[..k], g);
    ResultAt(t, user, batch, k);
  }

  // ----- edits, then one round

  // Row i is row r after some edits, and the j-th to be pushed. It goes out under g: under
  // its old server id, or under a clock reading if the edits reset that. Others may too.
  ghost predicate EditedRow(t: Table, rows: seq<NoteEntry>, user: Uuid, x: Try, i: nat, j: nat, g: Uuid,
                            r: NoteEntry, changes: seq<Change>, resets: bool) {
    && DistinctRows(rows) && Queued(rows, i, j) && rows[i] == EditedBy(r, changes, resets) && changes != []
    && Fits(rows, x) && Carries(rows, x, j, g) && (g in t ==> Owns(t, user, g))
  }

  // The version of note g when the edited row has its turn.
  function VersionAtTurn(t: Table, rows: seq<NoteEntry>, user: Uuid, x: Try, j: nat, g: Uuid): Option<I32>
    requires Fits(rows, x) && j < |Pending(rows)|
  {
    VersionAfter(VersionOf(t, g), user, Batch(rows, user, x)[..j], g)
  }

  // What becomes of row i, the j-th to be pushed, which goes out under g.
  ghost predicate MeetsNote(t: Table, rows: seq<NoteEntry>, user: Uuid, x: Try, i: nat, j: nat, g: Uuid)
    requires Fits(rows, x) && i < |rows| && j < |Pending(rows)|
  {
    var before := TableBefore(t, user, Batch(rows, user, x), j);
    var v, fault := VersionAtTurn(t, rows, user, x, j, g), x.faults[j];
    var row, after := rows[i], RowsNext(t, rows, user, x)[i];
    && VersionOf(before, g) == v
    && if fault.fetchOk && v.Some? && v.value != row.version then
         after.isSynced && after.serverId == Some(g) && RowImage(after) == ImageOf(before[g])
       else if !fault.upsertOk then after == row
       else
         && after.isSynced && after.serverId == Some(g)
         && RowImage(after) == RowImage(row).(version :=
              if fault.fetchOk && v.Some? then Bump(v.value) else row.version)
  }

  // The local edit bumps the version as well. So n edits get through exactly if the upsert
  // works and, at their turn, the note is n versions ahead of the row they were made on, or
  // is not to be seen. If it is there at another version, it overwrites them; if only the
  // upsert fails, they stay pending.
  lemma EditsAreTakenIff(t: Table, rows: seq<NoteEntry>, user: Uuid, x: Try, i: nat, j: nat,
                                            g: Uuid, r: NoteEntry, changes: seq<Change>, resets: bool)
    requires EditedRow(t, rows, user, x, i, j, g, r, changes, resets)
    ensures g == if !resets && r.serverId.Some? then r.serverId.value else x.clock[j]
    ensures rows[i].version == r.version + |changes| && MeetsNote(t, rows, user, x, i, j, g)
  {
    EditsCount(r, changes, resets);
    var b := Batch(rows, user, x);
    assert Pending(rows)[j] in Pending(rows);
    VersionIsTracked(t, user, b[..j], g);
    ResultAt(t, user, b, j);
    RowGetsItsResult(t, rows, user, x, i, j);
  }

  function ImageIn(result: SyncResult<Note>): Option<Image> {
    match result
    case Success(n) => Some(ImageOf(n))
    case Conflict(n) => Some(ImageOf(n))
    case Error(_) => None
  }

  lemma {:induction false} LastWord(t: Table, user: Uuid, b: seq<Attempt>, j: nat, g: Uuid)
    requires (g in t ==> Owns(t, user, g)) && j < |b| && Names(user, b[j], g)
    requires NoneTaken(VersionOf(TableBefore(t, user, b, j + 1), g), user, b[j + 1..], g)
    ensures var u, said := Process(t, user, b).table, ImageIn(Process(t, user, b).results[j]);
            said.Some? ==> g in u && ImageOf(u[g]) == said.value
  {
    VersionIsTracked(t, user, b[..j], g);
    ResultAt(t, user, b, j);
    VersionIsTracked(t, user, b[..j + 1], g);
    NoneTakenLeaves(TableBefore(t, user, b, j + 1), user, b[j + 1..], g);
    CutAfter(t, user, b, j + 1);
  }

  lemma CutAfter(t: Table, user: Uuid, b: seq<Attempt>, k: nat)
    requires k <= |b|
    ensures Process(t, user, b).table == Process(TableBefore(t, user, b, k), user, b[k..]).table
  {
    assert b == b[..k] + b[k..];
    ProcessAppend(t, user, b[..k], b[k..]);
  }

  lemma MergedImage(r: NoteEntry, result: SyncResult<Note>, n: Note)
    requires !r.isSynced && Merge(r, result).isSynced && RowImage(r) == ImageOf(n)
    requires result.Success? ==> ImageOf(result.note) == ImageOf(n).(version := result.note.version)
    ensures ImageIn(result) == Some(RowImage(Merge(r, result)))
  {
  }

  lemma RowSaysResult(t: Table, rows: seq<NoteEntry>, user: Uuid, x: Try, i: nat, j: nat, g: Uuid)
    requires DistinctRows(rows) && Queued(rows, i, j) && !rows[i].isSynced && Fits(rows, x) && Carries(rows, x, j, g)
    requires RowsNext(t, rows, user, x)[i].isSynced
    ensures Names(user, Batch(rows, user, x)[j], g)
    ensures ImageIn(Process(t, user, Batch(rows, user, x)).results[j]) == Some(RowImage(RowsNext(t, rows, user, x)[i]))
  {
    var b := Batch(rows, user, x);
    assert Pending(rows)[j] in Pending(rows);
    RowGetsItsResult(t, rows, user, x, i, j);
    ResultAt(t, user, b, j);
    MergedImage(rows[i], Process(t, user, b).results[j], b[j].entry);
  }

  // What the row says then is what the note says in the end, unless a later entry for it
  // gets through.
  lemma LastWordOnNote(t: Table, rows: seq<NoteEntry>, user: Uuid, x: Try, i: nat, j: nat,
                                          g: Uuid, r: NoteEntry, changes: seq<Change>, resets: bool)
    requires EditedRow(t, rows, user, x, i, j, g, r, changes, resets) && RowsNext(t, rows, user, x)[i].isSynced
    requires var b := Batch(rows, user, x);
             NoneTaken(VersionOf(TableBefore(t, user, b, j + 1), g), user, b[j + 1..], g)
    ensures var u := Served(t, rows, user, x);
            g in u && ImageOf(u[g]) == RowImage(RowsNext(t, rows, user, x)[i])
  {
    EditsCount(r, changes, resets);
    RowSaysResult(t, rows, user, x, i, j, g);
    LastWord(t, user, Batch(rows, user, x), j, g);
    ServedIsProcessed(t, rows, user, x);
  }

  // The server still has row r as it was synced. Then the row is back at what it said
  // before its edits, if they kept the server id, iff no rival that is pushed before it
  // carries the old version and gets through; and the note keeps its text iff no entry at
  // all does.
  lemma QuietEdits(t: Table, rows: seq<NoteEntry>, user: Uuid, x: Try, i: nat, j: nat, g: Uuid,
                                      s: Uuid, r: NoteEntry, changes: seq<Change>, resets: bool)
    requires EditedRow(t, rows, user, x, i, j, g, r, changes, resets)
    requires r.serverId == Some(s) && Owns(t, user, s) && ImageOf(t[s]) == RowImage(r)
    requires Sees(user, Batch(rows, user, x), s) && |Pending(rows)| < SPAN
    ensures var b, u := Batch(rows, user, x), Served(t, rows, user, x);
            && s in u && (ImageOf(u[s]) == ImageOf(t[s]) <==> Misses(user, b, s, r.version))
            && (Misses(user, b, s, r.version) ==> u[s] == t[s])
            && (!resets ==> g == s)
            && (g == s ==> (RowImage(RowsNext(t, rows, user, x)[i]) == RowImage(r)
                            <==> Misses(user, b[..j], s, r.version)))
  {
    var b := Batch(rows, user, x);
    var gap := VersionToSpare(rows);
    BatchFromRows(rows, user, x);
    NoteMoves(t, user, b, s, gap);
    ServedIsProcessed(t, rows, user, x);
    EditsCount(r, changes, resets);
    if g == s {
      assert Pending(rows)[j] in Pending(rows);
      QuietTurn(t, user, b, j, s, gap, rows[i], r);
      RowGetsItsResult(t, rows, user, x, i, j);
    }
  }

  lemma QuietTurn(t: Table, user: Uuid, b: seq<Attempt>, j: nat, s: Uuid, gap: I32, e: NoteEntry,
                                     r: NoteEntry)
    requires j < |b| && Names(user, b[j], s) && Usable(user, b, s, gap) && Owns(t, user, s)
    requires ImageOf(t[s]) == RowImage(r) && ImageOf(b[j].entry) == RowImage(e) && e.version != r.version
    requires b[j].entry.version != gap
    ensures RowImage(Merge(e, Process(t, user, b).results[j])) == RowImage(r) <==> Misses(user, b[..j], s, r.version)
  {
    var before := TableBefore(t, user, b, j);
    assert b[j] in b;
    NoteMoves(t, user, b[..j], s, gap);
    ResultAt(t, user, b, j);
    if b[j].entry.version == before[s].version {
      RankBump(gap, before[s].version);
    }
  }

  // The case without rivals and failures: a row that goes out alone.
  lemma LoneEdits(t: Table, rows: seq<NoteEntry>, user: Uuid, x: Try, i: nat, j: nat, g: Uuid,
                                     r: NoteEntry, changes: seq<Change>, resets: bool)
    requires EditedRow(t, rows, user, x, i, j, g, r, changes, resets) && OnlyCarrier(rows, x, j, g)
    requires x.faults[j].fetchOk && x.faults[j].upsertOk
    ensures var after, u := RowsNext(t, rows, user, x)[i], Served(t, rows, user, x);
            && g in u && after.isSynced && after.serverId == Some(g)
            && if g !in t then ImageOf(u[g]) == RowImage(after) == RowImage(rows[i])
               else if t[g].version == r.version + |changes|
               then ImageOf(u[g]) == RowImage(after) == RowImage(rows[i]).(version := Bump(t[g].version))
               else u[g] == t[g] && RowImage(after) == ImageOf(t[g])
  {
    EditsCount(r, changes, resets);
    EntryOfRow(rows, user, x, i, j, g);
    SoloPush(t, rows, user, x, i, j, g);
  }

  // ----- a round after each edit

  /** One device and the server it talks to. */
  datatype Pair = Pair(table: Table, rows: seq<NoteEntry>)

  datatype Revision = Revision(change: Change, x: Try)

  function Revise(rows: seq<NoteEntry>, i: nat, c: Change): seq<NoteEntry>
    requires i < |rows|
  {
    rows[i := EditedBy(rows[i], [c], true)]
  }

  // An edit that resets the server id, and a delivered round.
  function Revised(d: Pair, user: Uuid, i: nat, v: Revision): (e: Pair)
    requires i < |d.rows|
    ensures |e.rows| == |d.rows|
  {
    var rows := Revise(d.rows, i, v.change);
    if Fits(rows, v.x) then Pair(Served(d.table, rows, user, v.x), RowsNext(d.table, rows, user, v.x))
    else Pair(d.table, rows)
  }

  function AfterAll(d: Pair, user: Uuid, i: nat, revisions: seq<Revision>): (e: Pair)
    requires i < |d.rows|
    ensures |e.rows| == |d.rows|
  {
    if revisions == [] then d
    else Revised(AfterAll(d, user, i, revisions[..|revisions| - 1]), user, i, revisions[|revisions| - 1])
  }

  // The ids the row has had: the one it starts with, and one for each round.
  function IdsOf(d: Pair, user: Uuid, i: nat, revisions: seq<Revision>): set<Option<Uuid>>
    requires i < |d.rows|
  {
    if revisions == [] then {d.rows[i].serverId}
    else IdsOf(d, user, i, revisions[..|revisions| - 1]) + {AfterAll(d, user, i, revisions).rows[i].serverId}
  }

  // The clock reading of the edited row is new to the server and nobody else's, and no
  // other row goes out under an id that the edited one has had.
  ghost predicate CleanRevision(d: Pair, user: Uuid, i: nat, v: Revision, ids: set<Option<Uuid>>)
    requires i < |d.rows|
  {
    var rows := Revise(d.rows, i, v.change);
    && Fits(rows, v.x)
    && (forall id :: Some(id) in ids ==> NobodyCarries(rows, v.x, id))
    && forall j: nat :: Queued(rows, i, j) ==>
         v.x.faults[j].upsertOk && v.x.clock[j] !in d.table && OnlyCarrier(rows, v.x, j, v.x.clock[j])
  }

  ghost predicate AllClean(d: Pair, user: Uuid, i: nat, revisions: seq<Revision>)
    requires i < |d.rows|
  {
    revisions == [] ||
    var front := revisions[..|revisions| - 1];
    && AllClean(d, user, i, front)
    && CleanRevision(AfterAll(d, user, i, front), user, i, revisions[|revisions| - 1], IdsOf(d, user, i, front))
  }

  lemma ReviseKeepsIds(rows: seq<NoteEntry>, i: nat, c: Change)
    requires i < |rows| && DistinctRows(rows)
    ensures DistinctRows(Revise(rows, i, c)) && Revise(rows, i, c)[i].serverId.None? && !Revise(rows, i, c)[i].isSynced
    ensures RowImage(Revise(rows, i, c)[i]) == Image(c.title, c.content, Head(c.title), rows[i].version + 1)
  {
    assert [c][..0] == [];
    assert EditedBy(rows[i], [], true) == rows[i];
  }

  lemma RoundKeepsRowIds(t: Table, rows: seq<NoteEntry>, user: Uuid, x: Try)
    requires DistinctRows(rows) && Fits(rows, x)
    ensures DistinctRows(RowsNext(t, rows, user, x))
  {
    PendingSelects(rows);
    if Pending(rows) != [] {
      var results := Process(t, user, Batch(rows, user, x)).results;
      forall i: nat | i < |rows| ensures RowsNext(t, rows, user, x)[i].id == rows[i].id {
        ReceivedPairs(rows, Pending(rows), results, |results|, i);
      }
    }
  }

  // One edit and one round: a new note with the new text, under a new id, which becomes
  // the row's; the version is one up, and nothing else happens to the row's earlier notes.
  lemma RevisionForks(d: Pair, user: Uuid, i: nat, v: Revision, ids: set<Option<Uuid>>)
    requires i < |d.rows| && DistinctRows(d.rows) && CleanRevision(d, user, i, v, ids)
    ensures var e := Revised(d, user, i, v);
            && DistinctRows(e.rows) && e.rows[i].isSynced
            && e.rows[i].version == d.rows[i].version + 1
            && e.rows[i].serverId.Some? && e.rows[i].serverId.value !in d.table
            && Says(e.table, e.rows[i].serverId.value,
                    Image(v.change.title, v.change.content, Head(v.change.title), d.rows[i].version + 1))
            && forall id :: Some(id) in ids ==> Agree(d.table, e.table, id)
  {
    var rows := Revise(d.rows, i, v.change);
    ReviseKeepsIds(d.rows, i, v.change);
    var j := PendingRow(rows, i);
    EntryOfRow(rows, user, v.x, i, j, v.x.clock[j]);
    SoloPush(d.table, rows, user, v.x, i, j, v.x.clock[j]);
    RoundKeepsRowIds(d.table, rows, user, v.x);
    forall id | Some(id) in ids ensures Agree(d.table, Served(d.table, rows, user, v.x), id) {
      assert NobodyCarries(rows, v.x, id);
      UncarriedNoteStays(d.table, rows, user, v.x, id);
    }
  }

  // After n edits that reset the server id, with a round after each, the server has n
  // notes more for the one row, the first of them untouched.
  lemma {:induction false} ResetEditsFork(d: Pair, user: Uuid, i: nat, s: Uuid, revisions: seq<Revision>)
    requires i < |d.rows| && DistinctRows(d.rows) && d.rows[i].serverId == Some(s) && s in d.table
    requires AllClean(d, user, i, revisions)
    ensures var e := AfterAll(d, user, i, revisions);
            && DistinctRows(e.rows) && e.rows[i].version == d.rows[i].version + |revisions|
            && (forall o :: o in IdsOf(d, user, i, revisions) ==> o.Some? && o.value in e.table)
            && |IdsOf(d, user, i, revisions)| == |revisions| + 1
            && s in e.table && e.table[s] == d.table[s] && Some(s) in IdsOf(d, user, i, revisions)
  {
    if revisions != [] {
      var front, v := revisions[..|revisions| - 1], revisions[|revisions| - 1];
      ResetEditsFork(d, user, i, s, front);
      var m, ids := AfterAll(d, user, i, front), IdsOf(d, user, i, front);
      RevisionForks(m, user, i, v, ids);
      var e := AfterAll(d, user, i, revisions);
      assert e.rows[i].serverId !in ids;
      forall o | o in ids ensures o.Some? && o.value in e.table {
        assert Agree(m.table, e.table, o.value);
      }
      assert Agree(m.table, e.table, s);
    }
  }

  lemma LaterRevisionsKeep(d: Pair, user: Uuid, i: nat, v: Revision, ids: set<Option<Uuid>>, own: Option<Uuid>,
                           im: Image)
    requires i < |d.rows| && DistinctRows(d.rows) && CleanRevision(d, user, i, v, ids)
    requires own in ids && own.Some? && Says(d.table, own.value, im)
    ensures Says(Revised(d, user, i, v).table, own.value, im)
  {
    RevisionForks(d, user, i, v, ids);
    assert Agree(d.table, Revised(d, user, i, v).table, own.value);
  }

  // The id that the row got in round q, and what the note under it says.
  function OwnId(d: Pair, user: Uuid, i: nat, revisions: seq<Revision>, q: nat): Option<Uuid>
    requires i < |d.rows| && q < |revisions|
  {
    AfterAll(d, user, i, revisions[..q + 1]).rows[i].serverId
  }

  function OwnText(d: Pair, i: nat, revisions: seq<Revision>, q: nat): Image
    requires i < |d.rows| && q < |revisions|
  {
    var c := revisions[q].change;
    Image(c.title, c.content, Head(c.title), d.rows[i].version + q + 1)
  }

  // What is claimed of the note that round q created.
  ghost predicate Kept(d: Pair, user: Uuid, i: nat, revisions: seq<Revision>, q: nat)
    requires i < |d.rows| && q < |revisions|
  {
    var own := OwnId(d, user, i, revisions, q);
    && own.Some? && own in IdsOf(d, user, i, revisions)
    && Says(AfterAll(d, user, i, revisions).table, own.value, OwnText(d, i, revisions, q))
  }

  lemma NewestIsKept(d: Pair, user: Uuid, i: nat, s: Uuid, revisions: seq<Revision>)
    requires i < |d.rows| && DistinctRows(d.rows) && d.rows[i].serverId == Some(s) && s in d.table
    requires revisions != [] && AllClean(d, user, i, revisions)
    ensures Kept(d, user, i, revisions, |revisions| - 1)
  {
    var n := |revisions| - 1;
    var front, v := revisions[..n], revisions[n];
    ResetEditsFork(d, user, i, s, front);
    RevisionForks(AfterAll(d, user, i, front), user, i, v, IdsOf(d, user, i, front));
    assert AfterAll(d, user, i, revisions) == Revised(AfterAll(d, user, i, front), user, i, v);
    assert OwnId(d, user, i, revisions, n) == AfterAll(d, user, i, revisions).rows[i].serverId by {
      assert revisions[..n + 1] == revisions;
    }
  }

  lemma SameInPrefix(d: Pair, user: Uuid, i: nat, revisions: seq<Revision>, n: nat, q: nat)
    requires i < |d.rows| && q < n <= |revisions|
    ensures OwnId(d, user, i, revisions[..n], q) == OwnId(d, user, i, revisions, q)
    ensures OwnText(d, i, revisions[..n], q) == OwnText(d, i, revisions, q)
  {
    assert revisions[..n][..q + 1] == revisions[..q + 1];
  }

  lemma KeptOn(d: Pair, user: Uuid, i: nat, s: Uuid, revisions: seq<Revision>, q: nat)
    requires i < |d.rows| && DistinctRows(d.rows) && d.rows[i].serverId == Some(s) && s in d.table
    requires AllClean(d, user, i, revisions) && q < |revisions| - 1
    requires Kept(d, user, i, revisions[..|revisions| - 1], q)
    ensures Kept(d, user, i, revisions, q)
  {
    var n := |revisions| - 1;
    var front := revisions[..n];
    ResetEditsFork(d, user, i, s, front);
    SameInPrefix(d, user, i, revisions, n, q);
    LaterRevisionsKeep(AfterAll(d, user, i, front), user, i, revisions[n], IdsOf(d, user, i, front),
                       OwnId(d, user, i, front, q), OwnText(d, i, front, q));
  }

  // Each of these notes keeps the text of its edit.
  lemma {:induction false} ForksKeepTheirText(d: Pair, user: Uuid, i: nat, s: Uuid, revisions: seq<Revision>, q: nat)
    requires i < |d.rows| && DistinctRows(d.rows) && d.rows[i].serverId == Some(s) && s in d.table
    requires AllClean(d, user, i, revisions) && q < |revisions|
    ensures Kept(d, user, i, revisions, q)
  {
    if q < |revisions| - 1 {
      ForksKeepTheirText(d, user, i, s, revisions[..|revisions| - 1], q);
      KeptOn(d, user, i, s, revisions, q);
    } else {
      NewestIsKept(d, user, i, s, revisions);
    }
  }
}
