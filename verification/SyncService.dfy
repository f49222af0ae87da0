// One round of SyncService.syncNotes, against the server's route.
module SyncService {
  import opened Attachments
  import opened ClientDb
  import opened Int32
  import opened Models
  import opened NoteStore
  import opened SyncEngine
  import opened SyncRoute
  import opened Wrappers

  /** What the server's database does while it handles one entry. */
  datatype Fault = Fault(fetchOk: bool, upsertOk: bool, now: Time)

  /** Where an exchange breaks off, if it does. */
  datatype Delivery = RequestLost | ReplyLost | Delivered

  // The server decodes versions as i32 and refuses a whole batch it cannot decode.
  predicate Decodable(pending: seq<NoteEntry>) {
    forall r :: r in pending ==> MIN <= r.version <= MAX
  }

  // The id a row goes out under; a clock reading stands in for a missing server id.
  function OutId(r: NoteEntry, clock: Uuid): Uuid {
    if r.serverId.Some? then r.serverId.value else clock
  }

  // All versions are 32-bit numbers.
  predicate Readable(pending: seq<NoteEntry>)
    ensures Readable(pending) <==> Decodable(pending)
  {
    forall r :: r in pending ==> -2147483648 <= r.version <= 2147483647
  }

  function PayloadEntry(r: NoteEntry, userId: Uuid, clock: Uuid): Note
    requires MIN <= r.version <= MAX
  {
    Note(OutId(r, clock), userId,
         r.titleCipher, r.contentCipher, r.nonce, r.version, "", [], r.createdAt, r.updatedAt, None)
  }

  // The entry a row goes out as, column by column.
  lemma PayloadSays(r: NoteEntry, userId: Uuid, clock: Uuid)
    requires -2147483648 <= r.version <= 2147483647
    ensures var n := PayloadEntry(r, userId, clock);
            && n.id == (if r.serverId.Some? then r.serverId.value else clock) && n.userId == userId
            && n.titleCipher == r.titleCipher && n.contentCipher == r.contentCipher && n.nonce == r.nonce
            && n.version == r.version && n.createdAt == r.createdAt && n.updatedAt == r.updatedAt
            && n.format == "" && n.tags == [] && n.deletedAt == None
  {
  }

  // The batch as the server meets it. `clock` holds the readings that stand in for
  // missing server ids.
  function Attempts(pending: seq<NoteEntry>, userId: Uuid, clock: seq<Uuid>, faults: seq<Fault>): (b: seq<Attempt>)
    requires Decodable(pending) && |pending| == |clock| == |faults|
    ensures |b| == |pending|
    ensures forall i :: 0 <= i < |b| ==>
      b[i] == Attempt(PayloadEntry(pending[i], userId, clock[i]), faults[i].fetchOk, faults[i].upsertOk, faults[i].now)
  {
    seq(|pending|, i requires 0 <= i < |pending| =>
      Attempt(PayloadEntry(pending[i], userId, clock[i]), faults[i].fetchOk, faults[i].upsertOk, faults[i].now))
  }

  // What one result writes into the local row it is paired with.
  function Merge(row: NoteEntry, result: SyncResult<Note>): NoteEntry {
    match result
    case Success(n) => row.(isSynced := true, serverId := Some(n.id), version := n.version)
    case Conflict(n) =>
      row.(titleCipher := n.titleCipher, contentCipher := n.contentCipher, nonce := n.nonce,
           version := n.version, isSynced := true, serverId := Some(n.id))
    case Error(_) => row
  }

  // Column by column: a Success keeps the texts and takes id and version; a Conflict takes
  // the texts as well; either marks the row as synced; an Error writes nothing. The local
  // id and the local times are never written.
  predicate WrittenBy(before: NoteEntry, after: NoteEntry, result: SyncResult<Note>) {
    && after.id == before.id && after.createdAt == before.createdAt && after.updatedAt == before.updatedAt
    && match result
       case Success(n) =>
         && after.isSynced && after.serverId == Some(n.id) && after.version == n.version
         && after.titleCipher == before.titleCipher && after.contentCipher == before.contentCipher
         && after.nonce == before.nonce
       case Conflict(n) =>
         && after.isSynced && after.serverId == Some(n.id) && after.version == n.version
         && after.titleCipher == n.titleCipher && after.contentCipher == n.contentCipher && after.nonce == n.nonce
       case Error(_) =>
         && after.isSynced == before.isSynced && after.serverId == before.serverId && after.version == before.version
         && after.titleCipher == before.titleCipher && after.contentCipher == before.contentCipher
         && after.nonce == before.nonce
  }

  // UPDATE ... WHERE id = localNote.id
  function WriteBack(rows: seq<NoteEntry>, localId: int, result: SyncResult<Note>): (r: seq<NoteEntry>)
    ensures |r| == |rows|
    ensures forall i :: 0 <= i < |rows| ==> r[i] == if rows[i].id == localId then Merge(rows[i], result) else rows[i]
  {
    seq(|rows|, i requires 0 <= i < |rows| => if rows[i].id == localId then Merge(rows[i], result) else rows[i])
  }

  // The row has been written by the one result it is paired with, if that is among the
  // first k, and by none otherwise.
  ghost predicate RowAnswered(before: NoteEntry, after: NoteEntry, sent: seq<NoteEntry>, results: seq<SyncResult<Note>>,
                           k: nat)
    requires k <= |results| <= |sent|
  {
    && (forall j :: 0 <= j < k && sent[j].id == before.id ==> WrittenBy(before, after, results[j]))
    && ((forall j :: 0 <= j < k ==> sent[j].id != before.id) ==> after == before)
  }

  lemma AnsweredOn(before: NoteEntry, after: NoteEntry, sent: seq<NoteEntry>, results: seq<SyncResult<Note>>, k: nat)
    requires k < |results| <= |sent| && DistinctRows(sent) && RowAnswered(before, after, sent, results, k)
    requires after.id == before.id
    ensures RowAnswered(before, if sent[k].id == before.id then Merge(after, results[k]) else after, sent, results,
                        k + 1)
  {
  }

  // The rows after the first k results have been written back.
  function Received(rows: seq<NoteEntry>, sent: seq<NoteEntry>, results: seq<SyncResult<Note>>, k: nat)
    : (r: seq<NoteEntry>)
    requires k <= |results| <= |sent|
    ensures |r| == |rows|
  {
    if k == 0 then rows
    else WriteBack(Received(rows, sent, results, k - 1), sent[k - 1].id, results[k - 1])
  }

  // Table and rows after one round that starts from them.
  function ServerAfter(t: Table, rows: seq<NoteEntry>, userId: Uuid, clock: seq<Uuid>, faults: seq<Fault>,
                       delivery: Delivery): (u: Table)
    requires |Pending(rows)| == |clock| == |faults|
    ensures delivery == RequestLost || Pending(rows) == [] || !Readable(Pending(rows)) ==> u == t
  {
    if Pending(rows) == [] || !Decodable(Pending(rows)) || delivery == RequestLost then t
    else Process(t, userId, Attempts(Pending(rows), userId, clock, faults)).table
  }

  function RowsAfter(t: Table, rows: seq<NoteEntry>, userId: Uuid, clock: seq<Uuid>, faults: seq<Fault>,
                     delivery: Delivery): (r: seq<NoteEntry>)
    requires |Pending(rows)| == |clock| == |faults|
    ensures |r| == |rows|
    ensures delivery != Delivered || Pending(rows) == [] || !Readable(Pending(rows)) ==> r == rows
  {
    if Pending(rows) == [] || !Decodable(Pending(rows)) || delivery != Delivered then rows
    else
      var results := Process(t, userId, Attempts(Pending(rows), userId, clock, faults)).results;
      Received(rows, Pending(rows), results, |results|)
  }

  class SyncService {
    const api: PgNyrexStore
    const db: AppDatabase

    constructor (api: PgNyrexStore, db: AppDatabase)
      ensures this.api == api && this.db == db
    {
      this.api, this.db := api, db;
    }

    // syncNotes as a whole: attachments are only reached after a delivered, non-empty
    // round of notes.
    method Sync(userId: Uuid, clock: seq<Uuid>, faults: seq<Fault>, delivery: Delivery,
                replies: seq<Option<SyncResult<Uuid>>>) returns (posts: seq<Post>, ok: bool)
      requires |Pending(db.noteEntries)| == |clock| == |faults|
      requires |replies| >= |Unsent(db.vaultEntries)|
      modifies api, db`noteEntries, db`vaultEntries
      ensures api.notes == ServerAfter(old(api.notes), old(db.noteEntries), userId, clock, faults, delivery)
      ensures db.noteEntries == RowsAfter(old(api.notes), old(db.noteEntries), userId, clock, faults, delivery)
      ensures delivery != Delivered ==>
        db.noteEntries == old(db.noteEntries) && db.vaultEntries == old(db.vaultEntries) && posts == []
      ensures delivery == RequestLost ==> api.notes == old(api.notes)
      ensures UploadResult(db.vaultEntries, posts) ==
        var pending := Pending(old(db.noteEntries));
        if pending == [] || delivery != Delivered || !Decodable(pending) then UploadResult(old(db.vaultEntries), [])
        else Upload(old(db.vaultEntries), Unsent(old(db.vaultEntries)), replies)
      ensures ok <==>
        var pending := Pending(old(db.noteEntries));
        pending == []
        || (delivery == Delivered && Decodable(pending)
            && forall i :: 0 <= i < |Unsent(old(db.vaultEntries))| ==> replies[i].Some?)
    {
      var idle := Pending(db.noteEntries) == [];
      ok := SyncNotes(userId, clock, faults, delivery);
      posts := [];
      if ok && !idle {
        posts, ok := SyncAttachments(db, replies);
      }
    }

    // The note half of syncNotes. `ok` is false when an exception leaves the method.
    method SyncNotes(userId: Uuid, clock: seq<Uuid>, faults: seq<Fault>, delivery: Delivery) returns (ok: bool)
      requires |Pending(db.noteEntries)| == |clock| == |faults|
      modifies api, db`noteEntries
      ensures api.notes == ServerAfter(old(api.notes), old(db.noteEntries), userId, clock, faults, delivery)
      ensures db.noteEntries == RowsAfter(old(api.notes), old(db.noteEntries), userId, clock, faults, delivery)
      ensures delivery != Delivered || !Readable(Pending(old(db.noteEntries))) ==> db.noteEntries == old(db.noteEntries)
      ensures delivery == RequestLost || !Readable(Pending(old(db.noteEntries))) ==> api.notes == old(api.notes)
      ensures ok <==> Pending(old(db.noteEntries)) == []
                      || (delivery == Delivered && Decodable(Pending(old(db.noteEntries))))
    {
      var pendingNotes := Pending(db.noteEntries);
      if pendingNotes == [] {
        return true;
      }
      if delivery == RequestLost || !Decodable(pendingNotes) {
        return false;
      }
      var payload := Attempts(pendingNotes, userId, clock, faults);
      var results := SyncRoute.SyncNotes(api, userId, payload);
      if delivery == ReplyLost {
        return false;
      }
      WriteResults(pendingNotes, results);
      return true;
    }

    // The loop over the results, each paired by index with the row it answers.
    method WriteResults(pendingNotes: seq<NoteEntry>, results: seq<SyncResult<Note>>)
      requires |results| <= |pendingNotes|
      modifies db`noteEntries
      ensures db.noteEntries == Received(old(db.noteEntries), pendingNotes, results, |results|)
      ensures |db.noteEntries| == |old(db.noteEntries)|
      ensures DistinctRows(pendingNotes) ==>
        forall i :: 0 <= i < |db.noteEntries| ==>
          RowAnswered(old(db.noteEntries)[i], db.noteEntries[i], pendingNotes, results, |results|)
    {
      var start := db.noteEntries;
      for i := 0 to |results|
        invariant db.noteEntries == Received(start, pendingNotes, results, i)
        invariant DistinctRows(pendingNotes) ==>
          forall k :: 0 <= k < |start| ==> RowAnswered(start[k], db.noteEntries[k], pendingNotes, results, i)
      {
        var localNote := pendingNotes[i];
        ghost var rows := db.noteEntries;
        db.noteEntries := WriteBack(db.noteEntries, localNote.id, results[i]);
        forall k | DistinctRows(pendingNotes) && 0 <= k < |start|
          ensures RowAnswered(start[k], db.noteEntries[k], pendingNotes, results, i + 1)
        {
          AnsweredOn(start[k], rows[k], pendingNotes, results, i);
        }
      }
    }
  }
}
