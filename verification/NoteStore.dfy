// The server's note table and the operations of PgNyrexStore.
module NoteStore {
  import opened Models
  import opened Newest
  import opened Wrappers

  type Table = map<Uuid, Note>

  ghost predicate Keyed(t: Table) {
    forall id :: id in t ==> t[id].id == id
  }

  // ----- queries

  function GetNote(t: Table, userId: Uuid, noteId: Uuid): Option<Note> {
    if noteId in t && t[noteId].userId == userId && t[noteId].deletedAt.None?
    then Some(t[noteId])
    else None
  }

  /** `out` answers SELECT ... ORDER BY updated_at DESC over the user's live notes. */
  ghost predicate IsListing(t: Table, userId: Uuid, out: seq<Note>) {
    && (forall n :: n in out <==> n.id in t && t[n.id] == n && n.userId == userId && n.deletedAt.None?)
    && (forall i, j :: 0 <= i < j < |out| ==> out[i] != out[j])
    && Newest.Ordered(out, UpdatedAt)
  }

  const UpdatedAt: Note -> int := (n: Note) => n.updatedAt

  // ----- the table after each write

  function Created(t: Table, n: Note): Table {
    t[n.id := n.(deletedAt := None)]
  }

  function Updated(t: Table, n: Note, now: Time): Table
    requires n.id in t
  {
    t[n.id := t[n.id].(titleCipher := n.titleCipher, contentCipher := n.contentCipher, nonce := n.nonce,
                       version := n.version, format := n.format, tags := n.tags, updatedAt := now)]
  }

  function Deleted(t: Table, userId: Uuid, noteId: Uuid, now: Time): Table {
    if noteId in t && t[noteId].userId == userId
    then t[noteId := t[noteId].(deletedAt := Some(now))]
    else t
  }

  // All rows but the one with this id are the same.
  ghost predicate OthersStay(t: Table, u: Table, id: Uuid) {
    forall other :: other != id ==> (other in u <==> other in t) && (other in t ==> u[other] == t[other])
  }

  class PgNyrexStore {
    var notes: Table

    constructor ()
      ensures notes == map[]
    {
      notes := map[];
    }

    // Loads the matching rows and orders them.
    method ListNotes(userId: Uuid) returns (out: seq<Note>)
      requires Keyed(notes)
      ensures IsListing(notes, userId, out)
    {
      var pending := set id | id in notes && GetNote(notes, userId, id).Some?;
      ghost var all := pending;
      out := [];
      while pending != {}
        invariant pending <= all
        invariant forall n :: n in out <==> n.id in all - pending && notes[n.id] == n
        invariant forall i, j :: 0 <= i < j < |out| ==> out[i] != out[j]
        invariant Newest.Ordered(out, UpdatedAt)
        decreases pending
      {
        var id :| id in pending;
        Newest.InsertOrders(notes[id], out, UpdatedAt);
        Newest.InsertAdds(notes[id], out, UpdatedAt);
        Newest.InsertKeepsDistinct(notes[id], out, UpdatedAt);
        out := Newest.Insert(notes[id], out, UpdatedAt);
        pending := pending - {id};
      }
    }

    // INSERT ... RETURNING; a taken primary key or a failing statement is an error.
    method CreateNote(note: Note, dbOk: bool) returns (ok: bool)
      modifies this
      ensures ok <==> dbOk && note.id !in old(notes)
      ensures notes == if ok then Created(old(notes), note) else old(notes)
      ensures OthersStay(old(notes), notes, note.id)
      ensures ok ==>
        note.id in notes && var row := notes[note.id];
        && row.id == note.id && row.userId == note.userId && row.version == note.version
        && row.titleCipher == note.titleCipher && row.contentCipher == note.contentCipher && row.nonce == note.nonce
        && row.format == note.format && row.tags == note.tags
        && row.createdAt == note.createdAt && row.updatedAt == note.updatedAt && row.deletedAt == None
    {
      ok := dbOk && note.id !in notes;
      if ok {
        notes := notes[note.id := note.(deletedAt := None)];
      }
    }

    // UPDATE ... WHERE id AND user_id RETURNING; no matching row is an error.
    method UpdateNote(note: Note, now: Time, dbOk: bool) returns (ok: bool)
      modifies this
      ensures ok <==> dbOk && note.id in old(notes) && old(notes)[note.id].userId == note.userId
      ensures notes == if ok then Updated(old(notes), note, now) else old(notes)
      ensures OthersStay(old(notes), notes, note.id)
      ensures ok ==>
        note.id in notes && var row, was := notes[note.id], old(notes)[note.id];
        && row.titleCipher == note.titleCipher && row.contentCipher == note.contentCipher && row.nonce == note.nonce
        && row.version == note.version && row.format == note.format && row.tags == note.tags && row.updatedAt == now
        && row.id == was.id && row.userId == was.userId && row.createdAt == was.createdAt
        && row.deletedAt == was.deletedAt
    {
      ok := dbOk && note.id in notes && notes[note.id].userId == note.userId;
      if ok {
        var row := notes[note.id];
        notes := notes[note.id := row.(titleCipher := note.titleCipher, contentCipher := note.contentCipher,
                                       nonce := note.nonce, version := note.version, format := note.format,
                                       tags := note.tags, updatedAt := now)];
      }
    }

    // UPDATE ... SET deleted_at; deleting nothing is not an error.
    method DeleteNote(userId: Uuid, noteId: Uuid, now: Time, dbOk: bool)
      modifies this
      ensures notes == if dbOk then Deleted(old(notes), userId, noteId, now) else old(notes)
      ensures OthersStay(old(notes), notes, noteId)
      ensures noteId in old(notes) ==>
        noteId in notes && var row, was := notes[noteId], old(notes)[noteId];
        && row.deletedAt == (if dbOk && was.userId == userId then Some(now) else was.deletedAt)
        && row.id == was.id && row.userId == was.userId && row.version == was.version
        && row.titleCipher == was.titleCipher && row.contentCipher == was.contentCipher && row.nonce == was.nonce
        && row.format == was.format && row.tags == was.tags
        && row.createdAt == was.createdAt && row.updatedAt == was.updatedAt
      ensures noteId !in old(notes) ==> notes == old(notes)
    {
      if dbOk && noteId in notes && notes[noteId].userId == userId {
        notes := notes[noteId := notes[noteId].(deletedAt := Some(now))];
      }
    }
  }
}
