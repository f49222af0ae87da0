// The client's local tables.
module ClientDb {
  import opened Models
  import opened Wrappers

  datatype NoteEntry = NoteEntry(
    id: int,
    serverId: Option<Uuid>,
    titleCipher: Bytes,
    contentCipher: Bytes,
    nonce: Bytes,
    version: int,
    createdAt: Time,
    updatedAt: Time,
    isSynced: bool)

  datatype VaultEntry = VaultEntry(
    id: int,
    serverId: Option<Uuid>,
    noteId: int,
    fileCipher: Bytes,
    nonce: Bytes,
    mimeType: Option<string>,
    fileSize: int,
    createdAt: Time)

  datatype VaultMetadata = VaultMetadata(salt: Bytes, derivationStrategy: string, lockDurationSeconds: int)

  function RowImage(r: NoteEntry): Image {
    Image(r.titleCipher, r.contentCipher, r.nonce, r.version)
  }

  ghost predicate DistinctRows(rows: seq<NoteEntry>) {
    forall i, j :: 0 <= i < j < |rows| ==> rows[i].id != rows[j].id
  }

  // Autoincrement: ids are unique, and below the next one to be handed out.
  ghost predicate Numbered(rows: seq<NoteEntry>, nextId: int) {
    DistinctRows(rows) && forall r :: r in rows ==> r.id < nextId
  }

  // SELECT ... WHERE is_synced = false
  function Pending(rows: seq<NoteEntry>): seq<NoteEntry> {
    if rows == [] then []
    else
      Pending(rows[..|rows| - 1]) + if rows[|rows| - 1].isSynced then [] else [rows[|rows| - 1]]
  }

  // DELETE ... WHERE id
  function Without(rows: seq<NoteEntry>, id: int): seq<NoteEntry> {
    if rows == [] then []
    else
      Without(rows[..|rows| - 1], id) + if rows[|rows| - 1].id == id then [] else [rows[|rows| - 1]]
  }

  function NewAttachment(nextId: int, noteId: int, fileCipher: Bytes, nonce: Bytes, mimeType: Option<string>,
                         fileSize: int, now: Time): VaultEntry
  {
    VaultEntry(nextId, None, noteId, fileCipher, nonce, mimeType, fileSize, now)
  }

  // sublist(0, 12); a sealed text is never shorter.
  function Head(title: Bytes): Bytes {
    if |title| <= 12 then title else title[..12]
  }

  function NewRow(nextId: int, title: Bytes, content: Bytes, now: Time): NoteEntry {
    NoteEntry(nextId, None, title, content, Head(title), 1, now, now, false)
  }

  // The columns an edit writes. Drift's `replace` gives absent columns their
  // default; `resets` says whether the server id and creation time count as absent.
  function Edited(row: NoteEntry, title: Bytes, content: Bytes, currentVersion: Option<int>, now: Time, resets: bool)
    : NoteEntry
  {
    row.(titleCipher := title, contentCipher := content, nonce := Head(title),
         version := (if currentVersion.None? then 1 else currentVersion.value) + 1,
         isSynced := false, updatedAt := now,
         serverId := if resets then None else row.serverId,
         createdAt := if resets then now else row.createdAt)
  }

  // UPDATE ... WHERE id
  function EditRows(rows: seq<NoteEntry>, id: int, title: Bytes, content: Bytes, currentVersion: Option<int>, now: Time,
                    resets: bool): (r: seq<NoteEntry>)
    ensures |r| == |rows|
    ensures forall i :: 0 <= i < |rows| ==>
      r[i] == if rows[i].id == id then Edited(rows[i], title, content, currentVersion, now, resets) else rows[i]
  {
    seq(|rows|, i requires 0 <= i < |rows| =>
      if rows[i].id == id then Edited(rows[i], title, content, currentVersion, now, resets) else rows[i])
  }

  lemma {:induction false} PendingSelects(rows: seq<NoteEntry>)
    ensures forall r :: r in Pending(rows) <==> r in rows && !r.isSynced
    ensures DistinctRows(rows) ==> DistinctRows(Pending(rows))
  {
    if rows != [] {
      var front, last := rows[..|rows| - 1], rows[|rows| - 1];
      PendingSelects(front);
      assert rows == front + [last];
    }
  }

  lemma {:induction false} WithoutRemoves(rows: seq<NoteEntry>, id: int)
    ensures forall r :: r in Without(rows, id) <==> r in rows && r.id != id
    ensures DistinctRows(rows) ==> DistinctRows(Without(rows, id))
  {
    if rows != [] {
      var front, last := rows[..|rows| - 1], rows[|rows| - 1];
      WithoutRemoves(front, id);
      assert rows == front + [last];
    }
  }

  lemma NotTheLast(rows: seq<NoteEntry>, a: nat)
    requires DistinctRows(rows) && a < |rows| && rows[a] in rows[..|rows| - 1]
    ensures a < |rows| - 1
  {
    var k :| 0 <= k < |rows| - 1 && rows[..|rows| - 1][k] == rows[a];
  }

  // Both keep the order of the table.
  lemma {:induction false} PendingInOrder(rows: seq<NoteEntry>, i: nat, j: nat, a: nat, b: nat)
    requires DistinctRows(rows) && i < j < |Pending(rows)| && a < |rows| && b < |rows|
    requires Pending(rows)[i] == rows[a] && Pending(rows)[j] == rows[b]
    ensures a < b
  {
    var front := rows[..|rows| - 1];
    var part := Pending(front);
    PendingSelects(front);
    assert part[i] in front;
    NotTheLast(rows, a);
    if j < |part| {
      assert part[j] in front;
      NotTheLast(rows, b);
      PendingInOrder(front, i, j, a, b);
    }
  }

  lemma {:induction false} WithoutInOrder(rows: seq<NoteEntry>, id: int, i: nat, j: nat, a: nat, b: nat)
    requires DistinctRows(rows) && i < j < |Without(rows, id)| && a < |rows| && b < |rows|
    requires Without(rows, id)[i] == rows[a] && Without(rows, id)[j] == rows[b]
    ensures a < b
  {
    var front := rows[..|rows| - 1];
    var part := Without(front, id);
    WithoutRemoves(front, id);
    assert part[i] in front;
    NotTheLast(rows, a);
    if j < |part| {
      assert part[j] in front;
      NotTheLast(rows, b);
      WithoutInOrder(front, id, i, j, a, b);
    }
  }

  class AppDatabase {
    var noteEntries: seq<NoteEntry>
    var nextNoteId: int
    var vaultEntries: seq<VaultEntry>
    var nextVaultEntryId: int
    var vaultMetadata: seq<VaultMetadata>

    constructor ()
      ensures noteEntries == [] && nextNoteId == 1
      ensures vaultEntries == [] && nextVaultEntryId == 1 && vaultMetadata == []
    {
      noteEntries, nextNoteId := [], 1;
      vaultEntries, nextVaultEntryId := [], 1;
      vaultMetadata := [];
    }
  }
}
