// The encrypted notes of one device: unlocking, saving, editing, deleting and listing.
module VaultNotes {
  import opened ClientDb
  import opened Envelope
  import opened Models
  import opened Newest
  import opened Wrappers

  datatype NoteModel = NoteModel(
    id: int,
    serverId: Option<Uuid>,
    title: string,
    content: string,
    version: int,
    createdAt: Time,
    updatedAt: Time)

  datatype UnlockVaultResult = UnlockVaultResult(masterKey: SecretKey, lockDurationSeconds: int)

  type Kdf = (string, Bytes) -> SecretKey

  const LastChanged: NoteModel -> int := (m: NoteModel) => m.updatedAt

  // ----- unlocking

  function FreshMetadata(salt: Bytes): VaultMetadata {
    VaultMetadata(salt, "shared", 600)
  }

  // getSingleOrNull throws when the table has several rows.
  method UnlockVault(db: AppDatabase, kdf: Kdf, password: string, randomSalt: Bytes)
    returns (result: Option<UnlockVaultResult>)
    modifies db`vaultMetadata
    ensures db.vaultMetadata ==
      if old(db.vaultMetadata) == [] then [VaultMetadata(randomSalt, "shared", 600)] else old(db.vaultMetadata)
    ensures |db.vaultMetadata| == 1 ==>
      var metadata := db.vaultMetadata[0];
      result == Some(UnlockVaultResult(kdf(password, metadata.salt), metadata.lockDurationSeconds))
    ensures |db.vaultMetadata| > 1 ==> result.None?
  {
    if |db.vaultMetadata| > 1 {
      return None;
    }
    if db.vaultMetadata == [] {
      db.vaultMetadata := db.vaultMetadata + [VaultMetadata(randomSalt, "shared", 600)];
    }
    var metadata := db.vaultMetadata[0];
    var key := kdf(password, metadata.salt);
    result := Some(UnlockVaultResult(key, metadata.lockDurationSeconds));
  }

  // Two first unlocks that both look before either inserts leave two salts behind, and
  // from then on no password unlocks.
  method InterleavedFirstUnlocks(db: AppDatabase, kdf: Kdf, salt: Bytes, otherSalt: Bytes, later: seq<(string, Bytes)>)
    returns (results: seq<Option<UnlockVaultResult>>)
    requires db.vaultMetadata == []
    modifies db`vaultMetadata
    ensures db.vaultMetadata == [VaultMetadata(salt, "shared", 600), VaultMetadata(otherSalt, "shared", 600)]
    ensures |results| == |later| && forall i :: 0 <= i < |results| ==> results[i].None?
  {
    var seen, alsoSeen := db.vaultMetadata, db.vaultMetadata;
    if seen == [] {
      db.vaultMetadata := db.vaultMetadata + [FreshMetadata(salt)];
    }
    if alsoSeen == [] {
      db.vaultMetadata := db.vaultMetadata + [FreshMetadata(otherSalt)];
    }
    results := [];
    for i := 0 to |later|
      invariant db.vaultMetadata == [FreshMetadata(salt), FreshMetadata(otherSalt)]
      invariant |results| == i && forall j :: 0 <= j < i ==> results[j].None?
    {
      var result := UnlockVault(db, kdf, later[i].0, later[i].1);
      results := results + [result];
    }
  }

  // ----- the repository

  function Model(p: Primitives, r: NoteEntry, key: SecretKey): Option<NoteModel> {
    match (Decrypt(p, r.titleCipher, key), Decrypt(p, r.contentCipher, key))
    case (Some(title), Some(content)) =>
      Some(NoteModel(r.id, r.serverId, title, content, r.version, r.createdAt, r.updatedAt))
    case _ => None
  }

  // Rows that do not decrypt are skipped.
  function Shown(p: Primitives, rows: seq<NoteEntry>, key: SecretKey): seq<NoteModel> {
    if rows == [] then []
    else
      var last := Model(p, rows[|rows| - 1], key);
      Shown(p, rows[..|rows| - 1], key) + if last.Some? then [last.value] else []
  }

  // The two ciphers of the row open under the key.
  predicate Opens(p: Primitives, r: NoteEntry, key: SecretKey) {
    Decrypt(p, r.titleCipher, key).Some? && Decrypt(p, r.contentCipher, key).Some?
  }

  // Column by column, the listed note is this row, with its two texts in clear.
  predicate StemsFrom(p: Primitives, m: NoteModel, r: NoteEntry, key: SecretKey) {
    && m.id == r.id && m.serverId == r.serverId && m.version == r.version
    && m.createdAt == r.createdAt && m.updatedAt == r.updatedAt
    && Decrypt(p, r.titleCipher, key) == Some(m.title) && Decrypt(p, r.contentCipher, key) == Some(m.content)
  }

  lemma ShownStems(p: Primitives, rows: seq<NoteEntry>, key: SecretKey)
    ensures forall m :: m in Shown(p, rows, key) ==> exists r :: r in rows && StemsFrom(p, m, r, key)
    ensures forall r :: r in rows && Opens(p, r, key) ==>
      exists m :: m in Shown(p, rows, key) && StemsFrom(p, m, r, key)
    ensures DistinctRows(rows) ==>
      forall i, j :: 0 <= i < j < |Shown(p, rows, key)| ==> Shown(p, rows, key)[i].id != Shown(p, rows, key)[j].id
  {
    ShownSelects(p, rows, key);
    forall m | m in Shown(p, rows, key) ensures exists r :: r in rows && StemsFrom(p, m, r, key) {
      var r :| r in rows && Model(p, r, key) == Some(m);
      assert StemsFrom(p, m, r, key);
    }
    forall r | r in rows && Opens(p, r, key) ensures exists m :: m in Shown(p, rows, key) && StemsFrom(p, m, r, key) {
      assert Model(p, r, key).value in Shown(p, rows, key);
      assert StemsFrom(p, Model(p, r, key).value, r, key);
    }
  }

  lemma {:induction false} ShownSelects(p: Primitives, rows: seq<NoteEntry>, key: SecretKey)
    ensures forall m :: m in Shown(p, rows, key) <==> exists r :: r in rows && Model(p, r, key) == Some(m)
    ensures DistinctRows(rows) ==>
      forall i, j :: 0 <= i < j < |Shown(p, rows, key)| ==> Shown(p, rows, key)[i].id != Shown(p, rows, key)[j].id
  {
    if rows != [] {
      var front, last := rows[..|rows| - 1], rows[|rows| - 1];
      ShownSelects(p, front, key);
      assert rows == front + [last];
      var all, before := Shown(p, rows, key), Shown(p, front, key);
      forall m ensures m in all <==> exists r :: r in rows && Model(p, r, key) == Some(m) {
        if m in all && m !in before {
          assert last in rows && Model(p, last, key) == Some(m);
        }
        if r :| r in rows && Model(p, r, key) == Some(m) {
          assert r in front || r == last;
        }
      }
      if DistinctRows(rows) {
        forall i, j | 0 <= i < j < |all| ensures all[i].id != all[j].id {
          if j == |before| {
            assert all[i] in before;
          }
        }
      }
    }
  }

  lemma SameElements(a: seq<NoteModel>, b: seq<NoteModel>)
    requires multiset(a) == multiset(b)
    ensures forall m :: m in a <==> m in b
  {
    assert forall m :: m in a <==> m in multiset(a);
    assert forall m :: m in b <==> m in multiset(b);
  }

  lemma ShuffledIdsStayDistinct(a: seq<NoteModel>, b: seq<NoteModel>)
    requires multiset(a) == multiset(b)
    requires forall i, j :: 0 <= i < j < |a| ==> a[i].id != a[j].id
    ensures forall i, j :: 0 <= i < j < |b| ==> b[i].id != b[j].id
  {
    forall i, j | 0 <= i < j < |b| ensures b[i].id != b[j].id {
      if b[i].id == b[j].id {
        assert b[i] in multiset(b) && b[j] in multiset(b);
        var k :| 0 <= k < |a| && a[k] == b[i];
        var l :| 0 <= l < |a| && a[l] == b[j];
        assert k == l && b[i] == b[j];
        TwiceCounted(b, i, j);
        OnceCounted(a, k);
      }
    }
  }

  lemma TwiceCounted(s: seq<NoteModel>, i: nat, j: nat)
    requires i < j < |s| && s[i] == s[j]
    ensures multiset(s)[s[i]] >= 2
  {
    assert s == s[..j] + s[j..];
    assert s[i] in s[..j] && s[j] in s[j..];
  }

  lemma OnceCounted(s: seq<NoteModel>, k: nat)
    requires k < |s| && forall i, j :: 0 <= i < j < |s| ==> s[i].id != s[j].id
    ensures multiset(s)[s[k]] == 1
  {
    assert s == s[..k] + [s[k]] + s[k + 1..];
    assert s[k] !in s[..k] && s[k] !in s[k + 1..];
  }

  class NotesRepository {
    const db: AppDatabase

    constructor (db: AppDatabase)
      ensures this.db == db
    {
      this.db := db;
    }

    method GetAllDecryptedNotes(p: Primitives, key: SecretKey) returns (notes: seq<NoteModel>)
      ensures forall m :: m in notes ==> exists r :: r in db.noteEntries && StemsFrom(p, m, r, key)
      ensures forall r :: r in db.noteEntries && Opens(p, r, key) ==> exists m :: m in notes && StemsFrom(p, m, r, key)
      ensures DistinctRows(db.noteEntries) ==> forall i, j :: 0 <= i < j < |notes| ==> notes[i].id != notes[j].id
      ensures forall i, j :: 0 <= i < j < |notes| ==> notes[i].updatedAt >= notes[j].updatedAt
      ensures Newest.Ordered(notes, LastChanged)
      ensures multiset(notes) == multiset(Shown(p, db.noteEntries, key))
    {
      var entries := db.noteEntries;
      notes := [];
      for i := 0 to |entries|
        invariant notes == Shown(p, entries[..i], key)
      {
        assert entries[..i + 1][..i] == entries[..i];
        var title := Decrypt(p, entries[i].titleCipher, key);
        if title.None? {
          continue;
        }
        var content := Decrypt(p, entries[i].contentCipher, key);
        if content.None? {
          continue;
        }
        notes := notes + [NoteModel(entries[i].id, entries[i].serverId, title.value, content.value,
                                    entries[i].version, entries[i].createdAt, entries[i].updatedAt)];
      }
      assert entries[..|entries|] == entries;
      ghost var shown := notes;
      Newest.SortOrders(notes, LastChanged);
      notes := Newest.Sort(notes, LastChanged);
      ShownStems(p, entries, key);
      SameElements(notes, shown);
      if DistinctRows(entries) {
        ShuffledIdsStayDistinct(shown, notes);
      }
      assert forall i, j :: 0 <= i < j < |notes| ==> LastChanged(notes[i]) >= LastChanged(notes[j]);
    }

    method SaveNote(p: Primitives, title: string, content: string, key: SecretKey,
                    titleNonce: Bytes, contentNonce: Bytes, now: Time)
      requires Sound(p) && |titleNonce| == |contentNonce| == NONCE_LENGTH
      modifies db`noteEntries, db`nextNoteId
      ensures db.noteEntries == old(db.noteEntries) +
        [NoteEntry(old(db.nextNoteId), None, Sealed(p, title, key, titleNonce),
                   Sealed(p, content, key, contentNonce), titleNonce, 1, now, now, false)]
      ensures db.noteEntries == old(db.noteEntries) +
        [NewRow(old(db.nextNoteId), Sealed(p, title, key, titleNonce), Sealed(p, content, key, contentNonce), now)]
      ensures db.nextNoteId == old(db.nextNoteId) + 1
    {
      var titleCipher := Encrypt(p, title, key, titleNonce);
      var contentCipher := Encrypt(p, content, key, contentNonce);
      db.noteEntries := db.noteEntries + [NewRow(db.nextNoteId, titleCipher, contentCipher, now)];
      db.nextNoteId := db.nextNoteId + 1;
    }

    method UpdateNote(p: Primitives, id: int, title: string, content: string, key: SecretKey,
                      currentVersion: Option<int>, titleNonce: Bytes, contentNonce: Bytes, now: Time, resets: bool)
      requires Sound(p) && |titleNonce| == |contentNonce| == NONCE_LENGTH
      modifies db`noteEntries
      ensures |db.noteEntries| == |old(db.noteEntries)|
      ensures forall i :: 0 <= i < |db.noteEntries| ==>
        var before, after := old(db.noteEntries)[i], db.noteEntries[i];
        if before.id != id then after == before
        else
          && after.id == id && !after.isSynced && after.nonce == titleNonce && after.updatedAt == now
          && after.titleCipher == Sealed(p, title, key, titleNonce)
          && after.contentCipher == Sealed(p, content, key, contentNonce)
          && after.version == 1 + (if currentVersion.Some? then currentVersion.value else 1)
          && after.serverId == (if resets then None else before.serverId)
          && after.createdAt == (if resets then now else before.createdAt)
      ensures db.noteEntries == EditRows(old(db.noteEntries), id, Sealed(p, title, key, titleNonce),
                                         Sealed(p, content, key, contentNonce), currentVersion, now, resets)
    {
      var titleCipher := Encrypt(p, title, key, titleNonce);
      var contentCipher := Encrypt(p, content, key, contentNonce);
      db.noteEntries := EditRows(db.noteEntries, id, titleCipher, contentCipher, currentVersion, now, resets);
    }

    method DeleteNote(id: int)
      modifies db`noteEntries
      ensures forall r :: r in db.noteEntries <==> r in old(db.noteEntries) && r.id != id
      ensures db.noteEntries == Without(old(db.noteEntries), id)
    {
      WithoutRemoves(db.noteEntries, id);
      db.noteEntries := Without(db.noteEntries, id);
    }

    // An attachment is stored so that it can be opened again, with its nonce and size.
    method SaveVaultEntry(p: Primitives, noteId: int, fileBytes: Bytes, mimeType: string, key: SecretKey,
                          nonce: Bytes, now: Time)
      requires Sound(p) && |nonce| == NONCE_LENGTH
      modifies db`vaultEntries, db`nextVaultEntryId
      ensures db.nextVaultEntryId == old(db.nextVaultEntryId) + 1
      ensures |db.vaultEntries| == |old(db.vaultEntries)| + 1
      ensures db.vaultEntries[..|old(db.vaultEntries)|] == old(db.vaultEntries)
      ensures var e := db.vaultEntries[|old(db.vaultEntries)|];
              && DecryptBytes(p, e.fileCipher, key) == Some(fileBytes)
              && e == VaultEntry(old(db.nextVaultEntryId), None, noteId, e.fileCipher, nonce, Some(mimeType),
                                 |fileBytes|, now)
    {
      var cipherText := EncryptBytes(p, fileBytes, key, nonce);
      db.vaultEntries := db.vaultEntries +
        [NewAttachment(db.nextVaultEntryId, noteId, cipherText, cipherText[..12], Some(mimeType), |fileBytes|, now)];
      db.nextVaultEntryId := db.nextVaultEntryId + 1;
    }
  }
}
