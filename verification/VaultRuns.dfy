// Runs of one device that does not sync: what is listed afterwards.
module VaultRuns {
  import opened ClientDb
  import opened Envelope
  import opened Models
  import opened Unlocking
  import opened VaultNotes
  import opened Wrappers

  datatype Vault = Vault(door: Door, rows: seq<NoteEntry>, nextId: int)

  datatype Event =
    | AtDoor(action: Action)
    | Save(title: string, content: string, titleNonce: Bytes, contentNonce: Bytes, now: Time)
    | Edit(id: int, title: string, content: string, listedVersion: Option<int>,
           titleNonce: Bytes, contentNonce: Bytes, now: Time, resets: bool)
    | Delete(id: int)

  const NEW_VAULT := Vault(SHUT, [], 1)

  // Texts survive UTF-8, and nonces have the length the cipher draws.
  ghost predicate Proper(p: Primitives, e: Event) {
    e.Save? || e.Edit? ==>
      && |e.titleNonce| == NONCE_LENGTH && |e.contentNonce| == NONCE_LENGTH
      && WellFormed(p, e.title) && WellFormed(p, e.content)
  }

  ghost predicate AllProper(p: Primitives, events: seq<Event>) {
    Sound(p) && Authentic(p) && forall e :: e in events ==> Proper(p, e)
  }

  function SavedRow(p: Primitives, key: SecretKey, nextId: int, e: Event): NoteEntry
    requires e.Save?
  {
    NewRow(nextId, Sealed(p, e.title, key, e.titleNonce), Sealed(p, e.content, key, e.contentNonce), e.now)
  }

  function RowsEdited(p: Primitives, key: SecretKey, rows: seq<NoteEntry>, e: Event): seq<NoteEntry>
    requires e.Edit?
  {
    EditRows(rows, e.id, Sealed(p, e.title, key, e.titleNonce), Sealed(p, e.content, key, e.contentNonce),
             e.listedVersion, e.now, e.resets)
  }

  // Without a master key, saves, edits and deletes do nothing; nor does an edit of a note
  // that is not on the list, where the look-up throws.
  function Step(p: Primitives, kdf: Kdf, v: Vault, e: Event): Vault {
    match e
    case AtDoor(action) => v.(door := DoorStep(kdf, v.door, action))
    case Save(_, _, _, _, _) =>
      if v.door.masterKey.None? then v
      else v.(rows := v.rows + [SavedRow(p, v.door.masterKey.value, v.nextId, e)], nextId := v.nextId + 1)
    case Edit(_, _, _, _, _, _, _, _) =>
      if v.door.masterKey.None? || e.listedVersion.None? then v
      else v.(rows := RowsEdited(p, v.door.masterKey.value, v.rows, e))
    case Delete(id) => if v.door.masterKey.None? then v else v.(rows := Without(v.rows, id))
  }

  // The providers in front of the repository: they hold the key and the unlocks under way.
  class NotesState {
    const repo: NotesRepository
    var masterKey: Option<SecretKey>
    var unlocks: seq<Progress>

    constructor (repo: NotesRepository)
      ensures this.repo == repo && masterKey == None && unlocks == []
    {
      this.repo := repo;
      masterKey := None;
      unlocks := [];
    }

    function TheDoor(): Door
      reads this, repo.db
    {
      Door(repo.db.vaultMetadata, unlocks, masterKey)
    }

    function View(): Vault
      reads this, repo.db
    {
      Vault(TheDoor(), repo.db.noteEntries, repo.db.nextNoteId)
    }

    // One look-up; it throws when the table has several rows.
    method LookUp(password: string) returns (progress: Progress)
      modifies this`masterKey
      ensures progress == Seen(repo.db.vaultMetadata, password)
      ensures masterKey == if |repo.db.vaultMetadata| > 1 then None else old(masterKey)
    {
      if |repo.db.vaultMetadata| > 1 {
        masterKey := None;
        return Over;
      }
      if repo.db.vaultMetadata == [] {
        return Missing(password);
      }
      return Known(password, repo.db.vaultMetadata[0].salt);
    }

    method Turn(kdf: Kdf, action: Action)
      modifies this, repo.db`vaultMetadata
      ensures TheDoor() == DoorStep(kdf, old(TheDoor()), action)
    {
      if !Possible(TheDoor(), action) {
        return;
      }
      match action {
        case Look(password) =>
          var progress := LookUp(password);
          unlocks := unlocks + [progress];
        case Insert(u, salt) =>
          repo.db.vaultMetadata := repo.db.vaultMetadata + [VaultMetadata(salt, "shared", 600)];
          unlocks := unlocks[u := Added(unlocks[u].password)];
        case Reread(u) =>
          var progress := LookUp(unlocks[u].password);
          unlocks := unlocks[u := progress];
        case Derive(u) =>
          masterKey := Some(kdf(unlocks[u].password, unlocks[u].salt));
          unlocks := unlocks[u := Over];
        case Lock =>
          masterKey := None;
      }
    }

    method Handle(p: Primitives, kdf: Kdf, e: Event)
      requires Sound(p) && Proper(p, e)
      modifies this, repo.db
      ensures View() == Step(p, kdf, old(View()), e)
    {
      match e {
        case AtDoor(action) =>
          Turn(kdf, action);
        case Save(title, content, titleNonce, contentNonce, now) =>
          if masterKey.Some? {
            repo.SaveNote(p, title, content, masterKey.value, titleNonce, contentNonce, now);
          }
        case Edit(id, title, content, listedVersion, titleNonce, contentNonce, now, resets) =>
          if masterKey.Some? && listedVersion.Some? {
            repo.UpdateNote(p, id, title, content, masterKey.value, listedVersion, titleNonce, contentNonce, now,
                            resets);
          }
        case Delete(id) =>
          if masterKey.Some? {
            repo.DeleteNote(id);
          }
      }
    }
  }

  function Run(p: Primitives, kdf: Kdf, events: seq<Event>): Vault {
    if events == [] then NEW_VAULT
    else Step(p, kdf, Run(p, kdf, events[..|events| - 1]), events[|events| - 1])
  }

  // ----- read off the events alone

  function Actions(events: seq<Event>): seq<Action> {
    if events == [] then []
    else
      var e := events[|events| - 1];
      Actions(events[..|events| - 1]) + if e.AtDoor? then [e.action] else []
  }

  // The key that the unlocks and locks have left.
  function KeyHeld(kdf: Kdf, events: seq<Event>): Option<SecretKey> {
    DoorRun(kdf, Actions(events)).masterKey
  }

  function NextNumber(kdf: Kdf, events: seq<Event>): int {
    if events == [] then 1
    else
      var front := events[..|events| - 1];
      NextNumber(kdf, front) + if events[|events| - 1].Save? && KeyHeld(kdf, front).Some? then 1 else 0
  }

  datatype Plain = Plain(key: SecretKey, title: string, content: string, at: Time, version: int, createdAt: Time)

  // What one event makes of the last text of a note; next is the number a save would get.
  function Rewrite(key: Option<SecretKey>, next: int, before: Option<Plain>, e: Event, id: int): Option<Plain> {
    match (key, e)
    case (Some(k), Save(title, content, _, _, now)) =>
      if next == id then Some(Plain(k, title, content, now, 1, now)) else before
    case (Some(k), Edit(n, title, content, listed, _, _, now, resets)) =>
      if n == id && listed.Some? && before.Some? then
        Some(Plain(k, title, content, now, listed.value + 1, if resets then now else before.value.createdAt))
      else before
    case (Some(_), Delete(n)) => if n == id then None else before
    case _ => before
  }

  // The last text that was written for a note, and under which key; None once deleted.
  function LastWrite(kdf: Kdf, events: seq<Event>, id: int): Option<Plain> {
    if events == [] then None
    else
      var front := events[..|events| - 1];
      Rewrite(KeyHeld(kdf, front), NextNumber(kdf, front), LastWrite(kdf, front, id), events[|events| - 1], id)
  }

  // ----- the invariant

  // The row opens under one key only, and then says what was written.
  ghost predicate Says(p: Primitives, r: NoteEntry, w: Plain) {
    && r.updatedAt == w.at
    && forall k :: (Decrypt(p, r.titleCipher, k) == if k == w.key then Some(w.title) else None)
                   && (Decrypt(p, r.contentCipher, k) == if k == w.key then Some(w.content) else None)
  }

  ghost predicate HasRow(rows: seq<NoteEntry>, id: int) {
    exists i :: 0 <= i < |rows| && rows[i].id == id
  }

  ghost predicate Matches(p: Primitives, v: Vault, last: int -> Option<Plain>) {
    && Numbered(v.rows, v.nextId)
    && (forall i :: 0 <= i < |v.rows| ==> RowSays(p, v.rows[i], last))
    && (forall id :: last(id).Some? ==> HasRow(v.rows, id))
  }

  ghost predicate RowSays(p: Primitives, r: NoteEntry, last: int -> Option<Plain>) {
    && last(r.id).Some? && Says(p, r, last(r.id).value)
    && r.version == last(r.id).value.version && r.createdAt == last(r.id).value.createdAt && r.serverId == None
  }

  ghost predicate Follows(v: Vault, e: Event, last: int -> Option<Plain>, next: int -> Option<Plain>) {
    forall id :: next(id) == Rewrite(v.door.masterKey, v.nextId, last(id), e, id)
  }

  lemma SealedSays(p: Primitives, r: NoteEntry, w: Plain, titleNonce: Bytes, contentNonce: Bytes)
    requires Sound(p) && Authentic(p) && |titleNonce| == |contentNonce| == NONCE_LENGTH
    requires WellFormed(p, w.title) && WellFormed(p, w.content)
    requires r.titleCipher == Sealed(p, w.title, w.key, titleNonce)
    requires r.contentCipher == Sealed(p, w.content, w.key, contentNonce) && r.updatedAt == w.at
    ensures Says(p, r, w)
  {
    forall k
      ensures Decrypt(p, r.titleCipher, k) == if k == w.key then Some(w.title) else None
      ensures Decrypt(p, r.contentCipher, k) == if k == w.key then Some(w.content) else None
    {
      SealedOpens(p, w.title, w.key, titleNonce, k);
      SealedOpens(p, w.content, w.key, contentNonce, k);
    }
  }

  // What happens to the notes has no part in unlocking.
  lemma {:induction false} DoorOfRun(p: Primitives, kdf: Kdf, events: seq<Event>)
    ensures Run(p, kdf, events).door == DoorRun(kdf, Actions(events))
  {
    if events != [] {
      var front, e := events[..|events| - 1], events[|events| - 1];
      DoorOfRun(p, kdf, front);
      if e.AtDoor? {
        DoorSnoc(kdf, SHUT, Actions(front), e.action);
      } else {
        assert Actions(events) == Actions(front);
      }
    }
  }

  lemma NumberingStays(p: Primitives, kdf: Kdf, v: Vault, e: Event)
    requires Numbered(v.rows, v.nextId)
    ensures Numbered(Step(p, kdf, v, e).rows, Step(p, kdf, v, e).nextId)
  {
    var u := Step(p, kdf, v, e);
    if v.door.masterKey.Some? {
      match e {
        case Save(_, _, _, _, _) =>
          assert forall r :: r in u.rows ==> r in v.rows || r == u.rows[|v.rows|];
        case Edit(_, _, _, _, _, _, _, _) =>
          assert forall i :: 0 <= i < |u.rows| ==> u.rows[i].id == v.rows[i].id && v.rows[i] in v.rows;
        case Delete(id) => WithoutRemoves(v.rows, id);
        case _ =>
      }
    }
  }

  lemma CoverageStays(v: Vault, u: seq<NoteEntry>, id: int)
    requires HasRow(v.rows, id) && |v.rows| <= |u|
    requires forall i :: 0 <= i < |v.rows| ==> u[i].id == v.rows[i].id
    ensures HasRow(u, id)
  {
    var i :| 0 <= i < |v.rows| && v.rows[i].id == id;
    assert u[i].id == id;
  }

  lemma SaveMatches(p: Primitives, kdf: Kdf, v: Vault, e: Event, last: int -> Option<Plain>, next: int -> Option<Plain>)
    requires Sound(p) && Authentic(p) && Proper(p, e) && e.Save? && v.door.masterKey.Some?
    requires Matches(p, v, last) && Follows(v, e, last, next)
    ensures Matches(p, Step(p, kdf, v, e), next)
  {
    var u := Step(p, kdf, v, e);
    var n := |v.rows|;
    NumberingStays(p, kdf, v, e);
    var w := Plain(v.door.masterKey.value, e.title, e.content, e.now, 1, e.now);
    SealedSays(p, u.rows[n], w, e.titleNonce, e.contentNonce);
    assert next(v.nextId) == Some(w);
    forall i | 0 <= i < |u.rows| ensures RowSays(p, u.rows[i], next) {
      if i < n {
        assert v.rows[i] in v.rows && RowSays(p, v.rows[i], last);
        assert next(v.rows[i].id) == last(v.rows[i].id);
      }
    }
    forall id | next(id).Some? ensures HasRow(u.rows, id) {
      if id == v.nextId {
        assert u.rows[n].id == id;
      } else {
        CoverageStays(v, u.rows, id);
      }
    }
  }

  lemma EditMatches(p: Primitives, kdf: Kdf, v: Vault, e: Event, last: int -> Option<Plain>, next: int -> Option<Plain>)
    requires Sound(p) && Authentic(p) && Proper(p, e) && e.Edit? && v.door.masterKey.Some? && e.listedVersion.Some?
    requires Matches(p, v, last) && Follows(v, e, last, next)
    ensures Matches(p, Step(p, kdf, v, e), next)
  {
    var u := Step(p, kdf, v, e);
    NumberingStays(p, kdf, v, e);
    forall i | 0 <= i < |u.rows| ensures RowSays(p, u.rows[i], next) {
      assert RowSays(p, v.rows[i], last);
      if v.rows[i].id == e.id {
        assert next(e.id).Some?;
        SealedSays(p, u.rows[i], next(e.id).value, e.titleNonce, e.contentNonce);
      } else {
        assert next(v.rows[i].id) == last(v.rows[i].id);
      }
    }
    forall id | next(id).Some? ensures HasRow(u.rows, id) {
      CoverageStays(v, u.rows, id);
    }
  }

  lemma DeleteMatches(p: Primitives, kdf: Kdf, v: Vault, e: Event, last: int -> Option<Plain>,
                      next: int -> Option<Plain>)
    requires e.Delete? && v.door.masterKey.Some? && Matches(p, v, last) && Follows(v, e, last, next)
    ensures Matches(p, Step(p, kdf, v, e), next)
  {
    var u := Step(p, kdf, v, e);
    NumberingStays(p, kdf, v, e);
    WithoutRemoves(v.rows, e.id);
    forall i | 0 <= i < |u.rows|
      ensures RowSays(p, u.rows[i], next)
    {
      assert u.rows[i] in u.rows;
      var k :| 0 <= k < |v.rows| && v.rows[k] == u.rows[i];
      assert RowSays(p, v.rows[k], last);
    }
    forall id | next(id).Some? ensures HasRow(u.rows, id) {
      assert HasRow(v.rows, id);
      var i :| 0 <= i < |v.rows| && v.rows[i].id == id;
      assert v.rows[i] in u.rows;
      var k :| 0 <= k < |u.rows| && u.rows[k] == v.rows[i];
    }
  }

  lemma {:induction false} NextIdCounts(p: Primitives, kdf: Kdf, events: seq<Event>)
    ensures Run(p, kdf, events).nextId == NextNumber(kdf, events)
  {
    if events != [] {
      NextIdCounts(p, kdf, events[..|events| - 1]);
      DoorOfRun(p, kdf, events[..|events| - 1]);
    }
  }

  lemma {:induction false} RunMatches(p: Primitives, kdf: Kdf, events: seq<Event>)
    requires AllProper(p, events)
    ensures Matches(p, Run(p, kdf, events), id => LastWrite(kdf, events, id))
  {
    if events != [] {
      var front, e := events[..|events| - 1], events[|events| - 1];
      var last: int -> Option<Plain> := id => LastWrite(kdf, front, id);
      var next: int -> Option<Plain> := id => LastWrite(kdf, events, id);
      var v := Run(p, kdf, front);
      assert e in events;
      RunMatches(p, kdf, front);
      DoorOfRun(p, kdf, front);
      NextIdCounts(p, kdf, front);
      assert Follows(v, e, last, next);
      if v.door.masterKey.Some? {
        match e {
          case Save(_, _, _, _, _) => SaveMatches(p, kdf, v, e, last, next);
          case Edit(_, _, _, listed, _, _, _, _) =>
            if listed.Some? {
              EditMatches(p, kdf, v, e, last, next);
            }
          case Delete(_) => DeleteMatches(p, kdf, v, e, last, next);
          case _ =>
        }
      }
    }
  }

  // ----- the list

  // The models that decryption yields are the last texts written under the key.
  lemma ModelsAreLastWrites(p: Primitives, v: Vault, last: int -> Option<Plain>, key: SecretKey)
    requires Matches(p, v, last)
    ensures forall m :: m in Shown(p, v.rows, key) ==>
      last(m.id) == Some(Plain(key, m.title, m.content, m.updatedAt, m.version, m.createdAt))
    ensures forall id :: last(id).Some? && last(id).value.key == key ==>
              (exists m :: m in Shown(p, v.rows, key) && m.id == id)
  {
    ShownSelects(p, v.rows, key);
    forall m | m in Shown(p, v.rows, key)
      ensures last(m.id) == Some(Plain(key, m.title, m.content, m.updatedAt, m.version, m.createdAt))
    {
      var r :| r in v.rows && Model(p, r, key) == Some(m);
      var i :| 0 <= i < |v.rows| && v.rows[i] == r;
      assert RowSays(p, v.rows[i], last);
    }
    forall id | last(id).Some? && last(id).value.key == key
      ensures exists m :: m in Shown(p, v.rows, key) && m.id == id
    {
      assert HasRow(v.rows, id);
      var i :| 0 <= i < |v.rows| && v.rows[i].id == id;
      assert RowSays(p, v.rows[i], last);
      assert Model(p, v.rows[i], key).Some? && v.rows[i] in v.rows;
      assert Model(p, v.rows[i], key).value in Shown(p, v.rows, key);
    }
  }

  // After any run, what is listed under key k is exactly the surviving notes whose last
  // text was written under k: each once, with that text, newest first.
  lemma ListShowsLastWrites(p: Primitives, kdf: Kdf, events: seq<Event>, key: SecretKey, notes: seq<NoteModel>)
    requires AllProper(p, events)
    requires Newest.Ordered(notes, LastChanged)
    requires multiset(notes) == multiset(Shown(p, Run(p, kdf, events).rows, key))
    ensures forall m :: m in notes ==>
      LastWrite(kdf, events, m.id) == Some(Plain(key, m.title, m.content, m.updatedAt, m.version, m.createdAt))
    ensures forall id :: LastWrite(kdf, events, id).Some? && LastWrite(kdf, events, id).value.key == key ==>
              (exists m :: m in notes && m.id == id)
    ensures forall i, j :: 0 <= i < j < |notes| ==>
      notes[i].id != notes[j].id && notes[i].updatedAt >= notes[j].updatedAt
  {
    var v := Run(p, kdf, events);
    var last: int -> Option<Plain> := id => LastWrite(kdf, events, id);
    RunMatches(p, kdf, events);
    ModelsAreLastWrites(p, v, last, key);
    ShownSelects(p, v.rows, key);
    SameElements(notes, Shown(p, v.rows, key));
    forall m | m in notes
      ensures LastWrite(kdf, events, m.id) == Some(Plain(key, m.title, m.content, m.updatedAt, m.version, m.createdAt))
    {
      assert last(m.id) == Some(Plain(key, m.title, m.content, m.updatedAt, m.version, m.createdAt));
    }
    forall id | LastWrite(kdf, events, id).Some? && LastWrite(kdf, events, id).value.key == key
      ensures exists m :: m in notes && m.id == id
    {
      assert last(id).Some?;
      var m :| m in Shown(p, v.rows, key) && m.id == id;
      assert m in notes;
    }
    ShuffledIdsStayDistinct(Shown(p, v.rows, key), notes);
    forall i, j | 0 <= i < j < |notes| ensures notes[i].updatedAt >= notes[j].updatedAt {
      assert LastChanged(notes[i]) >= LastChanged(notes[j]);
    }
  }


  // An edit that is made with the version its note is listed at stores the next one.
  lemma EditOfListed(p: Primitives, kdf: Kdf, v: Vault, key: SecretKey, m: NoteModel, e: Event, i: nat)
    requires DistinctRows(v.rows) && m in Shown(p, v.rows, key) && i < |v.rows| && v.rows[i].id == m.id
    requires e.Edit? && e.id == m.id && e.listedVersion == Some(m.version) && v.door.masterKey.Some?
    ensures m.version == v.rows[i].version
    ensures var after := Step(p, kdf, v, e).rows;
            && |after| == |v.rows| && after[i].version == v.rows[i].version + 1 && !after[i].isSynced
            && forall k :: 0 <= k < |after| && k != i ==> after[k] == v.rows[k]
  {
    ShownStems(p, v.rows, key);
    var r :| r in v.rows && StemsFrom(p, m, r, key);
    var k :| 0 <= k < |v.rows| && v.rows[k] == r;
  }
}
