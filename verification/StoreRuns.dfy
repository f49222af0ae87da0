// Runs over the server's note table: creates, updates, deletes and sync batches.
module StoreRuns {
  import opened Models
  import opened Newest
  import opened NoteStore
  import opened SyncRoute
  import opened Wrappers

  datatype StoreOp =
    | Create(note: Note, dbOk: bool)
    | Update(note: Note, now: Time, dbOk: bool)
    | Delete(userId: Uuid, noteId: Uuid, now: Time, dbOk: bool)
    | Sync(session: Uuid, batch: seq<Attempt>)

  function Apply(t: Table, op: StoreOp): Table {
    match op
    case Create(n, dbOk) => if dbOk && n.id !in t then Created(t, n) else t
    case Update(n, now, dbOk) =>
      if dbOk && n.id in t && t[n.id].userId == n.userId then Updated(t, n, now) else t
    case Delete(userId, noteId, now, dbOk) => if dbOk then Deleted(t, userId, noteId, now) else t
    case Sync(session, batch) => Process(t, session, batch).table
  }

  // The store's own operations take the table from one step to the next.
  method Perform(store: PgNyrexStore, op: StoreOp)
    modifies store
    ensures store.notes == Apply(old(store.notes), op)
  {
    match op {
      case Create(note, dbOk) =>
        var ok := store.CreateNote(note, dbOk);
      case Update(note, now, dbOk) =>
        var ok := store.UpdateNote(note, now, dbOk);
      case Delete(userId, noteId, now, dbOk) =>
        store.DeleteNote(userId, noteId, now, dbOk);
      case Sync(session, batch) =>
        var results := SyncNotes(store, session, batch);
    }
  }

  function ApplyAll(t: Table, ops: seq<StoreOp>): Table {
    if ops == [] then t else Apply(ApplyAll(t, ops[..|ops| - 1]), ops[|ops| - 1])
  }

  ghost predicate Buried(t: Table, id: Uuid) {
    id in t && t[id].deletedAt.Some?
  }

  lemma {:induction false} RunKeepsTableInOrder(t: Table, ops: seq<StoreOp>)
    requires Keyed(t)
    ensures Keyed(ApplyAll(t, ops))
    ensures forall id :: id in t ==> id in ApplyAll(t, ops) && ApplyAll(t, ops)[id].userId == t[id].userId
    ensures forall id :: Buried(t, id) ==> Buried(ApplyAll(t, ops), id)
  {
    if ops != [] {
      var front := ApplyAll(t, ops[..|ops| - 1]);
      RunKeepsTableInOrder(t, ops[..|ops| - 1]);
      match ops[|ops| - 1] {
        case Create(_, _) =>
        case Update(_, _, _) =>
        case Delete(_, _, _, _) =>
        case Sync(session, batch) =>
          OneResultPerEntry(front, session, batch);
          BatchKeepsIdentity(front, session, batch);
      }
    }
  }

  // A deleted note is never seen again: not by its owner nor anyone else, not by
  // lookup nor in a listing, whatever happens to the table afterwards.
  lemma TombstonesAreForever(t: Table, before: seq<StoreOp>, noteId: Uuid, now: Time, after: seq<StoreOp>,
                             userId: Uuid, listing: seq<Note>)
    requires Keyed(t)
    requires noteId in ApplyAll(t, before)
    requires var m := ApplyAll(t, before);
             var u := ApplyAll(Deleted(m, m[noteId].userId, noteId, now), after);
             IsListing(u, userId, listing)
    ensures var m := ApplyAll(t, before);
            var u := ApplyAll(Deleted(m, m[noteId].userId, noteId, now), after);
            && GetNote(u, userId, noteId).None?
            && forall n :: n in listing ==> n.id != noteId
  {
    var m := ApplyAll(t, before);
    RunKeepsTableInOrder(t, before);
    var d := Deleted(m, m[noteId].userId, noteId, now);
    assert Buried(d, noteId);
    RunKeepsTableInOrder(d, after);
    assert Buried(ApplyAll(d, after), noteId);
  }

  // A listing shows exactly the notes a lookup would find, each once, newest first.
  lemma ViewsAgree(t: Table, userId: Uuid, listing: seq<Note>)
    requires Keyed(t) && IsListing(t, userId, listing)
    ensures forall id :: GetNote(t, userId, id).Some? <==> exists n :: n in listing && n.id == id
    ensures forall n :: n in listing ==> GetNote(t, userId, n.id) == Some(n)
    ensures forall i, j :: 0 <= i < j < |listing| ==>
      listing[i].id != listing[j].id && listing[i].updatedAt >= listing[j].updatedAt
  {
    forall id | GetNote(t, userId, id).Some? ensures exists n :: n in listing && n.id == id {
      assert t[id] in listing;
    }
    forall i, j | 0 <= i < j < |listing|
      ensures listing[i].id != listing[j].id && listing[i].updatedAt >= listing[j].updatedAt
    {
      assert listing[i] in listing && listing[j] in listing;
      assert UpdatedAt(listing[i]) >= UpdatedAt(listing[j]);
    }
  }

  // Up to ties between equal timestamps there is only one listing.
  lemma ListingIsUnique(t: Table, userId: Uuid, a: seq<Note>, b: seq<Note>)
    requires IsListing(t, userId, a) && IsListing(t, userId, b)
    requires forall m, n :: m in a && n in a && m != n ==> m.updatedAt != n.updatedAt
    ensures a == b
  {
    forall i, j | 0 <= i < j < |a| ensures UpdatedAt(a[i]) > UpdatedAt(a[j]) {
      assert a[i] in a && a[j] in a;
    }
    forall i, j | 0 <= i < j < |b| ensures UpdatedAt(b[i]) > UpdatedAt(b[j]) {
      assert b[i] in b && b[j] in b;
      assert b[i] in a && b[j] in a;
    }
    StrictOrderIsUnique(a, b, UpdatedAt);
  }
}
