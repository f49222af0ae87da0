// The batch loop of POST /sync/notes.
module SyncRoute {
  import opened Int32
  import opened Models
  import opened NoteStore
  import opened SyncEngine
  import opened Wrappers

  const NOT_OWNED := "Unauthorized note ownership"
  const DB_FAILED := "Database update failed"

  /** One entry of a batch, with what the database does while it is processed. */
  datatype Attempt = Attempt(entry: Note, fetchOk: bool, upsertOk: bool, now: Time)

  datatype Step = Step(table: Table, result: SyncResult<Note>)

  datatype Outcome = Outcome(table: Table, results: seq<SyncResult<Note>>)

  // SELECT ... WHERE id AND user_id. Tombstones are not filtered out.
  function Fetch(t: Table, id: Uuid, userId: Uuid): Option<Note> {
    if id in t && t[id].userId == userId then Some(t[id]) else None
  }

  // INSERT ... ON CONFLICT (id) DO UPDATE: the conflict arm leaves the owner,
  // the creation time, the tombstone, the format and the tags as they are.
  function Upsert(t: Table, n: Note, now: Time): Table {
    if n.id in t then
      t[n.id := t[n.id].(titleCipher := n.titleCipher, contentCipher := n.contentCipher,
                         nonce := n.nonce, version := n.version, updatedAt := now)]
    else
      t[n.id := Note(n.id, n.userId, n.titleCipher, n.contentCipher, n.nonce, n.version,
                     "markdown", [], now, now, None)]
  }

  function SyncEntry(t: Table, session: Uuid, a: Attempt): Step {
    if a.entry.userId != session then
      Step(t, Error(NOT_OWNED))
    else
      var server := if a.fetchOk then Fetch(t, a.entry.id, session) else None;
      match ReconcileNote(a.entry, server)
      case Success(updated) =>
        if a.upsertOk then Step(Upsert(t, updated, a.now), Success(updated))
        else Step(t, Error(DB_FAILED))
      case Conflict(serverVersion) => Step(t, Conflict(serverVersion))
      case Error(e) => Step(t, Error(e))
  }

  function Process(t: Table, session: Uuid, batch: seq<Attempt>): (o: Outcome)
    ensures |o.results| == |batch|
  {
    if batch == [] then Outcome(t, [])
    else
      var before := Process(t, session, batch[..|batch| - 1]);
      var last := SyncEntry(before.table, session, batch[|batch| - 1]);
      Outcome(last.table, before.results + [last.result])
  }

  // The route handler: an UPSERT that fails or a foreign entry becomes an Error result.
  method SyncNotes(store: PgNyrexStore, session: Uuid, batch: seq<Attempt>)
    returns (results: seq<SyncResult<Note>>)
    modifies store
    ensures store.notes == Process(old(store.notes), session, batch).table
    ensures results == Process(old(store.notes), session, batch).results
  {
    results := [];
    ghost var start := store.notes;
    for i := 0 to |batch|
      invariant Process(start, session, batch[..i]) == Outcome(store.notes, results)
    {
      assert batch[..i + 1][..i] == batch[..i];
      var clientNote := batch[i].entry;
      if clientNote.userId != session {
        results := results + [Error(NOT_OWNED)];
        continue;
      }
      var serverNote := None;
      if batch[i].fetchOk {
        serverNote := Fetch(store.notes, clientNote.id, session);
      }
      match ReconcileNote(clientNote, serverNote) {
        case Success(updated) =>
          if batch[i].upsertOk {
            store.notes := Upsert(store.notes, updated, batch[i].now);
            results := results + [Success(updated)];
          } else {
            results := results + [Error(DB_FAILED)];
          }
        case Conflict(serverVersion) =>
          results := results + [Conflict(serverVersion)];
        case Error(e) =>
          results := results + [Error(e)];
      }
    }
    assert batch[..|batch|] == batch;
  }

  // ----- positions

  function TableBefore(t: Table, session: Uuid, batch: seq<Attempt>, i: nat): Table
    requires i <= |batch|
  {
    Process(t, session, batch[..i]).table
  }

  lemma {:induction false} ResultAt(t: Table, session: Uuid, batch: seq<Attempt>, i: nat)
    requires i < |batch|
    ensures Process(t, session, batch).results[i]
         == SyncEntry(TableBefore(t, session, batch, i), session, batch[i]).result
    ensures TableBefore(t, session, batch, i + 1)
         == SyncEntry(TableBefore(t, session, batch, i), session, batch[i]).table
  {
    var front := batch[..|batch| - 1];
    assert batch[..i + 1][..i] == batch[..i];
    if i < |front| {
      ResultAt(t, session, front, i);
      assert front[..i] == batch[..i];
    } else {
      assert batch[..i] == front;
    }
  }

  // One result per entry, in order; a note in a result has the id of the entry
  // at its position, and foreign entries are the ones refused as such.
  lemma {:induction false} OneResultPerEntry(t: Table, session: Uuid, batch: seq<Attempt>)
    requires Keyed(t)
    ensures Keyed(Process(t, session, batch).table)
    ensures forall i :: 0 <= i < |batch| ==>
      match Process(t, session, batch).results[i]
      case Success(n) => n.id == batch[i].entry.id && n.userId == session == batch[i].entry.userId
      case Conflict(n) => n.id == batch[i].entry.id && n.userId == session == batch[i].entry.userId
      case Error(e) =>
        e == if batch[i].entry.userId != session then "Unauthorized note ownership" else "Database update failed"
  {
    if batch != [] {
      OneResultPerEntry(t, session, batch[..|batch| - 1]);
    }
  }

  // The answer to each entry, from the row that its id has when its turn comes: taken
  // at the successor of the row's version if the versions agree, as it is if there is
  // no row to be seen, and otherwise turned down with the row itself.
  lemma EachAnswerExactly(t: Table, session: Uuid, batch: seq<Attempt>, i: nat)
    requires i < |batch| && batch[i].entry.userId == session
    ensures var before := TableBefore(t, session, batch, i);
            var e, result := batch[i].entry, Process(t, session, batch).results[i];
            var seen := batch[i].fetchOk && e.id in before && before[e.id].userId == session;
            var stale := seen && before[e.id].version != e.version;
            && (result.Conflict? <==> stale)
            && (stale ==> result == Conflict(before[e.id]))
            && (result.Success? <==> !stale && batch[i].upsertOk)
            && (result.Success? ==> result.note.(version := e.version) == e)
            && (result.Success? && !seen ==> result.note.version == e.version)
            && (result.Success? && seen ==> (result.note.version - before[e.id].version - 1) % SPAN == 0)
  {
    ResultAt(t, session, batch, i);
  }

  lemma {:induction false} ProcessAppend(t: Table, session: Uuid, a: seq<Attempt>, b: seq<Attempt>)
    ensures var first := Process(t, session, a);
            var second := Process(first.table, session, b);
            Process(t, session, a + b) == Outcome(second.table, first.results + second.results)
  {
    if b == [] {
      assert a + b == a;
    } else {
      ProcessAppend(t, session, a, b[..|b| - 1]);
      assert (a + b)[..|a + b| - 1] == a + b[..|b| - 1];
    }
  }

  // ----- frame

  predicate Names(session: Uuid, a: Attempt, id: Uuid) {
    a.entry.userId == session && a.entry.id == id
  }

  predicate Agree(t: Table, u: Table, id: Uuid) {
    && (id in t <==> id in u)
    && (id in t ==> t[id] == u[id])
  }

  // A batch leaves every row alone that none of the session's own entries names.
  lemma {:induction false} BatchFrame(t: Table, session: Uuid, batch: seq<Attempt>, id: Uuid)
    requires forall a :: a in batch ==> !Names(session, a, id)
    ensures Agree(t, Process(t, session, batch).table, id)
  {
    if batch != [] {
      BatchFrame(t, session, batch[..|batch| - 1], id);
      assert batch[|batch| - 1] in batch;
    }
  }

  // Rows never disappear, and the owner, the creation time, the tombstone, the
  // format and the tags of a row are out of a batch's reach.
  ghost predicate KeepsIdentity(t: Table, u: Table) {
    forall id :: id in t ==>
      && id in u
      && u[id].userId == t[id].userId && u[id].createdAt == t[id].createdAt
      && u[id].deletedAt == t[id].deletedAt && u[id].format == t[id].format && u[id].tags == t[id].tags
  }

  lemma {:induction false} BatchKeepsIdentity(t: Table, session: Uuid, batch: seq<Attempt>)
    ensures KeepsIdentity(t, Process(t, session, batch).table)
  {
    if batch != [] {
      BatchKeepsIdentity(t, session, batch[..|batch| - 1]);
    }
  }

  // Entry i is the last one accepted for this id; there is none if i is -1.
  ghost predicate IsLastFor(results: seq<SyncResult<Note>>, id: Uuid, i: int) {
    && -1 <= i < |results|
    && (i >= 0 ==> results[i].Success? && results[i].note.id == id)
    && forall j :: i < j < |results| && results[j].Success? ==> results[j].note.id != id
  }

  lemma LastForFront(results: seq<SyncResult<Note>>, id: Uuid, i: int)
    requires IsLastFor(results, id, i) && i < |results| - 1
    ensures IsLastFor(results[..|results| - 1], id, i)
    ensures results[|results| - 1].Success? ==> results[|results| - 1].note.id != id
  {
  }

  // For each id the last accepted entry wins: its image is what the row says in the
  // end, stamped with the time of that write. Without one, the row is untouched.
  lemma {:induction false} LastAcceptedWins(t: Table, session: Uuid, batch: seq<Attempt>, id: Uuid, i: int)
    requires IsLastFor(Process(t, session, batch).results, id, i)
    ensures var o := Process(t, session, batch);
            if i < 0 then Agree(t, o.table, id)
            else id in o.table && o.table[id].updatedAt == batch[i].now
                 && ImageOf(o.table[id]) == ImageOf(o.results[i].note)
  {
    if batch != [] {
      var n := |batch| - 1;
      var full := Process(t, session, batch);
      assert full.results[..n] == Process(t, session, batch[..n]).results;
      if i < n {
        LastForFront(full.results, id, i);
        LastAcceptedWins(t, session, batch[..n], id, i);
      }
    }
  }

  // Entry i is the first one accepted for this id.
  ghost predicate IsFirstFor(results: seq<SyncResult<Note>>, id: Uuid, i: int) {
    && 0 <= i < |results| && results[i].Success? && results[i].note.id == id
    && forall j :: 0 <= j < i && results[j].Success? ==> results[j].note.id != id
  }

  // A row that a batch has brought: from the first entry accepted for it, with the text
  // of the last one, and with the columns that no entry carries at their defaults.
  ghost predicate Brought(row: Note, session: Uuid, batch: seq<Attempt>, results: seq<SyncResult<Note>>, id: Uuid,
                          first: int, last: int)
    requires |results| == |batch|
  {
    && IsFirstFor(results, id, first) && IsLastFor(results, id, last) && first <= last
    && row.id == id && row.userId == session
    && row.deletedAt == None && row.format == "markdown" && row.tags == []
    && row.createdAt == batch[first].now && row.updatedAt == batch[last].now
    && row.titleCipher == batch[last].entry.titleCipher && row.contentCipher == batch[last].entry.contentCipher
    && row.nonce == batch[last].entry.nonce && row.version == results[last].note.version
  }

  lemma BroughtFurther(row: Note, session: Uuid, batch: seq<Attempt>, results: seq<SyncResult<Note>>, id: Uuid,
                       first: int, last: int, a: Attempt, r: SyncResult<Note>)
    requires |results| == |batch| && Brought(row, session, batch, results, id, first, last)
    requires r.Success? ==> r.note.id != id
    ensures Brought(row, session, batch + [a], results + [r], id, first, last)
  {
  }

  lemma EntryBrings(t: Table, session: Uuid, batch: seq<Attempt>, results: seq<SyncResult<Note>>, a: Attempt, id: Uuid)
    returns (first: int, last: int)
    requires |results| == |batch|
    requires var step := SyncEntry(t, session, a); step.result.Success? && step.result.note.id == id
    requires id !in t ==> forall j :: 0 <= j < |results| && results[j].Success? ==> results[j].note.id != id
    requires id in t ==> exists f, l :: Brought(t[id], session, batch, results, id, f, l)
    ensures var step := SyncEntry(t, session, a);
            id in step.table && Brought(step.table[id], session, batch + [a], results + [step.result], id, first, last)
  {
    last := |batch|;
    if id in t {
      var f, l :| Brought(t[id], session, batch, results, id, f, l);
      first := f;
    } else {
      first := |batch|;
    }
  }

  // New rows: an id that was not there has a row afterwards iff an entry for it was
  // accepted. The row belongs to the session, is alive, and has the defaults of the table.
  lemma {:induction false} NewRows(t: Table, session: Uuid, batch: seq<Attempt>, id: Uuid)
    requires id !in t
    ensures var o := Process(t, session, batch);
            if id in o.table then exists f, l :: Brought(o.table[id], session, batch, o.results, id, f, l)
            else forall j :: 0 <= j < |batch| && o.results[j].Success? ==> o.results[j].note.id != id
  {
    if batch != [] {
      var front, a := batch[..|batch| - 1], batch[|batch| - 1];
      var m := Process(t, session, front);
      var step := SyncEntry(m.table, session, a);
      NewRows(t, session, front, id);
      assert batch == front + [a];
      if step.result.Success? && step.result.note.id == id {
        var first, last := EntryBrings(m.table, session, front, m.results, a, id);
      } else if id in m.table {
        var f, l :| Brought(m.table[id], session, front, m.results, id, f, l);
        BroughtFurther(m.table[id], session, front, m.results, id, f, l, a, step.result);
      }
    }
  }

  // In particular its owner finds it.
  lemma NewRowsAreFound(t: Table, session: Uuid, batch: seq<Attempt>, id: Uuid)
    requires id !in t && id in Process(t, session, batch).table
    ensures GetNote(Process(t, session, batch).table, session, id) == Some(Process(t, session, batch).table[id])
  {
    NewRows(t, session, batch, id);
  }

  // The upsert matches on the id alone, while the fetch filters on the owner. So an own
  // entry that names somebody else's row is taken for a new note: it is told Success at
  // its own version, and the row says what the entry says, iff the upsert works. The
  // owner's next entry gets Conflict unless it happens to carry that version.
  lemma ForeignRowIsOverwritten(t: Table, session: Uuid, a: Attempt, b: Attempt)
    requires a.entry.userId == session && a.entry.id in t && t[a.entry.id].userId != session
    requires b.entry.id == a.entry.id && b.entry.userId == t[a.entry.id].userId && b.fetchOk && b.upsertOk
    ensures var id := a.entry.id;
            var step := SyncEntry(t, session, a);
            && step.result == (if a.upsertOk then Success(a.entry) else Error(DB_FAILED))
            && id in step.table && step.table[id].userId == t[id].userId
            && ImageOf(step.table[id]) == (if a.upsertOk then ImageOf(a.entry) else ImageOf(t[id]))
            && (SyncEntry(step.table, b.entry.userId, b).result.Conflict?
                <==> b.entry.version != if a.upsertOk then a.entry.version else t[id].version)
  {
  }

  // ----- entries that are alone with their id

  lemma SyncEntryIsLocal(t: Table, u: Table, session: Uuid, a: Attempt)
    requires Agree(t, u, a.entry.id)
    ensures SyncEntry(t, session, a).result == SyncEntry(u, session, a).result
    ensures Agree(SyncEntry(t, session, a).table, SyncEntry(u, session, a).table, a.entry.id)
  {
  }

  ghost predicate Alone(session: Uuid, batch: seq<Attempt>, i: nat)
    requires i < |batch|
  {
    forall j :: 0 <= j < |batch| && j != i ==> !Names(session, batch[j], batch[i].entry.id)
  }

  lemma SuffixLeaves(t: Table, session: Uuid, batch: seq<Attempt>, k: nat, id: Uuid)
    requires k <= |batch| && forall j :: k <= j < |batch| ==> !Names(session, batch[j], id)
    ensures Agree(TableBefore(t, session, batch, k), Process(t, session, batch).table, id)
  {
    BatchFrame(TableBefore(t, session, batch, k), session, batch[k..], id);
    ProcessAppend(t, session, batch[..k], batch[k..]);
    assert batch[..k] + batch[k..] == batch;
  }

  // An entry whose id no other own entry carries is judged as if it had been
  // sent by itself, whatever the rest of the batch does.
  lemma JudgedAlone(t: Table, session: Uuid, batch: seq<Attempt>, i: nat)
    requires i < |batch| && Alone(session, batch, i)
    ensures Process(t, session, batch).results[i] == SyncEntry(t, session, batch[i]).result
    ensures Agree(Process(t, session, batch).table, SyncEntry(t, session, batch[i]).table, batch[i].entry.id)
  {
    var id := batch[i].entry.id;
    BatchFrame(t, session, batch[..i], id);
    SyncEntryIsLocal(t, TableBefore(t, session, batch, i), session, batch[i]);
    ResultAt(t, session, batch, i);
    SuffixLeaves(t, session, batch, i + 1, id);
  }

  // ----- the order of a batch

  ghost predicate DistinctIds(batch: seq<Attempt>) {
    forall i, j :: 0 <= i < j < |batch| ==> batch[i].entry.id != batch[j].entry.id
  }

  ghost predicate Permutes(perm: seq<nat>, n: nat) {
    && |perm| == n
    && (forall i :: 0 <= i < n ==> perm[i] < n)
    && (forall i, j :: 0 <= i < j < n ==> perm[i] != perm[j])
  }

  predicate SameJob(a: Attempt, b: Attempt) {
    a.entry == b.entry && a.fetchOk == b.fetchOk && a.upsertOk == b.upsertOk
  }

  function Timeless(n: Note): Note {
    n.(createdAt := 0, updatedAt := 0)
  }

  lemma {:induction false} RangeCardinality(s: set<nat>, n: nat)
    requires forall x :: x in s ==> x < n
    ensures |s| <= n
    ensures |s| == n ==> forall x :: 0 <= x < n ==> x in s
  {
    if n > 0 {
      RangeCardinality(s - {n - 1}, n - 1);
    }
  }

  function Elements(s: seq<nat>): set<nat> {
    set x | x in s
  }

  lemma {:induction false} ImageCardinality(perm: seq<nat>)
    requires forall i, j :: 0 <= i < j < |perm| ==> perm[i] != perm[j]
    ensures |Elements(perm)| == |perm|
  {
    if perm != [] {
      var front, last := perm[..|perm| - 1], perm[|perm| - 1];
      ImageCardinality(front);
      assert last !in Elements(front);
      assert Elements(perm) == Elements(front) + {last};
    }
  }

  lemma Onto(perm: seq<nat>, n: nat, k: nat) returns (i: nat)
    requires Permutes(perm, n) && k < n
    ensures i < n && perm[i] == k
  {
    ImageCardinality(perm);
    RangeCardinality(Elements(perm), n);
    assert k in Elements(perm);
    i :| 0 <= i < |perm| && perm[i] == k;
  }

  ghost predicate AlikeAt(t: Table, u: Table, id: Uuid) {
    && (id in t <==> id in u)
    && (id in t ==> Timeless(t[id]) == Timeless(u[id]))
  }

  ghost predicate Alike(t: Table, u: Table) {
    forall id :: AlikeAt(t, u, id)
  }

  lemma SameJobAlike(t: Table, session: Uuid, a: Attempt, b: Attempt)
    requires SameJob(a, b)
    ensures SyncEntry(t, session, a).result == SyncEntry(t, session, b).result
    ensures AlikeAt(SyncEntry(t, session, a).table, SyncEntry(t, session, b).table, a.entry.id)
  {
  }

  lemma LonersAlike(t: Table, session: Uuid, one: seq<Attempt>, two: seq<Attempt>, i: nat, j: nat)
    requires i < |one| && j < |two| && Alone(session, one, i) && Alone(session, two, j)
    requires SameJob(one[i], two[j])
    ensures Process(t, session, one).results[i] == Process(t, session, two).results[j]
    ensures AlikeAt(Process(t, session, one).table, Process(t, session, two).table, one[i].entry.id)
  {
    JudgedAlone(t, session, one, i);
    JudgedAlone(t, session, two, j);
    SameJobAlike(t, session, one[i], two[j]);
  }

  lemma UnnamedAlike(t: Table, session: Uuid, one: seq<Attempt>, two: seq<Attempt>, id: Uuid)
    requires forall k :: 0 <= k < |one| ==> one[k].entry.id != id
    requires forall k :: 0 <= k < |two| ==> two[k].entry.id != id
    ensures AlikeAt(Process(t, session, one).table, Process(t, session, two).table, id)
  {
    BatchFrame(t, session, one, id);
    BatchFrame(t, session, two, id);
  }

  ghost predicate Shuffles(batch: seq<Attempt>, shuffled: seq<Attempt>, perm: seq<nat>) {
    && |shuffled| == |batch| && Permutes(perm, |batch|)
    && forall i :: 0 <= i < |batch| ==> SameJob(shuffled[i], batch[perm[i]])
  }

  lemma ShuffledEntry(t: Table, session: Uuid, batch: seq<Attempt>, shuffled: seq<Attempt>, perm: seq<nat>, i: nat)
    requires DistinctIds(batch) && Shuffles(batch, shuffled, perm) && i < |batch|
    ensures Process(t, session, shuffled).results[i] == Process(t, session, batch).results[perm[i]]
    ensures AlikeAt(Process(t, session, shuffled).table, Process(t, session, batch).table, batch[perm[i]].entry.id)
  {
    forall j | 0 <= j < |batch| && j != i ensures shuffled[j].entry.id != shuffled[i].entry.id {
      assert SameJob(shuffled[j], batch[perm[j]]) && SameJob(shuffled[i], batch[perm[i]]);
      assert perm[i] != perm[j];
    }
    LonersAlike(t, session, shuffled, batch, i, perm[i]);
  }

  lemma ShuffledRow(t: Table, session: Uuid, batch: seq<Attempt>, shuffled: seq<Attempt>, perm: seq<nat>, id: Uuid)
    requires DistinctIds(batch) && Shuffles(batch, shuffled, perm)
    ensures AlikeAt(Process(t, session, shuffled).table, Process(t, session, batch).table, id)
  {
    if k :| 0 <= k < |batch| && batch[k].entry.id == id {
      var i := Onto(perm, |batch|, k);
      ShuffledEntry(t, session, batch, shuffled, perm, i);
    } else {
      forall i | 0 <= i < |batch| ensures shuffled[i].entry.id != id {
        assert SameJob(shuffled[i], batch[perm[i]]);
      }
      UnnamedAlike(t, session, shuffled, batch, id);
    }
  }

  // Pairwise distinct ids: the order of a batch does not matter. The results are
  // permuted with the entries and the final tables differ in timestamps only,
  // whatever the clock says in either run.
  lemma OrderIrrelevant(t: Table, session: Uuid, batch: seq<Attempt>, shuffled: seq<Attempt>, perm: seq<nat>)
    requires DistinctIds(batch) && Shuffles(batch, shuffled, perm)
    ensures forall i :: 0 <= i < |batch| ==>
      Process(t, session, shuffled).results[i] == Process(t, session, batch).results[perm[i]]
    ensures Alike(Process(t, session, shuffled).table, Process(t, session, batch).table)
  {
    forall i | 0 <= i < |batch|
      ensures Process(t, session, shuffled).results[i] == Process(t, session, batch).results[perm[i]]
    {
      ShuffledEntry(t, session, batch, shuffled, perm, i);
    }
    forall id
      ensures AlikeAt(Process(t, session, shuffled).table, Process(t, session, batch).table, id)
    {
      ShuffledRow(t, session, batch, shuffled, perm, id);
    }
  }

  // ----- failing statements

  function Pick<T>(xs: seq<T>, keep: seq<bool>): seq<T>
    requires |xs| == |keep|
  {
    if xs == [] then []
    else
      Pick(xs[..|xs| - 1], keep[..|xs| - 1]) + if keep[|xs| - 1] then [xs[|xs| - 1]] else []
  }

  // Which entries were not answered with the database error.
  function Answered(results: seq<SyncResult<Note>>): (keep: seq<bool>)
    ensures |keep| == |results|
  {
    if results == [] then []
    else Answered(results[..|results| - 1]) + [results[|results| - 1] != Error(DB_FAILED)]
  }

  lemma AnsweredSnoc(results: seq<SyncResult<Note>>, r: SyncResult<Note>)
    ensures Answered(results + [r]) == Answered(results) + [r != Error(DB_FAILED)]
  {
    assert (results + [r])[..|results|] == results;
  }

  lemma {:induction false} AnsweredAt(results: seq<SyncResult<Note>>, i: nat)
    requires i < |results|
    ensures Answered(results)[i] <==> results[i] != Error(DB_FAILED)
  {
    if i < |results| - 1 {
      AnsweredAt(results[..|results| - 1], i);
    }
  }

  lemma PickSnoc<T>(xs: seq<T>, x: T, keep: seq<bool>, b: bool)
    requires |xs| == |keep|
    ensures Pick(xs + [x], keep + [b]) == Pick(xs, keep) + if b then [x] else []
  {
    assert (xs + [x])[..|xs|] == xs && (keep + [b])[..|xs|] == keep;
  }

  lemma ProcessSnoc(t: Table, session: Uuid, front: seq<Attempt>, a: Attempt)
    ensures var before := Process(t, session, front);
            var last := SyncEntry(before.table, session, a);
            Process(t, session, front + [a]) == Outcome(last.table, before.results + [last.result])
  {
    assert (front + [a])[..|front|] == front;
  }

  // The batch without the refused entries gives the same table, and the same results
  // for everything else.
  ghost predicate Isolated(t: Table, session: Uuid, batch: seq<Attempt>) {
    var full := Process(t, session, batch);
    var keep := Answered(full.results);
    Process(t, session, Pick(batch, keep)) == Outcome(full.table, Pick(full.results, keep))
  }

  lemma IsolationStep(t: Table, session: Uuid, front: seq<Attempt>, a: Attempt)
    requires Isolated(t, session, front)
    ensures Isolated(t, session, front + [a])
  {
    var before := Process(t, session, front);
    var keep := Answered(before.results);
    var step := SyncEntry(before.table, session, a);
    var b := step.result != Error(DB_FAILED);
    ProcessSnoc(t, session, front, a);
    AnsweredSnoc(before.results, step.result);
    PickSnoc(front, a, keep, b);
    PickSnoc(before.results, step.result, keep, b);
    if b {
      ProcessSnoc(t, session, Pick(front, keep), a);
    } else {
      assert step.table == before.table;
      assert Pick(front, keep) + [] == Pick(front, keep);
      assert Pick(before.results, keep) + [] == Pick(before.results, keep);
    }
  }

  // Upserts may fail at arbitrary positions: no other entry notices.
  lemma {:induction false} FailureIsolation(t: Table, session: Uuid, batch: seq<Attempt>)
    ensures Isolated(t, session, batch)
  {
    if batch != [] {
      var front, a := batch[..|batch| - 1], batch[|batch| - 1];
      FailureIsolation(t, session, front);
      IsolationStep(t, session, front, a);
      assert batch == front + [a];
    }
  }

  // An entry is answered with the database error exactly when its own upsert was
  // reached and failed.
  lemma FailedExactly(t: Table, session: Uuid, batch: seq<Attempt>, i: nat)
    requires i < |batch|
    ensures var before := TableBefore(t, session, batch, i);
            var a := batch[i];
            Process(t, session, batch).results[i] == Error("Database update failed") <==>
              && a.entry.userId == session && !a.upsertOk
              && (a.fetchOk && a.entry.id in before && before[a.entry.id].userId == session
                  ==> before[a.entry.id].version == a.entry.version)
    ensures var results := Process(t, session, batch).results;
            Answered(results)[i] <==> results[i] != Error("Database update failed")
  {
    AnsweredAt(Process(t, session, batch).results, i);
    ResultAt(t, session, batch, i);
  }

  // ----- statements of two requests interleaved

  // Fetch and upsert are separate statements. If two requests read a row before
  // either writes it, both are told Success for the same base version and the
  // first content is gone; one after the other, the second gets Conflict.
  lemma InterleavedStatementsLoseAnUpdate(t: Table, session: Uuid, a: Attempt, b: Attempt)
    requires a.entry.id == b.entry.id && a.entry.userId == b.entry.userId == session
    requires Fetch(t, a.entry.id, session).Some?
    requires a.entry.version == b.entry.version == t[a.entry.id].version
    requires a.fetchOk && a.upsertOk && b.fetchOk && b.upsertOk
    ensures var id := a.entry.id;
            var read := Fetch(t, id, session);
            var first, second := ReconcileNote(a.entry, read), ReconcileNote(b.entry, read);
            && first.Success? && second.Success?
            && var mid := Upsert(t, first.note, a.now);
            && var end := Upsert(mid, second.note, b.now);
            && ImageOf(end[id]) == ImageOf(b.entry).(version := Bump(a.entry.version))
            && SyncEntry(mid, session, b).result == Conflict(mid[id])
  {
  }
}
