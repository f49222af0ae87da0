// What whole rounds of syncNotes do to a client's rows.
module SyncRounds {
  import opened ClientDb
  import opened Int32
  import opened Models
  import opened NoteStore
  import opened SyncEngine
  import opened SyncRoute
  import opened SyncService

  /** One push: its clock readings and what the server's database does. */
  datatype Try = Try(clock: seq<Uuid>, faults: seq<Fault>)

  predicate Fits(rows: seq<NoteEntry>, x: Try) {
    Decodable(Pending(rows)) && |x.clock| == |x.faults| == |Pending(rows)|
  }

  function Batch(rows: seq<NoteEntry>, user: Uuid, x: Try): (b: seq<Attempt>)
    requires Fits(rows, x)
    ensures |b| == |Pending(rows)|
  {
    Attempts(Pending(rows), user, x.clock, x.faults)
  }

  function RowsNext(t: Table, rows: seq<NoteEntry>, user: Uuid, x: Try): (r: seq<NoteEntry>)
    requires |x.clock| == |x.faults| == |Pending(rows)|
    ensures |r| == |rows|
  {
    RowsAfter(t, rows, user, x.clock, x.faults, Delivered)
  }

  function Served(t: Table, rows: seq<NoteEntry>, user: Uuid, x: Try): Table
    requires |x.clock| == |x.faults| == |Pending(rows)|
  {
    ServerAfter(t, rows, user, x.clock, x.faults, ReplyLost)
  }

  // ----- the row and its result

  // Row i is the j-th pending one.
  ghost predicate Queued(rows: seq<NoteEntry>, i: nat, j: nat) {
    i < |rows| && j < |Pending(rows)| && Pending(rows)[j] == rows[i]
  }

  lemma PendingRow(rows: seq<NoteEntry>, i: nat) returns (j: nat)
    requires i < |rows| && !rows[i].isSynced
    ensures Queued(rows, i, j)
  {
    PendingSelects(rows);
    assert rows[i] in Pending(rows);
    j :| 0 <= j < |Pending(rows)| && Pending(rows)[j] == rows[i];
  }

  lemma RowGetsItsResult(t: Table, rows: seq<NoteEntry>, user: Uuid, x: Try, i: nat, j: nat)
    requires DistinctRows(rows) && Queued(rows, i, j) && Fits(rows, x)
    ensures RowsNext(t, rows, user, x)[i] == Merge(rows[i], Process(t, user, Batch(rows, user, x)).results[j])
  {
    PendingSelects(rows);
    var results := Process(t, user, Batch(rows, user, x)).results;
    ReceivedPairs(rows, Pending(rows), results, |results|, i);
  }

  // Each row has been rewritten by the one result it is paired with, if that one has
  // been reached, and is untouched otherwise.
  ghost predicate Paired(before: NoteEntry, after: NoteEntry, sent: seq<NoteEntry>, results: seq<SyncResult<Note>>,
                         k: nat)
    requires k <= |results| <= |sent|
  {
    && (forall j :: 0 <= j < k && sent[j].id == before.id ==> after == Merge(before, results[j]))
    && ((forall j :: 0 <= j < k ==> sent[j].id != before.id) ==> after == before)
  }

  lemma {:induction false} ReceivedPairs(rows: seq<NoteEntry>, sent: seq<NoteEntry>, results: seq<SyncResult<Note>>,
                                         k: nat, i: nat)
    requires k <= |results| <= |sent| && DistinctRows(sent) && i < |rows|
    ensures Received(rows, sent, results, k)[i].id == rows[i].id
    ensures Paired(rows[i], Received(rows, sent, results, k)[i], sent, results, k)
  {
    if k > 0 {
      ReceivedPairs(rows, sent, results, k - 1, i);
    }
  }

  lemma SyncedRowUntouched(t: Table, rows: seq<NoteEntry>, user: Uuid, x: Try, i: nat)
    requires DistinctRows(rows) && i < |rows| && rows[i].isSynced && Fits(rows, x)
    ensures RowsNext(t, rows, user, x)[i] == rows[i]
  {
    PendingSelects(rows);
    if Pending(rows) != [] {
      var results := Process(t, user, Batch(rows, user, x)).results;
      ReceivedPairs(rows, Pending(rows), results, |results|, i);
      forall j | 0 <= j < |results| ensures Pending(rows)[j].id != rows[i].id {
        var p := Pending(rows)[j];
        assert p in Pending(rows);
        var k :| 0 <= k < |rows| && rows[k] == p;
      }
    }
  }

  // ----- progress

  // What a round does to the row that its j-th result answers.
  ghost predicate Progressed(t: Table, rows: seq<NoteEntry>, user: Uuid, x: Try, i: nat, j: nat)
    requires Fits(rows, x) && Queued(rows, i, j)
  {
    var result, after := Process(t, user, Batch(rows, user, x)).results[j], RowsNext(t, rows, user, x)[i];
    && (after.isSynced <==> !result.Error?)
    && (result.Error? ==> result == Error(DB_FAILED) && !x.faults[j].upsertOk && after == rows[i])
  }

  lemma QueuedProgresses(t: Table, rows: seq<NoteEntry>, user: Uuid, x: Try, i: nat, j: nat)
    requires DistinctRows(rows) && Fits(rows, x) && Queued(rows, i, j)
    ensures !rows[i].isSynced && Progressed(t, rows, user, x, i, j)
  {
    PendingSelects(rows);
    assert rows[i] in Pending(rows);
    RowGetsItsResult(t, rows, user, x, i, j);
    ResultAt(t, user, Batch(rows, user, x), j);
  }

  // A delivered round leaves a row pending exactly when the database refused it; with
  // no such failure, nothing stays pending. Rows already synced are not touched.
  lemma RoundMakesProgress(t: Table, rows: seq<NoteEntry>, user: Uuid, x: Try, i: nat)
    requires DistinctRows(rows) && i < |rows| && Fits(rows, x)
    ensures rows[i].isSynced ==> RowsNext(t, rows, user, x)[i] == rows[i]
    ensures !rows[i].isSynced ==> exists j: nat :: Queued(rows, i, j)
    ensures forall j: nat :: Queued(rows, i, j) ==> Progressed(t, rows, user, x, i, j)
    ensures (forall k :: 0 <= k < |x.faults| ==> x.faults[k].upsertOk) ==> RowsNext(t, rows, user, x)[i].isSynced
  {
    forall j: nat | Queued(rows, i, j) ensures Progressed(t, rows, user, x, i, j) {
      QueuedProgresses(t, rows, user, x, i, j);
    }
    if rows[i].isSynced {
      SyncedRowUntouched(t, rows, user, x, i);
    } else {
      var k := PendingRow(rows, i);
    }
  }

  // ----- rounds that do not get through

  // Rounds whose requests are lost, one after the other.
  function Offline(t: Table, rows: seq<NoteEntry>, user: Uuid, tries: seq<Try>): (Table, seq<NoteEntry>)
    requires forall k :: 0 <= k < |tries| ==> |tries[k].clock| == |tries[k].faults| == |Pending(rows)|
    ensures Offline(t, rows, user, tries) == (t, rows)
  {
    if tries == [] then (t, rows)
    else
      var (u, after) := Offline(t, rows, user, tries[..|tries| - 1]);
      var x := tries[|tries| - 1];
      (ServerAfter(u, after, user, x.clock, x.faults, RequestLost),
       RowsAfter(u, after, user, x.clock, x.faults, RequestLost))
  }

  // ----- a row that goes out alone under its id

  // The k-th pending row goes out under id s.
  predicate Carries(rows: seq<NoteEntry>, x: Try, k: nat, s: Uuid)
    requires k < |Pending(rows)| == |x.clock|
  {
    OutId(Pending(rows)[k], x.clock[k]) == s
  }

  // No pending row but the j-th goes out under id s.
  ghost predicate OnlyCarrier(rows: seq<NoteEntry>, x: Try, j: nat, s: Uuid) {
    Fits(rows, x) && forall k: nat :: k < |Pending(rows)| && k != j ==> !Carries(rows, x, k, s)
  }

  lemma EntryOfRow(rows: seq<NoteEntry>, user: Uuid, x: Try, i: nat, j: nat, s: Uuid)
    requires Queued(rows, i, j) && OnlyCarrier(rows, x, j, s) && Carries(rows, x, j, s)
    ensures MIN <= rows[i].version <= MAX
    ensures var a := Batch(rows, user, x)[j];
            && a.entry == PayloadEntry(rows[i], user, x.clock[j]) && Names(user, a, s)
            && ImageOf(a.entry) == RowImage(rows[i])
            && a.fetchOk == x.faults[j].fetchOk && a.upsertOk == x.faults[j].upsertOk
    ensures Alone(user, Batch(rows, user, x), j)
  {
    var b := Batch(rows, user, x);
    assert Pending(rows)[j] in Pending(rows);
    forall k: nat | k < |b| && k != j ensures !Names(user, b[k], b[j].entry.id) {
      assert !Carries(rows, x, k, s);
    }
  }

  // What a push does to a row that goes out alone, and to the note of its id.
  lemma SoloPush(t: Table, rows: seq<NoteEntry>, user: Uuid, x: Try, i: nat, j: nat, s: Uuid)
    requires DistinctRows(rows) && Queued(rows, i, j) && OnlyCarrier(rows, x, j, s) && Carries(rows, x, j, s)
    ensures var alone := SyncEntry(t, user, Batch(rows, user, x)[j]);
            && RowsNext(t, rows, user, x)[i] == Merge(rows[i], alone.result)
            && Agree(Served(t, rows, user, x), alone.table, s)
  {
    EntryOfRow(rows, user, x, i, j, s);
    JudgedAlone(t, user, Batch(rows, user, x), j);
    RowGetsItsResult(t, rows, user, x, i, j);
  }

  // A note that no pending row goes out under is not touched.
  lemma UncarriedNoteStays(t: Table, rows: seq<NoteEntry>, user: Uuid, x: Try, s: Uuid)
    requires Fits(rows, x) && forall k: nat :: k < |Pending(rows)| ==> !Carries(rows, x, k, s)
    ensures Agree(t, Served(t, rows, user, x), s)
  {
    var b := Batch(rows, user, x);
    forall a | a in b ensures !Names(user, a, s) {
      var k: nat :| k < |b| && b[k] == a;
      assert !Carries(rows, x, k, s);
    }
    BatchFrame(t, user, b, s);
  }
}
