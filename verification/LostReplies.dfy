// Pushing again after replies that got lost.
module LostReplies {
  import opened ClientDb
  import opened Int32
  import opened Models
  import opened NoteStore
  import opened Resend
  import opened SyncEngine
  import opened SyncRoute
  import opened SyncRounds
  import opened SyncService
  import opened Wrappers

  predicate AllFit(rows: seq<NoteEntry>, tries: seq<Try>) {
    forall k :: 0 <= k < |tries| ==> Fits(rows, tries[k])
  }

  function LostPushes(t: Table, rows: seq<NoteEntry>, user: Uuid, tries: seq<Try>): Table
    requires AllFit(rows, tries)
  {
    if tries == [] then t
    else
      var last := tries[|tries| - 1];
      Served(LostPushes(t, rows, user, tries[..|tries| - 1]), rows, user, last)
  }

  predicate Owns(t: Table, user: Uuid, s: Uuid) {
    s in t && t[s].id == s && t[s].userId == user
  }

  // ----- a row that nobody else shares its id with

  // How a row of the server may look after any number of pushes of entry e.
  ghost predicate Reached(start: Note, now: Note, e: Note) {
    && now.id == start.id == e.id && now.userId == start.userId == e.userId
    && (ImageOf(now) == ImageOf(start)
        || (start.version == e.version && ImageOf(now) == ImageOf(e).(version := Bump(e.version))))
  }

  lemma PushReaches(t: Table, u: Table, a: Attempt)
    requires a.entry.id in t && a.entry.id in u && Reached(t[a.entry.id], u[a.entry.id], a.entry) && a.fetchOk
    ensures a.entry.id in SyncEntry(u, a.entry.userId, a).table
    ensures Reached(t[a.entry.id], SyncEntry(u, a.entry.userId, a).table[a.entry.id], a.entry)
  {
  }

  lemma PushAgainSameEnd(t: Table, u: Table, a: Attempt, b: Attempt, r: NoteEntry)
    requires a.entry == b.entry && a.fetchOk && a.upsertOk && b.fetchOk && b.upsertOk
    requires a.entry.id in t && a.entry.id in u && Reached(t[a.entry.id], u[a.entry.id], a.entry)
    requires RowImage(r) == ImageOf(a.entry)
    ensures var one, two := SyncEntry(t, a.entry.userId, a), SyncEntry(u, a.entry.userId, b);
            && Merge(r, one.result) == Merge(r, two.result)
            && a.entry.id in one.table && a.entry.id in two.table
            && ImageOf(one.table[a.entry.id]) == ImageOf(two.table[a.entry.id])
  {
  }

  // The row goes out alone, and the server can see its note.
  ghost predicate Solo(rows: seq<NoteEntry>, x: Try, j: nat, s: Uuid) {
    OnlyCarrier(rows, x, j, s) && j < |Pending(rows)| && x.faults[j].fetchOk
  }

  lemma LostPushReaches(t: Table, u: Table, rows: seq<NoteEntry>, user: Uuid, x: Try, i: nat, j: nat, s: Uuid)
    requires DistinctRows(rows) && Queued(rows, i, j) && rows[i].serverId == Some(s) && Solo(rows, x, j, s)
    requires MIN <= rows[i].version <= MAX
    requires s in t && s in u && Reached(t[s], u[s], PayloadEntry(rows[i], user, 0))
    ensures s in Served(u, rows, user, x)
    ensures Reached(t[s], Served(u, rows, user, x)[s], PayloadEntry(rows[i], user, 0))
  {
    EntryOfRow(rows, user, x, i, j, s);
    SoloPush(u, rows, user, x, i, j, s);
    PushReaches(t, u, Batch(rows, user, x)[j]);
  }

  lemma {:induction false} LostPushesReach(t: Table, rows: seq<NoteEntry>, user: Uuid, tries: seq<Try>,
                                           i: nat, j: nat, s: Uuid)
    requires DistinctRows(rows) && Queued(rows, i, j) && rows[i].serverId == Some(s) && Decodable(Pending(rows))
    requires Owns(t, user, s)
    requires AllFit(rows, tries) && forall k :: 0 <= k < |tries| ==> Solo(rows, tries[k], j, s)
    ensures s in LostPushes(t, rows, user, tries) && MIN <= rows[i].version <= MAX
    ensures Reached(t[s], LostPushes(t, rows, user, tries)[s], PayloadEntry(rows[i], user, 0))
  {
    assert Pending(rows)[j] in Pending(rows);
    if tries != [] {
      var front, x := tries[..|tries| - 1], tries[|tries| - 1];
      LostPushesReach(t, rows, user, front, i, j, s);
      LostPushReaches(t, LostPushes(t, rows, user, front), rows, user, x, i, j, s);
    }
  }

  // A row that no other row shares its server id with: push it, lose the reply, any
  // number of times over, upserts failing or not, then push again and receive. Row and
  // server note end up as after a single push that was answered at once.
  lemma LostRepliesAreHarmless(t: Table, rows: seq<NoteEntry>, user: Uuid, tries: seq<Try>, last: Try, direct: Try,
                               i: nat, j: nat, s: Uuid)
    requires DistinctRows(rows) && Queued(rows, i, j) && rows[i].serverId == Some(s) && Owns(t, user, s)
    requires AllFit(rows, tries) && forall k :: 0 <= k < |tries| ==> Solo(rows, tries[k], j, s)
    requires Solo(rows, last, j, s) && Solo(rows, direct, j, s)
    requires last.faults[j].upsertOk && direct.faults[j].upsertOk
    ensures var u := LostPushes(t, rows, user, tries);
            && RowsNext(u, rows, user, last)[i] == RowsNext(t, rows, user, direct)[i]
            && s in Served(u, rows, user, last) && s in Served(t, rows, user, direct)
            && ImageOf(Served(u, rows, user, last)[s]) == ImageOf(Served(t, rows, user, direct)[s])
  {
    var u := LostPushes(t, rows, user, tries);
    LostPushesReach(t, rows, user, tries, i, j, s);
    EntryOfRow(rows, user, last, i, j, s);
    EntryOfRow(rows, user, direct, i, j, s);
    SoloPush(u, rows, user, last, i, j, s);
    SoloPush(t, rows, user, direct, i, j, s);
    PushAgainSameEnd(t, u, Batch(rows, user, direct)[j], Batch(rows, user, last)[j], rows[i]);
  }

  // ----- any entries, rivals for the same note included

  // The server can see note s whenever it handles an entry for it.
  ghost predicate Sees(user: Uuid, attempts: seq<Attempt>, s: Uuid) {
    forall a :: a in attempts && Names(user, a, s) ==> a.fetchOk
  }

  // None of the entries for note s whose upsert works carries version v.
  ghost predicate Misses(user: Uuid, attempts: seq<Attempt>, s: Uuid, v: int) {
    forall a :: a in attempts && Names(user, a, s) && a.upsertOk ==> a.entry.version != v
  }

  // Entries move the note on, for good, iff one of them carries the version it is at and
  // gets through.
  lemma {:induction false} NoteMoves(t: Table, user: Uuid, attempts: seq<Attempt>, s: Uuid, gap: I32)
    requires Owns(t, user, s) && Sees(user, attempts, s) && Misses(user, attempts, s, gap)
    ensures var u := Process(t, user, attempts).table;
            && Owns(u, user, s)
            && if Misses(user, attempts, s, t[s].version) then u[s] == t[s]
               else Rank(gap, u[s].version) > Rank(gap, t[s].version)
  {
    if attempts != [] {
      var front, a := attempts[..|attempts| - 1], attempts[|attempts| - 1];
      assert attempts == front + [a];
      var m := Process(t, user, front).table;
      NoteMoves(t, user, front, s, gap);
      if Names(user, a, s) && a.upsertOk {
        assert a in attempts;
        if a.entry.version == m[s].version {
          RankBump(gap, m[s].version);
        }
      }
    }
  }

  // An entry is pushed, others follow, and it is pushed again: both answers make the
  // same of its row iff the others leave the note at the version it was left at first.
  lemma ResentEntry(t: Table, user: Uuid, a: Attempt, between: seq<Attempt>, b: Attempt, r: NoteEntry, s: Uuid,
                    gap: I32)
    requires Owns(t, user, s) && Names(user, a, s) && a.entry == b.entry && RowImage(r) == ImageOf(a.entry)
    requires a.fetchOk && a.upsertOk && b.fetchOk && b.upsertOk && a.entry.version != gap
    requires Usable(user, between, s, gap)
    ensures var one := SyncEntry(t, user, a);
            var m := Process(one.table, user, between).table;
            && s in one.table
            && Merge(r, one.result).version == one.table[s].version
            && (Merge(r, SyncEntry(m, user, b).result) == Merge(r, one.result)
                <==> Misses(user, between, s, one.table[s].version))
  {
    var one := SyncEntry(t, user, a);
    var m := Process(one.table, user, between).table;
    NoteMoves(one.table, user, between, s, gap);
    if b.entry.version == m[s].version {
      RankBump(gap, m[s].version);
    }
    RankBump(gap, a.entry.version);
  }

  // All entries of the pushes, in order.
  function Batches(rows: seq<NoteEntry>, user: Uuid, tries: seq<Try>): seq<Attempt>
    requires AllFit(rows, tries)
  {
    if tries == [] then []
    else Batches(rows, user, tries[..|tries| - 1]) + Batch(rows, user, tries[|tries| - 1])
  }

  lemma ServedIsProcessed(t: Table, rows: seq<NoteEntry>, user: Uuid, x: Try)
    requires Fits(rows, x)
    ensures Served(t, rows, user, x) == Process(t, user, Batch(rows, user, x)).table
  {
  }

  lemma {:induction false} LostPushesAreOneBatch(t: Table, rows: seq<NoteEntry>, user: Uuid, tries: seq<Try>)
    requires AllFit(rows, tries)
    ensures LostPushes(t, rows, user, tries) == Process(t, user, Batches(rows, user, tries)).table
  {
    if tries != [] {
      var front, x := tries[..|tries| - 1], tries[|tries| - 1];
      LostPushesAreOneBatch(t, rows, user, front);
      ServedIsProcessed(LostPushes(t, rows, user, front), rows, user, x);
      ProcessAppend(t, user, Batches(rows, user, front), Batch(rows, user, x));
    }
  }

  lemma ResentAsOneBatch(t: Table, rows: seq<NoteEntry>, user: Uuid, lost: seq<Try>, last: Try)
    requires AllFit(rows, lost) && Fits(rows, last)
    ensures Served(LostPushes(t, rows, user, lost), rows, user, last)
         == Process(t, user, Batches(rows, user, lost) + Batch(rows, user, last)).table
  {
    LostPushesAreOneBatch(t, rows, user, lost);
    ServedIsProcessed(LostPushes(t, rows, user, lost), rows, user, last);
    ProcessAppend(t, user, Batches(rows, user, lost), Batch(rows, user, last));
  }

  // Every entry is some pending row's, whichever try it belongs to.
  ghost predicate FromRows(rows: seq<NoteEntry>, attempts: seq<Attempt>) {
    forall a :: a in attempts ==> exists r :: r in Pending(rows) && r.version == a.entry.version
  }

  lemma BatchFromRows(rows: seq<NoteEntry>, user: Uuid, x: Try)
    requires Fits(rows, x)
    ensures FromRows(rows, Batch(rows, user, x))
  {
    var b := Batch(rows, user, x);
    forall a | a in b ensures exists r :: r in Pending(rows) && r.version == a.entry.version {
      var k :| 0 <= k < |b| && b[k] == a;
      assert Pending(rows)[k] in Pending(rows);
    }
  }

  // Some i32 is the version of no pending row.
  lemma VersionToSpare(rows: seq<NoteEntry>) returns (gap: I32)
    requires Decodable(Pending(rows)) && |Pending(rows)| < SPAN
    ensures forall r :: r in Pending(rows) ==> r.version != gap
  {
    var p := Pending(rows);
    assert forall k :: 0 <= k < |p| ==> p[k] in p;
    var notes := seq(|p|, k requires 0 <= k < |p| => PayloadEntry(p[k].(serverId := Some(0)), 0, 0));
    SmallBatchIsGapped(notes, 0);
    assert HasGap(notes, 0, 0);
    gap :| Omitted(notes, 0, 0, gap);
    forall r | r in p ensures r.version != gap {
      var k :| 0 <= k < |p| && p[k] == r;
      assert notes[k] in notes;
    }
  }

  lemma {:induction false} BatchesFromRows(rows: seq<NoteEntry>, user: Uuid, tries: seq<Try>, s: Uuid)
    requires AllFit(rows, tries)
    requires forall k :: 0 <= k < |tries| ==> Sees(user, Batch(rows, user, tries[k]), s)
    ensures FromRows(rows, Batches(rows, user, tries)) && Sees(user, Batches(rows, user, tries), s)
  {
    if tries != [] {
      BatchesFromRows(rows, user, tries[..|tries| - 1], s);
      BatchFromRows(rows, user, tries[|tries| - 1]);
    }
  }

  // What reaches the server between the first and the last sending of the j-th pending
  // row: the rest of the first batch, the lost batches, the head of the last one.
  function Between(rows: seq<NoteEntry>, user: Uuid, first: Try, lost: seq<Try>, last: Try, j: nat): seq<Attempt>
    requires Fits(rows, first) && AllFit(rows, lost) && Fits(rows, last) && j < |Pending(rows)|
  {
    Batch(rows, user, first)[j + 1..] + Batches(rows, user, lost) + Batch(rows, user, last)[..j]
  }

  // All batches can be decoded, and the server can see s; upserts may fail at will.
  ghost predicate Sendings(rows: seq<NoteEntry>, user: Uuid, first: Try, lost: seq<Try>, last: Try, s: Uuid) {
    && Fits(rows, first) && AllFit(rows, lost) && Fits(rows, last) && |Pending(rows)| < SPAN
    && Sees(user, Batch(rows, user, first), s) && Sees(user, Batch(rows, user, last), s)
    && forall k :: 0 <= k < |lost| ==> Sees(user, Batch(rows, user, lost[k]), s)
  }

  ghost predicate Scenario(t: Table, rows: seq<NoteEntry>, user: Uuid, first: Try, lost: seq<Try>, last: Try, s: Uuid) {
    DistinctRows(rows) && Owns(t, user, s) && Sendings(rows, user, first, lost, last, s)
  }

  // The entries are such that NoteMoves applies to them.
  ghost predicate Usable(user: Uuid, attempts: seq<Attempt>, s: Uuid, gap: I32) {
    Sees(user, attempts, s) && Misses(user, attempts, s, gap)
  }

  lemma ScenarioUsable(t: Table, rows: seq<NoteEntry>, user: Uuid, first: Try, lost: seq<Try>, last: Try, s: Uuid)
    returns (gap: I32)
    requires Scenario(t, rows, user, first, lost, last, s)
    ensures Usable(user, Batch(rows, user, first), s, gap)
    ensures Usable(user, Batches(rows, user, lost), s, gap)
    ensures Usable(user, Batch(rows, user, last), s, gap)
  {
    gap := VersionToSpare(rows);
    BatchFromRows(rows, user, first);
    BatchFromRows(rows, user, last);
    BatchesFromRows(rows, user, lost, s);
  }

  lemma AgainIff(t: Table, user: Uuid, b: seq<Attempt>, more: seq<Attempt>, s: Uuid, gap: I32)
    requires Owns(t, user, s) && Usable(user, b, s, gap) && Usable(user, more, s, gap)
    ensures var u := Process(t, user, b).table;
            var again := Process(u, user, more).table;
            && s in u && s in again
            && (ImageOf(again[s]) == ImageOf(u[s]) <==> Misses(user, more, s, u[s].version))
  {
    NoteMoves(t, user, b, s, gap);
    NoteMoves(Process(t, user, b).table, user, more, s, gap);
  }

  // The note after the resends is the one after the first push, iff no entry sent for it
  // again carries the version at which the first push left it.
  ghost predicate NoteKeptIff(t: Table, rows: seq<NoteEntry>, user: Uuid, first: Try, lost: seq<Try>, last: Try,
                              s: Uuid)
    requires Fits(rows, first) && AllFit(rows, lost) && Fits(rows, last)
  {
    var u := Served(t, rows, user, first);
    var again := Served(LostPushes(u, rows, user, lost), rows, user, last);
    && s in u && s in again
    && (ImageOf(again[s]) == ImageOf(u[s])
        <==> Misses(user, Batches(rows, user, lost) + Batch(rows, user, last), s, u[s].version))
  }

  // The row after the last reply is the one the first reply would have made, iff no entry
  // for its note, sent in between, carries the version that the first reply brings.
  ghost predicate RowKeptIff(t: Table, rows: seq<NoteEntry>, user: Uuid, first: Try, lost: seq<Try>, last: Try,
                             i: nat, j: nat, s: Uuid)
    requires Fits(rows, first) && AllFit(rows, lost) && Fits(rows, last) && i < |rows| && j < |Pending(rows)|
  {
    var u := LostPushes(Served(t, rows, user, first), rows, user, lost);
    var answered := RowsNext(t, rows, user, first)[i];
    && MIN <= answered.version <= MAX
    && (RowsNext(u, rows, user, last)[i] == answered
        <==> Misses(user, Between(rows, user, first, lost, last, j), s, answered.version))
  }

  // The server's note after the resends is what the first push left, iff no entry that
  // is sent for it again carries the version at which the first push left it.
  lemma ResendLeavesNoteIff(t: Table, rows: seq<NoteEntry>, user: Uuid, first: Try,
                                               lost: seq<Try>, last: Try, s: Uuid)
    requires Scenario(t, rows, user, first, lost, last, s)
    ensures NoteKeptIff(t, rows, user, first, lost, last, s)
  {
    var gap := ScenarioUsable(t, rows, user, first, lost, last, s);
    var more := Batches(rows, user, lost) + Batch(rows, user, last);
    ServedIsProcessed(t, rows, user, first);
    ResentAsOneBatch(Served(t, rows, user, first), rows, user, lost, last);
    AgainIff(t, user, Batch(rows, user, first), more, s, gap);
  }

  lemma TableAtLastSending(t: Table, rows: seq<NoteEntry>, user: Uuid, first: Try, lost: seq<Try>, last: Try, j: nat)
    requires Fits(rows, first) && AllFit(rows, lost) && Fits(rows, last) && j < |Pending(rows)|
    ensures TableBefore(LostPushes(Served(t, rows, user, first), rows, user, lost), user, Batch(rows, user, last), j)
         == Process(TableBefore(t, user, Batch(rows, user, first), j + 1), user,
                    Between(rows, user, first, lost, last, j)).table
  {
    ServedIsProcessed(t, rows, user, first);
    LostPushesAreOneBatch(Served(t, rows, user, first), rows, user, lost);
    CutAround(t, user, Batch(rows, user, first), Batches(rows, user, lost), Batch(rows, user, last), j);
  }

  lemma CutAround(t: Table, user: Uuid, b0: seq<Attempt>, more: seq<Attempt>, bl: seq<Attempt>, j: nat)
    requires j < |b0| == |bl|
    ensures Process(Process(Process(t, user, b0).table, user, more).table, user, bl[..j]).table
         == Process(TableBefore(t, user, b0, j + 1), user, b0[j + 1..] + more + bl[..j]).table
  {
    var mid := TableBefore(t, user, b0, j + 1);
    assert b0 == b0[..j + 1] + b0[j + 1..];
    ProcessAppend(t, user, b0[..j + 1], b0[j + 1..]);
    ProcessAppend(mid, user, b0[j + 1..], more);
    ProcessAppend(mid, user, b0[j + 1..] + more, bl[..j]);
  }

  // Whoever else goes out under its server id, and whatever upserts of others fail: losing
  // replies makes no difference to a pending row iff no entry for its note that gets
  // through between its own first and last sending carries the version that the first
  // reply would have brought.
  lemma LostRepliesMatterIff(t: Table, rows: seq<NoteEntry>, user: Uuid,
                                                first: Try, lost: seq<Try>, last: Try, i: nat, j: nat, s: Uuid)
    requires Scenario(t, rows, user, first, lost, last, s)
    requires Queued(rows, i, j) && rows[i].serverId == Some(s)
    requires first.faults[j].upsertOk && last.faults[j].upsertOk
    ensures RowKeptIff(t, rows, user, first, lost, last, i, j, s)
  {
    var gap := ScenarioUsable(t, rows, user, first, lost, last, s);
    var u := LostPushes(Served(t, rows, user, first), rows, user, lost);
    var b0, bl := Batch(rows, user, first), Batch(rows, user, last);
    EntryFor(rows, user, first, i, j, s);
    EntryFor(rows, user, last, i, j, s);
    TableAtLastSending(t, rows, user, first, lost, last, j);
    SentTwice(t, u, user, b0, bl, Batches(rows, user, lost), j, rows[i], s, gap);
    RowGetsItsResult(t, rows, user, first, i, j);
    RowGetsItsResult(u, rows, user, last, i, j);
    assert Between(rows, user, first, lost, last, j) == b0[j + 1..] + Batches(rows, user, lost) + bl[..j];
  }

  lemma EntryFor(rows: seq<NoteEntry>, user: Uuid, x: Try, i: nat, j: nat, s: Uuid)
    requires Queued(rows, i, j) && Fits(rows, x) && rows[i].serverId == Some(s)
    ensures MIN <= rows[i].version <= MAX && Batch(rows, user, x)[j].entry == PayloadEntry(rows[i], user, 0)
  {
    assert Pending(rows)[j] in Pending(rows);
  }

  lemma SentTwice(t: Table, u: Table, user: Uuid, b0: seq<Attempt>, bl: seq<Attempt>,
                                     more: seq<Attempt>, j: nat, r: NoteEntry, s: Uuid, gap: I32)
    requires j < |b0| == |bl| && Owns(t, user, s) && b0[j].upsertOk && bl[j].upsertOk
    requires Usable(user, b0, s, gap) && Usable(user, more, s, gap) && Usable(user, bl, s, gap)
    requires b0[j].entry == bl[j].entry && Names(user, b0[j], s) && RowImage(r) == ImageOf(b0[j].entry)
    requires TableBefore(u, user, bl, j)
          == Process(TableBefore(t, user, b0, j + 1), user, b0[j + 1..] + more + bl[..j]).table
    ensures var one, two := Merge(r, Process(t, user, b0).results[j]), Merge(r, Process(u, user, bl).results[j]);
            && MIN <= one.version <= MAX
            && (two == one <==> Misses(user, b0[j + 1..] + more + bl[..j], s, one.version))
  {
    assert b0[j] in b0 && bl[j] in bl;
    NoteMoves(t, user, b0[..j], s, gap);
    ResultAt(t, user, b0, j);
    ResultAt(u, user, bl, j);
    ResentEntry(TableBefore(t, user, b0, j), user, b0[j], b0[j + 1..] + more + bl[..j], bl[j], r, s, gap);
  }

  // The failing case: two rows of one note, one version apart. Answered at once, the
  // first keeps its text; after one lost reply it is overwritten with the second's.
  lemma RivalOverwritesAfterLoss(t: Table, one: NoteEntry, two: NoteEntry, user: Uuid, x: Try,
                                                    s: Uuid)
    requires Owns(t, user, s) && t[s].version == one.version == 3 && two.version == 4
    requires one.id != two.id && !one.isSynced && !two.isSynced && one.serverId == two.serverId == Some(s)
    requires |x.clock| == |x.faults| == 2 && forall k :: 0 <= k < 2 ==> x.faults[k].fetchOk && x.faults[k].upsertOk
    ensures Fits([one, two], x)
    ensures RowsNext(t, [one, two], user, x)[0] == one.(isSynced := true, version := 4)
    ensures RowImage(RowsNext(Served(t, [one, two], user, x), [one, two], user, x)[0])
         == RowImage(two).(version := 5)
  {
    var rows := [one, two];
    BothPending(one, two);
    var b := Batch(rows, user, x);
    var u := Served(t, rows, user, x);
    assert u == Process(t, user, b).table by {
      ServedIsProcessed(t, rows, user, x);
    }
    RivalAnswers(t, user, b[0], b[1], s);
    assert b == [b[0], b[1]];
    RowGetsItsResult(t, rows, user, x, 0, 0);
    RowGetsItsResult(u, rows, user, x, 0, 0);
  }

  lemma BothPending(one: NoteEntry, two: NoteEntry)
    requires !one.isSynced && !two.isSynced
    ensures Pending([one, two]) == [one, two]
  {
    assert [one, two][..1] == [one] && [one][..0] == [];
    assert Pending([one]) == [one];
  }

  lemma RivalAnswers(t: Table, user: Uuid, a: Attempt, b: Attempt, s: Uuid)
    requires Names(user, a, s) && Names(user, b, s) && a.fetchOk && a.upsertOk && b.fetchOk && b.upsertOk
    requires Owns(t, user, s) && t[s].version == a.entry.version == 3 && b.entry.version == 4
    ensures var u := Process(t, user, [a, b]).table;
            var again := Process(u, user, [a, b]).results[0];
            && Process(t, user, [a, b]).results[0] == Success(a.entry.(version := 4))
            && again.Conflict? && again.serverVersion.id == s
            && ImageOf(again.serverVersion) == ImageOf(b.entry).(version := 5)
  {
    ProcessTwo(t, user, a, b);
    ProcessTwo(Process(t, user, [a, b]).table, user, a, b);
  }

  lemma ProcessTwo(t: Table, user: Uuid, a: Attempt, b: Attempt)
    ensures var first := SyncEntry(t, user, a);
            var second := SyncEntry(first.table, user, b);
            Process(t, user, [a, b]) == Outcome(second.table, [first.result, second.result])
  {
    assert [a, b][..1] == [a] && [a][..0] == [];
    assert Process(t, user, [a]) == Outcome(SyncEntry(t, user, a).table, [SyncEntry(t, user, a).result]);
  }

  // ----- rows without a server id

  // Each push of the j-th pending row creates a note: its clock reading is new, works,
  // and is no other row's.
  ghost predicate Creating(t: Table, rows: seq<NoteEntry>, tries: seq<Try>, j: nat)
    requires AllFit(rows, tries) && j < |Pending(rows)|
  {
    && (forall q :: 0 <= q < |tries| ==> tries[q].faults[j].upsertOk && tries[q].clock[j] !in t)
    && (forall p, q :: 0 <= p < |tries| && 0 <= q < |tries| ==> OnlyCarrier(rows, tries[p], j, tries[q].clock[j]))
    && (forall p, q :: 0 <= p < q < |tries| ==> tries[p].clock[j] != tries[q].clock[j])
  }

  ghost predicate NobodyCarries(rows: seq<NoteEntry>, x: Try, id: Uuid) {
    Fits(rows, x) && forall k: nat :: k < |Pending(rows)| ==> !Carries(rows, x, k, id)
  }

  lemma {:induction false} UncarriedThroughout(t: Table, rows: seq<NoteEntry>, user: Uuid, tries: seq<Try>, id: Uuid)
    requires AllFit(rows, tries) && forall q :: 0 <= q < |tries| ==> NobodyCarries(rows, tries[q], id)
    ensures Agree(t, LostPushes(t, rows, user, tries), id)
  {
    if tries != [] {
      var n := |tries| - 1;
      UncarriedThroughout(t, rows, user, tries[..n], id);
      assert NobodyCarries(rows, tries[n], id);
      UncarriedNoteStays(LostPushes(t, rows, user, tries[..n]), rows, user, tries[n], id);
    }
  }

  lemma PushCreates(t: Table, rows: seq<NoteEntry>, user: Uuid, x: Try, i: nat, j: nat)
    requires DistinctRows(rows) && Queued(rows, i, j) && rows[i].serverId.None?
    requires Fits(rows, x) && OnlyCarrier(rows, x, j, x.clock[j])
    requires x.clock[j] !in t && x.faults[j].upsertOk
    ensures var u := Served(t, rows, user, x); x.clock[j] in u && ImageOf(u[x.clock[j]]) == RowImage(rows[i])
  {
    EntryOfRow(rows, user, x, i, j, x.clock[j]);
    SoloPush(t, rows, user, x, i, j, x.clock[j]);
  }

  lemma StillFresh(t: Table, rows: seq<NoteEntry>, user: Uuid, tries: seq<Try>, i: nat, j: nat)
    requires Queued(rows, i, j) && rows[i].serverId.None? && tries != []
    requires AllFit(rows, tries) && Creating(t, rows, tries, j)
    ensures tries[|tries| - 1].clock[j] !in LostPushes(t, rows, user, tries[..|tries| - 1])
  {
    var n := |tries| - 1;
    var id := tries[n].clock[j];
    forall q | 0 <= q < n ensures NobodyCarries(rows, tries[..n][q], id) {
      assert OnlyCarrier(rows, tries[q], j, id);
    }
    UncarriedThroughout(t, rows, user, tries[..n], id);
  }

  ghost predicate Says(t: Table, id: Uuid, im: Image) {
    id in t && ImageOf(t[id]) == im
  }

  // Each lost reply to a row without server id leaves one more note behind: as many
  // notes as pushes, and all of them say what the row says.
  lemma {:induction false} LostCreatesPileUp(t: Table, rows: seq<NoteEntry>, user: Uuid, tries: seq<Try>, i: nat,
                                             j: nat)
    requires DistinctRows(rows) && Queued(rows, i, j) && rows[i].serverId.None?
    requires AllFit(rows, tries) && Creating(t, rows, tries, j)
    ensures forall q :: 0 <= q < |tries| ==>
      Says(LostPushes(t, rows, user, tries), tries[q].clock[j], RowImage(rows[i]))
  {
    if tries != [] {
      var n := |tries| - 1;
      var front, x := tries[..n], tries[n];
      var m := LostPushes(t, rows, user, front);
      LostCreatesPileUp(t, rows, user, front, i, j);
      StillFresh(t, rows, user, tries, i, j);
      assert OnlyCarrier(rows, x, j, tries[n].clock[j]);
      PushCreates(m, rows, user, x, i, j);
      forall q | 0 <= q < n ensures Says(Served(m, rows, user, x), tries[q].clock[j], RowImage(rows[i])) {
        var id := tries[q].clock[j];
        assert Says(m, front[q].clock[j], RowImage(rows[i]));
        assert OnlyCarrier(rows, x, j, id) && x.clock[j] != id;
        UncarriedNoteStays(m, rows, user, x, id);
      }
    }
  }
}
