// What the server has held, over any run of sync requests.
module ServerHistory {
  import opened Int32
  import opened Models
  import opened NoteStore
  import opened Resend
  import opened SyncEngine
  import opened SyncRoute
  import opened Wrappers

  // For each id, the images its row has had, oldest first.
  type History = map<Uuid, seq<Image>>

  datatype Server = Server(table: Table, held: History)

  datatype Request = Request(session: Uuid, batch: seq<Attempt>)

  const EMPTY := Server(map[], map[])

  function Record(held: History, r: SyncResult<Note>): History {
    match r
    case Success(n) => held[n.id := (if n.id in held then held[n.id] else []) + [ImageOf(n)]]
    case _ => held
  }

  function ServeEntry(s: Server, session: Uuid, a: Attempt): Server {
    var step := SyncEntry(s.table, session, a);
    Server(step.table, Record(s.held, step.result))
  }

  function Serve(s: Server, session: Uuid, batch: seq<Attempt>): (r: Server)
    ensures r.table == Process(s.table, session, batch).table
  {
    if batch == [] then s
    else ServeEntry(Serve(s, session, batch[..|batch| - 1]), session, batch[|batch| - 1])
  }

  function Run(s: Server, requests: seq<Request>): Server {
    if requests == [] then s
    else
      var last := requests[|requests| - 1];
      Serve(Run(s, requests[..|requests| - 1]), last.session, last.batch)
  }

  // Fetches work, and an id is only ever submitted by its owner.
  ghost predicate Polite(session: Uuid, batch: seq<Attempt>, owner: Uuid -> Uuid) {
    forall a :: a in batch ==> a.fetchOk && (a.entry.userId == session ==> owner(a.entry.id) == session)
  }

  ghost predicate AllPolite(requests: seq<Request>, owner: Uuid -> Uuid) {
    forall r :: r in requests ==> Polite(r.session, r.batch, owner)
  }

  // Each version held is the i32 successor of the one before.
  ghost predicate Consecutive(h: seq<Image>) {
    && h != [] && MIN <= h[|h| - 1].version <= MAX
    && (|h| > 1 ==>
          && Consecutive(h[..|h| - 1])
          && h[|h| - 1].version == Bump(h[|h| - 2].version))
  }

  ghost predicate RowOk(row: Note, h: seq<Image>, id: Uuid, owner: Uuid -> Uuid) {
    && row.id == id && row.userId == owner(id)
    && Consecutive(h)
    && h[|h| - 1] == ImageOf(row)
  }

  ghost predicate HistoryOk(s: Server, owner: Uuid -> Uuid) {
    && s.table.Keys == s.held.Keys
    && forall id :: id in s.table ==> RowOk(s.table[id], s.held[id], id, owner)
  }

  ghost predicate Grows(h: History, k: History) {
    forall id :: id in h ==> id in k && h[id] <= k[id]
  }

  lemma ConsecutiveExtends(h: seq<Image>, next: Image)
    requires Consecutive(h)
    ensures Consecutive(h + [next]) <==> next.version == Bump(h[|h| - 1].version)
  {
    assert (h + [next])[..|h|] == h;
  }

  // So they are the values that i32 arithmetic counts through from the first one.
  lemma {:induction false} ConsecutiveAt(h: seq<Image>, j: nat)
    requires Consecutive(h) && j < |h|
    ensures MIN <= h[0].version <= MAX && h[j].version == Wrap(h[0].version + j)
  {
    var n := |h| - 1;
    if j < n {
      ConsecutiveAt(h[..n], j);
    } else if n > 0 {
      ConsecutiveAt(h[..n], n - 1);
      BumpIsWrap(h[0].version + n - 1);
    }
  }

  lemma ConsecutiveRepeats(h: seq<Image>, i: nat, j: nat)
    requires Consecutive(h) && i < |h| && j < |h|
    ensures h[i].version == h[j].version <==> (j - i) % SPAN == 0
    ensures |h| <= SPAN && h[i].version == h[j].version ==> i == j
  {
    ConsecutiveAt(h, i);
    ConsecutiveAt(h, j);
    WrapCollides(h[0].version, i, j);
  }

  lemma ServeEntryKeepsHistory(s: Server, session: Uuid, a: Attempt, owner: Uuid -> Uuid)
    requires HistoryOk(s, owner) && a.fetchOk && (a.entry.userId == session ==> owner(a.entry.id) == session)
    ensures HistoryOk(ServeEntry(s, session, a), owner)
    ensures Grows(s.held, ServeEntry(s, session, a).held)
  {
    var r := ServeEntry(s, session, a);
    var id := a.entry.id;
    if IsUpdate(s.table, session, a) {
      var h := s.held[id];
      assert RowOk(s.table[id], h, id, owner);
      ConsecutiveExtends(h, ImageOf(r.table[id]));
      assert r.held[id] == h + [ImageOf(r.table[id])];
      assert RowOk(r.table[id], r.held[id], id, owner);
    } else if IsCreate(s.table, session, a) {
      assert r.held[id] == [ImageOf(r.table[id])];
      assert RowOk(r.table[id], r.held[id], id, owner);
    } else {
      assert r == s;
    }
  }

  lemma {:induction false} ServeKeepsHistory(s: Server, session: Uuid, batch: seq<Attempt>, owner: Uuid -> Uuid)
    requires HistoryOk(s, owner) && Polite(session, batch, owner)
    ensures HistoryOk(Serve(s, session, batch), owner)
    ensures Grows(s.held, Serve(s, session, batch).held)
  {
    if batch != [] {
      var front, a := batch[..|batch| - 1], batch[|batch| - 1];
      assert a in batch;
      ServeKeepsHistory(s, session, front, owner);
      ServeEntryKeepsHistory(Serve(s, session, front), session, a, owner);
    }
  }

  lemma {:induction false} RunKeepsHistory(requests: seq<Request>, owner: Uuid -> Uuid)
    requires AllPolite(requests, owner)
    ensures HistoryOk(Run(EMPTY, requests), owner)
  {
    if requests != [] {
      var front, last := requests[..|requests| - 1], requests[|requests| - 1];
      assert last in requests;
      RunKeepsHistory(front, owner);
      ServeKeepsHistory(Run(EMPTY, front), last.session, last.batch, owner);
    }
  }

  // ----- counting accepted updates

  // How often an update of id was accepted, at version v or at any version.
  function Tally(t: Table, session: Uuid, batch: seq<Attempt>, id: Uuid, v: Option<I32>): nat {
    if batch == [] then 0
    else
      var front, a := batch[..|batch| - 1], batch[|batch| - 1];
      Tally(t, session, front, id, v) +
      if IsUpdate(Process(t, session, front).table, session, a) && a.entry.id == id
         && (v.None? || v.value == a.entry.version)
      then 1 else 0
  }

  function RunTally(s: Server, requests: seq<Request>, id: Uuid, v: Option<I32>): nat {
    if requests == [] then 0
    else
      var front, last := requests[..|requests| - 1], requests[|requests| - 1];
      RunTally(s, front, id, v) + Tally(Run(s, front).table, last.session, last.batch, id, v)
  }

  // The images of id that an update has replaced.
  ghost function Overtaken(s: Server, id: Uuid): seq<Image> {
    if id in s.held && s.held[id] != [] then s.held[id][..|s.held[id]| - 1] else []
  }

  function Occurrences(h: seq<Image>, v: Option<I32>): nat {
    if h == [] then 0
    else
      Occurrences(h[..|h| - 1], v) + if v.None? || h[|h| - 1].version == v.value then 1 else 0
  }

  lemma OvertakenStep(s: Server, session: Uuid, a: Attempt, owner: Uuid -> Uuid, id: Uuid)
    requires HistoryOk(s, owner) && a.fetchOk && (a.entry.userId == session ==> owner(a.entry.id) == session)
    ensures var u := ServeEntry(s, session, a);
            Overtaken(u, id) == Overtaken(s, id)
              + if IsUpdate(s.table, session, a) && a.entry.id == id then [ImageOf(s.table[id])] else []
    ensures IsUpdate(s.table, session, a) ==>
      a.entry.id in s.table && s.table[a.entry.id].version == a.entry.version
  {
    var u := ServeEntry(s, session, a);
    assert id in s.table ==> RowOk(s.table[id], s.held[id], id, owner);
    assert a.entry.id in s.table ==> RowOk(s.table[a.entry.id], s.held[a.entry.id], a.entry.id, owner);
    if IsUpdate(s.table, session, a) && a.entry.id == id {
      var h := s.held[id];
      assert u.held[id][..|h|] == h == h[..|h| - 1] + [h[|h| - 1]];
    }
  }

  lemma OccurrencesSnoc(h: seq<Image>, last: Image, v: Option<I32>)
    ensures Occurrences(h + [last], v)
         == Occurrences(h, v) + if v.None? || last.version == v.value then 1 else 0
  {
    assert (h + [last])[..|h|] == h;
  }

  lemma {:induction false} TallyIsOvertaken(s: Server, session: Uuid, batch: seq<Attempt>, owner: Uuid -> Uuid,
                                            id: Uuid, v: Option<I32>)
    requires HistoryOk(s, owner) && Polite(session, batch, owner)
    ensures Occurrences(Overtaken(Serve(s, session, batch), id), v)
         == Occurrences(Overtaken(s, id), v) + Tally(s.table, session, batch, id, v)
  {
    if batch != [] {
      var front, a := batch[..|batch| - 1], batch[|batch| - 1];
      TallyIsOvertaken(s, session, front, owner, id, v);
      ServeKeepsHistory(s, session, front, owner);
      assert a in batch;
      var m := Serve(s, session, front);
      OvertakenStep(m, session, a, owner, id);
      if IsUpdate(m.table, session, a) && a.entry.id == id {
        OccurrencesSnoc(Overtaken(m, id), ImageOf(m.table[id]), v);
      } else {
        assert Overtaken(Serve(s, session, batch), id) == Overtaken(m, id);
      }
    }
  }

  lemma {:induction false} RunTallyIsOvertaken(requests: seq<Request>, owner: Uuid -> Uuid, id: Uuid, v: Option<I32>)
    requires AllPolite(requests, owner)
    ensures RunTally(EMPTY, requests, id, v) == Occurrences(Overtaken(Run(EMPTY, requests), id), v)
  {
    if requests != [] {
      var front, last := requests[..|requests| - 1], requests[|requests| - 1];
      assert last in requests;
      RunTallyIsOvertaken(front, owner, id, v);
      RunKeepsHistory(front, owner);
      TallyIsOvertaken(Run(EMPTY, front), last.session, last.batch, owner, id, v);
    }
  }

  lemma {:induction false} AnyVersionCountsAll(h: seq<Image>)
    ensures Occurrences(h, None) == |h|
  {
    if h != [] {
      AnyVersionCountsAll(h[..|h| - 1]);
    }
  }

  lemma {:induction false} OccursAtLeast(h: seq<Image>, v: I32, i: int, j: int)
    requires -1 <= i < j < |h| && h[j].version == v
    requires i >= 0 ==> h[i].version == v
    ensures Occurrences(h, Some(v)) >= if i >= 0 then 2 else 1
  {
    var n := |h| - 1;
    if j < n {
      OccursAtLeast(h[..n], v, i, j);
    } else if i >= 0 {
      OccursAtLeast(h[..n], v, -1, i);
    }
  }

  lemma {:induction false} OccursAtMost(h: seq<Image>, v: I32)
    requires forall i, j :: 0 <= i < j < |h| ==> h[i].version != h[j].version
    ensures Occurrences(h, Some(v)) <= 1
    ensures (forall i :: 0 <= i < |h| ==> h[i].version != v) ==> Occurrences(h, Some(v)) == 0
  {
    if h != [] {
      OccursAtMost(h[..|h| - 1], v);
    }
  }

  // ----- the version laws

  // The versions are k, k + 1, k + 2, ... in i32 arithmetic: without any wrapping as
  // long as the last of them fits.
  ghost predicate CountsUp(h: seq<Image>) {
    && h != [] && -2147483648 <= h[0].version <= 2147483647
    && (forall j :: 0 <= j < |h| ==>
          -2147483648 <= h[j].version <= 2147483647 && (h[j].version - h[0].version - j) % 4294967296 == 0)
    && (h[0].version + |h| - 1 <= 2147483647 ==> h[|h| - 1].version == h[0].version + |h| - 1)
  }

  // After n accepted updates of an id created at k, the row is at version k + n in
  // i32 arithmetic, and every version in between was held once, in order.
  lemma VersionsRunConsecutively(requests: seq<Request>, owner: Uuid -> Uuid, id: Uuid)
    requires AllPolite(requests, owner) && id in Run(EMPTY, requests).table
    ensures var s := Run(EMPTY, requests);
            var n := RunTally(EMPTY, requests, id, None);
            && id in s.held && |s.held[id]| == n + 1
            && s.held[id][n] == ImageOf(s.table[id])
            && CountsUp(s.held[id])
  {
    RunKeepsHistory(requests, owner);
    TallyIsLength(requests, owner, id);
    RowVersions(Run(EMPTY, requests), owner, id);
  }

  lemma RowVersions(s: Server, owner: Uuid -> Uuid, id: Uuid)
    requires HistoryOk(s, owner) && id in s.table
    ensures id in s.held && |s.held[id]| == |Overtaken(s, id)| + 1
    ensures s.held[id][|s.held[id]| - 1] == ImageOf(s.table[id])
    ensures CountsUp(s.held[id])
  {
    assert RowOk(s.table[id], s.held[id], id, owner);
    ConsecutiveCounts(s.held[id]);
  }

  lemma ConsecutiveCounts(h: seq<Image>)
    requires Consecutive(h)
    ensures CountsUp(h)
  {
    forall j | 0 <= j < |h| ensures MIN <= h[0].version <= MAX && h[j].version == Wrap(h[0].version + j) {
      ConsecutiveAt(h, j);
    }
    assert h[|h| - 1].version == Wrap(h[0].version + (|h| - 1));
  }

  lemma TallyIsLength(requests: seq<Request>, owner: Uuid -> Uuid, id: Uuid)
    requires AllPolite(requests, owner)
    ensures RunTally(EMPTY, requests, id, None) == |Overtaken(Run(EMPTY, requests), id)|
  {
    RunTallyIsOvertaken(requests, owner, id, None);
    AnyVersionCountsAll(Overtaken(Run(EMPTY, requests), id));
  }

  // Until an id has been updated 2^32 times, its version determines what it says.
  lemma VersionDeterminesImage(requests: seq<Request>, owner: Uuid -> Uuid, id: Uuid, i: nat, j: nat)
    requires AllPolite(requests, owner)
    requires var s := Run(EMPTY, requests); id in s.held && i < |s.held[id]| && j < |s.held[id]|
    ensures var h := Run(EMPTY, requests).held[id];
            h[i].version == h[j].version <==> (j - i) % 4294967296 == 0
    ensures var h := Run(EMPTY, requests).held[id];
            |h| <= 4294967296 && h[i].version == h[j].version ==> i == j
  {
    RunKeepsHistory(requests, owner);
    var s := Run(EMPTY, requests);
    assert RowOk(s.table[id], s.held[id], id, owner);
    ConsecutiveRepeats(s.held[id], i, j);
  }

  // ----- where the images come from

  // The entry was taken for id and became this image: as it is if it created the row, at
  // the successor of its version otherwise.
  predicate Becomes(session: Uuid, a: Attempt, id: Uuid, im: Image, first: bool) {
    && Names(session, a, id) && a.upsertOk
    && im == if first then ImageOf(a.entry) else ImageOf(a.entry).(version := Bump(a.entry.version))
  }

  ghost predicate SubmittedIn(session: Uuid, batch: seq<Attempt>, id: Uuid, im: Image, first: bool) {
    exists a :: a in batch && Becomes(session, a, id, im, first)
  }

  ghost predicate Submitted(requests: seq<Request>, id: Uuid, im: Image, first: bool) {
    exists r :: r in requests && SubmittedIn(r.session, r.batch, id, im, first)
  }

  predicate HasHeld(s: Server, id: Uuid, j: nat) {
    id in s.held && j < |s.held[id]|
  }

  lemma EntryStems(s: Server, session: Uuid, a: Attempt, owner: Uuid -> Uuid, id: Uuid, j: nat)
    requires HistoryOk(s, owner) && a.fetchOk && (a.entry.userId == session ==> owner(a.entry.id) == session)
    requires HasHeld(ServeEntry(s, session, a), id, j) && !HasHeld(s, id, j)
    ensures Becomes(session, a, id, ServeEntry(s, session, a).held[id][j], j == 0)
  {
    assert id in s.held ==> RowOk(s.table[id], s.held[id], id, owner);
  }

  lemma {:induction false} BatchStems(s: Server, session: Uuid, batch: seq<Attempt>, owner: Uuid -> Uuid, id: Uuid,
                                      j: nat)
    requires HistoryOk(s, owner) && Polite(session, batch, owner)
    requires HasHeld(Serve(s, session, batch), id, j) && !HasHeld(s, id, j)
    ensures SubmittedIn(session, batch, id, Serve(s, session, batch).held[id][j], j == 0)
  {
    if batch != [] {
      var front, a := batch[..|batch| - 1], batch[|batch| - 1];
      var m := Serve(s, session, front);
      assert a in batch;
      ServeKeepsHistory(s, session, front, owner);
      if HasHeld(m, id, j) {
        BatchStems(s, session, front, owner, id, j);
        ServeEntryKeepsHistory(m, session, a, owner);
        assert m.held[id] <= ServeEntry(m, session, a).held[id];
      } else {
        EntryStems(m, session, a, owner, id, j);
      }
    }
  }

  // Nothing is made up: the first image of an id is an entry that was submitted for it,
  // and every later one is such an entry at the successor of its version.
  lemma {:induction false} HeldWasSubmitted(requests: seq<Request>, owner: Uuid -> Uuid, id: Uuid, j: nat)
    requires AllPolite(requests, owner)
    requires HasHeld(Run(EMPTY, requests), id, j)
    ensures Submitted(requests, id, Run(EMPTY, requests).held[id][j], j == 0)
  {
    if requests != [] {
      var front, last := requests[..|requests| - 1], requests[|requests| - 1];
      var m := Run(EMPTY, front);
      assert last in requests;
      RunKeepsHistory(front, owner);
      ServeKeepsHistory(m, last.session, last.batch, owner);
      if HasHeld(m, id, j) {
        HeldWasSubmitted(front, owner, id, j);
        assert m.held[id] <= Run(EMPTY, requests).held[id];
      } else {
        BatchStems(m, last.session, last.batch, owner, id, j);
      }
    }
  }

  lemma OvertakenVersions(s: Server, owner: Uuid -> Uuid, id: Uuid, i: nat, j: nat)
    requires HistoryOk(s, owner) && i < |Overtaken(s, id)| && j < |Overtaken(s, id)|
    ensures MIN <= Overtaken(s, id)[i].version <= MAX
    ensures Overtaken(s, id)[i].version == Overtaken(s, id)[j].version <==> (j - i) % SPAN == 0
  {
    assert RowOk(s.table[id], s.held[id], id, owner);
    ConsecutiveRepeats(s.held[id], i, j);
    ConsecutiveAt(s.held[id], i);
  }

  lemma FewUpdatesNoRepeat(s: Server, owner: Uuid -> Uuid, id: Uuid, v: I32)
    requires HistoryOk(s, owner) && |Overtaken(s, id)| <= SPAN
    ensures Occurrences(Overtaken(s, id), Some(v)) <= 1
  {
    var h := Overtaken(s, id);
    forall i, j | 0 <= i < j < |h| ensures h[i].version != h[j].version {
      OvertakenVersions(s, owner, id, i, j);
    }
    OccursAtMost(h, v);
  }

  lemma ManyUpdatesRepeat(s: Server, owner: Uuid -> Uuid, id: Uuid) returns (v: I32)
    requires HistoryOk(s, owner) && |Overtaken(s, id)| > SPAN
    ensures Occurrences(Overtaken(s, id), Some(v)) >= 2
  {
    OvertakenVersions(s, owner, id, 0, SPAN);
    v := Overtaken(s, id)[0].version;
    OccursAtLeast(Overtaken(s, id), v, 0, SPAN);
  }

  // Whatever requests interleave, no pair of id and version is accepted as an
  // update twice, for exactly as long as the id has seen at most 2^32 updates.
  lemma AcceptedAtMostOnce(requests: seq<Request>, owner: Uuid -> Uuid, id: Uuid)
    requires AllPolite(requests, owner)
    ensures (forall v: I32 :: RunTally(EMPTY, requests, id, Some(v)) <= 1)
       <==> RunTally(EMPTY, requests, id, None) <= 4294967296
  {
    var s := Run(EMPTY, requests);
    RunKeepsHistory(requests, owner);
    TallyIsLength(requests, owner, id);
    if |Overtaken(s, id)| <= SPAN {
      forall v: I32 ensures RunTally(EMPTY, requests, id, Some(v)) <= 1 {
        RunTallyIsOvertaken(requests, owner, id, Some(v));
        FewUpdatesNoRepeat(s, owner, id, v);
      }
    } else {
      var v := ManyUpdatesRepeat(s, owner, id);
      RunTallyIsOvertaken(requests, owner, id, Some(v));
    }
  }

  // A failed fetch is taken for a new note: the row then jumps to the submitted
  // version. The jump goes unnoticed only if that is the successor by accident.
  lemma FailedFetchBreaksTheRun(s: Server, session: Uuid, a: Attempt, owner: Uuid -> Uuid)
    requires HistoryOk(s, owner) && a.entry.userId == session && a.entry.id in s.table
    requires !a.fetchOk && a.upsertOk
    ensures HistoryOk(ServeEntry(s, session, a), owner)
       <==> a.entry.version == Bump(s.table[a.entry.id].version)
  {
    var id := a.entry.id;
    var r := ServeEntry(s, session, a);
    var h := s.held[id];
    assert RowOk(s.table[id], h, id, owner);
    ConsecutiveExtends(h, ImageOf(r.table[id]));
    assert r.held[id] == h + [ImageOf(r.table[id])];
    assert HistoryOk(r, owner) ==> RowOk(r.table[id], r.held[id], id, owner);
    assert a.entry.version == Bump(s.table[id].version) ==> RowOk(r.table[id], r.held[id], id, owner);
  }
}
