// Statements of several sync requests in any order. The server fetches and upserts a note
// in two statements, and no transaction keeps those of one request together.
module SyncSchedules {
  import opened Int32
  import opened Models
  import opened NoteStore
  import opened SyncEngine
  import opened SyncRoute
  import opened Wrappers

  datatype Stmt = Read(i: nat) | Write(i: nat)

  /** The table, what each request has read, and what it has been told. */
  datatype State = State(table: Table, seen: map<nat, Option<Note>>, answers: map<nat, SyncResult<Note>>)

  function Judge(s: State, a: Attempt, i: nat, server: Option<Note>): State {
    match ReconcileNote(a.entry, server)
    case Success(n) =>
      if a.upsertOk then s.(table := Upsert(s.table, n, a.now), answers := s.answers[i := Success(n)])
      else s.(answers := s.answers[i := Error(DB_FAILED)])
    case other => s.(answers := s.answers[i := other])
  }

  // Each request reads once, and writes once after that; anything else has no effect.
  function Next(s: State, requests: seq<Attempt>, stmt: Stmt): State {
    if stmt.i >= |requests| then s
    else
      var a := requests[stmt.i];
      match stmt
      case Read(i) =>
        if i in s.seen then s
        else s.(seen := s.seen[i := if a.fetchOk then Fetch(s.table, a.entry.id, a.entry.userId) else None])
      case Write(i) =>
        if i !in s.seen || i in s.answers then s else Judge(s, a, i, s.seen[i])
  }

  function Exec(t: Table, requests: seq<Attempt>, schedule: seq<Stmt>): State {
    if schedule == [] then State(t, map[], map[])
    else Next(Exec(t, requests, schedule[..|schedule| - 1]), requests, schedule[|schedule| - 1])
  }

  // The two statements of one request in one go are what the route does with its entry.
  lemma AloneIsSyncEntry(t: Table, a: Attempt)
    ensures var s, step := Exec(t, [a], [Read(0), Write(0)]), SyncEntry(t, a.entry.userId, a);
            0 in s.answers && s.answers[0] == step.result && s.table == step.table
  {
    assert [Read(0), Write(0)][..1] == [Read(0)] && [Read(0)][..0] == [];
    assert Exec(t, [a], [Read(0)]) == Next(Exec(t, [a], []), [a], Read(0));
  }

  // The requests are all about one note, at the version it is at.
  ghost predicate SameBase(t: Table, requests: seq<Attempt>, id: Uuid, v: I32) {
    && id in t && t[id].version == v
    && forall a :: a in requests ==>
         a.entry.id == id && a.entry.userId == t[id].userId && a.entry.version == v && a.fetchOk
  }

  ghost predicate Accepted(s: State) {
    exists i :: i in s.answers && s.answers[i].Success?
  }

  ghost predicate StateOk(s: State, requests: seq<Attempt>, id: Uuid, user: Uuid, v: I32) {
    && id in s.table && s.table[id].userId == user
    && s.table[id].version == (if Accepted(s) then Bump(v) else v)
    && (forall i :: i in s.seen ==> i < |requests| && s.seen[i].Some?)
    && (forall i :: i in s.answers ==>
          i in s.seen && (s.answers[i].Success? <==> requests[i].upsertOk && s.seen[i].value.version == v))
  }

  lemma NextKeeps(s: State, t: Table, requests: seq<Attempt>, stmt: Stmt, id: Uuid, v: I32)
    requires SameBase(t, requests, id, v) && StateOk(s, requests, id, t[id].userId, v)
    ensures StateOk(Next(s, requests, stmt), requests, id, t[id].userId, v)
    ensures Accepted(s) ==> Accepted(Next(s, requests, stmt))
    ensures var u := Next(s, requests, stmt);
            forall i :: i in s.seen ==> i in u.seen && u.seen[i] == s.seen[i]
  {
    if stmt.i < |requests| {
      assert requests[stmt.i] in requests;
      var u := Next(s, requests, stmt);
      if Accepted(s) {
        var k :| k in s.answers && s.answers[k].Success?;
        assert k in u.answers && u.answers[k].Success?;
      }
      if Accepted(u) && !Accepted(s) {
        var k :| k in u.answers && u.answers[k].Success?;
        assert k == stmt.i;
      }
      if stmt.Write? && stmt.i in u.answers && u.answers[stmt.i].Success? {
        assert Accepted(u);
      }
    }
  }

  lemma {:induction false} ExecKeeps(t: Table, requests: seq<Attempt>, schedule: seq<Stmt>, id: Uuid, v: I32)
    requires SameBase(t, requests, id, v)
    ensures StateOk(Exec(t, requests, schedule), requests, id, t[id].userId, v)
  {
    if schedule != [] {
      var front := schedule[..|schedule| - 1];
      ExecKeeps(t, requests, front, id, v);
      NextKeeps(Exec(t, requests, front), t, requests, schedule[|schedule| - 1], id, v);
    }
  }

  lemma {:induction false} ReadsStay(t: Table, requests: seq<Attempt>, before: seq<Stmt>, more: seq<Stmt>,
                                     id: Uuid, v: I32, i: nat)
    requires SameBase(t, requests, id, v) && i in Exec(t, requests, before).seen
    ensures i in Exec(t, requests, before + more).seen
    ensures Exec(t, requests, before + more).seen[i] == Exec(t, requests, before).seen[i]
    decreases |more|
  {
    if more == [] {
      assert before + more == before;
    } else {
      var front := more[..|more| - 1];
      ReadsStay(t, requests, before, front, id, v, i);
      assert (before + more)[..|before + more| - 1] == before + front;
      ExecKeeps(t, requests, before + front, id, v);
      NextKeeps(Exec(t, requests, before + front), t, requests, more[|more| - 1], id, v);
    }
  }

  // Any number of requests with one base version, their statements in any order: one that
  // reads at this point and is answered later is told Success iff its upsert works and no
  // other has been told Success by then.
  lemma SuccessIff(t: Table, requests: seq<Attempt>, before: seq<Stmt>, after: seq<Stmt>, id: Uuid, v: I32, i: nat)
    requires SameBase(t, requests, id, v) && i < |requests|
    requires i !in Exec(t, requests, before).seen
    requires i in Exec(t, requests, before + [Read(i)] + after).answers
    ensures Exec(t, requests, before + [Read(i)] + after).answers[i].Success?
       <==> requests[i].upsertOk && !Accepted(Exec(t, requests, before))
  {
    var s := Exec(t, requests, before);
    assert (before + [Read(i)])[..|before|] == before;
    assert requests[i] in requests;
    ExecKeeps(t, requests, before, id, v);
    ReadsStay(t, requests, before + [Read(i)], after, id, v, i);
    ExecKeeps(t, requests, before + [Read(i)] + after, id, v);
  }

  // ----- two requests

  // Only what has been read is seen, and only what has been written is answered.
  lemma {:induction false} OnlyStatementsCount(t: Table, requests: seq<Attempt>, schedule: seq<Stmt>, i: nat)
    ensures i in Exec(t, requests, schedule).seen ==> Read(i) in schedule
    ensures i in Exec(t, requests, schedule).answers ==> Write(i) in schedule
  {
    if schedule != [] {
      var front := schedule[..|schedule| - 1];
      OnlyStatementsCount(t, requests, front, i);
      assert schedule == front + [schedule[|schedule| - 1]];
    }
  }

  lemma {:induction false} StatementsCount(t: Table, requests: seq<Attempt>, schedule: seq<Stmt>, i: nat, r: nat)
    requires i < |requests| && r < |schedule| && schedule[r] == Read(i)
    ensures i in Exec(t, requests, schedule).seen
    ensures forall w :: r < w < |schedule| && schedule[w] == Write(i) ==> i in Exec(t, requests, schedule).answers
  {
    var n := |schedule| - 1;
    if r < n {
      StatementsCount(t, requests, schedule[..n], i, r);
    }
  }

  // r0, w0, r1 and w1 are where the statements of the two requests stand.
  ghost predicate TwoRequests(schedule: seq<Stmt>, r0: nat, w0: nat, r1: nat, w1: nat) {
    && |schedule| == 4 && r0 < w0 < 4 && r1 < w1 < 4
    && schedule[r0] == Read(0) && schedule[w0] == Write(0) && schedule[r1] == Read(1) && schedule[w1] == Write(1)
  }

  // j has read and written, and i has written nothing.
  lemma FirstIsAccepted(t: Table, requests: seq<Attempt>, early: seq<Stmt>, i: nat, j: nat, rj: nat, wj: nat,
                        id: Uuid, v: I32)
    requires SameBase(t, requests, id, v) && |requests| == 2 && i < 2 && j == 1 - i && requests[j].upsertOk
    requires rj < wj < |early| && early[rj] == Read(j) && early[wj] == Write(j)
    requires Write(i) !in early && Read(j) !in early[..rj] && Write(j) !in early[..rj]
    ensures Accepted(Exec(t, requests, early))
  {
    var first := early[..rj];
    StatementsCount(t, requests, early, j, rj);
    OnlyStatementsCount(t, requests, first, j);
    OnlyStatementsCount(t, requests, first, i);
    ExecKeeps(t, requests, first, id, v);
    assert early == first + [Read(j)] + early[rj + 1..];
    SuccessIff(t, requests, first, early[rj + 1..], id, v, j);
  }

  // Nobody has been told Success before the read of i, unless j has written by then.
  lemma AcceptedByOther(t: Table, requests: seq<Attempt>, schedule: seq<Stmt>, i: nat, j: nat, r: nat, rj: nat, wj: nat,
                        id: Uuid, v: I32)
    requires SameBase(t, requests, id, v) && |requests| == 2 && i < 2 && j == 1 - i && requests[j].upsertOk
    requires r < |schedule| && rj < wj < |schedule| && schedule[rj] == Read(j) && schedule[wj] == Write(j)
    requires forall k :: 0 <= k < |schedule| && schedule[k] == Write(i) ==> r < k
    requires forall k :: 0 <= k < |schedule| && schedule[k] == Read(j) ==> k == rj
    requires forall k :: 0 <= k < |schedule| && schedule[k] == Write(j) ==> k == wj
    ensures Accepted(Exec(t, requests, schedule[..r])) <==> wj < r
  {
    var early := schedule[..r];
    ExecKeeps(t, requests, early, id, v);
    OnlyStatementsCount(t, requests, early, i);
    OnlyStatementsCount(t, requests, early, j);
    if wj < r {
      FirstIsAccepted(t, requests, early, i, j, rj, wj, id, v);
    }
  }

  lemma AnsweredAsRead(t: Table, requests: seq<Attempt>, schedule: seq<Stmt>, i: nat, r: nat, w: nat, id: Uuid, v: I32)
    requires SameBase(t, requests, id, v) && i < |requests| && requests[i].upsertOk
    requires r < w < |schedule| && schedule[r] == Read(i) && schedule[w] == Write(i)
    requires forall k :: 0 <= k < |schedule| && schedule[k] == Read(i) ==> k == r
    ensures i in Exec(t, requests, schedule).answers
    ensures Exec(t, requests, schedule).answers[i].Success? <==> !Accepted(Exec(t, requests, schedule[..r]))
  {
    StatementsCount(t, requests, schedule, i, r);
    OnlyStatementsCount(t, requests, schedule[..r], i);
    assert schedule == schedule[..r] + [Read(i)] + schedule[r + 1..];
    SuccessIff(t, requests, schedule[..r], schedule[r + 1..], id, v, i);
  }

  // Two requests with one base version: both are told Success, so that one update is lost,
  // iff each of them reads before the other writes.
  lemma BothSucceedIff(t: Table, a: Attempt, b: Attempt, schedule: seq<Stmt>, r0: nat, w0: nat, r1: nat, w1: nat,
                       id: Uuid, v: I32)
    requires SameBase(t, [a, b], id, v) && a.upsertOk && b.upsertOk && TwoRequests(schedule, r0, w0, r1, w1)
    ensures var answers := Exec(t, [a, b], schedule).answers;
            && 0 in answers && 1 in answers
            && (answers[0].Success? && answers[1].Success? <==> r0 < w1 && r1 < w0)
  {
    AnsweredAsRead(t, [a, b], schedule, 0, r0, w0, id, v);
    AnsweredAsRead(t, [a, b], schedule, 1, r1, w1, id, v);
    AcceptedByOther(t, [a, b], schedule, 0, 1, r0, r1, w1, id, v);
    AcceptedByOther(t, [a, b], schedule, 1, 0, r1, r0, w0, id, v);
  }
}
