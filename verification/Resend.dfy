// Sending the same batch again and again.
module Resend {
  import opened Int32
  import opened Models
  import opened NoteStore
  import opened SyncEngine
  import opened SyncRoute

  // Every attempt is about an entry of the batch, and its fetch works.
  ghost predicate DrawnFrom(attempts: seq<Attempt>, batch: seq<Note>) {
    forall a :: a in attempts ==> a.entry in batch && a.fetchOk
  }

  ghost predicate CleanRound(round: seq<Attempt>, batch: seq<Note>) {
    && |round| == |batch|
    && forall i :: 0 <= i < |batch| ==> round[i].entry == batch[i] && round[i].fetchOk && round[i].upsertOk
  }

  // No own entry names a row of somebody else.
  ghost predicate Scoped(t: Table, session: Uuid, batch: seq<Note>) {
    forall e :: e in batch && e.userId == session && e.id in t ==> t[e.id].userId == session
  }

  ghost predicate Present(t: Table, session: Uuid, batch: seq<Note>) {
    forall e :: e in batch && e.userId == session ==> e.id in t
  }

  // Every own entry would be answered with Conflict.
  ghost predicate Settled(t: Table, session: Uuid, batch: seq<Note>) {
    forall e :: e in batch && e.userId == session ==>
      e.id in t && t[e.id].userId == session && t[e.id].version != e.version
  }

  predicate IsUpdate(t: Table, session: Uuid, a: Attempt) {
    SyncEntry(t, session, a).result.Success? && a.entry.id in t
  }

  predicate IsCreate(t: Table, session: Uuid, a: Attempt) {
    SyncEntry(t, session, a).result.Success? && a.entry.id !in t
  }

  function Updates(t: Table, session: Uuid, attempts: seq<Attempt>): nat {
    if attempts == [] then 0
    else
      var front, last := attempts[..|attempts| - 1], attempts[|attempts| - 1];
      Updates(t, session, front) + if IsUpdate(Process(t, session, front).table, session, last) then 1 else 0
  }

  function Creates(t: Table, session: Uuid, attempts: seq<Attempt>): nat {
    if attempts == [] then 0
    else
      var front, last := attempts[..|attempts| - 1], attempts[|attempts| - 1];
      Creates(t, session, front) + if IsCreate(Process(t, session, front).table, session, last) then 1 else 0
  }

  // A create is a row that was not there before, and nothing else adds rows.
  lemma {:induction false} CreatesAreNewRows(t: Table, session: Uuid, attempts: seq<Attempt>)
    ensures |Process(t, session, attempts).table| == |t| + Creates(t, session, attempts)
  {
    if attempts != [] {
      var front, a := attempts[..|attempts| - 1], attempts[|attempts| - 1];
      var m := Process(t, session, front).table;
      var u := SyncEntry(m, session, a).table;
      CreatesAreNewRows(t, session, front);
      if a.entry.id in m {
        assert u.Keys == m.Keys;
      } else if IsCreate(m, session, a) {
        assert u.Keys == m.Keys + {a.entry.id};
      }
    }
  }

  // ----- the measure: submitted versions not yet overtaken

  // gap names, for each id, an i32 that the batch does not submit.
  ghost predicate Omits(batch: seq<Note>, session: Uuid, gap: Uuid -> I32) {
    forall e :: e in batch && e.userId == session ==> e.version != gap(e.id)
  }

  predicate Ahead(t: Table, e: Note, gap: Uuid -> I32) {
    e.id in t ==> Rank(gap(e.id), t[e.id].version) <= Rank(gap(e.id), e.version)
  }

  ghost function Open(t: Table, session: Uuid, batch: seq<Note>, gap: Uuid -> I32): set<nat> {
    set i: nat | i < |batch| && batch[i].userId == session && Ahead(t, batch[i], gap)
  }

  ghost function Fresh(t: Table, session: Uuid, batch: seq<Note>): set<Uuid> {
    set i: nat | i < |batch| && batch[i].userId == session && batch[i].id !in t :: batch[i].id
  }

  lemma UpdateOvertakes(t: Table, session: Uuid, batch: seq<Note>, gap: Uuid -> I32, a: Attempt)
    requires Scoped(t, session, batch) && Omits(batch, session, gap)
    requires a.entry in batch && a.fetchOk && IsUpdate(t, session, a)
    ensures Open(SyncEntry(t, session, a).table, session, batch, gap) < Open(t, session, batch, gap)
  {
    var u := SyncEntry(t, session, a).table;
    var id := a.entry.id;
    RankBump(gap(id), t[id].version);
    assert u[id].version == Bump(t[id].version);
    forall i | i in Open(u, session, batch, gap) ensures i in Open(t, session, batch, gap) {
      assert Ahead(u, batch[i], gap);
    }
    var k: nat :| k < |batch| && batch[k] == a.entry;
    assert k in Open(t, session, batch, gap) && k !in Open(u, session, batch, gap);
  }

  lemma CreateUses(t: Table, session: Uuid, batch: seq<Note>, gap: Uuid -> I32, a: Attempt)
    requires a.entry in batch && a.fetchOk && IsCreate(t, session, a)
    ensures Open(SyncEntry(t, session, a).table, session, batch, gap) <= Open(t, session, batch, gap)
    ensures Fresh(SyncEntry(t, session, a).table, session, batch) < Fresh(t, session, batch)
  {
    var u := SyncEntry(t, session, a).table;
    forall i | i in Open(u, session, batch, gap) ensures i in Open(t, session, batch, gap) {
      assert Ahead(u, batch[i], gap);
    }
    var k: nat :| k < |batch| && batch[k] == a.entry;
    assert batch[k].id in Fresh(t, session, batch);
    assert batch[k].id !in Fresh(u, session, batch);
  }

  lemma StrictSubset<T>(a: set<T>, b: set<T>)
    requires a <= b
    ensures |a| <= |b|
    ensures a < b ==> |a| < |b|
  {
    assert b == a + (b - a);
  }

  lemma MeasureStep(t: Table, session: Uuid, batch: seq<Note>, gap: Uuid -> I32, a: Attempt)
    requires Scoped(t, session, batch) && Omits(batch, session, gap)
    requires a.entry in batch && a.fetchOk
    ensures var u := SyncEntry(t, session, a).table;
            && Scoped(u, session, batch)
            && (if IsUpdate(t, session, a) then 1 else 0) + |Open(u, session, batch, gap)|
                 <= |Open(t, session, batch, gap)|
            && (if IsCreate(t, session, a) then 1 else 0) + |Fresh(u, session, batch)|
                 <= |Fresh(t, session, batch)|
  {
    var u := SyncEntry(t, session, a).table;
    if IsUpdate(t, session, a) {
      UpdateOvertakes(t, session, batch, gap, a);
      StrictSubset(Open(u, session, batch, gap), Open(t, session, batch, gap));
      assert Fresh(u, session, batch) == Fresh(t, session, batch);
    } else if IsCreate(t, session, a) {
      CreateUses(t, session, batch, gap, a);
      StrictSubset(Open(u, session, batch, gap), Open(t, session, batch, gap));
      StrictSubset(Fresh(u, session, batch), Fresh(t, session, batch));
    } else {
      assert u == t;
    }
  }

  // Whatever is sent, and however often, every update uses up an open entry and
  // every create uses up a new id. Upserts may fail at will.
  lemma {:induction false} MeasureDecreases(t: Table, session: Uuid, batch: seq<Note>, gap: Uuid -> I32,
                                            attempts: seq<Attempt>)
    requires Scoped(t, session, batch) && Omits(batch, session, gap) && DrawnFrom(attempts, batch)
    ensures var u := Process(t, session, attempts).table;
            && Scoped(u, session, batch)
            && Updates(t, session, attempts) + |Open(u, session, batch, gap)| <= |Open(t, session, batch, gap)|
            && Creates(t, session, attempts) + |Fresh(u, session, batch)| <= |Fresh(t, session, batch)|
  {
    if attempts != [] {
      var front, a := attempts[..|attempts| - 1], attempts[|attempts| - 1];
      assert a in attempts;
      MeasureDecreases(t, session, batch, gap, front);
      MeasureStep(Process(t, session, front).table, session, batch, gap, a);
    }
  }

  // ----- some i32 is always left out by a batch that fits in memory

  ghost predicate Omitted(batch: seq<Note>, session: Uuid, id: Uuid, v: I32) {
    forall e :: e in batch && e.userId == session && e.id == id ==> e.version != v
  }

  ghost predicate Gapped(batch: seq<Note>, session: Uuid) {
    forall id :: HasGap(batch, session, id)
  }

  ghost predicate HasGap(batch: seq<Note>, session: Uuid, id: Uuid) {
    exists v: I32 :: Omitted(batch, session, id, v)
  }

  ghost function GapOf(batch: seq<Note>, session: Uuid, id: Uuid): I32 {
    if v: I32 :| Omitted(batch, session, id, v) then v else 0
  }

  lemma GapsOmitted(batch: seq<Note>, session: Uuid)
    requires Gapped(batch, session)
    ensures Omits(batch, session, id => GapOf(batch, session, id))
  {
    forall e | e in batch && e.userId == session ensures e.version != GapOf(batch, session, e.id) {
      assert HasGap(batch, session, e.id);
    }
  }

  lemma {:induction false} CoveringIsLarge(s: set<int>, lo: int, n: nat)
    requires forall x :: lo <= x < lo + n ==> x in s
    ensures |s| >= n
  {
    if n > 0 {
      CoveringIsLarge(s - {lo + n - 1}, lo, n - 1);
    }
  }

  function VersionsOf(batch: seq<Note>): set<int> {
    set e | e in batch :: e.version
  }

  lemma {:induction false} VersionsAreFew(batch: seq<Note>)
    ensures |VersionsOf(batch)| <= |batch|
  {
    if batch != [] {
      var front, last := batch[..|batch| - 1], batch[|batch| - 1];
      VersionsAreFew(front);
      assert batch == front + [last];
      assert VersionsOf(batch) == VersionsOf(front) + {last.version};
    }
  }

  lemma SmallBatchIsGapped(batch: seq<Note>, session: Uuid)
    requires |batch| < 4294967296
    ensures Gapped(batch, session)
  {
    VersionsAreFew(batch);
    if forall x :: MIN <= x < MIN + SPAN ==> x in VersionsOf(batch) {
      CoveringIsLarge(VersionsOf(batch), MIN, SPAN);
      assert false;
    }
    var v: I32 :| v !in VersionsOf(batch);
    forall id ensures HasGap(batch, session, id) {
      assert Omitted(batch, session, id, v);
    }
  }

  // ----- the fixed point

  // Once settled, always settled: the table stops changing, timestamps included,
  // and each own entry gets Conflict with the row as it stands.
  lemma {:induction false} SettledIsFixed(t: Table, session: Uuid, batch: seq<Note>, attempts: seq<Attempt>)
    requires Settled(t, session, batch) && DrawnFrom(attempts, batch)
    ensures Process(t, session, attempts).table == t
    ensures forall i :: 0 <= i < |attempts| && attempts[i].entry.userId == session ==>
      attempts[i].entry.id in t
      && Process(t, session, attempts).results[i] == Conflict(t[attempts[i].entry.id])
  {
    if attempts != [] {
      SettledIsFixed(t, session, batch, attempts[..|attempts| - 1]);
      assert attempts[|attempts| - 1] in attempts;
    }
  }

  lemma {:induction false} QuietRoundChangesNothing(t: Table, session: Uuid, batch: seq<Note>, round: seq<Attempt>)
    requires Scoped(t, session, batch) && Present(t, session, batch) && DrawnFrom(round, batch)
    requires Updates(t, session, round) == 0
    ensures Process(t, session, round).table == t
    ensures forall i :: 0 <= i < |round| ==> !IsUpdate(t, session, round[i])
  {
    if round != [] {
      QuietRoundChangesNothing(t, session, batch, round[..|round| - 1]);
      assert round[|round| - 1] in round;
    }
  }

  lemma UnsettledRoundUpdates(t: Table, session: Uuid, batch: seq<Note>, round: seq<Attempt>)
    requires Scoped(t, session, batch) && Present(t, session, batch) && CleanRound(round, batch)
    requires !Settled(t, session, batch)
    ensures Updates(t, session, round) > 0
  {
    var e :| e in batch && e.userId == session && t[e.id].version == e.version;
    var i :| 0 <= i < |batch| && batch[i] == e;
    assert IsUpdate(t, session, round[i]);
    if Updates(t, session, round) == 0 {
      QuietRoundChangesNothing(t, session, batch, round);
    }
  }

  lemma {:induction false} CleanPrefixLeavesPresent(t: Table, session: Uuid, batch: seq<Note>, round: seq<Attempt>,
                                                    k: nat)
    requires CleanRound(round, batch) && k <= |batch|
    ensures Present(Process(t, session, round[..k]).table, session, batch[..k])
  {
    if k > 0 {
      CleanPrefixLeavesPresent(t, session, batch, round, k - 1);
      var m := Process(t, session, round[..k - 1]).table;
      assert round[..k][..k - 1] == round[..k - 1];
      assert batch[..k] == batch[..k - 1] + [batch[k - 1]];
      assert round[k - 1].entry == batch[k - 1];
      assert m.Keys <= SyncEntry(m, session, round[k - 1]).table.Keys;
    }
  }

  lemma CleanRoundLeavesAllPresent(t: Table, session: Uuid, batch: seq<Note>, round: seq<Attempt>)
    requires CleanRound(round, batch)
    ensures Present(Process(t, session, round).table, session, batch)
  {
    CleanPrefixLeavesPresent(t, session, batch, round, |batch|);
    assert round[..|batch|] == round && batch[..|batch|] == batch;
  }

  function Rounds(t: Table, session: Uuid, rounds: seq<seq<Attempt>>): Table {
    if rounds == [] then t
    else Process(Rounds(t, session, rounds[..|rounds| - 1]), session, rounds[|rounds| - 1]).table
  }

  ghost predicate AllClean(rounds: seq<seq<Attempt>>, batch: seq<Note>) {
    forall r :: r in rounds ==> CleanRound(r, batch)
  }

  lemma {:induction false} RoundsCloseEntries(t: Table, session: Uuid, batch: seq<Note>, gap: Uuid -> I32,
                                              rounds: seq<seq<Attempt>>)
    requires Scoped(t, session, batch) && Present(t, session, batch) && Omits(batch, session, gap)
    requires AllClean(rounds, batch)
    ensures var u := Rounds(t, session, rounds);
            && Scoped(u, session, batch) && Present(u, session, batch)
            && (Settled(u, session, batch)
                || |Open(u, session, batch, gap)| + |rounds| <= |Open(t, session, batch, gap)|)
  {
    if rounds != [] {
      var front, round := rounds[..|rounds| - 1], rounds[|rounds| - 1];
      RoundsCloseEntries(t, session, batch, gap, front);
      var m := Rounds(t, session, front);
      assert round in rounds;
      MeasureDecreases(m, session, batch, gap, round);
      CleanRoundLeavesAllPresent(m, session, batch, round);
      if Settled(m, session, batch) {
        SettledIsFixed(m, session, batch, round);
      } else {
        UnsettledRoundUpdates(m, session, batch, round);
      }
    }
  }

  lemma OpenIsSmall(t: Table, session: Uuid, batch: seq<Note>, gap: Uuid -> I32)
    ensures |Open(t, session, batch, gap)| <= |batch|
  {
    RangeCardinality(Open(t, session, batch, gap), |batch|);
  }

  lemma {:induction false} RoundsSplit(t: Table, session: Uuid, rounds: seq<seq<Attempt>>)
    requires rounds != []
    ensures Rounds(t, session, rounds) == Rounds(Process(t, session, rounds[0]).table, session, rounds[1..])
  {
    if |rounds| > 1 {
      var front := rounds[..|rounds| - 1];
      RoundsSplit(t, session, front);
      assert front[1..] == rounds[1..][..|rounds| - 2];
    }
  }

  lemma {:induction false} ForeignRowStays(t: Table, session: Uuid, id: Uuid, rounds: seq<seq<Attempt>>)
    requires id in t && t[id].userId != session
    ensures id in Rounds(t, session, rounds) && Rounds(t, session, rounds)[id].userId != session
  {
    if rounds != [] {
      var front := rounds[..|rounds| - 1];
      ForeignRowStays(t, session, id, front);
      BatchKeepsIdentity(Rounds(t, session, front), session, rounds[|rounds| - 1]);
    }
  }

  lemma ClosedIsSettled(t: Table, session: Uuid, batch: seq<Note>, gap: Uuid -> I32)
    requires Scoped(t, session, batch) && Present(t, session, batch)
    requires Open(t, session, batch, gap) == {}
    ensures Settled(t, session, batch)
  {
    forall e | e in batch && e.userId == session ensures t[e.id].version != e.version {
      var i: nat :| i < |batch| && batch[i] == e;
      assert i !in Open(t, session, batch, gap);
    }
  }

  lemma EnoughRoundsSettle(t: Table, session: Uuid, batch: seq<Note>, gap: Uuid -> I32,
                           rounds: seq<seq<Attempt>>)
    requires Scoped(t, session, batch) && Omits(batch, session, gap)
    requires AllClean(rounds, batch) && |rounds| >= |batch| + 1
    ensures Settled(Rounds(t, session, rounds), session, batch)
  {
    assert rounds[0] in rounds;
    var m := Process(t, session, rounds[0]).table;
    MeasureDecreases(t, session, batch, gap, rounds[0]);
    CleanRoundLeavesAllPresent(t, session, batch, rounds[0]);
    assert AllClean(rounds[1..], batch);
    RoundsCloseEntries(m, session, batch, gap, rounds[1..]);
    RoundsSplit(t, session, rounds);
    OpenIsSmall(m, session, batch, gap);
    var u := Rounds(t, session, rounds);
    if !Settled(u, session, batch) {
      ClosedIsSettled(u, session, batch, gap);
    }
  }

  // Re-sending a batch settles after at most |batch| + 1 undisturbed rounds, unless
  // an own entry names a foreign row or one id is submitted at every i32 there is;
  // in those cases it never settles.
  lemma ResendSettles(t: Table, session: Uuid, batch: seq<Note>, rounds: seq<seq<Attempt>>)
    requires AllClean(rounds, batch) && |rounds| >= |batch| + 1
    ensures Settled(Rounds(t, session, rounds), session, batch)
       <==> Scoped(t, session, batch) && Gapped(batch, session)
  {
    var u := Rounds(t, session, rounds);
    if Scoped(t, session, batch) && Gapped(batch, session) {
      GapsOmitted(batch, session);
      EnoughRoundsSettle(t, session, batch, id => GapOf(batch, session, id), rounds);
    } else if !Scoped(t, session, batch) {
      var e :| e in batch && e.userId == session && e.id in t && t[e.id].userId != session;
      ForeignRowStays(t, session, e.id, rounds);
    } else if Settled(u, session, batch) {
      var id :| !HasGap(batch, session, id);
      var v: I32 := if id in u then u[id].version else 0;
      assert !Omitted(batch, session, id, v);
    }
  }

  // The bound, in numbers: at most one update per own entry and one create per id
  // that is new to the server, over any number of resends of any part of the batch.
  lemma ResendBound(t: Table, session: Uuid, batch: seq<Note>, attempts: seq<Attempt>)
    requires Scoped(t, session, batch) && Gapped(batch, session) && DrawnFrom(attempts, batch)
    ensures Updates(t, session, attempts) <= |batch|
    ensures Creates(t, session, attempts) <= |Fresh(t, session, batch)|
  {
    var gap: Uuid -> I32 := id => GapOf(batch, session, id);
    GapsOmitted(batch, session);
    MeasureDecreases(t, session, batch, gap, attempts);
    OpenIsSmall(t, session, batch, gap);
  }
}
