// Statements of several refresh requests in any order, all presenting one token. The
// server looks the token up, revokes it and stores a successor in three statements.
module RefreshSchedules {
  import opened AuthRoutes
  import opened AuthStore
  import opened Models
  import opened Wrappers

  datatype Stmt = Look(i: nat) | Revoke(i: nat) | Store(i: nat)

  datatype Request = Request(d: Draws, luck: Luck, now: Time)

  /** The tables, what each request has found, which have revoked, and the replies. */
  datatype State = State(db: AuthDb, found: map<nat, Option<RefreshToken>>, revoked: set<nat>, replies: map<nat, Reply>)

  function Next(hash: int -> int, raw: int, s: State, requests: seq<Request>, stmt: Stmt): State {
    if stmt.i >= |requests| || stmt.i in s.replies then s
    else
      var q := requests[stmt.i];
      match stmt
      case Look(i) =>
        if i in s.found then s
        else if !q.luck.lookupOk then
          s.(found := s.found[i := None], replies := s.replies[i := Reply(INTERNAL_SERVER_ERROR, None)])
        else
          var token := FindValid(s.db.tokens, hash(raw), q.now);
          var t := s.(found := s.found[i := token]);
          if token.None? then t.(replies := s.replies[i := Reply(UNAUTHORIZED, None)]) else t
      case Revoke(i) =>
        if i !in s.found || s.found[i].None? || i in s.revoked then s
        else if !q.luck.revokeOk then s.(replies := s.replies[i := Reply(INTERNAL_SERVER_ERROR, None)])
        else s.(db := s.db.(tokens := Revoked(s.db.tokens, s.found[i].value.id)), revoked := s.revoked + {i})
      case Store(i) =>
        if i !in s.revoked || i !in s.found || s.found[i].None? then s
        else
          var (db, reply) := Issue(hash, s.db, s.found[i].value.userId, q.d, q.luck, q.now, OK);
          s.(db := db, replies := s.replies[i := reply])
  }

  function Exec(hash: int -> int, raw: int, db: AuthDb, requests: seq<Request>, schedule: seq<Stmt>): State {
    if schedule == [] then State(db, map[], {}, map[])
    else
      var n := |schedule| - 1;
      Next(hash, raw, Exec(hash, raw, db, requests, schedule[..n]), requests, schedule[n])
  }

  // The one request alone, statement by statement, is the refresh step.
  lemma AloneIsRefreshed(hash: int -> int, raw: int, db: AuthDb, q: Request)
    ensures var s := Exec(hash, raw, db, [q], [Look(0), Revoke(0), Store(0)]);
            0 in s.replies && (s.db, s.replies[0]) == Refreshed(hash, db, raw, q.d, q.luck, q.now)
  {
    var all := [Look(0), Revoke(0), Store(0)];
    assert all[..2] == [Look(0), Revoke(0)] && all[..2][..1] == [Look(0)] && [Look(0)][..0] == [];
    var s0 := Exec(hash, raw, db, [q], []);
    var s1 := Next(hash, raw, s0, [q], Look(0));
    assert Exec(hash, raw, db, [q], [Look(0)]) == s1;
    var s2 := Next(hash, raw, s1, [q], Revoke(0));
    assert Exec(hash, raw, db, [q], [Look(0), Revoke(0)]) == s2;
  }

  // The token at position k is the only one with this hash, live for all the requests,
  // and everything that is drawn is new.
  ghost predicate OneToken(hash: int -> int, raw: int, db: AuthDb, requests: seq<Request>, k: nat) {
    && k < |db.tokens| && db.tokens[k].tokenHash == hash(raw) && !db.tokens[k].revoked
    && (forall j :: 0 <= j < |db.tokens| && j != k ==>
          db.tokens[j].tokenHash != hash(raw) && db.tokens[j].id != db.tokens[k].id)
    && (forall i :: 0 <= i < |requests| ==>
          requests[i].now < db.tokens[k].expiresAt && hash(requests[i].d.raw) != hash(raw)
          && forall t :: t in db.tokens ==> t.id != requests[i].d.tokenId)
    && (forall i, j :: 0 <= i < j < |requests| ==> requests[i].d.tokenId != requests[j].d.tokenId)
  }

  predicate Lucky(luck: Luck) {
    luck.lookupOk && luck.revokeOk && luck.signOk && luck.storeOk
  }

  predicate Answered(s: State, i: nat) {
    i in s.replies && s.replies[i].status == OK
  }

  // Where a token comes from: it was there, or a request was answered with it.
  ghost predicate Known(s: State, db: AuthDb, requests: seq<Request>, id: Uuid) {
    (exists t :: t in db.tokens && t.id == id)
    || exists i: nat :: i < |requests| && Answered(s, i) && requests[i].d.tokenId == id
  }

  ghost predicate TokensOk(hash: int -> int, raw: int, s: State, db: AuthDb, requests: seq<Request>, k: nat) {
    && k < |db.tokens| && k < |s.db.tokens|
    && s.db.tokens[k] == db.tokens[k].(revoked := s.revoked != {})
    && (forall j :: 0 <= j < |s.db.tokens| && j != k ==> s.db.tokens[j].tokenHash != hash(raw))
    && forall j :: 0 <= j < |s.db.tokens| ==> Known(s, db, requests, s.db.tokens[j].id)
  }

  ghost predicate RequestsOk(s: State, requests: seq<Request>, token: RefreshToken) {
    && (forall i :: i in s.found ==> i < |requests| && (s.found[i].Some? ==> s.found[i].value == token))
    && (forall i :: i in s.revoked ==> i in s.found && s.found[i].Some? && requests[i].luck.revokeOk)
    && (forall i :: i in s.replies ==>
          && i in s.found && (s.replies[i].status == OK <==> s.found[i].Some? && Lucky(requests[i].luck))
          && (s.found[i].Some? && requests[i].luck.revokeOk ==> i in s.revoked))
    && (forall i :: i in s.found ==> if s.found[i].Some? then requests[i].luck.lookupOk else i in s.replies)
  }

  ghost predicate StateOk(hash: int -> int, raw: int, s: State, db: AuthDb, requests: seq<Request>, k: nat) {
    TokensOk(hash, raw, s, db, requests, k) && RequestsOk(s, requests, db.tokens[k])
  }

  lemma FindsTheOne(tokens: seq<RefreshToken>, tokenHash: int, now: Time, k: nat)
    requires k < |tokens| && tokens[k].tokenHash == tokenHash && tokens[k].expiresAt > now
    requires forall j :: 0 <= j < |tokens| && j != k ==> tokens[j].tokenHash != tokenHash
    ensures FindValid(tokens, tokenHash, now) == if tokens[k].revoked then None else Some(tokens[k])
  {
    var found := FindValid(tokens, tokenHash, now);
    if found.Some? {
      var j :| 0 <= j < |tokens| && tokens[j] == found.value;
    } else {
      assert tokens[k] in tokens;
    }
  }

  lemma KnownStays(s: State, u: State, db: AuthDb, requests: seq<Request>, id: Uuid)
    requires Known(s, db, requests, id) && forall i :: Answered(s, i) ==> Answered(u, i)
    ensures Known(u, db, requests, id)
  {
  }

  lemma SameTokens(hash: int -> int, raw: int, s: State, u: State, db: AuthDb, requests: seq<Request>, k: nat)
    requires TokensOk(hash, raw, s, db, requests, k) && u.db == s.db && u.revoked == s.revoked
    requires forall i :: Answered(s, i) ==> Answered(u, i)
    ensures TokensOk(hash, raw, u, db, requests, k)
  {
    forall j | 0 <= j < |u.db.tokens| ensures Known(u, db, requests, u.db.tokens[j].id) {
      KnownStays(s, u, db, requests, s.db.tokens[j].id);
    }
  }

  lemma LookKeeps(hash: int -> int, raw: int, s: State, db: AuthDb, requests: seq<Request>, k: nat, i: nat)
    requires OneToken(hash, raw, db, requests, k) && StateOk(hash, raw, s, db, requests, k) && i < |requests|
    ensures StateOk(hash, raw, Next(hash, raw, s, requests, Look(i)), db, requests, k)
    ensures i !in s.found && i !in s.replies ==>
      var u := Next(hash, raw, s, requests, Look(i));
      i in u.found && (u.found[i].Some? <==> requests[i].luck.lookupOk && s.revoked == {})
  {
    FindsTheOne(s.db.tokens, hash(raw), requests[i].now, k);
    SameTokens(hash, raw, s, Next(hash, raw, s, requests, Look(i)), db, requests, k);
  }

  lemma RevokeKeeps(hash: int -> int, raw: int, s: State, db: AuthDb, requests: seq<Request>, k: nat, i: nat)
    requires OneToken(hash, raw, db, requests, k) && StateOk(hash, raw, s, db, requests, k) && i < |requests|
    ensures StateOk(hash, raw, Next(hash, raw, s, requests, Revoke(i)), db, requests, k)
  {
    var u := Next(hash, raw, s, requests, Revoke(i));
    if u.revoked != s.revoked {
      assert i in u.revoked;
    }
    forall j | 0 <= j < |u.db.tokens| ensures Known(u, db, requests, u.db.tokens[j].id) {
      KnownStays(s, u, db, requests, s.db.tokens[j].id);
    }
  }

  lemma IdIsNew(hash: int -> int, raw: int, s: State, db: AuthDb, requests: seq<Request>, k: nat, i: nat)
    requires OneToken(hash, raw, db, requests, k) && TokensOk(hash, raw, s, db, requests, k)
    requires i < |requests| && !Answered(s, i)
    ensures forall t :: t in s.db.tokens ==> t.id != requests[i].d.tokenId
  {
    forall t | t in s.db.tokens ensures t.id != requests[i].d.tokenId {
      var j :| 0 <= j < |s.db.tokens| && s.db.tokens[j] == t;
      assert Known(s, db, requests, s.db.tokens[j].id);
    }
  }

  lemma StoreKeeps(hash: int -> int, raw: int, s: State, db: AuthDb, requests: seq<Request>, k: nat, i: nat)
    requires OneToken(hash, raw, db, requests, k) && StateOk(hash, raw, s, db, requests, k) && i < |requests|
    ensures StateOk(hash, raw, Next(hash, raw, s, requests, Store(i)), db, requests, k)
  {
    var u := Next(hash, raw, s, requests, Store(i));
    if u != s {
      IdIsNew(hash, raw, s, db, requests, k, i);
      forall j | 0 <= j < |u.db.tokens| ensures Known(u, db, requests, u.db.tokens[j].id) {
        if j < |s.db.tokens| {
          KnownStays(s, u, db, requests, s.db.tokens[j].id);
        } else {
          assert Answered(u, i) && u.db.tokens[j].id == requests[i].d.tokenId;
        }
      }
    }
  }

  lemma {:induction false} ExecKeeps(hash: int -> int, raw: int, db: AuthDb, requests: seq<Request>,
                                     schedule: seq<Stmt>, k: nat)
    requires OneToken(hash, raw, db, requests, k)
    ensures StateOk(hash, raw, Exec(hash, raw, db, requests, schedule), db, requests, k)
  {
    var s0 := Exec(hash, raw, db, requests, []);
    if schedule == [] {
      forall j | 0 <= j < |db.tokens| ensures Known(s0, db, requests, db.tokens[j].id) {
        assert db.tokens[j] in db.tokens;
      }
    } else {
      var front, stmt := schedule[..|schedule| - 1], schedule[|schedule| - 1];
      ExecKeeps(hash, raw, db, requests, front, k);
      var s := Exec(hash, raw, db, requests, front);
      if stmt.i < |requests| {
        match stmt {
          case Look(i) => LookKeeps(hash, raw, s, db, requests, k, i);
          case Revoke(i) => RevokeKeeps(hash, raw, s, db, requests, k, i);
          case Store(i) => StoreKeeps(hash, raw, s, db, requests, k, i);
        }
      }
    }
  }

  lemma {:induction false} FoundStays(hash: int -> int, raw: int, db: AuthDb, requests: seq<Request>,
                                      before: seq<Stmt>, more: seq<Stmt>, i: nat)
    requires i in Exec(hash, raw, db, requests, before).found
    ensures i in Exec(hash, raw, db, requests, before + more).found
    ensures Exec(hash, raw, db, requests, before + more).found[i] == Exec(hash, raw, db, requests, before).found[i]
    decreases |more|
  {
    if more == [] {
      assert before + more == before;
    } else {
      FoundStays(hash, raw, db, requests, before, more[..|more| - 1], i);
      assert (before + more)[..|before + more| - 1] == before + more[..|more| - 1];
    }
  }

  // Any number of requests that present one token, their statements in any order: one that
  // looks at this point and is replied to later is answered with a token iff all its
  // statements work and nobody has revoked by then.
  lemma AnsweredIff(hash: int -> int, raw: int, db: AuthDb, requests: seq<Request>, k: nat, before: seq<Stmt>,
                    after: seq<Stmt>, i: nat)
    requires OneToken(hash, raw, db, requests, k) && i < |requests|
    requires i !in Exec(hash, raw, db, requests, before).found
    requires i in Exec(hash, raw, db, requests, before + [Look(i)] + after).replies
    ensures Exec(hash, raw, db, requests, before + [Look(i)] + after).replies[i].status == OK
       <==> Lucky(requests[i].luck) && Exec(hash, raw, db, requests, before).revoked == {}
  {
    assert (before + [Look(i)])[..|before|] == before;
    ExecKeeps(hash, raw, db, requests, before, k);
    LookKeeps(hash, raw, Exec(hash, raw, db, requests, before), db, requests, k, i);
    FoundStays(hash, raw, db, requests, before + [Look(i)], after, i);
    ExecKeeps(hash, raw, db, requests, before + [Look(i)] + after, k);
  }

  // ----- two requests

  lemma {:induction false} OnlyStatementsCount(hash: int -> int, raw: int, db: AuthDb, requests: seq<Request>,
                                               schedule: seq<Stmt>, i: nat)
    ensures i in Exec(hash, raw, db, requests, schedule).found ==> Look(i) in schedule
    ensures i in Exec(hash, raw, db, requests, schedule).revoked ==> Revoke(i) in schedule && i < |requests|
  {
    if schedule != [] {
      var front := schedule[..|schedule| - 1];
      OnlyStatementsCount(hash, raw, db, requests, front, i);
      assert schedule == front + [schedule[|schedule| - 1]];
    }
  }

  // The request has been looked up, and once revoked and stored it has its reply.
  ghost predicate Advanced(s: State, i: nat, revoke: bool, store: bool) {
    && i in s.found
    && (revoke && s.found[i].Some? ==> i in s.revoked)
    && (s.found[i].None? || store ==> i in s.replies)
  }

  lemma StepAdvances(hash: int -> int, raw: int, s: State, requests: seq<Request>, token: RefreshToken, i: nat,
                     revoke: bool, store: bool, stmt: Stmt)
    requires RequestsOk(s, requests, token) && i < |requests| && Lucky(requests[i].luck) && (store ==> revoke)
    requires stmt == Look(i) || Advanced(s, i, revoke, store)
    ensures var u := Next(hash, raw, s, requests, stmt);
            && (stmt == Look(i) ==> Advanced(u, i, false, false))
            && (Advanced(s, i, revoke, store) ==> Advanced(u, i, revoke || stmt == Revoke(i), store))
            && (Advanced(s, i, true, store) && stmt == Store(i) ==> Advanced(u, i, true, true))
  {
  }

  lemma {:induction false} StatementsCount(hash: int -> int, raw: int, db: AuthDb, requests: seq<Request>,
                                           schedule: seq<Stmt>, k: nat, i: nat, l: nat, v: nat, w: nat)
    requires OneToken(hash, raw, db, requests, k) && i < |requests| && Lucky(requests[i].luck)
    requires l < v < w && l < |schedule| && schedule[l] == Look(i)
    requires (v < |schedule| ==> schedule[v] == Revoke(i)) && (w < |schedule| ==> schedule[w] == Store(i))
    ensures Advanced(Exec(hash, raw, db, requests, schedule), i, v < |schedule|, w < |schedule|)
  {
    var n := |schedule| - 1;
    var s := Exec(hash, raw, db, requests, schedule[..n]);
    ExecKeeps(hash, raw, db, requests, schedule[..n], k);
    if l < n {
      StatementsCount(hash, raw, db, requests, schedule[..n], k, i, l, v, w);
    }
    StepAdvances(hash, raw, s, requests, db.tokens[k], i, v < n, w < n, schedule[n]);
  }

  // Where the statements of request i stand; they occur once.
  ghost predicate At(schedule: seq<Stmt>, i: nat, l: nat, v: nat, w: nat) {
    && l < v < w < |schedule|
    && schedule[l] == Look(i) && schedule[v] == Revoke(i) && schedule[w] == Store(i)
    && (forall x :: 0 <= x < |schedule| && schedule[x] == Look(i) ==> x == l)
    && (forall x :: 0 <= x < |schedule| && schedule[x] == Revoke(i) ==> x == v)
  }

  lemma RepliedAsLooked(hash: int -> int, raw: int, db: AuthDb, requests: seq<Request>, schedule: seq<Stmt>, k: nat,
                        i: nat, l: nat, v: nat, w: nat)
    requires OneToken(hash, raw, db, requests, k) && i < |requests| && Lucky(requests[i].luck)
    requires At(schedule, i, l, v, w)
    ensures i in Exec(hash, raw, db, requests, schedule).replies
    ensures Exec(hash, raw, db, requests, schedule).replies[i].status == OK
       <==> Exec(hash, raw, db, requests, schedule[..l]).revoked == {}
  {
    StatementsCount(hash, raw, db, requests, schedule, k, i, l, v, w);
    OnlyStatementsCount(hash, raw, db, requests, schedule[..l], i);
    assert schedule == schedule[..l] + [Look(i)] + schedule[l + 1..];
    AnsweredIff(hash, raw, db, requests, k, schedule[..l], schedule[l + 1..], i);
  }

  lemma RevokedByOther(hash: int -> int, raw: int, db: AuthDb, requests: seq<Request>, schedule: seq<Stmt>, k: nat,
                       i: nat, j: nat, l: nat, v: nat, w: nat, lj: nat, vj: nat, wj: nat)
    requires OneToken(hash, raw, db, requests, k) && |requests| == 2 && i < 2 && j == 1 - i
    requires Lucky(requests[j].luck) && At(schedule, i, l, v, w) && At(schedule, j, lj, vj, wj)
    ensures Exec(hash, raw, db, requests, schedule[..l]).revoked != {} <==> vj < l
  {
    var early := schedule[..l];
    var s := Exec(hash, raw, db, requests, early);
    forall x | x in s.revoked ensures x == j && vj < l {
      OnlyStatementsCount(hash, raw, db, requests, early, x);
    }
    if vj < l {
      StatementsCount(hash, raw, db, requests, early, k, j, lj, vj, if wj < l then wj else l);
      var first := early[..lj];
      forall x ensures x !in Exec(hash, raw, db, requests, first).revoked {
        OnlyStatementsCount(hash, raw, db, requests, first, x);
      }
      OnlyStatementsCount(hash, raw, db, requests, first, j);
      assert first + [Look(j)] + early[lj + 1..] == early && (first + [Look(j)])[..|first|] == first;
      ExecKeeps(hash, raw, db, requests, first, k);
      LookKeeps(hash, raw, Exec(hash, raw, db, requests, first), db, requests, k, j);
      FoundStays(hash, raw, db, requests, first + [Look(j)], early[lj + 1..], j);
    }
  }

  // Two requests that present one token: both are answered with a token, so that one login
  // has two live tokens, iff each of them looks before the other revokes.
  lemma BothAnsweredIff(hash: int -> int, raw: int, db: AuthDb, a: Request, b: Request, schedule: seq<Stmt>, k: nat,
                        l0: nat, v0: nat, w0: nat, l1: nat, v1: nat, w1: nat)
    requires OneToken(hash, raw, db, [a, b], k) && Lucky(a.luck) && Lucky(b.luck)
    requires At(schedule, 0, l0, v0, w0) && At(schedule, 1, l1, v1, w1)
    ensures var replies := Exec(hash, raw, db, [a, b], schedule).replies;
            && 0 in replies && 1 in replies
            && (replies[0].status == replies[1].status == OK <==> l0 < v1 && l1 < v0)
  {
    RepliedAsLooked(hash, raw, db, [a, b], schedule, k, 0, l0, v0, w0);
    RepliedAsLooked(hash, raw, db, [a, b], schedule, k, 1, l1, v1, w1);
    RevokedByOther(hash, raw, db, [a, b], schedule, k, 0, 1, l0, v0, w0, l1, v1, w1);
    RevokedByOther(hash, raw, db, [a, b], schedule, k, 1, 0, l1, v1, w1, l0, v0, w0);
  }
}
