// Refresh tokens over runs of registrations, logins, refreshes and revocations.
module TokenRuns {
  import opened AuthRoutes
  import opened AuthStore
  import opened Models
  import opened Wrappers

  datatype Event =
    | Register(email: string, passwordHash: string, d: Draws, luck: Luck, now: Time)
    | Login(email: string, password: string, d: Draws, luck: Luck, now: Time)
    | Refresh(raw: int, d: Draws, luck: Luck, now: Time)
    | RevokeAll(userId: Uuid, dbOk: bool)

  /** The tables, with a record of where every token comes from: `grants` lists the user
      of each login or registration that issued a token, `root` maps a token to the grant
      its chain starts at, and `redeemed` holds the raw tokens that were spent. */
  datatype Ledger = Ledger(
    db: AuthDb,
    drawn: set<int>,
    grants: seq<Uuid>,
    root: map<Uuid, nat>,
    rawOf: map<Uuid, int>,
    redeemed: set<int>)

  /** The hash function and the password check. */
  datatype Checks = Checks(hash: int -> int, verify: (string, string) -> bool)

  const EMPTY := Ledger(AuthDb([], []), {}, [], map[], map[], {})

  ghost predicate Injective(hash: int -> int) {
    forall a, b :: hash(a) == hash(b) ==> a == b
  }

  function Outcome(c: Checks, db: AuthDb, e: Event): (AuthDb, Reply) {
    match e
    case Register(email, passwordHash, d, luck, now) => Registered(c.hash, db, email, passwordHash, d, luck, now)
    case Login(email, password, d, luck, now) => LoggedIn(c.hash, c.verify, db, email, password, d, luck, now)
    case Refresh(raw, d, luck, now) => Refreshed(c.hash, db, raw, d, luck, now)
    case RevokeAll(userId, dbOk) =>
      (if dbOk then db.(tokens := AllRevoked(db.tokens, userId)) else db, Reply(OK, None))
  }

  // The token a refresh spends: found valid, and revoked.
  function Spent(c: Checks, db: AuthDb, e: Event): Option<RefreshToken> {
    if e.Refresh? && e.luck.lookupOk && e.luck.revokeOk then FindValid(db.tokens, c.hash(e.raw), e.now) else None
  }

  function Step(c: Checks, l: Ledger, e: Event): Ledger {
    var (db, reply) := Outcome(c, l.db, e);
    var spent := Spent(c, l.db, e);
    var m := l.(db := db, redeemed := l.redeemed + if spent.Some? then {e.raw} else {});
    if reply.refreshToken.None? then m
    else
      var token := db.tokens[|db.tokens| - 1];
      var n := m.(drawn := m.drawn + {e.d.raw}, rawOf := m.rawOf[token.id := e.d.raw]);
      if spent.Some? then n.(root := n.root[token.id := if spent.value.id in l.root then l.root[spent.value.id] else 0])
      else n.(root := n.root[token.id := |l.grants|], grants := l.grants + [token.userId])
  }

  function Run(c: Checks, events: seq<Event>): Ledger {
    if events == [] then EMPTY else Step(c, Run(c, events[..|events| - 1]), events[|events| - 1])
  }

  // Raw tokens are drawn afresh.
  ghost predicate FreshDraw(l: Ledger, e: Event) {
    !e.RevokeAll? ==> e.d.raw !in l.drawn
  }

  ghost predicate IsRun(c: Checks, events: seq<Event>) {
    Injective(c.hash) && forall i :: 0 <= i < |events| ==> FreshDraw(Run(c, events[..i]), events[i])
  }

  // ----- the invariant

  ghost predicate TokenOk(c: Checks, t: RefreshToken, l: Ledger) {
    && t.id in l.root && l.root[t.id] < |l.grants| && l.grants[l.root[t.id]] == t.userId
    && t.id in l.rawOf && l.rawOf[t.id] in l.drawn && t.tokenHash == c.hash(l.rawOf[t.id])
    && (l.rawOf[t.id] in l.redeemed ==> t.revoked)
  }

  ghost predicate PairOk(t: RefreshToken, u: RefreshToken, l: Ledger)
    requires t.id in l.root && u.id in l.root && t.id in l.rawOf && u.id in l.rawOf
  {
    && t.id != u.id && l.rawOf[t.id] != l.rawOf[u.id]
    && (!t.revoked && !u.revoked ==> l.root[t.id] != l.root[u.id])
  }

  ghost predicate LedgerOk(c: Checks, l: Ledger) {
    && l.redeemed <= l.drawn
    && (forall i :: 0 <= i < |l.db.tokens| ==> TokenOk(c, l.db.tokens[i], l))
    && (forall i, j :: 0 <= i < j < |l.db.tokens| ==> PairOk(l.db.tokens[i], l.db.tokens[j], l))
  }

  // Revoking more tokens never hurts.
  ghost predicate OnlyRevokes(a: seq<RefreshToken>, b: seq<RefreshToken>) {
    |b| == |a| && forall i :: 0 <= i < |a| ==> b[i] == a[i] || b[i] == a[i].(revoked := true)
  }

  lemma RevokingKeeps(c: Checks, l: Ledger, tokens: seq<RefreshToken>)
    requires LedgerOk(c, l) && OnlyRevokes(l.db.tokens, tokens)
    ensures LedgerOk(c, l.(db := l.db.(tokens := tokens)))
  {
    var m := l.(db := l.db.(tokens := tokens));
    forall i | 0 <= i < |tokens| ensures TokenOk(c, tokens[i], m) {
      assert TokenOk(c, l.db.tokens[i], l);
    }
    forall i, j | 0 <= i < j < |tokens| ensures PairOk(tokens[i], tokens[j], m) {
      assert PairOk(l.db.tokens[i], l.db.tokens[j], l);
    }
  }

  lemma UsersDoNotMatter(c: Checks, l: Ledger, users: seq<User>)
    requires LedgerOk(c, l)
    ensures LedgerOk(c, l.(db := l.db.(users := users)))
  {
    var m := l.(db := l.db.(users := users));
    forall i | 0 <= i < |l.db.tokens| ensures TokenOk(c, m.db.tokens[i], m) {
      assert TokenOk(c, l.db.tokens[i], l);
    }
    forall i, j | 0 <= i < j < |l.db.tokens| ensures PairOk(m.db.tokens[i], m.db.tokens[j], m) {
      assert PairOk(l.db.tokens[i], l.db.tokens[j], l);
    }
  }

  // The ledger with one more token, in chain r; r is a new grant or one of the old ones.
  function Grown(c: Checks, l: Ledger, t: RefreshToken, raw: int, r: nat): Ledger {
    l.(db := l.db.(tokens := l.db.tokens + [t]), drawn := l.drawn + {raw}, rawOf := l.rawOf[t.id := raw],
       root := l.root[t.id := r], grants := if r < |l.grants| then l.grants else l.grants + [t.userId])
  }

  lemma GrowingKeeps(c: Checks, l: Ledger, t: RefreshToken, raw: int, r: nat)
    requires LedgerOk(c, l) && raw !in l.drawn && t.tokenHash == c.hash(raw)
    requires forall i :: 0 <= i < |l.db.tokens| ==> l.db.tokens[i].id != t.id
    requires r <= |l.grants| && (r < |l.grants| ==> l.grants[r] == t.userId)
    requires forall i :: 0 <= i < |l.db.tokens| && !l.db.tokens[i].revoked ==>
               TokenOk(c, l.db.tokens[i], l) && l.root[l.db.tokens[i].id] != r
    ensures LedgerOk(c, Grown(c, l, t, raw, r))
  {
    var m := Grown(c, l, t, raw, r);
    var n := |l.db.tokens|;
    forall i | 0 <= i < |m.db.tokens| ensures TokenOk(c, m.db.tokens[i], m) {
      if i < n {
        assert TokenOk(c, l.db.tokens[i], l);
      }
    }
    forall i, j | 0 <= i < j < |m.db.tokens| ensures PairOk(m.db.tokens[i], m.db.tokens[j], m) {
      assert TokenOk(c, l.db.tokens[i], l);
      if j < n {
        assert PairOk(l.db.tokens[i], l.db.tokens[j], l);
      }
    }
  }

  // A spent token is found by its own raw text, was not spent before, and was the one
  // live token of its chain.
  lemma SpentToken(c: Checks, l: Ledger, e: Event) returns (k: nat)
    requires Injective(c.hash) && LedgerOk(c, l) && Spent(c, l.db, e).Some?
    ensures k < |l.db.tokens| && l.db.tokens[k] == Spent(c, l.db, e).value && !l.db.tokens[k].revoked
    ensures TokenOk(c, l.db.tokens[k], l) && l.rawOf[l.db.tokens[k].id] == e.raw
    ensures e.raw in l.drawn && e.raw !in l.redeemed
    ensures forall i :: 0 <= i < |l.db.tokens| && i != k ==>
      TokenOk(c, l.db.tokens[i], l) && l.db.tokens[i].id != l.db.tokens[k].id && l.rawOf[l.db.tokens[i].id] != e.raw
      && (l.db.tokens[i].revoked || l.root[l.db.tokens[i].id] != l.root[l.db.tokens[k].id])
  {
    var t := Spent(c, l.db, e).value;
    k :| 0 <= k < |l.db.tokens| && l.db.tokens[k] == t;
    assert TokenOk(c, t, l);
    forall i | 0 <= i < |l.db.tokens| && i != k
      ensures TokenOk(c, l.db.tokens[i], l) && l.db.tokens[i].id != t.id && l.rawOf[l.db.tokens[i].id] != e.raw
      ensures l.db.tokens[i].revoked || l.root[l.db.tokens[i].id] != l.root[t.id]
    {
      if i < k {
        assert PairOk(l.db.tokens[i], l.db.tokens[k], l);
      } else {
        assert PairOk(l.db.tokens[k], l.db.tokens[i], l);
      }
    }
  }

  // The ledger between revoking the old token and issuing its successor.
  function Redeemed(l: Ledger, t: RefreshToken, raw: int): Ledger {
    l.(db := l.db.(tokens := Revoked(l.db.tokens, t.id)), redeemed := l.redeemed + {raw})
  }

  lemma RedeemingKeeps(c: Checks, l: Ledger, e: Event)
    requires Injective(c.hash) && LedgerOk(c, l) && Spent(c, l.db, e).Some?
    ensures var t := Spent(c, l.db, e).value;
            var m := Redeemed(l, t, e.raw);
            && LedgerOk(c, m) && TokenOk(c, t, l)
            && (forall i :: 0 <= i < |m.db.tokens| && !m.db.tokens[i].revoked ==>
                  TokenOk(c, m.db.tokens[i], m) && m.root[m.db.tokens[i].id] != l.root[t.id])
  {
    var k := SpentToken(c, l, e);
    var t := l.db.tokens[k];
    var m := Redeemed(l, t, e.raw);
    RevokingKeeps(c, l, m.db.tokens);
    var between := l.(db := m.db);
    forall i | 0 <= i < |m.db.tokens|
      ensures TokenOk(c, m.db.tokens[i], m)
      ensures !m.db.tokens[i].revoked ==> m.root[m.db.tokens[i].id] != l.root[t.id]
    {
      assert TokenOk(c, l.db.tokens[i], l);
    }
    forall i, j | 0 <= i < j < |m.db.tokens| ensures PairOk(m.db.tokens[i], m.db.tokens[j], m) {
      assert PairOk(between.db.tokens[i], between.db.tokens[j], between);
    }
  }

  lemma RefreshKeeps(c: Checks, l: Ledger, e: Event)
    requires Injective(c.hash) && LedgerOk(c, l) && FreshDraw(l, e) && e.Refresh?
    ensures LedgerOk(c, Step(c, l, e))
  {
    var spent := Spent(c, l.db, e);
    if spent.Some? {
      RedeemingKeeps(c, l, e);
      var t := spent.value;
      var m := Redeemed(l, t, e.raw);
      var (db, reply) := Outcome(c, l.db, e);
      if reply.refreshToken.Some? {
        var new_ := NewToken(c.hash, t.userId, e.d, e.now);
        GrowingKeeps(c, m, new_, e.d.raw, l.root[t.id]);
        assert Step(c, l, e) == Grown(c, m, new_, e.d.raw, l.root[t.id]);
      } else {
        assert Step(c, l, e) == m;
      }
    } else {
      assert Step(c, l, e) == l;
    }
  }

  // A registration or login that is answered with a token starts a chain with it; any
  // other leaves everything but the accounts alone.
  lemma GrantGrows(c: Checks, l: Ledger, e: Event)
    requires e.Register? || e.Login?
    ensures var (db, reply) := Outcome(c, l.db, e);
            var m := l.(db := l.db.(users := db.users));
            if reply.refreshToken.None? then Step(c, l, e) == m
            else
              db.tokens != []
              && var token := db.tokens[|db.tokens| - 1];
              && token == NewToken(c.hash, token.userId, e.d, e.now)
              && (forall t :: t in l.db.tokens ==> t.id != token.id)
              && Step(c, l, e) == Grown(c, m, token, e.d.raw, |l.grants|)
  {
  }

  lemma GrantKeeps(c: Checks, l: Ledger, e: Event)
    requires LedgerOk(c, l) && FreshDraw(l, e) && (e.Register? || e.Login?)
    ensures LedgerOk(c, Step(c, l, e))
  {
    var (db, reply) := Outcome(c, l.db, e);
    var m := l.(db := l.db.(users := db.users));
    GrantGrows(c, l, e);
    UsersDoNotMatter(c, l, db.users);
    if reply.refreshToken.Some? {
      var token := db.tokens[|db.tokens| - 1];
      forall i | 0 <= i < |m.db.tokens| ensures TokenOk(c, m.db.tokens[i], m) && m.db.tokens[i].id != token.id {
        assert m.db.tokens[i] in l.db.tokens;
      }
      GrowingKeeps(c, m, token, e.d.raw, |l.grants|);
    }
  }

  lemma StepKeeps(c: Checks, l: Ledger, e: Event)
    requires Injective(c.hash) && LedgerOk(c, l) && FreshDraw(l, e)
    ensures LedgerOk(c, Step(c, l, e))
  {
    match e {
      case RevokeAll(userId, dbOk) =>
        if dbOk {
          RevokingKeeps(c, l, AllRevoked(l.db.tokens, userId));
          assert Step(c, l, e) == l.(db := l.db.(tokens := AllRevoked(l.db.tokens, userId)));
        } else {
          assert Step(c, l, e) == l;
        }
      case Refresh(_, _, _, _) => RefreshKeeps(c, l, e);
      case _ => GrantKeeps(c, l, e);
    }
  }

  lemma {:induction false} RunKeeps(c: Checks, events: seq<Event>)
    requires IsRun(c, events)
    ensures LedgerOk(c, Run(c, events))
  {
    if events != [] {
      var n := |events| - 1;
      RunPrefix(c, events);
      RunKeeps(c, events[..n]);
      assert FreshDraw(Run(c, events[..n]), events[n]);
      StepKeeps(c, Run(c, events[..n]), events[n]);
    }
  }

  lemma RunPrefix(c: Checks, events: seq<Event>)
    requires IsRun(c, events) && events != []
    ensures IsRun(c, events[..|events| - 1])
  {
    var front := events[..|events| - 1];
    forall i | 0 <= i < |front| ensures FreshDraw(Run(c, front[..i]), front[i]) {
      assert front[..i] == events[..i] && front[i] == events[i];
    }
  }

  // ----- single use

  // How often a raw token was spent, whether or not a successor could be stored.
  function Redemptions(c: Checks, events: seq<Event>, raw: int): nat {
    if events == [] then 0
    else
      var front, e := events[..|events| - 1], events[|events| - 1];
      Redemptions(c, front, raw) + if Spent(c, Run(c, front).db, e).Some? && e.raw == raw then 1 else 0
  }

  lemma {:induction false} EachTokenIsRedeemedOnce(c: Checks, events: seq<Event>, raw: int)
    requires IsRun(c, events)
    ensures Redemptions(c, events, raw) <= 1
    ensures Redemptions(c, events, raw) == 1 <==> raw in Run(c, events).redeemed
  {
    if events != [] {
      var front, e := events[..|events| - 1], events[|events| - 1];
      RunPrefix(c, events);
      EachTokenIsRedeemedOnce(c, front, raw);
      if Spent(c, Run(c, front).db, e).Some? {
        RunKeeps(c, front);
        var k := SpentToken(c, Run(c, front), e);
      }
    }
  }

  // A refresh that is answered with a token spends the one it presented; once spent, no
  // refresh with it is ever answered with a token again.
  lemma RefreshAnswersFreshTokensOnly(c: Checks, events: seq<Event>, e: Event)
    requires IsRun(c, events) && e.Refresh? && Outcome(c, Run(c, events).db, e).1.refreshToken.Some?
    ensures Redemptions(c, events, e.raw) == 0 && Redemptions(c, events + [e], e.raw) == 1
  {
    RunKeeps(c, events);
    var k := SpentToken(c, Run(c, events), e);
    EachTokenIsRedeemedOnce(c, events, e.raw);
    assert (events + [e])[..|events|] == events;
  }

  // ----- accounts

  // Over any run no two accounts share an id or an email, even where the look-up of a
  // registration failed.
  lemma {:induction false} AccountsStayUnique(c: Checks, events: seq<Event>)
    ensures UniqueUsers(Run(c, events).db.users)
  {
    if events != [] {
      var front, e := events[..|events| - 1], events[|events| - 1];
      AccountsStayUnique(c, front);
      if e.Register? {
        RegisterAnswers(c.hash, Run(c, front).db, e.email, e.passwordHash, e.d, e.luck, e.now);
      }
    }
  }

  // ----- for how long a token is good

  predicate Lucky(luck: Luck) {
    luck.lookupOk && luck.revokeOk && luck.signOk && luck.storeOk
  }

  // The event revokes the token with this raw text, or all of its user's.
  predicate Revokes(c: Checks, db: AuthDb, e: Event, raw: int, userId: Uuid) {
    (e.Refresh? && e.raw == raw && Spent(c, db, e).Some?) || (e.RevokeAll? && e.dbOk && e.userId == userId)
  }

  ghost predicate NeverRevoked(c: Checks, events: seq<Event>, more: seq<Event>, raw: int, userId: Uuid) {
    more == [] ||
    var front := more[..|more| - 1];
    && NeverRevoked(c, events, front, raw, userId)
    && !Revokes(c, Run(c, events + front).db, more[|more| - 1], raw, userId)
  }

  lemma RunSnoc(c: Checks, events: seq<Event>, e: Event)
    ensures Run(c, events + [e]) == Step(c, Run(c, events), e)
    ensures IsRun(c, events + [e]) ==> IsRun(c, events) && FreshDraw(Run(c, events), e)
  {
    assert (events + [e])[..|events|] == events;
    if IsRun(c, events + [e]) {
      RunPrefix(c, events + [e]);
      assert FreshDraw(Run(c, (events + [e])[..|events|]), (events + [e])[|events|]);
    }
  }

  // The token stands at position k, live until then.
  predicate Stands(db: AuthDb, k: nat, hash: int, userId: Uuid, until: Time) {
    k < |db.tokens| && db.tokens[k] == RefreshToken(db.tokens[k].id, userId, hash, until, false)
  }

  lemma StepLeavesStanding(c: Checks, l: Ledger, e: Event, k: nat, raw: int, userId: Uuid, until: Time)
    requires Injective(c.hash) && LedgerOk(c, l) && Stands(l.db, k, c.hash(raw), userId, until)
    requires !Revokes(c, l.db, e, raw, userId)
    ensures Stands(Step(c, l, e).db, k, c.hash(raw), userId, until)
  {
    if Spent(c, l.db, e).Some? {
      var j := SpentToken(c, l, e);
      assert TokenOk(c, l.db.tokens[k], l);
      assert l.db.tokens[j].id != l.db.tokens[k].id;
    }
  }

  lemma {:induction false} StandsOn(c: Checks, events: seq<Event>, more: seq<Event>, k: nat, raw: int, userId: Uuid,
                                    until: Time)
    requires IsRun(c, events + more) && Stands(Run(c, events).db, k, c.hash(raw), userId, until)
    requires NeverRevoked(c, events, more, raw, userId)
    ensures Stands(Run(c, events + more).db, k, c.hash(raw), userId, until)
    decreases |more|
  {
    if more == [] {
      assert events + more == events;
    } else {
      var front, last := more[..|more| - 1], more[|more| - 1];
      assert events + more == events + front + [last];
      RunSnoc(c, events + front, last);
      StandsOn(c, events, front, k, raw, userId, until);
      RunKeeps(c, events + front);
      StepLeavesStanding(c, Run(c, events + front), last, k, raw, userId, until);
    }
  }

  lemma IssuedStands(c: Checks, l: Ledger, e: Event) returns (k: nat, userId: Uuid)
    requires Injective(c.hash) && LedgerOk(c, l) && FreshDraw(l, e) && Outcome(c, l.db, e).1.refreshToken.Some?
    ensures !e.RevokeAll? && Outcome(c, l.db, e).1.refreshToken == Some(e.d.raw)
    ensures Stands(Step(c, l, e).db, k, c.hash(e.d.raw), userId, e.now + 2592000)
    ensures k == |Step(c, l, e).db.tokens| - 1 && userId == Step(c, l, e).db.tokens[k].userId
  {
    var db := Step(c, l, e).db;
    k := |db.tokens| - 1;
    userId := db.tokens[k].userId;
  }

  lemma AcceptedWhileStanding(c: Checks, l: Ledger, f: Event, k: nat, userId: Uuid, until: Time)
    requires Injective(c.hash) && LedgerOk(c, l) && f.Refresh? && Stands(l.db, k, c.hash(f.raw), userId, until)
    ensures Accepts(l.db, c.hash(f.raw), f.now) <==> f.now < until
  {
    var t := l.db.tokens[k];
    forall j | 0 <= j < |l.db.tokens| && j != k ensures l.db.tokens[j].tokenHash != c.hash(f.raw) {
      assert TokenOk(c, l.db.tokens[j], l) && TokenOk(c, t, l);
      if j < k {
        assert PairOk(l.db.tokens[j], l.db.tokens[k], l);
      } else {
        assert PairOk(l.db.tokens[k], l.db.tokens[j], l);
      }
    }
    assert t in l.db.tokens;
  }

  // A token that a registration, a login or a refresh was answered with is good for 30
  // days to the second: whatever happens meanwhile, as long as it is not revoked, a
  // refresh with it whose calls all work is answered with a new one until then, and is
  // unauthorized from then on.
  lemma {:induction false} TokensLastThirtyDays(c: Checks, events: seq<Event>, e: Event, more: seq<Event>, f: Event)
    requires IsRun(c, events + [e] + more) && Outcome(c, Run(c, events).db, e).1.refreshToken.Some?
    requires NeverRevoked(c, events + [e], more, e.d.raw, LastOwner(Run(c, events + [e]).db))
    requires f.Refresh? && f.raw == e.d.raw && Lucky(f.luck)
    requires forall t :: t in Run(c, events + [e] + more).db.tokens ==> t.id != f.d.tokenId
    ensures Outcome(c, Run(c, events).db, e).1.refreshToken == Some(e.d.raw)
    ensures var reply := Outcome(c, Run(c, events + [e] + more).db, f).1;
            if f.now < e.now + 2592000 then reply.status == 200 && reply.refreshToken == Some(f.d.raw)
            else reply.status == 401 && reply.refreshToken == None
  {
    RunPrefixes(c, events + [e], more);
    var k := IssuedInRun(c, events, e);
    var userId := LastOwner(Run(c, events + [e]).db);
    StandsOn(c, events + [e], more, k, e.d.raw, userId, e.now + 2592000);
    RunKeeps(c, events + [e] + more);
    RefreshesIff(c, Run(c, events + [e] + more), f, k, userId, e.now + 2592000);
  }

  function LastOwner(db: AuthDb): Uuid {
    if db.tokens == [] then 0 else db.tokens[|db.tokens| - 1].userId
  }

  lemma {:induction false} IssuedInRun(c: Checks, events: seq<Event>, e: Event) returns (k: nat)
    requires IsRun(c, events + [e]) && Outcome(c, Run(c, events).db, e).1.refreshToken.Some?
    ensures !e.RevokeAll? && Outcome(c, Run(c, events).db, e).1.refreshToken == Some(e.d.raw)
    ensures var db := Run(c, events + [e]).db; Stands(db, k, c.hash(e.d.raw), LastOwner(db), e.now + 2592000)
  {
    RunSnoc(c, events, e);
    RunKeeps(c, events);
    var userId: Uuid;
    k, userId := IssuedStands(c, Run(c, events), e);
  }

  lemma RefreshesIff(c: Checks, l: Ledger, f: Event, k: nat, userId: Uuid, until: Time)
    requires Injective(c.hash) && LedgerOk(c, l) && f.Refresh? && Stands(l.db, k, c.hash(f.raw), userId, until)
    requires Lucky(f.luck) && forall t :: t in l.db.tokens ==> t.id != f.d.tokenId
    ensures var reply := Outcome(c, l.db, f).1;
            if f.now < until then reply.status == 200 && reply.refreshToken == Some(f.d.raw)
            else reply.status == 401 && reply.refreshToken == None
  {
    AcceptedWhileStanding(c, l, f, k, userId, until);
    RefreshAnswers(c.hash, l.db, f.raw, f.d, f.luck, f.now);
  }

  lemma RunPrefixes(c: Checks, events: seq<Event>, more: seq<Event>)
    requires IsRun(c, events + more)
    ensures IsRun(c, events)
  {
    forall i | 0 <= i < |events| ensures FreshDraw(Run(c, events[..i]), events[i]) {
      assert (events + more)[..i] == events[..i] && (events + more)[i] == events[i];
    }
  }

  // ----- conservation

  // Every chain belongs to the user it was granted to and has at most one live token.
  lemma ChainsHaveOneLiveToken(c: Checks, events: seq<Event>, i: nat, j: nat)
    requires IsRun(c, events) && i < j < |Run(c, events).db.tokens|
    ensures var l := Run(c, events);
            var t, u := l.db.tokens[i], l.db.tokens[j];
            && t.id in l.root && u.id in l.root && l.root[t.id] < |l.grants| && l.root[u.id] < |l.grants|
            && l.grants[l.root[t.id]] == t.userId && l.grants[l.root[u.id]] == u.userId
            && (l.root[t.id] == l.root[u.id] ==> t.userId == u.userId && (t.revoked || u.revoked))
  {
    RunKeeps(c, events);
    var l := Run(c, events);
    assert TokenOk(c, l.db.tokens[i], l) && TokenOk(c, l.db.tokens[j], l);
    assert PairOk(l.db.tokens[i], l.db.tokens[j], l);
  }

  function LiveTokens(db: AuthDb, userId: Uuid): set<nat> {
    set i: nat | i < |db.tokens| && db.tokens[i].userId == userId && !db.tokens[i].revoked
  }

  // Registrations and logins of a user that were answered with a token.
  function GrantsTo(c: Checks, events: seq<Event>, userId: Uuid): nat {
    if events == [] then 0
    else
      var front, e := events[..|events| - 1], events[|events| - 1];
      var (db, reply) := Outcome(c, Run(c, front).db, e);
      GrantsTo(c, front, userId) +
      if (e.Register? || e.Login?) && reply.refreshToken.Some? && db.tokens[|db.tokens| - 1].userId == userId
      then 1 else 0
  }

  function GrantSet(grants: seq<Uuid>, userId: Uuid): set<nat> {
    set g: nat | g < |grants| && grants[g] == userId
  }

  lemma GrantSetSnoc(grants: seq<Uuid>, last: Uuid, userId: Uuid)
    ensures |GrantSet(grants + [last], userId)| == |GrantSet(grants, userId)| + if last == userId then 1 else 0
  {
    assert GrantSet(grants + [last], userId) == GrantSet(grants, userId) + if last == userId then {|grants|} else {};
  }

  lemma {:induction false} GrantsAreCounted(c: Checks, events: seq<Event>, userId: Uuid)
    requires IsRun(c, events)
    ensures |GrantSet(Run(c, events).grants, userId)| == GrantsTo(c, events, userId)
  {
    if events != [] {
      var front, e := events[..|events| - 1], events[|events| - 1];
      RunPrefix(c, events);
      GrantsAreCounted(c, front, userId);
      var l := Run(c, front);
      var (db, reply) := Outcome(c, l.db, e);
      if (e.Register? || e.Login?) && reply.refreshToken.Some? {
        GrantSetSnoc(l.grants, db.tokens[|db.tokens| - 1].userId, userId);
      } else {
        assert e.Refresh? && reply.refreshToken.Some? ==> Spent(c, l.db, e).Some?;
        assert Run(c, events).grants == l.grants;
      }
    }
  }

  // An injective relabelling cannot shrink a set.
  lemma {:induction false} LiveFitIntoGrants(c: Checks, l: Ledger, live: set<nat>, room: set<nat>)
    requires LedgerOk(c, l)
    requires forall i :: i in live ==> i < |l.db.tokens| && !l.db.tokens[i].revoked
    requires forall i :: i in live ==> TokenOk(c, l.db.tokens[i], l) && l.root[l.db.tokens[i].id] in room
    ensures |live| <= |room|
    decreases live
  {
    if live != {} {
      var i :| i in live;
      var g := l.root[l.db.tokens[i].id];
      forall j | j in live - {i} ensures l.root[l.db.tokens[j].id] in room - {g} {
        if i < j {
          assert PairOk(l.db.tokens[i], l.db.tokens[j], l);
        } else {
          assert PairOk(l.db.tokens[j], l.db.tokens[i], l);
        }
      }
      LiveFitIntoGrants(c, l, live - {i}, room - {g});
    }
  }

  // A user never has more live refresh tokens than registrations and logins.
  lemma LiveTokensAreBounded(c: Checks, events: seq<Event>, userId: Uuid)
    requires IsRun(c, events)
    ensures |LiveTokens(Run(c, events).db, userId)| <= GrantsTo(c, events, userId)
  {
    var l := Run(c, events);
    RunKeeps(c, events);
    GrantsAreCounted(c, events, userId);
    forall i | i in LiveTokens(l.db, userId)
      ensures TokenOk(c, l.db.tokens[i], l) && l.root[l.db.tokens[i].id] in GrantSet(l.grants, userId)
    {
      assert TokenOk(c, l.db.tokens[i], l);
    }
    LiveFitIntoGrants(c, l, LiveTokens(l.db, userId), GrantSet(l.grants, userId));
  }

  // Look-up and revocation are separate statements. Two requests that both look the
  // token up before either revokes it are both answered: one login, two live tokens.
  lemma InterleavedRefreshesFork(c: Checks, db: AuthDb, raw: int, d: Draws, d': Draws, luck: Luck, now: Time)
    requires FindValid(db.tokens, c.hash(raw), now).Some? && d.tokenId != d'.tokenId
    requires forall t :: t in db.tokens ==> t.id != d.tokenId && t.id != d'.tokenId
    requires luck.signOk && luck.storeOk
    ensures var stored := FindValid(db.tokens, c.hash(raw), now).value;
            var first := Issue(c.hash, db.(tokens := Revoked(db.tokens, stored.id)), stored.userId, d, luck, now, OK);
            var mid := first.0.(tokens := Revoked(first.0.tokens, stored.id));
            var second := Issue(c.hash, mid, stored.userId, d', luck, now, OK);
            && first.1.status == second.1.status == OK
            && NewToken(c.hash, stored.userId, d, now) in second.0.tokens
            && NewToken(c.hash, stored.userId, d', now) in second.0.tokens
  {
    var n := |db.tokens|;
    var stored := FindValid(db.tokens, c.hash(raw), now).value;
    var revoked := Revoked(db.tokens, stored.id);
    assert forall t :: t in revoked ==> t.id != d.tokenId && t.id != d'.tokenId by {
      forall i | 0 <= i < n ensures revoked[i].id != d.tokenId && revoked[i].id != d'.tokenId {
        assert db.tokens[i] in db.tokens;
      }
    }
    var first := Issue(c.hash, db.(tokens := revoked), stored.userId, d, luck, now, OK);
    assert first.0.tokens[n] == NewToken(c.hash, stored.userId, d, now);
    var again := Revoked(first.0.tokens, stored.id);
    assert again[n] == first.0.tokens[n];
    assert forall i :: 0 <= i < n ==> revoked[i] in revoked && again[i].id == revoked[i].id;
    var second := Issue(c.hash, first.0.(tokens := again), stored.userId, d', luck, now, OK);
    assert second.0.tokens[n] == again[n];
    assert second.0.tokens[n + 1] == NewToken(c.hash, stored.userId, d', now);
  }
}
