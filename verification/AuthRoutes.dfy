// Registration, login and refresh-token rotation.
module AuthRoutes {
  import opened AuthStore
  import opened Models
  import opened Wrappers

  const REFRESH_LIFETIME := 2592000 // 30 days in seconds

  const OK := 200
  const CREATED := 201
  const UNAUTHORIZED := 401
  const CONFLICT := 409
  const INTERNAL_SERVER_ERROR := 500

  datatype Reply = Reply(status: int, refreshToken: Option<int>)

  datatype AuthDb = AuthDb(users: seq<User>, tokens: seq<RefreshToken>)

  /** Random draws of one request: ids, and the raw refresh token. */
  datatype Draws = Draws(userId: Uuid, tokenId: Uuid, raw: int)

  /** Which fallible calls of one request succeed. */
  datatype Luck = Luck(lookupOk: bool, hashOk: bool, createOk: bool, verifyOk: bool,
                       revokeOk: bool, signOk: bool, storeOk: bool)

  function NewToken(hash: int -> int, userId: Uuid, d: Draws, now: Time): RefreshToken {
    RefreshToken(d.tokenId, userId, hash(d.raw), now + REFRESH_LIFETIME, false)
  }

  // generate_token_pair
  function Issue(hash: int -> int, db: AuthDb, userId: Uuid, d: Draws, luck: Luck, now: Time, status: int)
    : (AuthDb, Reply)
  {
    if !luck.signOk || !luck.storeOk || (exists t :: t in db.tokens && t.id == d.tokenId)
    then (db, Reply(INTERNAL_SERVER_ERROR, None))
    else (db.(tokens := db.tokens + [NewToken(hash, userId, d, now)]), Reply(status, Some(d.raw)))
  }

  function Registered(hash: int -> int, db: AuthDb, email: string, passwordHash: string, d: Draws, luck: Luck,
                      now: Time): (AuthDb, Reply)
  {
    // A failing lookup counts as "no such user"; the unique key decides then.
    if luck.lookupOk && FindByEmail(db.users, email).Some? then (db, Reply(CONFLICT, None))
    else if !luck.hashOk then (db, Reply(INTERNAL_SERVER_ERROR, None))
    else if !luck.createOk || (exists u :: u in db.users && (u.id == d.userId || u.email == email))
    then (db, Reply(INTERNAL_SERVER_ERROR, None))
    else Issue(hash, db.(users := db.users + [User(d.userId, email, passwordHash)]), d.userId, d, luck, now, CREATED)
  }

  function LoggedIn(hash: int -> int, verify: (string, string) -> bool, db: AuthDb, email: string, password: string,
                    d: Draws, luck: Luck, now: Time): (AuthDb, Reply)
  {
    if !luck.lookupOk then (db, Reply(INTERNAL_SERVER_ERROR, None))
    else
      match FindByEmail(db.users, email)
      case None => (db, Reply(UNAUTHORIZED, None))
      case Some(user) =>
        if !luck.verifyOk then (db, Reply(INTERNAL_SERVER_ERROR, None))
        else if !verify(password, user.passwordHash) then (db, Reply(UNAUTHORIZED, None))
        else Issue(hash, db, user.id, d, luck, now, OK)
  }

  function Refreshed(hash: int -> int, db: AuthDb, raw: int, d: Draws, luck: Luck, now: Time): (AuthDb, Reply) {
    if !luck.lookupOk then (db, Reply(INTERNAL_SERVER_ERROR, None))
    else
      match FindValid(db.tokens, hash(raw), now)
      case None => (db, Reply(UNAUTHORIZED, None))
      case Some(stored) =>
        if !luck.revokeOk then (db, Reply(INTERNAL_SERVER_ERROR, None))
        else Issue(hash, db.(tokens := Revoked(db.tokens, stored.id)), stored.userId, d, luck, now, OK)
  }

  class AuthApi {
    const store: PgAuthStore

    constructor (store: PgAuthStore)
      ensures this.store == store
    {
      this.store := store;
    }

    function Db(): AuthDb
      reads store
    {
      AuthDb(store.users, store.tokens)
    }

    method Register(hash: int -> int, email: string, passwordHash: string, d: Draws, luck: Luck, now: Time)
      returns (reply: Reply)
      modifies store
      ensures (Db(), reply) == Registered(hash, old(Db()), email, passwordHash, d, luck, now)
    {
      if luck.lookupOk && FindByEmail(store.users, email).Some? {
        return Reply(CONFLICT, None);
      }
      if !luck.hashOk {
        return Reply(INTERNAL_SERVER_ERROR, None);
      }
      var created := store.CreateUser(User(d.userId, email, passwordHash), luck.createOk);
      if !created {
        return Reply(INTERNAL_SERVER_ERROR, None);
      }
      reply := GenerateTokenPair(hash, d.userId, d, luck, now, CREATED);
    }

    method Login(hash: int -> int, verify: (string, string) -> bool, email: string, password: string,
                 d: Draws, luck: Luck, now: Time)
      returns (reply: Reply)
      modifies store
      ensures (Db(), reply) == LoggedIn(hash, verify, old(Db()), email, password, d, luck, now)
    {
      if !luck.lookupOk {
        return Reply(INTERNAL_SERVER_ERROR, None);
      }
      var user := FindByEmail(store.users, email);
      if user.None? {
        return Reply(UNAUTHORIZED, None);
      }
      if !luck.verifyOk {
        return Reply(INTERNAL_SERVER_ERROR, None);
      }
      if !verify(password, user.value.passwordHash) {
        return Reply(UNAUTHORIZED, None);
      }
      reply := GenerateTokenPair(hash, user.value.id, d, luck, now, OK);
    }

    // Rotation: look up, revoke, issue. The three statements share no transaction.
    method Refresh(hash: int -> int, raw: int, d: Draws, luck: Luck, now: Time) returns (reply: Reply)
      modifies store
      ensures (Db(), reply) == Refreshed(hash, old(Db()), raw, d, luck, now)
    {
      if !luck.lookupOk {
        return Reply(INTERNAL_SERVER_ERROR, None);
      }
      var stored := FindValid(store.tokens, hash(raw), now);
      if stored.None? {
        return Reply(UNAUTHORIZED, None);
      }
      ghost var before := store.tokens;
      store.RevokeRefreshToken(stored.value.id, luck.revokeOk);
      assert store.tokens == if luck.revokeOk then Revoked(before, stored.value.id) else before;
      if !luck.revokeOk {
        return Reply(INTERNAL_SERVER_ERROR, None);
      }
      reply := GenerateTokenPair(hash, stored.value.userId, d, luck, now, OK);
    }

    method GenerateTokenPair(hash: int -> int, userId: Uuid, d: Draws, luck: Luck, now: Time, status: int)
      returns (reply: Reply)
      modifies store`tokens
      ensures (Db(), reply) == Issue(hash, old(Db()), userId, d, luck, now, status)
    {
      if !luck.signOk {
        return Reply(INTERNAL_SERVER_ERROR, None);
      }
      var record := RefreshToken(d.tokenId, userId, hash(d.raw), now + REFRESH_LIFETIME, false);
      var ok := store.StoreRefreshToken(record, luck.storeOk);
      if !ok {
        return Reply(INTERNAL_SERVER_ERROR, None);
      }
      return Reply(status, Some(d.raw));
    }
  }

  ghost predicate UniqueUsers(users: seq<User>) {
    forall i, j :: 0 <= i < j < |users| ==> users[i].id != users[j].id && users[i].email != users[j].email
  }

  // Who is let in on a login: 200 exactly when the account with that email has a hash
  // that the password passes and every statement succeeds; the one token that is then
  // issued is that account's. An unknown email and a wrong password read alike, and
  // in every case but 200 nothing changes.
  lemma LoginAnswers(hash: int -> int, verify: (string, string) -> bool, db: AuthDb, email: string, password: string,
                     d: Draws, luck: Luck, now: Time, account: User)
    requires UniqueUsers(db.users)
    ensures var (after, reply) := LoggedIn(hash, verify, db, email, password, d, luck, now);
            var known := account in db.users && account.email == email;
            && reply.status in {200, 401, 500}
            && (reply.status != 200 ==> after == db && reply.refreshToken.None?)
            && (known ==> (reply.status == 401 <==>
                             luck.lookupOk && luck.verifyOk && !verify(password, account.passwordHash)))
            && ((forall u :: u in db.users ==> u.email != email) ==>
                  (reply.status == 401 <==> luck.lookupOk) && reply.status != 200)
            && (known ==> (reply.status == 200 <==>
                             && luck.lookupOk && luck.verifyOk && verify(password, account.passwordHash)
                             && luck.signOk && luck.storeOk && forall t :: t in db.tokens ==> t.id != d.tokenId))
            && (known && reply.status == 200 ==>
                  && reply.refreshToken == Some(d.raw) && after.users == db.users
                  && after.tokens == db.tokens
                       + [RefreshToken(d.tokenId, account.id, hash(d.raw), now + 2592000, false)])
  {
    var found := FindByEmail(db.users, email);
    if found.Some? && account in db.users && account.email == email {
      assert found.value == account;
    }
  }

  // Registration: 409 exactly when the look-up finds the email; in no case does an email
  // get a second account or an account change. A token is only issued to a new account,
  // which stays even when its token cannot be stored.
  lemma RegisterAnswers(hash: int -> int, db: AuthDb, email: string, passwordHash: string, d: Draws, luck: Luck,
                        now: Time)
    requires UniqueUsers(db.users)
    ensures var (after, reply) := Registered(hash, db, email, passwordHash, d, luck, now);
            var free := forall u :: u in db.users ==> u.email != email;
            && reply.status in {201, 409, 500}
            && (reply.status == 409 <==> luck.lookupOk && !free)
            && UniqueUsers(after.users) && db.users <= after.users && db.tokens <= after.tokens
            && (after.users != db.users ==> free && after.users == db.users + [User(d.userId, email, passwordHash)])
            && (reply.status == 201 <==>
                  && !(luck.lookupOk && !free) && luck.hashOk && luck.createOk && luck.signOk && luck.storeOk && free
                  && (forall u :: u in db.users ==> u.id != d.userId)
                  && forall t :: t in db.tokens ==> t.id != d.tokenId)
            && (reply.status == 201 ==>
                  && reply.refreshToken == Some(d.raw) && after.users != db.users
                  && after.tokens == db.tokens + [RefreshToken(d.tokenId, d.userId, hash(d.raw), now + 2592000, false)])
            && (reply.status != 201 ==> after.tokens == db.tokens && reply.refreshToken.None?)
  {
  }

  // A token that a refresh presenting raw would accept.
  predicate Accepts(db: AuthDb, tokenHash: int, now: Time) {
    exists t :: t in db.tokens && t.tokenHash == tokenHash && !t.revoked && t.expiresAt > now
  }

  // Who is told what on a refresh: 401 exactly when the look-up works and nothing
  // acceptable has that hash, 200 exactly when every statement succeeds as well.
  lemma RefreshAnswers(hash: int -> int, db: AuthDb, raw: int, d: Draws, luck: Luck, now: Time)
    ensures var reply := Refreshed(hash, db, raw, d, luck, now).1;
            var live := Accepts(db, hash(raw), now);
            && reply.status in {200, 401, 500}
            && (reply.status == 401 <==> luck.lookupOk && !live)
            && (reply.refreshToken == if reply.status == 200 then Some(d.raw) else None)
            && (reply.status == 200 <==>
                  && luck.lookupOk && live && luck.revokeOk && luck.signOk && luck.storeOk
                  && forall t :: t in db.tokens ==> t.id != d.tokenId)
  {
    var found := FindValid(db.tokens, hash(raw), now);
    if found.Some? {
      RevocationKeepsIds(db.tokens, found.value.id, d.tokenId);
    }
  }

  lemma RevocationKeepsIds(tokens: seq<RefreshToken>, revoked: Uuid, id: Uuid)
    ensures (exists t :: t in Revoked(tokens, revoked) && t.id == id) <==> (exists t :: t in tokens && t.id == id)
  {
    var after := Revoked(tokens, revoked);
    if t :| t in after && t.id == id {
      var i :| 0 <= i < |after| && after[i] == t;
      assert tokens[i] in tokens && tokens[i].id == id;
    }
    if t :| t in tokens && t.id == id {
      var i :| 0 <= i < |tokens| && tokens[i] == t;
      assert after[i] in after && after[i].id == id;
    }
  }

  // What a refresh costs: before the revocation nothing has changed; from then on the
  // presented token is dead, even if its successor cannot be stored.
  lemma RefreshCosts(hash: int -> int, db: AuthDb, raw: int, d: Draws, luck: Luck, now: Time)
    ensures var after := Refreshed(hash, db, raw, d, luck, now).0;
            var reached := luck.lookupOk && luck.revokeOk && Accepts(db, hash(raw), now);
            && (!reached ==> after == db)
            && after.users == db.users
            && (reached ==> exists i ::
                  0 <= i < |db.tokens| <= |after.tokens| && db.tokens[i].tokenHash == hash(raw)
                  && !db.tokens[i].revoked && after.tokens[i] == db.tokens[i].(revoked := true)
                  && (forall j :: 0 <= j < |db.tokens| && db.tokens[j].id != db.tokens[i].id ==>
                        after.tokens[j] == db.tokens[j])
                  && after.tokens[|db.tokens|..] ==
                       if Refreshed(hash, db, raw, d, luck, now).1.status == 200
                       then [RefreshToken(d.tokenId, db.tokens[i].userId, hash(d.raw), now + 2592000, false)] else [])
  {
    var found := FindValid(db.tokens, hash(raw), now);
    if luck.lookupOk && luck.revokeOk && found.Some? {
      var i :| 0 <= i < |db.tokens| && db.tokens[i] == found.value;
      var after := Refreshed(hash, db, raw, d, luck, now).0;
      assert after.tokens[i] == db.tokens[i].(revoked := true);
    }
  }
}
