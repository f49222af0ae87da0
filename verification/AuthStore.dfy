// The users and refresh_tokens tables of PgAuthStore.
module AuthStore {
  import opened Models
  import opened Wrappers

  datatype User = User(id: Uuid, email: string, passwordHash: string)

  datatype RefreshToken = RefreshToken(id: Uuid, userId: Uuid, tokenHash: int, expiresAt: Time, revoked: bool)

  function FindByEmail(users: seq<User>, email: string): (r: Option<User>)
    ensures r.Some? ==> r.value in users && r.value.email == email
    ensures r.None? ==> forall u :: u in users ==> u.email != email
  {
    if users == [] then None
    else if users[0].email == email then Some(users[0])
    else FindByEmail(users[1..], email)
  }

  // SELECT ... WHERE token_hash AND NOT revoked AND expires_at > NOW()
  function FindValid(tokens: seq<RefreshToken>, tokenHash: int, now: Time): (r: Option<RefreshToken>)
    ensures r.Some? ==> r.value in tokens && r.value.tokenHash == tokenHash
                        && !r.value.revoked && r.value.expiresAt > now
    ensures r.None? ==> forall t :: t in tokens && t.tokenHash == tokenHash ==> t.revoked || t.expiresAt <= now
  {
    if tokens == [] then None
    else if tokens[0].tokenHash == tokenHash && !tokens[0].revoked && tokens[0].expiresAt > now then Some(tokens[0])
    else FindValid(tokens[1..], tokenHash, now)
  }

  function Revoked(tokens: seq<RefreshToken>, id: Uuid): (r: seq<RefreshToken>)
    ensures |r| == |tokens|
    ensures forall i :: 0 <= i < |r| ==> r[i] == if tokens[i].id == id then tokens[i].(revoked := true) else tokens[i]
  {
    seq(|tokens|, i requires 0 <= i < |tokens| =>
      if tokens[i].id == id then tokens[i].(revoked := true) else tokens[i])
  }

  function AllRevoked(tokens: seq<RefreshToken>, userId: Uuid): (r: seq<RefreshToken>)
    ensures |r| == |tokens|
    ensures forall i :: 0 <= i < |r| ==>
      r[i] == if tokens[i].userId == userId then tokens[i].(revoked := true) else tokens[i]
  {
    seq(|tokens|, i requires 0 <= i < |tokens| =>
      if tokens[i].userId == userId then tokens[i].(revoked := true) else tokens[i])
  }

  class PgAuthStore {
    var users: seq<User>
    var tokens: seq<RefreshToken>

    constructor ()
      ensures users == [] && tokens == []
    {
      users, tokens := [], [];
    }

    // INSERT; both the id and the email are unique keys.
    method CreateUser(user: User, dbOk: bool) returns (ok: bool)
      modifies `users
      ensures ok <==> dbOk && (forall u :: u in old(users) ==> u.id != user.id && u.email != user.email)
      ensures users == if ok then old(users) + [user] else old(users)
    {
      ok := dbOk && forall u :: u in users ==> u.id != user.id && u.email != user.email;
      if ok {
        users := users + [user];
      }
    }

    method StoreRefreshToken(token: RefreshToken, dbOk: bool) returns (ok: bool)
      modifies `tokens
      ensures ok <==> dbOk && (forall t :: t in old(tokens) ==> t.id != token.id)
      ensures tokens == if ok then old(tokens) + [token] else old(tokens)
    {
      ok := dbOk && forall t :: t in tokens ==> t.id != token.id;
      if ok {
        tokens := tokens + [token];
      }
    }

    method RevokeRefreshToken(id: Uuid, dbOk: bool)
      modifies `tokens
      ensures |tokens| == |old(tokens)|
      ensures forall i :: 0 <= i < |tokens| ==>
        if dbOk && old(tokens)[i].id == id then tokens[i] == old(tokens)[i].(revoked := true)
        else tokens[i] == old(tokens)[i]
    {
      if dbOk {
        tokens := Revoked(tokens, id);
      }
    }

    method RevokeAllUserTokens(userId: Uuid, dbOk: bool)
      modifies `tokens
      ensures |tokens| == |old(tokens)|
      ensures forall i :: 0 <= i < |tokens| ==>
        if dbOk && old(tokens)[i].userId == userId then tokens[i] == old(tokens)[i].(revoked := true)
        else tokens[i] == old(tokens)[i]
    {
      if dbOk {
        tokens := AllRevoked(tokens, userId);
      }
    }
  }
}
