/**
 The authentication service as an object over its session table, proved against the session
 machine (backend/internal/auth/service/refresh_retry.go, login.go, auth_service.go).
 */
module AuthService {
  import opened Wrappers
  import opened RefreshSessions
  import Text

  class Service {
    var users: set<User>
    var issued: map<Token, Claims>
    var sessions: map<Digest, Session>
    ghost var origin: map<Digest, Origin>

    ghost function Contents(): State
      reads this
    {
      State(users, issued, sessions, origin)
    }

    ghost predicate Valid()
      reads this
    {
      Inv(Contents())
    }

    constructor (users: set<User>)
      ensures Valid() && Contents() == Start(users)
    {
      this.users, issued, sessions, origin := users, map[], map[], map[];
    }

    /** Signs an access and a refresh token; the signature is what makes them parse later. */
    method SignTokens(user: User, now: int, minted: Response)
      modifies this`issued
      ensures issued == old(issued)[minted.access := Claims(user, Access, now + 21600)]
                                   [minted.refresh := Claims(user, TokenKind.Refresh, now + LIFETIME)]
    {
      issued := issued[minted.access := Claims(user, Access, now + 21600)];
      issued := issued[minted.refresh := Claims(user, TokenKind.Refresh, now + LIFETIME)];
    }

    /** Inserts the session row of a refresh token, and no other. */
    method CreateRefreshSession(user: User, token: Token, now: int, ghost place: Origin)
      modifies this`sessions, this`origin
      ensures sessions == old(sessions)[Sha256(token) := Session(user, now + LIFETIME, None, None)]
      ensures origin == old(origin)[Sha256(token) := place]
    {
      sessions := sessions[Sha256(token) := Session(user, now + LIFETIME, None, None)];
      origin := origin[Sha256(token) := place];
    }

    method Login(credentials: Option<User>, now: int, minted: Response) returns (out: Out)
      requires Valid() && FreshTokens(Contents(), minted)
      modifies this
      ensures Valid()
      ensures (Contents(), out) == LoginStep(old(Contents()), credentials, now, minted)
    {
      StepKeepsInv(Contents(), RefreshSessions.Login(credentials, now, minted));
      if credentials.None? || credentials.value !in users { return Denied(InvalidCredentials); }
      SignTokens(credentials.value, now, minted);
      CreateRefreshSession(credentials.value, minted.refresh, now, Origin(Sha256(minted.refresh), 0, None));
      out := Granted(minted);
    }

    method Refresh(token: Token, retryKey: string, parsedAt: int, now: int, minted: Response) returns (out: Out)
      requires Valid() && FreshTokens(Contents(), minted)
      modifies this
      ensures Valid()
      ensures (Contents(), out) == RefreshStep(old(Contents()), token, retryKey, parsedAt, now, minted)
    {
      StepKeepsInv(Contents(), Refreshing(token, retryKey, parsedAt, now, minted));
      if token !in issued || parsedAt >= issued[token].expiresAt || issued[token].kind != TokenKind.Refresh {
        return Denied(InvalidToken);
      }
      var user := issued[token].user;
      var key := Text.Trim(retryKey);
      if |key| > MAX_KEY { return Denied(InvalidRetryKey); }
      var hash := Sha256(token);
      if user !in users || hash !in sessions || sessions[hash].user != user { return Denied(NotFound); }
      if sessions[hash].expiresAt <= now { return Denied(ExpiredSession); }
      if sessions[hash].revokedAt.Some? {
        out := Reuse(user, hash, key, now);
      } else {
        out := Rotate(user, hash, key, now, minted);
      }
    }

    /** A revoked session: give the sealed answer back, or treat the call as a replay. */
    method Reuse(user: User, hash: Digest, key: string, now: int) returns (out: Out)
      requires hash in sessions
      modifies this`sessions
      ensures (Contents(), out) == ReuseStep(old(Contents()), user, hash, key, now)
    {
      var session := sessions[hash];
      if key != "" && session.retry.Some? && session.retry.value.keyHash == KeySha256(key)
         && now < session.retry.value.until
      {
        var sealed := session.retry.value.ciphertext;
        if sealed.bound != hash { return Denied(CorruptRetry); }
        var active := Sha256(sealed.plain.refresh);
        if active !in sessions || sessions[active].user != user || sessions[active].revokedAt.Some?
           || sessions[active].expiresAt <= now
        {
          return Denied(NotFound);
        }
        return Granted(sealed.plain);
      }
      sessions := map h | h in sessions ::
        if sessions[h].user == user && sessions[h].revokedAt.None? then sessions[h].(revokedAt := Some(now)) else sessions[h];
      out := Denied(Replay);
    }

    /** An unrevoked session: store its replacement, revoke it and seal the response. */
    method Rotate(user: User, hash: Digest, key: string, now: int, minted: Response) returns (out: Out)
      requires hash in sessions && hash in origin && Sha256(minted.refresh) != hash
      modifies this`issued, this`sessions, this`origin
      ensures (Contents(), out) == RotateStep(old(Contents()), user, hash, key, now, minted)
    {
      var session := sessions[hash];
      SignTokens(user, now, minted);
      CreateRefreshSession(user, minted.refresh, now, Origin(origin[hash].login, origin[hash].position + 1, Some(hash)));
      session := session.(revokedAt := Some(now));
      if key != "" {
        session := session.(retry := Some(Retry(KeySha256(key), Sealed(minted, hash), now + RETRY_WINDOW)));
      }
      sessions := sessions[hash := session];
      out := Granted(minted);
    }

    method Logout(token: Token, parsedAt: int, now: int) returns (out: Out)
      requires Valid()
      modifies this`sessions
      ensures Valid()
      ensures (Contents(), out) == LogoutStep(old(Contents()), token, parsedAt, now)
    {
      StepKeepsInv(Contents(), RefreshSessions.Logout(token, parsedAt, now));
      if token !in issued || parsedAt >= issued[token].expiresAt || issued[token].kind != TokenKind.Refresh {
        return Denied(InvalidToken);
      }
      out := RevokeRefreshSession(Sha256(token), now);
    }

    method RevokeRefreshSession(hash: Digest, now: int) returns (out: Out)
      modifies this`sessions
      ensures out == (if hash in old(sessions) && old(sessions)[hash].revokedAt.None? then Done else Denied(NotActive))
      ensures sessions == if out == Done then old(sessions)[hash := old(sessions)[hash].(revokedAt := Some(now))]
                          else old(sessions)
    {
      if hash !in sessions || sessions[hash].revokedAt.Some? { return Denied(NotActive); }
      sessions := sessions[hash := sessions[hash].(revokedAt := Some(now))];
      out := Done;
    }
  }
}
