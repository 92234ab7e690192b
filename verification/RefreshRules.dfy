/**
 When a call is answered how, on the fields of tokens and sessions, and for how long a token rotates
 (backend/internal/auth/service/refresh_retry.go, login.go, auth_service.go).
 */
module RefreshRules {
  import opened Wrappers
  import opened RefreshSessions
  import Text

  /** A grant of new tokens, valid for six hours and for seven days. */
  function Grants(s: State, user: User, now: int, minted: Response): map<Token, Claims> {
    s.issued[minted.access := Claims(user, Access, now + 21600)][minted.refresh := Claims(user, TokenKind.Refresh, now + 604800)]
  }

  /** The retry record of a rotation under a key, open for two minutes. */
  function Recording(s: State, h: Digest, key: string, now: int, minted: Response): Option<Retry>
    requires h in s.sessions
  {
    if key == "" then s.sessions[h].retry else Some(Retry(KeySha256(key), Sealed(minted, h), now + 120))
  }

  lemma FreshIsNotStored(s: State, minted: Response)
    requires Inv(s) && FreshTokens(s, minted)
    ensures Sha256(minted.refresh) !in s.sessions
  {
  }

  /** A refresh rotates if and only if the token was issued as a refresh token and has not expired when it
      is parsed, the trimmed key has at most 128 characters, its owner is a user, and its session belongs to
      the owner, is unrevoked and has not expired. */
  lemma RefreshRotatesIff(s: State, op: Op)
    requires Inv(s) && op.Refreshing? && FreshTokens(s, op.minted)
    ensures var h := Sha256(op.token);
            Step(s, op).1 == Granted(op.minted) <==>
              && op.token in s.issued && s.issued[op.token].kind == TokenKind.Refresh && op.parsedAt < s.issued[op.token].expiresAt
              && |Text.Trim(op.key)| <= 128
              && s.issued[op.token].user in s.users
              && h in s.sessions && s.sessions[h].user == s.issued[op.token].user
              && s.sessions[h].revokedAt.None? && op.now < s.sessions[h].expiresAt
  {
    var h := Sha256(op.token);
    FreshIsNotStored(s, op.minted);
    if h in s.sessions { RetryHasSuccessor(s, h); }
  }

  /** What a rotation leaves: the old row revoked now, its successor stored for seven days, and every other
      row as it was. */
  lemma RotationState(s: State, op: Op)
    requires Inv(s) && op.Refreshing? && FreshTokens(s, op.minted) && Step(s, op).1 == Granted(op.minted)
    ensures var h, user, t := Sha256(op.token), s.issued[op.token].user, Step(s, op).0;
            && op.token in s.issued && h in s.sessions && t.users == s.users
            && t.issued == Grants(s, user, op.now, op.minted)
            && t.sessions == s.sessions[h := s.sessions[h].(revokedAt := Some(op.now),
                                                            retry := Recording(s, h, Text.Trim(op.key), op.now, op.minted))]
                                       [Sha256(op.minted.refresh) := Session(user, op.now + 604800, None, None)]
  {
    RefreshRotatesIff(s, op);
    FreshIsNotStored(s, op.minted);
  }

  /** What each refusal of a refresh means, in the order of the checks; none changes anything. */
  lemma RefreshErrors(s: State, op: Op)
    requires Inv(s) && op.Refreshing?
    ensures var h, r := Sha256(op.token), Step(s, op);
            var parses := && op.token in s.issued && s.issued[op.token].kind == TokenKind.Refresh
                          && op.parsedAt < s.issued[op.token].expiresAt;
            && (!parses ==> r == (s, Denied(InvalidToken)))
            && (parses && |Text.Trim(op.key)| > 128 ==> r == (s, Denied(InvalidRetryKey)))
            && (parses && |Text.Trim(op.key)| <= 128 ==>
                  var user := s.issued[op.token].user;
                  && (user !in s.users || h !in s.sessions || s.sessions[h].user != user ==> r == (s, Denied(NotFound)))
                  && (user in s.users && h in s.sessions && s.sessions[h].user == user && s.sessions[h].expiresAt <= op.now ==>
                        r == (s, Denied(ExpiredSession))))
  {
  }

  /** The key that a rotated session recorded, inside its window. */
  predicate Repeats(session: Session, key: string, now: int) {
    key != "" && session.retry.Some? && session.retry.value.keyHash == KeySha256(key) && now < session.retry.value.until
  }

  /** A presented token whose session is revoked: under its recorded key it is answered or, when the first
      response is no longer live, not found; otherwise it is a replay, which revokes every session of its
      owner that was not revoked before. */
  lemma RevokedTokenIsAnswered(s: State, op: Op)
    requires Inv(s) && op.Refreshing? && Presented(s, op.token, op.key, op.parsedAt, op.now)
    requires s.sessions[Sha256(op.token)].revokedAt.Some?
    ensures var h, user, key := Sha256(op.token), s.issued[op.token].user, Text.Trim(op.key);
            var (t, out) := Step(s, op);
            if Repeats(s.sessions[h], key, op.now)
            then t == s && (out.Granted? || out == Denied(NotFound))
            else && out == Denied(Replay) && t.users == s.users && t.issued == s.issued && t.sessions.Keys == s.sessions.Keys
                 && forall x :: x in s.sessions ==>
                      t.sessions[x] == if s.sessions[x].user == user && s.sessions[x].revokedAt.None?
                                       then s.sessions[x].(revokedAt := Some(op.now)) else s.sessions[x]
  {
    RetryHasSuccessor(s, Sha256(op.token));
  }

  /** A login succeeds if and only if the credentials are those of a user, and stores one session. */
  lemma LoginIff(s: State, op: Op)
    requires op.Login?
    ensures var (t, out) := Step(s, op);
            if op.credentials.Some? && op.credentials.value in s.users
            then && out == Granted(op.minted) && t.users == s.users
                 && t.issued == Grants(s, op.credentials.value, op.now, op.minted)
                 && t.sessions == s.sessions[Sha256(op.minted.refresh) := Session(op.credentials.value, op.now + 604800, None, None)]
            else t == s && out == Denied(InvalidCredentials)
  {
  }

  /** A logout succeeds if and only if the token was issued as a refresh token, has not expired, and its
      session is unrevoked; then that session is revoked and nothing else changes. */
  lemma LogoutIff(s: State, op: Op)
    requires op.Logout?
    ensures var h, (t, out) := Sha256(op.token), Step(s, op);
            if op.token in s.issued && s.issued[op.token].kind == TokenKind.Refresh && op.parsedAt < s.issued[op.token].expiresAt
            then if h in s.sessions && s.sessions[h].revokedAt.None?
                 then out == Done && t == s.(sessions := s.sessions[h := s.sessions[h].(revokedAt := Some(op.now))])
                 else out == Denied(NotActive) && t == s
            else out == Denied(InvalidToken) && t == s
  {
  }

  // ---- for how long a token rotates ----

  /** The call logs the token out, exchanges it, or replays another token of its owner. */
  predicate Spends(r: Run, m: nat, token: Token, user: User)
    requires Shaped(r) && m < |r.ops|
  {
    var op := r.ops[m];
    || (op.Logout? && op.token == token && r.outs[m] == Done)
    || (op.Refreshing? && op.token == token && r.outs[m].Granted?)
    || (op.Refreshing? && r.outs[m] == Denied(Replay) && op.token in r.states[m].issued && r.states[m].issued[op.token].user == user)
  }

  /** The token is its owner's, its session is unrevoked, and both end at `expiry`. */
  predicate Usable(s: State, token: Token, user: User, expiry: int) {
    && user in s.users && token in s.issued && s.issued[token] == Claims(user, TokenKind.Refresh, expiry)
    && Sha256(token) in s.sessions && s.sessions[Sha256(token)].user == user
    && s.sessions[Sha256(token)].expiresAt == expiry && s.sessions[Sha256(token)].revokedAt.None?
  }

  lemma RefreshKeepsUsable(s: State, op: Op, token: Token, user: User, expiry: int)
    requires Inv(s) && op.Refreshing? && FreshTokens(s, op.minted) && Usable(s, token, user, expiry)
    requires !(op.token == token && Step(s, op).1.Granted?)
    requires !(Step(s, op).1 == Denied(Replay) && op.token in s.issued && s.issued[op.token].user == user)
    ensures Usable(Step(s, op).0, token, user, expiry)
  {
    RefreshErrors(s, op);
    FreshIsNotStored(s, op.minted);
    if Presented(s, op.token, op.key, op.parsedAt, op.now) {
      if s.sessions[Sha256(op.token)].revokedAt.Some? {
        RevokedTokenIsAnswered(s, op);
      } else {
        RefreshRotatesIff(s, op);
        RotationState(s, op);
      }
    }
  }

  lemma StepKeepsUsable(r: Run, m: nat, token: Token, user: User, expiry: int)
    requires IsRun(r) && m < |r.ops| && Usable(r.states[m], token, user, expiry) && !Spends(r, m, token, user)
    ensures Usable(r.states[m + 1], token, user, expiry)
  {
    var s, op := r.states[m], r.ops[m];
    RunKeepsChains(r, m);
    assert StepAt(r, m);
    match op {
      case Login(_, _, _) =>
        LoginIff(s, op);
        FreshIsNotStored(s, op.minted);
      case Refreshing(_, _, _, _, _) =>
        RefreshKeepsUsable(s, op, token, user, expiry);
      case Logout(_, _, _) =>
        LogoutIff(s, op);
    }
  }

  lemma {:induction false} StaysUsable(r: Run, i: nat, j: nat, token: Token, user: User, expiry: int)
    requires IsRun(r) && i <= j <= |r.ops| && Usable(r.states[i], token, user, expiry)
    requires forall m :: i <= m < j ==> !Spends(r, m, token, user)
    ensures Usable(r.states[j], token, user, expiry)
    decreases j
  {
    if i < j {
      StaysUsable(r, i, j - 1, token, user, expiry);
      StepKeepsUsable(r, j - 1, token, user, expiry);
    }
  }

  lemma MintedIsUsable(r: Run, i: nat) returns (user: User)
    requires IsRun(r) && i < |r.ops| && !r.ops[i].Logout? && r.outs[i] == Granted(r.ops[i].minted)
    ensures Usable(r.states[i + 1], r.ops[i].minted.refresh, user, r.ops[i].now + 604800)
    ensures r.ops[i].Login? ==> r.ops[i].credentials == Some(user)
    ensures r.ops[i].Refreshing? ==> r.ops[i].token in r.states[i].issued && r.states[i].issued[r.ops[i].token].user == user
  {
    var s, op := r.states[i], r.ops[i];
    RunKeepsChains(r, i);
    assert StepAt(r, i);
    if op.Login? {
      LoginIff(s, op);
      user := op.credentials.value;
    } else {
      RefreshRotatesIff(s, op);
      RotationState(s, op);
      user := s.issued[op.token].user;
    }
  }

  /** A refresh token is rotated by any refresh with it within 604,800 seconds of the login or rotation that
      issued it, unless it was logged out or exchanged or its owner's sessions were revoked in between. */
  lemma NewestTokenRotates(r: Run, i: nat, j: nat, user: User)
    requires IsRun(r) && i < j < |r.ops| && !r.ops[i].Logout? && r.outs[i] == Granted(r.ops[i].minted)
    requires RefreshTokenOf(r.states[i + 1], r.ops[i].minted.refresh, user)
    requires forall m :: i < m < j ==> !Spends(r, m, r.ops[i].minted.refresh, user)
    requires r.ops[j].Refreshing? && r.ops[j].token == r.ops[i].minted.refresh && |Text.Trim(r.ops[j].key)| <= 128
    requires r.ops[j].parsedAt < r.ops[i].now + 604800 && r.ops[j].now < r.ops[i].now + 604800
    ensures r.outs[j] == Granted(r.ops[j].minted)
    ensures RefreshTokenOf(r.states[j + 1], r.ops[j].minted.refresh, user)
  {
    var owner := MintedIsUsable(r, i);
    StaysUsable(r, i + 1, j, r.ops[i].minted.refresh, user, r.ops[i].now + 604800);
    RunKeepsChains(r, j);
    assert StepAt(r, j);
    RefreshRotatesIff(r.states[j], r.ops[j]);
    RotationState(r.states[j], r.ops[j]);
  }
}
