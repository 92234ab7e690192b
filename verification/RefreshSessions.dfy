/**
 Refresh-token rotation with an encrypted retry response and replay revocation
 (backend/internal/auth/service/refresh_retry.go, login.go, auth_service.go,
 backend/internal/auth/repository/auth_repository.go).

 Idealised: a token parses only if the server signed it, hashing is injective, a sealed
 response opens only under the digest it is bound to, and minted tokens are new. Each call
 is one transaction; times are seconds.
 */
module RefreshSessions {
  import opened Wrappers
  import Text

  /** The identity of a signed token text, and of a user. */
  type Token = nat
  type User = nat

  /** Token hashes are compared with token hashes and key hashes with key hashes only. */
  datatype Digest = Sha256(token: Token)
  datatype KeyDigest = KeySha256(key: string)

  datatype TokenKind = Access | Refresh

  datatype Claims = Claims(user: User, kind: TokenKind, expiresAt: int)

  datatype Response = Response(access: Token, refresh: Token)

  /** An authenticated ciphertext: its plaintext and the associated data it is bound to. */
  datatype Sealed = Sealed(plain: Response, bound: Digest)

  datatype Retry = Retry(keyHash: KeyDigest, ciphertext: Sealed, until: int)

  datatype Session = Session(user: User, expiresAt: int, revokedAt: Option<int>, retry: Option<Retry>)

  /** Where a session stands in the chain its login started, and the session it replaced;
      kept only for the proofs. */
  datatype Origin = Origin(login: Digest, position: nat, replaced: Option<Digest>)

  datatype State = State(
    users: set<User>, issued: map<Token, Claims>, sessions: map<Digest, Session>, origin: map<Digest, Origin>)

  datatype AuthError =
    | InvalidCredentials | InvalidToken | InvalidRetryKey | NotFound | ExpiredSession | CorruptRetry | Replay | NotActive

  const LIFETIME := 604800
  const RETRY_WINDOW := 120
  const MAX_KEY := 128

  datatype Op =
    | Login(credentials: Option<User>, now: int, minted: Response)
    | Refreshing(token: Token, key: string, parsedAt: int, now: int, minted: Response)
    | Logout(token: Token, parsedAt: int, now: int)

  datatype Out = Granted(response: Response) | Denied(error: AuthError) | Done

  // ---- the calls ----

  predicate ParsesAsRefresh(s: State, token: Token, at: int) {
    token in s.issued && at < s.issued[token].expiresAt && s.issued[token].kind == Refresh
  }

  predicate Live(s: State, user: User, h: Digest, now: int) {
    h in s.sessions && s.sessions[h].user == user && s.sessions[h].revokedAt.None? && s.sessions[h].expiresAt > now
  }

  function Mint(s: State, user: User, now: int, minted: Response, origin: Origin): State {
    var h := Sha256(minted.refresh);
    s.(issued := s.issued[minted.access := Claims(user, Access, now + 21600)]
                         [minted.refresh := Claims(user, Refresh, now + LIFETIME)],
       sessions := s.sessions[h := Session(user, now + LIFETIME, None, None)],
       origin := s.origin[h := origin])
  }

  function LoginStep(s: State, credentials: Option<User>, now: int, minted: Response): (State, Out) {
    if credentials.None? || credentials.value !in s.users then (s, Denied(InvalidCredentials))
    else (Mint(s, credentials.value, now, minted, Origin(Sha256(minted.refresh), 0, None)), Granted(minted))
  }

  function RevokeAll(s: State, user: User, now: int): State {
    s.(sessions := map h | h in s.sessions ::
         if s.sessions[h].user == user && s.sessions[h].revokedAt.None?
         then s.sessions[h].(revokedAt := Some(now)) else s.sessions[h])
  }

  predicate RetryMatches(session: Session, key: string, now: int) {
    key != "" && session.retry.Some? && session.retry.value.keyHash == KeySha256(key) && now < session.retry.value.until
  }

  function ReuseStep(s: State, user: User, h: Digest, key: string, now: int): (State, Out)
    requires h in s.sessions
  {
    if RetryMatches(s.sessions[h], key, now) then
      var sealed := s.sessions[h].retry.value.ciphertext;
      if sealed.bound != h then (s, Denied(CorruptRetry))
      else if Live(s, user, Sha256(sealed.plain.refresh), now) then (s, Granted(sealed.plain))
      else (s, Denied(NotFound))
    else (RevokeAll(s, user, now), Denied(Replay))
  }

  function RotateStep(s: State, user: User, h: Digest, key: string, now: int, minted: Response): (State, Out)
    requires h in s.sessions && h in s.origin
  {
    var retry := if key == "" then s.sessions[h].retry
                 else Some(Retry(KeySha256(key), Sealed(minted, h), now + RETRY_WINDOW));
    var next := Mint(s, user, now, minted, Origin(s.origin[h].login, s.origin[h].position + 1, Some(h)));
    (next.(sessions := next.sessions[h := s.sessions[h].(revokedAt := Some(now), retry := retry)]), Granted(minted))
  }

  datatype Verdict = Refused(error: AuthError) | Reused | Accepted

  /** What a presented token is: refused outright, reused after rotation, or still to be rotated. */
  function Judge(s: State, token: Token, key: string, parsedAt: int, now: int): (v: Verdict)
    ensures !v.Refused? ==>
              && token in s.issued && Sha256(token) in s.sessions && Sha256(token) in s.origin
              && s.sessions[Sha256(token)].user == s.issued[token].user
              && (v.Reused? <==> s.sessions[Sha256(token)].revokedAt.Some?)
  {
    if !ParsesAsRefresh(s, token, parsedAt) then Refused(InvalidToken)
    else if |key| > MAX_KEY then Refused(InvalidRetryKey)
    else
      var user, h := s.issued[token].user, Sha256(token);
      if user !in s.users || h !in s.sessions || h !in s.origin || s.sessions[h].user != user then Refused(NotFound)
      else if s.sessions[h].expiresAt <= now then Refused(ExpiredSession)
      else if s.sessions[h].revokedAt.Some? then Reused
      else Accepted
  }

  /** The token was issued as a refresh token and has not expired when it is parsed, the key has at most
      128 characters, and the owner is a user with an unexpired session for it. */
  predicate Presented(s: State, token: Token, rawKey: string, parsedAt: int, now: int) {
    var h := Sha256(token);
    && token in s.issued && s.issued[token].kind == Refresh && parsedAt < s.issued[token].expiresAt
    && |Text.Trim(rawKey)| <= 128
    && s.issued[token].user in s.users && h in s.sessions && s.sessions[h].user == s.issued[token].user
    && now < s.sessions[h].expiresAt
  }

  function RefreshStep(s: State, token: Token, rawKey: string, parsedAt: int, now: int, minted: Response): (State, Out) {
    var key := Text.Trim(rawKey);
    match Judge(s, token, key, parsedAt, now)
    case Refused(e) => (s, Denied(e))
    case Reused => ReuseStep(s, s.issued[token].user, Sha256(token), key, now)
    case Accepted => RotateStep(s, s.issued[token].user, Sha256(token), key, now, minted)
  }

  function LogoutStep(s: State, token: Token, parsedAt: int, now: int): (State, Out) {
    var h := Sha256(token);
    if !ParsesAsRefresh(s, token, parsedAt) then (s, Denied(InvalidToken))
    else if h !in s.sessions || s.sessions[h].revokedAt.Some? then (s, Denied(NotActive))
    else (s.(sessions := s.sessions[h := s.sessions[h].(revokedAt := Some(now))]), Done)
  }

  function Step(s: State, op: Op): (State, Out) {
    match op
    case Login(credentials, now, minted) => LoginStep(s, credentials, now, minted)
    case Refreshing(token, key, parsedAt, now, minted) => RefreshStep(s, token, key, parsedAt, now, minted)
    case Logout(token, parsedAt, now) => LogoutStep(s, token, parsedAt, now)
  }

  // ---- runs ----

  predicate FreshTokens(s: State, minted: Response) {
    minted.access !in s.issued && minted.refresh !in s.issued && minted.access != minted.refresh
  }

  predicate FreshOp(s: State, op: Op) {
    !op.Logout? ==> FreshTokens(s, op.minted)
  }

  /** A run of calls: the states between them and the answer to each. */
  datatype Run = Run(states: seq<State>, ops: seq<Op>, outs: seq<Out>)

  predicate Shaped(r: Run) {
    |r.states| == |r.ops| + 1 && |r.outs| == |r.ops|
  }

  /** Call `i` answers `outs[i]` and leads to the next state, with new tokens if it mints any. */
  predicate StepAt(r: Run, i: nat)
    requires Shaped(r) && i < |r.ops|
  {
    && FreshOp(r.states[i], r.ops[i])
    && r.states[i + 1] == Step(r.states[i], r.ops[i]).0 && r.outs[i] == Step(r.states[i], r.ops[i]).1
  }

  predicate IsRun(r: Run) {
    && Shaped(r) && Inv(r.states[0])
    && forall i {:trigger StepAt(r, i)} :: 0 <= i < |r.ops| ==> StepAt(r, i)
  }

  function Start(users: set<User>): State {
    State(users, map[], map[], map[])
  }

  // ---- the invariant ----

  /** Sessions and refresh tokens correspond one to one, with the same owner. */
  predicate Matched(s: State) {
    && s.sessions.Keys == s.origin.Keys
    && (forall h :: h in s.sessions ==>
          h.token in s.issued && s.issued[h.token].kind == Refresh && s.issued[h.token].user == s.sessions[h].user)
    && (forall t :: t in s.issued && s.issued[t].kind == Refresh ==> Sha256(t) in s.sessions)
  }

  predicate SamePlace(a: Origin, b: Origin) {
    a.login == b.login && a.position == b.position
  }

  predicate Precedes(a: Origin, b: Origin) {
    a.login == b.login && a.position < b.position
  }

  /** No two sessions of one login share a position, and all but the newest are revoked. */
  predicate Linear(s: State)
    requires s.sessions.Keys == s.origin.Keys
  {
    && (forall a, b {:trigger SamePlace(s.origin[a], s.origin[b])} ::
          a in s.sessions && b in s.sessions && SamePlace(s.origin[a], s.origin[b]) ==> a == b)
    && (forall a, b {:trigger Precedes(s.origin[a], s.origin[b])} ::
          a in s.sessions && b in s.sessions && Precedes(s.origin[a], s.origin[b]) ==> s.sessions[a].revokedAt.Some?)
  }

  predicate FollowsOn(s: State, h: Digest)
    requires s.sessions.Keys == s.origin.Keys && h in s.sessions
  {
    match s.origin[h].replaced
    case None => s.origin[h].position == 0 && s.origin[h].login == h
    case Some(p) =>
      && p in s.sessions && s.sessions[p].user == s.sessions[h].user
      && s.origin[p].login == s.origin[h].login && s.origin[p].position + 1 == s.origin[h].position
  }

  /** Every session is a login or directly replaced a session of the same owner and chain. */
  predicate Unbroken(s: State)
    requires s.sessions.Keys == s.origin.Keys
  {
    forall h :: h in s.sessions ==> FollowsOn(s, h)
  }

  /** A stored retry answer belongs to a rotated session and hands out its direct successor. */
  predicate RetriesPointForward(s: State)
    requires s.sessions.Keys == s.origin.Keys
  {
    forall h :: h in s.sessions && s.sessions[h].retry.Some? ==> RetryPointsForward(s, h)
  }

  predicate RetryPointsForward(s: State, h: Digest)
    requires s.sessions.Keys == s.origin.Keys && h in s.sessions
  {
    s.sessions[h].retry.Some? &&
    var sealed := s.sessions[h].retry.value.ciphertext;
    && s.sessions[h].revokedAt.Some? && sealed.bound == h
    && Sha256(sealed.plain.refresh) in s.sessions && s.origin[Sha256(sealed.plain.refresh)].replaced == Some(h)
  }

  predicate Inv(s: State) {
    Matched(s) && Linear(s) && Unbroken(s) && RetriesPointForward(s)
  }

  // ---- every call keeps the invariant ----

  /** Nothing changed but some sessions becoming revoked. */
  predicate OnlyRevokes(s: State, t: State) {
    && t.issued == s.issued && t.origin == s.origin && t.users == s.users && t.sessions.Keys == s.sessions.Keys
    && forall h :: h in s.sessions ==>
         && t.sessions[h] == s.sessions[h].(revokedAt := t.sessions[h].revokedAt)
         && (s.sessions[h].revokedAt.Some? ==> t.sessions[h] == s.sessions[h])
  }

  lemma RevokingKeepsInv(s: State, t: State)
    requires Inv(s) && OnlyRevokes(s, t)
    ensures Inv(t)
  {
    forall h | h in t.sessions ensures FollowsOn(t, h) {
      assert FollowsOn(s, h);
    }
  }

  /** One session `n` was added; the others kept owner and revocation. */
  predicate Extends(s: State, t: State, n: Digest) {
    && s.sessions.Keys == s.origin.Keys && t.sessions.Keys == t.origin.Keys == s.sessions.Keys + {n}
    && n !in s.sessions
    && forall x :: x in s.sessions ==>
         && t.origin[x] == s.origin[x] && t.sessions[x].user == s.sessions[x].user
         && (s.sessions[x].revokedAt.Some? ==> t.sessions[x].revokedAt.Some?)
  }

  lemma ExtendsLinear(s: State, t: State, n: Digest)
    requires Extends(s, t, n) && Linear(s)
    requires forall x :: x in s.sessions && s.origin[x].login == t.origin[n].login ==>
               Precedes(s.origin[x], t.origin[n]) && t.sessions[x].revokedAt.Some?
    ensures Linear(t)
  {
  }

  lemma ExtendsUnbroken(s: State, t: State, n: Digest)
    requires Extends(s, t, n) && Unbroken(s) && FollowsOn(t, n)
    ensures Unbroken(t)
  {
    forall x | x in t.sessions ensures FollowsOn(t, x) {
      if x != n { assert FollowsOn(s, x); }
    }
  }

  lemma ExtendsRetries(s: State, t: State, n: Digest)
    requires Extends(s, t, n) && RetriesPointForward(s) && t.sessions[n].retry.None?
    requires forall x :: x in s.sessions ==> t.sessions[x].retry == s.sessions[x].retry || RetryPointsForward(t, x)
    ensures RetriesPointForward(t)
  {
    forall x | x in t.sessions && t.sessions[x].retry.Some? ensures RetryPointsForward(t, x) {
      if t.sessions[x].retry == s.sessions[x].retry { assert RetryPointsForward(s, x); }
    }
  }

  /** The two tokens of `minted` were signed for `user`; nothing else about claims changed. */
  predicate Signs(s: State, t: State, user: User, minted: Response) {
    && FreshTokens(s, minted)
    && t.issued.Keys == s.issued.Keys + {minted.access, minted.refresh}
    && (forall x :: x in s.issued ==> t.issued[x] == s.issued[x])
    && t.issued[minted.access].kind == Access && t.issued[minted.refresh].kind == Refresh
    && t.issued[minted.refresh].user == user
  }

  lemma ExtendsMatched(s: State, t: State, user: User, minted: Response)
    requires Extends(s, t, Sha256(minted.refresh)) && Signs(s, t, user, minted) && Matched(s)
    requires t.sessions[Sha256(minted.refresh)].user == user
    ensures Matched(t)
  {
  }

  /** A login: one unrevoked session starts a chain of its own. */
  predicate Starts(s: State, t: State, user: User, minted: Response) {
    var n := Sha256(minted.refresh);
    && Extends(s, t, n) && Signs(s, t, user, minted)
    && t.origin[n] == Origin(n, 0, None) && t.sessions[n].user == user && t.sessions[n].retry.None?
    && forall x :: x in s.sessions ==> t.sessions[x] == s.sessions[x]
  }

  lemma MintShape(s: State, user: User, now: int, minted: Response, origin: Origin)
    requires Matched(s) && FreshTokens(s, minted)
    ensures var n, t := Sha256(minted.refresh), Mint(s, user, now, minted, origin);
            && Extends(s, t, n) && Signs(s, t, user, minted)
            && t.origin[n] == origin && t.sessions[n] == Session(user, now + LIFETIME, None, None)
            && forall x :: x in s.sessions ==> t.sessions[x] == s.sessions[x]
  {
    assert Sha256(minted.refresh) !in s.sessions;
  }

  lemma StartKeepsInv(s: State, t: State, user: User, minted: Response)
    requires Inv(s) && Starts(s, t, user, minted)
    ensures Inv(t)
  {
    var n := Sha256(minted.refresh);
    NoSessionDescendsFrom(s, n);
    ExtendsMatched(s, t, user, minted);
    ExtendsLinear(s, t, n);
    ExtendsUnbroken(s, t, n);
    ExtendsRetries(s, t, n);
  }

  /** A digest without a session started no chain. */
  lemma NoSessionDescendsFrom(s: State, n: Digest)
    requires s.sessions.Keys == s.origin.Keys && Unbroken(s) && n !in s.sessions
    ensures forall h :: h in s.sessions ==> s.origin[h].login != n
  {
    forall h | h in s.sessions ensures s.origin[h].login != n {
      LoginHasSession(s, h);
    }
  }

  lemma {:induction false} LoginHasSession(s: State, h: Digest)
    requires s.sessions.Keys == s.origin.Keys && Unbroken(s) && h in s.sessions
    ensures s.origin[h].login in s.sessions
    decreases s.origin[h].position
  {
    assert FollowsOn(s, h);
    if s.origin[h].replaced.Some? {
      LoginHasSession(s, s.origin[h].replaced.value);
    }
  }

  /** An unrevoked session is the newest of its chain: every other one precedes it. */
  lemma NewestInChain(s: State, h: Digest)
    requires Inv(s) && h in s.sessions && s.sessions[h].revokedAt.None?
    ensures forall x :: x in s.sessions && s.origin[x].login == s.origin[h].login && x != h ==>
              Precedes(s.origin[x], s.origin[h]) && s.sessions[x].revokedAt.Some?
  {
    forall x | x in s.sessions && s.origin[x].login == s.origin[h].login && x != h
      ensures Precedes(s.origin[x], s.origin[h]) && s.sessions[x].revokedAt.Some?
    {
      assert !SamePlace(s.origin[x], s.origin[h]) && !Precedes(s.origin[h], s.origin[x]);
      assert Precedes(s.origin[x], s.origin[h]);
    }
  }

  /** A rotation of `h`: a successor is minted, `h` is revoked and may gain a retry answer. */
  predicate Rotates(s: State, t: State, user: User, h: Digest, minted: Response) {
    var n := Sha256(minted.refresh);
    && Extends(s, t, n) && Signs(s, t, user, minted) && h in s.sessions
    && t.origin[n] == Origin(s.origin[h].login, s.origin[h].position + 1, Some(h))
    && t.sessions[n].user == user && t.sessions[n].revokedAt.None? && t.sessions[n].retry.None?
    && t.sessions[h].revokedAt.Some?
    && (t.sessions[h].retry == s.sessions[h].retry
        || (t.sessions[h].retry.Some? && t.sessions[h].retry.value.ciphertext == Sealed(minted, h)))
    && forall x :: x in s.sessions && x != h ==> t.sessions[x] == s.sessions[x]
  }

  lemma RotateShape(s: State, user: User, h: Digest, key: string, now: int, minted: Response)
    requires Matched(s) && FreshTokens(s, minted) && h in s.sessions && s.sessions[h].user == user
    ensures Rotates(s, RotateStep(s, user, h, key, now, minted).0, user, h, minted)
    ensures RotateStep(s, user, h, key, now, minted).1 == Granted(minted)
  {
    MintShape(s, user, now, minted, Origin(s.origin[h].login, s.origin[h].position + 1, Some(h)));
  }

  lemma RotateKeepsInv(s: State, t: State, user: User, h: Digest, minted: Response)
    requires Inv(s) && Rotates(s, t, user, h, minted)
    requires s.sessions[h].user == user && s.sessions[h].revokedAt.None?
    ensures Inv(t)
  {
    var n := Sha256(minted.refresh);
    NewestInChain(s, h);
    assert s.sessions[h].retry.None? by {
      assert s.sessions[h].retry.Some? ==> RetryPointsForward(s, h);
    }
    ExtendsMatched(s, t, user, minted);
    ExtendsLinear(s, t, n);
    ExtendsUnbroken(s, t, n);
    ExtendsRetries(s, t, n);
  }

  lemma ReuseStepOnlyRevokes(s: State, user: User, h: Digest, key: string, now: int)
    requires h in s.sessions
    ensures OnlyRevokes(s, ReuseStep(s, user, h, key, now).0)
  {
  }

  /** Every call revokes some sessions, starts a chain, or rotates one unrevoked session. */
  predicate Moves(s: State, t: State, op: Op) {
    || OnlyRevokes(s, t)
    || (op.Login? && op.credentials.Some? && Starts(s, t, op.credentials.value, op.minted))
    || (op.Refreshing? && Sha256(op.token) in s.sessions
        && var h := Sha256(op.token);
           s.sessions[h].revokedAt.None? && Rotates(s, t, s.sessions[h].user, h, op.minted))
  }

  lemma RefreshMoves(s: State, op: Op)
    requires Matched(s) && op.Refreshing? && FreshTokens(s, op.minted)
    ensures Moves(s, Step(s, op).0, op)
  {
    var h, key := Sha256(op.token), Text.Trim(op.key);
    match Judge(s, op.token, key, op.parsedAt, op.now) {
      case Refused(_) =>
      case Reused =>
        ReuseStepOnlyRevokes(s, s.issued[op.token].user, h, key, op.now);
      case Accepted =>
        RotateShape(s, s.issued[op.token].user, h, key, op.now, op.minted);
    }
  }

  lemma StepMoves(s: State, op: Op)
    requires Matched(s) && FreshOp(s, op)
    ensures Moves(s, Step(s, op).0, op)
  {
    match op {
      case Login(credentials, now, minted) =>
        if credentials.Some? {
          MintShape(s, credentials.value, now, minted, Origin(Sha256(minted.refresh), 0, None));
        }
      case Refreshing(_, _, _, _, _) =>
        RefreshMoves(s, op);
      case Logout(_, _, _) =>
    }
  }

  lemma MovesKeepInv(s: State, t: State, op: Op)
    requires Inv(s) && Moves(s, t, op)
    ensures Inv(t)
  {
    if OnlyRevokes(s, t) {
      RevokingKeepsInv(s, t);
    } else if op.Login? {
      StartKeepsInv(s, t, op.credentials.value, op.minted);
    } else {
      RotateKeepsInv(s, t, s.sessions[Sha256(op.token)].user, Sha256(op.token), op.minted);
    }
  }

  lemma StepKeepsInv(s: State, op: Op)
    requires Inv(s) && FreshOp(s, op)
    ensures Inv(Step(s, op).0)
  {
    StepMoves(s, op);
    MovesKeepInv(s, Step(s, op).0, op);
  }

  /** In every reachable state each login's sessions form one linear chain, with at most one
      unrevoked session, which is the newest. */
  lemma {:induction false} RunKeepsChains(r: Run, n: nat)
    requires IsRun(r) && n <= |r.ops|
    ensures Inv(r.states[n])
  {
    if n > 0 {
      RunKeepsChains(r, n - 1);
      assert StepAt(r, n - 1);
      StepKeepsInv(r.states[n - 1], r.ops[n - 1]);
    }
  }

  /** A revoked session's row is frozen. */
  predicate Freezes(s: State, t: State) {
    forall h :: h in s.sessions && s.sessions[h].revokedAt.Some? ==> h in t.sessions && t.sessions[h] == s.sessions[h]
  }

  lemma MovesFreeze(s: State, t: State, op: Op)
    requires Moves(s, t, op)
    ensures Freezes(s, t)
  {
  }

  lemma RunFreezesStep(r: Run, n: nat)
    requires IsRun(r) && n < |r.ops|
    ensures Freezes(r.states[n], r.states[n + 1])
  {
    RunKeepsChains(r, n);
    assert StepAt(r, n);
    StepMoves(r.states[n], r.ops[n]);
    MovesFreeze(r.states[n], r.states[n + 1], r.ops[n]);
  }

  /** Once revoked, a session never changes again, whatever calls follow. */
  lemma {:induction false} RevokedRowsAreFrozen(r: Run, i: nat, j: nat)
    requires IsRun(r) && i <= j <= |r.ops|
    ensures Freezes(r.states[i], r.states[j])
    decreases j
  {
    if i < j {
      RevokedRowsAreFrozen(r, i, j - 1);
      RunFreezesStep(r, j - 1);
    }
  }

  lemma OneUnrevokedPerLogin(s: State, a: Digest, b: Digest)
    requires Inv(s) && a in s.sessions && b in s.sessions && s.origin[a].login == s.origin[b].login
    requires s.sessions[a].revokedAt.None?
    ensures s.sessions[b].revokedAt.None? ==> a == b
    ensures s.origin[b].position <= s.origin[a].position
  {
    NewestInChain(s, a);
  }

  // ---- a refresh token has one successor ----

  /** The token was exchanged for `r`; its only possible later answer is `r` again. */
  predicate Settled(s: State, token: Token, r: Response) {
    var h := Sha256(token);
    && h in s.sessions && s.sessions[h].revokedAt.Some?
    && (s.sessions[h].retry.Some? ==> s.sessions[h].retry.value.ciphertext.plain == r)
  }

  lemma RotationSettles(s: State, t: State, user: User, token: Token, minted: Response)
    requires Inv(s) && Rotates(s, t, user, Sha256(token), minted) && s.sessions[Sha256(token)].revokedAt.None?
    ensures Settled(t, token, minted)
  {
    var h := Sha256(token);
    assert s.sessions[h].retry.Some? ==> RetryPointsForward(s, h);
  }

  lemma RotateStepSettles(s: State, user: User, token: Token, key: string, now: int, minted: Response)
    requires Inv(s) && FreshTokens(s, minted) && Sha256(token) in s.sessions
    requires s.sessions[Sha256(token)].user == user && s.sessions[Sha256(token)].revokedAt.None?
    ensures RotateStep(s, user, Sha256(token), key, now, minted).1 == Granted(minted)
    ensures Settled(RotateStep(s, user, Sha256(token), key, now, minted).0, token, minted)
  {
    RotateShape(s, user, Sha256(token), key, now, minted);
    RotationSettles(s, RotateStep(s, user, Sha256(token), key, now, minted).0, user, token, minted);
  }

  lemma ReuseGrants(s: State, user: User, h: Digest, key: string, now: int)
    requires h in s.sessions && ReuseStep(s, user, h, key, now).1.Granted?
    ensures s.sessions[h].retry.Some?
    ensures ReuseStep(s, user, h, key, now) == (s, Granted(s.sessions[h].retry.value.ciphertext.plain))
  {
  }

  lemma GrantSettles(s: State, op: Op)
    requires Inv(s) && op.Refreshing? && FreshTokens(s, op.minted) && Step(s, op).1.Granted?
    ensures Settled(Step(s, op).0, op.token, Step(s, op).1.response)
  {
    var key, h := Text.Trim(op.key), Sha256(op.token);
    match Judge(s, op.token, key, op.parsedAt, op.now) {
      case Refused(_) =>
      case Reused =>
        ReuseGrants(s, s.issued[op.token].user, h, key, op.now);
      case Accepted =>
        RotateStepSettles(s, s.issued[op.token].user, op.token, key, op.now, op.minted);
    }
  }

  /** A settled token is granted only its recorded answer, and that changes nothing. */
  lemma SettledAnswer(s: State, op: Op, r: Response)
    requires op.Refreshing? && Settled(s, op.token, r) && Step(s, op).1.Granted?
    ensures Step(s, op) == (s, Granted(r))
  {
  }

  lemma GrantSettlesInRun(r: Run, i: nat)
    requires IsRun(r) && i < |r.ops| && r.ops[i].Refreshing? && r.outs[i].Granted?
    ensures Settled(r.states[i + 1], r.ops[i].token, r.outs[i].response)
  {
    RunKeepsChains(r, i);
    assert StepAt(r, i);
    GrantSettles(r.states[i], r.ops[i]);
  }

  lemma SettledAnswerInRun(r: Run, j: nat, first: Response)
    requires IsRun(r) && j < |r.ops| && r.ops[j].Refreshing? && r.outs[j].Granted?
    requires Settled(r.states[j], r.ops[j].token, first)
    ensures r.outs[j] == Granted(first) && r.states[j + 1] == r.states[j]
  {
    assert StepAt(r, j);
    SettledAnswer(r.states[j], r.ops[j], first);
  }

  /** No refresh token ever yields two different successors: every later grant for the same
      token repeats the first response and changes nothing. */
  lemma OneSuccessor(r: Run, i: nat, j: nat)
    requires IsRun(r) && i < j < |r.ops|
    requires r.ops[i].Refreshing? && r.ops[j].Refreshing? && r.ops[i].token == r.ops[j].token
    requires r.outs[i].Granted? && r.outs[j].Granted?
    ensures r.outs[j] == r.outs[i] && r.states[j + 1] == r.states[j]
  {
    GrantSettlesInRun(r, i);
    RevokedRowsAreFrozen(r, i + 1, j);
    SettledAnswerInRun(r, j, r.outs[i].response);
  }

  // ---- revoked sets never come back ----

  /** All sessions of `dead` are revoked, and a retry from one only points into `dead`. */
  predicate Dead(s: State, dead: set<Digest>) {
    forall h :: h in dead ==>
      && h in s.sessions && s.sessions[h].revokedAt.Some?
      && (s.sessions[h].retry.Some? ==> Sha256(s.sessions[h].retry.value.ciphertext.plain.refresh) in dead)
  }

  lemma DeadIsDenied(s: State, op: Op, dead: set<Digest>)
    requires Dead(s, dead) && op.Refreshing? && Sha256(op.token) in dead
    ensures Step(s, op).1.Denied?
  {
  }

  function SessionsOf(s: State, user: User): set<Digest> {
    set h | h in s.sessions && s.sessions[h].user == user
  }

  lemma DeadIsDeniedInRun(r: Run, i: nat, j: nat, dead: set<Digest>)
    requires IsRun(r) && i <= j < |r.ops| && Dead(r.states[i], dead)
    requires r.ops[j].Refreshing? && Sha256(r.ops[j].token) in dead
    ensures r.outs[j].Denied?
  {
    RevokedRowsAreFrozen(r, i, j);
    assert StepAt(r, j);
    DeadIsDenied(r.states[j], r.ops[j], dead);
  }

  predicate RefreshTokenOf(s: State, token: Token, user: User) {
    token in s.issued && s.issued[token] == Claims(user, Refresh, s.issued[token].expiresAt)
  }

  /** Only a token the server signed is ever treated as a replay. */
  lemma ReplayIsSigned(s: State, op: Op)
    requires op.Refreshing? && Step(s, op).1 == Denied(Replay)
    ensures op.token in s.issued
  {
  }

  lemma ReplayKillsUser(s: State, op: Op)
    requires Inv(s) && op.Refreshing? && Step(s, op).1 == Denied(Replay)
    ensures op.token in s.issued
    ensures Dead(Step(s, op).0, SessionsOf(s, s.issued[op.token].user))
  {
    var user := s.issued[op.token].user;
    var t := Step(s, op).0;
    assert t == RevokeAll(s, user, op.now);
    forall h | h in SessionsOf(s, user) && s.sessions[h].retry.Some?
      ensures Sha256(s.sessions[h].retry.value.ciphertext.plain.refresh) in SessionsOf(s, user)
    {
      assert RetryPointsForward(s, h);
      assert FollowsOn(s, Sha256(s.sessions[h].retry.value.ciphertext.plain.refresh));
    }
  }

  lemma ReplayKillsUserInRun(r: Run, i: nat, user: User)
    requires IsRun(r) && i < |r.ops| && r.ops[i].Refreshing? && r.outs[i] == Denied(Replay)
    requires RefreshTokenOf(r.states[i], r.ops[i].token, user)
    ensures Dead(r.states[i + 1], SessionsOf(r.states[i], user))
  {
    RunKeepsChains(r, i);
    assert StepAt(r, i);
    ReplayKillsUser(r.states[i], r.ops[i]);
  }

  lemma TokensHaveSessions(r: Run, i: nat, token: Token, user: User)
    requires IsRun(r) && i <= |r.ops| && RefreshTokenOf(r.states[i], token, user)
    ensures Sha256(token) in SessionsOf(r.states[i], user)
  {
    RunKeepsChains(r, i);
  }

  /** After a rejected replay no refresh token issued to that user until then is ever accepted
      again, neither for rotation nor for a retry. */
  lemma ReplayIsFinal(r: Run, i: nat, j: nat, user: User)
    requires IsRun(r) && i < j < |r.ops| && r.ops[i].Refreshing? && r.ops[j].Refreshing?
    requires r.outs[i] == Denied(Replay)
    requires RefreshTokenOf(r.states[i], r.ops[i].token, user) && RefreshTokenOf(r.states[i], r.ops[j].token, user)
    ensures r.outs[j].Denied?
  {
    ReplayKillsUserInRun(r, i, user);
    TokensHaveSessions(r, i, r.ops[j].token, user);
    DeadIsDeniedInRun(r, i + 1, j, SessionsOf(r.states[i], user));
  }

  predicate InChain(s: State, h: Digest, login: Digest) {
    h in s.sessions && h in s.origin && s.origin[h].login == login
  }

  function ChainOf(s: State, login: Digest): set<Digest> {
    set h | h in s.sessions && InChain(s, h, login)
  }

  lemma LogoutKillsChain(s: State, op: Op)
    requires Inv(s) && op.Logout? && Step(s, op).1 == Done
    ensures var h := Sha256(op.token);
            h in s.sessions && Dead(Step(s, op).0, ChainOf(s, s.origin[h].login))
  {
    var h := Sha256(op.token);
    NewestInChain(s, h);
    var chain := ChainOf(s, s.origin[h].login);
    forall x | x in chain && s.sessions[x].retry.Some?
      ensures Sha256(s.sessions[x].retry.value.ciphertext.plain.refresh) in chain
    {
      assert RetryPointsForward(s, x);
      assert FollowsOn(s, Sha256(s.sessions[x].retry.value.ciphertext.plain.refresh));
    }
  }

  lemma LogoutKillsChainInRun(r: Run, i: nat, login: Digest)
    requires IsRun(r) && i < |r.ops| && r.ops[i].Logout? && r.outs[i] == Done
    requires InChain(r.states[i], Sha256(r.ops[i].token), login)
    ensures Dead(r.states[i + 1], ChainOf(r.states[i], login))
  {
    RunKeepsChains(r, i);
    assert StepAt(r, i);
    LogoutKillsChain(r.states[i], r.ops[i]);
  }

  /** Logging out with the newest token ends the whole chain: none of its tokens, old or new,
      is ever accepted again. */
  lemma LogoutIsFinal(r: Run, i: nat, j: nat, login: Digest)
    requires IsRun(r) && i < j < |r.ops| && r.ops[i].Logout? && r.ops[j].Refreshing? && r.outs[i] == Done
    requires InChain(r.states[i], Sha256(r.ops[i].token), login)
    requires InChain(r.states[i], Sha256(r.ops[j].token), login)
    ensures r.outs[j].Denied?
  {
    LogoutKillsChainInRun(r, i, login);
    DeadIsDeniedInRun(r, i + 1, j, ChainOf(r.states[i], login));
  }

  // ---- the retry window ----

  /** A rotated token is answered again exactly when the caller repeats the retry key inside
      the window and the first response's refresh token is still live; then the answer is that
      response, nothing changes, and its refresh token would still be accepted. */
  lemma RetryIff(s: State, op: Op)
    requires Inv(s) && op.Refreshing? && Presented(s, op.token, op.key, op.parsedAt, op.now)
    requires s.sessions[Sha256(op.token)].revokedAt.Some?
    ensures var session, key := s.sessions[Sha256(op.token)], Text.Trim(op.key);
            Step(s, op).1.Granted? <==>
              && key != "" && session.retry.Some? && session.retry.value.keyHash == KeySha256(key)
              && op.now < session.retry.value.until
              && var next := Sha256(session.retry.value.ciphertext.plain.refresh);
                 && s.sessions[next].user == session.user && s.sessions[next].revokedAt.None?
                 && op.now < s.sessions[next].expiresAt
    ensures Step(s, op).1.Granted? ==>
              var r := s.sessions[Sha256(op.token)].retry.value.ciphertext.plain;
              Step(s, op) == (s, Granted(r)) && Live(s, s.issued[op.token].user, Sha256(r.refresh), op.now)
  {
    RetryHasSuccessor(s, Sha256(op.token));
  }

  lemma RetryHasSuccessor(s: State, h: Digest)
    requires Inv(s) && h in s.sessions
    ensures s.sessions[h].retry.Some? ==>
              && s.sessions[h].retry.value.ciphertext.bound == h
              && Sha256(s.sessions[h].retry.value.ciphertext.plain.refresh) in s.sessions
  {
    assert s.sessions[h].retry.Some? ==> RetryPointsForward(s, h);
  }

  /** The answer recorded for a rotation under a non-empty key. */
  predicate Recorded(s: State, token: Token, key: string, until: int, r: Response) {
    var h := Sha256(token);
    && h in s.sessions && s.sessions[h].revokedAt.Some?
    && s.sessions[h].retry == Some(Retry(KeySha256(key), Sealed(r, h), until))
  }

  lemma RotationRecords(s: State, op: Op)
    requires Matched(s) && op.Refreshing? && FreshTokens(s, op.minted) && Text.Trim(op.key) != ""
    requires Presented(s, op.token, op.key, op.parsedAt, op.now) && s.sessions[Sha256(op.token)].revokedAt.None?
    ensures Step(s, op).1 == Granted(op.minted)
    ensures Recorded(Step(s, op).0, op.token, Text.Trim(op.key), op.now + 120, op.minted)
  {
    assert Sha256(op.minted.refresh) !in s.sessions;
  }

  lemma RunMatched(r: Run, n: nat)
    requires IsRun(r) && n <= |r.ops|
    ensures Matched(r.states[n])
  {
    RunKeepsChains(r, n);
  }

  lemma RotationRecordsInRun(r: Run, i: nat, key: string)
    requires IsRun(r) && i < |r.ops| && r.ops[i].Refreshing? && key == Text.Trim(r.ops[i].key) != ""
    requires Presented(r.states[i], r.ops[i].token, r.ops[i].key, r.ops[i].parsedAt, r.ops[i].now)
    requires r.states[i].sessions[Sha256(r.ops[i].token)].revokedAt.None?
    ensures r.outs[i] == Granted(r.ops[i].minted)
    ensures Recorded(r.states[i + 1], r.ops[i].token, key, r.ops[i].now + 120, r.ops[i].minted)
  {
    RunMatched(r, i);
    var s, op := r.states[i], r.ops[i];
    assert StepAt(r, i);
    assert FreshTokens(s, op.minted) && Step(s, op) == (r.states[i + 1], r.outs[i]);
    RotationRecords(s, op);
  }

  lemma RecordedAnswerInRun(r: Run, j: nat, key: string, until: int, first: Response)
    requires IsRun(r) && j < |r.ops| && r.ops[j].Refreshing? && key == Text.Trim(r.ops[j].key) != ""
    requires Presented(r.states[j], r.ops[j].token, r.ops[j].key, r.ops[j].parsedAt, r.ops[j].now)
    requires Recorded(r.states[j], r.ops[j].token, key, until, first) && r.ops[j].now < until
    ensures Live(r.states[j], r.states[j].issued[r.ops[j].token].user, Sha256(first.refresh), r.ops[j].now)
            <==> r.outs[j] == Granted(first) && r.states[j + 1] == r.states[j]
  {
    RunKeepsChains(r, j);
    assert StepAt(r, j);
    RetryIff(r.states[j], r.ops[j]);
  }

  lemma FrozenKeepsRecorded(s: State, t: State, token: Token, key: string, until: int, first: Response)
    requires Freezes(s, t) && Recorded(s, token, key, until, first)
    ensures Recorded(t, token, key, until, first)
  {
  }

  lemma RecordStays(r: Run, i: nat, j: nat, token: Token, key: string, until: int, first: Response)
    requires IsRun(r) && i <= j < |r.states| && Recorded(r.states[i], token, key, until, first)
    ensures Recorded(r.states[j], token, key, until, first)
  {
    RevokedRowsAreFrozen(r, i, j);
    FrozenKeepsRecorded(r.states[i], r.states[j], token, key, until, first);
  }

  /** A lost response is recovered: within two minutes, the same token and key give back exactly
      the rotation's response, changing nothing, for as long as its refresh token is live. */
  lemma LostResponseIsRecovered(r: Run, i: nat, j: nat, key: string)
    requires IsRun(r) && i < j < |r.ops| && r.ops[i].Refreshing? && r.ops[j].Refreshing?
    requires r.ops[i].token == r.ops[j].token
    requires key == Text.Trim(r.ops[i].key) == Text.Trim(r.ops[j].key) != ""
    requires Presented(r.states[i], r.ops[i].token, r.ops[i].key, r.ops[i].parsedAt, r.ops[i].now)
    requires r.states[i].sessions[Sha256(r.ops[i].token)].revokedAt.None?
    requires Presented(r.states[j], r.ops[j].token, r.ops[j].key, r.ops[j].parsedAt, r.ops[j].now)
    requires r.ops[j].now < r.ops[i].now + 120
    ensures r.outs[i] == Granted(r.ops[i].minted)
    ensures Live(r.states[j], r.states[j].issued[r.ops[j].token].user, Sha256(r.ops[i].minted.refresh), r.ops[j].now)
            <==> r.outs[j] == r.outs[i] && r.states[j + 1] == r.states[j]
  {
    RotationRecordsInRun(r, i, key);
    RecordStays(r, i + 1, j, r.ops[i].token, key, r.ops[i].now + 120, r.ops[i].minted);
    RecordedAnswerInRun(r, j, key, r.ops[i].now + 120, r.ops[i].minted);
  }
}
