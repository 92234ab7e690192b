/**
 The token-bucket rate limiter: the script run atomically by Redis, and the set-up of its rate and
 time to live (backend/internal/middleware/rate_limit.go). Times are milliseconds of one clock.

 A bucket that has been idle for its time to live may be dropped by the store at any later moment.
 */
module RateLimiter {
  import opened Wrappers

  /** A scope's limit; the rate is in tokens per second. */
  datatype Limit = Limit(maximum: nat, window: real, rate: real)

  datatype Bucket = Bucket(tokens: real, updated: int)

  datatype Reply = Reply(allowed: bool, remaining: int, retryAfter: int)

  /** One request, and the keys the store is free to have dropped just before it. */
  datatype Request = Request(key: string, now: int, idle: set<string>)

  type Buckets = map<string, Bucket>

  predicate WellFormed(l: Limit) {
    l.maximum >= 1 && l.window > 0.0 && l.rate > 0.0 && l.rate * l.window == l.maximum as real
  }

  function NewLimit(maximum: nat, window: real): (l: Limit)
    requires maximum >= 1 && window > 0.0
    ensures WellFormed(l)
  {
    Limit(maximum, window, maximum as real / window)
  }

  function Capacity(l: Limit): real { l.maximum as real }

  function Seconds(ms: int): real { ms as real / 1000.0 }

  /** Tokens gained over a span of milliseconds. */
  function Gain(l: Limit, ms: int): real { l.rate * Seconds(ms) }

  function TtlSeconds(l: Limit): int {
    var ttl := (l.window * 2.0).Floor;
    if ttl < 60 then 60 else ttl
  }

  function Min(x: real, y: real): real { if x <= y then x else y }

  function Elapsed(b: Bucket, now: int): nat { if now > b.updated then now - b.updated else 0 }

  /** Tokens a key has at a time; a key without a bucket has them all. */
  function Level(l: Limit, buckets: Buckets, key: string, now: int): real
    requires WellFormed(l)
  {
    if key !in buckets then Capacity(l)
    else Min(Capacity(l), buckets[key].tokens + Gain(l, Elapsed(buckets[key], now)))
  }

  function Ceiling(x: real): int { -(-x).Floor }

  /** What the caller is told when the key has these tokens. */
  function ReplyFor(l: Limit, tokens: real): Reply
    requires WellFormed(l)
  {
    if tokens >= 1.0 then Reply(true, (tokens - 1.0).Floor, 0)
    else
      var seconds := Ceiling((1.0 - tokens) / l.rate);
      Reply(false, tokens.Floor, if seconds < 1 then 1 else seconds)
  }

  /** A request costs one token, if there is one. */
  function Charge(l: Limit, buckets: Buckets, key: string, now: int): Buckets
    requires WellFormed(l)
  {
    var tokens := Level(l, buckets, key, now);
    buckets[key := Bucket(if tokens >= 1.0 then tokens - 1.0 else tokens, now)]
  }

  /** The store drops only keys idle for their whole time to live. */
  function Evict(l: Limit, buckets: Buckets, idle: set<string>, now: int): Buckets {
    map k | k in buckets && !(k in idle && now - buckets[k].updated >= 1000 * TtlSeconds(l)) :: buckets[k]
  }

  /** The tokens a request finds. */
  function Found(l: Limit, buckets: Buckets, r: Request): real
    requires WellFormed(l)
  {
    Level(l, Evict(l, buckets, r.idle, r.now), r.key, r.now)
  }

  function Step(l: Limit, buckets: Buckets, r: Request): Buckets
    requires WellFormed(l)
  {
    Charge(l, Evict(l, buckets, r.idle, r.now), r.key, r.now)
  }

  /** The buckets after the first n requests of a run. */
  function After(l: Limit, run: seq<Request>, n: nat): Buckets
    requires WellFormed(l) && n <= |run|
  {
    if n == 0 then map[] else Step(l, After(l, run, n - 1), run[n - 1])
  }

  function ReplyTo(l: Limit, run: seq<Request>, n: nat): Reply
    requires WellFormed(l) && n < |run|
  {
    ReplyFor(l, Found(l, After(l, run, n), run[n]))
  }

  predicate NonDecreasing(run: seq<Request>) {
    forall i, j :: 0 <= i <= j < |run| ==> run[i].now <= run[j].now
  }

  /** Requests of the key allowed among run[i..j]. */
  function Allowed(l: Limit, run: seq<Request>, key: string, i: nat, j: nat): nat
    requires WellFormed(l) && i <= j <= |run|
    decreases j
  {
    if i == j then 0 else Allowed(l, run, key, i, j - 1) + Served(l, run, key, j - 1)
  }

  function Served(l: Limit, run: seq<Request>, key: string, n: nat): nat
    requires WellFormed(l) && n < |run|
  {
    if run[n].key == key && Found(l, After(l, run, n), run[n]) >= 1.0 then 1 else 0
  }

  // ---- the arithmetic of refilling ----

  lemma GainAdds(l: Limit, a: int, b: int)
    requires WellFormed(l)
    ensures Gain(l, a + b) == Gain(l, a) + Gain(l, b)
  {
    assert Seconds(a + b) == Seconds(a) + Seconds(b);
    assert l.rate * (Seconds(a) + Seconds(b)) == l.rate * Seconds(a) + l.rate * Seconds(b);
  }

  lemma GainIsMonotone(l: Limit, a: int, b: int)
    requires WellFormed(l) && a <= b
    ensures Gain(l, a) <= Gain(l, b)
  {
    GainAdds(l, a, b - a);
    assert Seconds(b - a) >= 0.0;
  }

  lemma GainOfNothing(l: Limit)
    requires WellFormed(l)
    ensures Gain(l, 0) == 0.0
  {
    assert Seconds(0) == 0.0;
  }

  /** A whole bucket refills within the time to live. */
  lemma TtlRefills(l: Limit, ms: int)
    requires WellFormed(l) && ms >= 1000 * TtlSeconds(l)
    ensures Gain(l, ms) >= Capacity(l)
  {
    var over := Seconds(ms) - l.window;
    assert over >= 0.0 by {
      assert TtlSeconds(l) as real >= l.window;
      assert Seconds(ms) >= Seconds(1000 * TtlSeconds(l)) == TtlSeconds(l) as real;
    }
    assert l.rate * over >= 0.0;
    assert l.rate * (l.window + over) == l.rate * l.window + l.rate * over;
  }

  // ---- buckets stay within bounds ----

  /** Stored tokens stay within zero and the capacity, and no bucket is from the future. */
  predicate Sound(l: Limit, buckets: Buckets, now: int) {
    forall k :: k in buckets ==> 0.0 <= buckets[k].tokens <= Capacity(l) && buckets[k].updated <= now
  }

  lemma LevelWithinBounds(l: Limit, buckets: Buckets, key: string, now: int)
    requires WellFormed(l) && key in buckets ==> 0.0 <= buckets[key].tokens
    requires WellFormed(l)
    ensures 0.0 <= Level(l, buckets, key, now) <= Capacity(l)
  {
    if key in buckets {
      GainOfNothing(l);
      GainIsMonotone(l, 0, Elapsed(buckets[key], now));
    }
  }

  /** Whatever the clock does, tokens stay within bounds; a clock that never goes back leaves no
      bucket in the future. */
  lemma {:induction false} TokensStayWithinCapacity(l: Limit, run: seq<Request>, n: nat)
    requires WellFormed(l) && n <= |run|
    ensures forall k :: k in After(l, run, n) ==> 0.0 <= After(l, run, n)[k].tokens <= Capacity(l)
    ensures NonDecreasing(run) && 0 < n ==> Sound(l, After(l, run, n), run[n - 1].now)
  {
    if n > 0 {
      TokensStayWithinCapacity(l, run, n - 1);
      var r := run[n - 1];
      LevelWithinBounds(l, Evict(l, After(l, run, n - 1), r.idle, r.now), r.key, r.now);
    }
  }

  // ---- dropping idle buckets is invisible ----

  lemma EvictionKeepsLevel(l: Limit, buckets: Buckets, idle: set<string>, key: string, now: int, later: int)
    requires WellFormed(l) && Sound(l, buckets, now) && now <= later
    ensures Level(l, Evict(l, buckets, idle, now), key, later) == Level(l, buckets, key, later)
  {
    if key in buckets && key !in Evict(l, buckets, idle, now) {
      TtlRefills(l, later - buckets[key].updated);
    }
  }

  function Kept(r: Request): Request { r.(idle := {}) }

  function KeptRun(run: seq<Request>): seq<Request> { seq(|run|, i requires 0 <= i < |run| => Kept(run[i])) }

  /** Two stores give every key the same tokens from now on. */
  ghost predicate Alike(l: Limit, a: Buckets, b: Buckets, now: int)
    requires WellFormed(l)
  {
    forall k, later {:trigger Level(l, a, k, later)} :: now <= later ==> Level(l, a, k, later) == Level(l, b, k, later)
  }

  lemma StepKeepsAlike(l: Limit, a: Buckets, b: Buckets, r: Request)
    requires WellFormed(l) && Sound(l, a, r.now) && Alike(l, a, b, r.now)
    ensures Found(l, a, r) == Found(l, b, Kept(r))
    ensures Alike(l, Step(l, a, r), Step(l, b, Kept(r)), r.now)
  {
    var a', b' := Evict(l, a, r.idle, r.now), Evict(l, b, {}, r.now);
    assert b' == b;
    forall k, later | r.now <= later ensures Level(l, a', k, later) == Level(l, b, k, later) {
      EvictionKeepsLevel(l, a, r.idle, k, r.now, later);
    }
    forall k, later | r.now <= later
      ensures Level(l, Step(l, a, r), k, later) == Level(l, Step(l, b, Kept(r)), k, later)
    {
      assert Level(l, a', k, later) == Level(l, b, k, later);
      assert Level(l, a', r.key, r.now) == Level(l, b, r.key, r.now);
    }
  }

  lemma {:induction false} EvictedRunIsAlike(l: Limit, run: seq<Request>, n: nat, now: int)
    requires WellFormed(l) && NonDecreasing(run) && n <= |run|
    requires n > 0 ==> run[n - 1].now <= now
    ensures Alike(l, After(l, run, n), After(l, KeptRun(run), n), now)
  {
    if n > 0 {
      var r := run[n - 1];
      EvictedRunIsAlike(l, run, n - 1, r.now);
      TokensStayWithinCapacity(l, run, n - 1);
      StepKeepsAlike(l, After(l, run, n - 1), After(l, KeptRun(run), n - 1), r);
    }
  }

  /** Dropping idle buckets, whenever and however many, changes no reply of any run. */
  lemma EvictionIsInvisible(l: Limit, run: seq<Request>, n: nat)
    requires WellFormed(l) && NonDecreasing(run) && n < |run|
    ensures ReplyTo(l, run, n) == ReplyTo(l, KeptRun(run), n)
  {
    EvictedRunIsAlike(l, run, n, run[n].now);
    TokensStayWithinCapacity(l, run, n);
    StepKeepsAlike(l, After(l, run, n), After(l, KeptRun(run), n), run[n]);
  }

  // ---- how many requests pass ----

  /** What the limit promises for an interval that starts with request i and ends at `now`. */
  function Budget(l: Limit, run: seq<Request>, i: nat, now: int): real
    requires WellFormed(l) && i < |run|
  {
    Capacity(l) + Gain(l, now - run[i].now)
  }

  /** The tokens a key has just before request n. */
  function LevelBefore(l: Limit, run: seq<Request>, key: string, n: nat): real
    requires WellFormed(l) && n < |run|
  {
    Level(l, After(l, run, n), key, run[n].now)
  }

  /** From one request to the next a key loses the token it was given and gains by the time passed. */
  lemma LevelMoves(l: Limit, run: seq<Request>, key: string, n: nat)
    requires WellFormed(l) && NonDecreasing(run) && n + 1 < |run|
    ensures LevelBefore(l, run, key, n + 1)
            == Min(Capacity(l), LevelBefore(l, run, key, n) - Served(l, run, key, n) as real
                                + Gain(l, run[n + 1].now - run[n].now))
  {
    var r, now, later := run[n], run[n].now, run[n + 1].now;
    var before := After(l, run, n);
    var evicted := Evict(l, before, r.idle, now);
    TokensStayWithinCapacity(l, run, n);
    EvictionKeepsLevel(l, before, r.idle, key, now, now);
    EvictionKeepsLevel(l, before, r.idle, key, now, later);
    GainOfNothing(l);
    GainIsMonotone(l, 0, later - now);
    if key != r.key && key in evicted {
      GainAdds(l, now - evicted[key].updated, later - now);
    }
  }

  /** An account that gains with a clock up to a capacity, and pays for what is served. */
  predicate IsAccount(capacity: real, clock: seq<real>, level: seq<real>, served: seq<nat>) {
    && |clock| == |level| == |served|
    && (forall n :: 0 <= n < |level| ==> level[n] <= capacity)
    && (forall n :: 0 <= n < |level| - 1 ==>
          level[n + 1] == Min(capacity, level[n] - served[n] as real + clock[n + 1] - clock[n]))
    && (level != [] ==> level[0] == capacity)
  }

  function Sum(served: seq<nat>, i: nat, j: nat): nat
    requires i <= j <= |served|
    decreases j
  {
    if i == j then 0 else Sum(served, i, j - 1) + served[j - 1]
  }

  lemma {:induction false} AccountIsBounded(capacity: real, clock: seq<real>, level: seq<real>, served: seq<nat>, i: nat, n: nat)
    requires IsAccount(capacity, clock, level, served) && i <= n < |level|
    ensures Sum(served, i, n) as real + level[n] <= capacity + clock[n] - clock[i]
    decreases n
  {
    if i < n { AccountIsBounded(capacity, clock, level, served, i, n - 1); }
  }

  /** Some earlier moment accounts for everything missing now. */
  lemma {:induction false} SomeIntervalIsTight(capacity: real, clock: seq<real>, level: seq<real>, served: seq<nat>, n: nat)
    returns (i: nat)
    requires IsAccount(capacity, clock, level, served) && n < |level|
    ensures i <= n && Sum(served, i, n) as real + level[n] == capacity + clock[n] - clock[i]
  {
    if level[n] == capacity {
      i := n;
    } else {
      i := SomeIntervalIsTight(capacity, clock, level, served, n - 1);
    }
  }

  function Clock(l: Limit, run: seq<Request>): seq<real>
    requires WellFormed(l)
  {
    seq(|run|, n requires 0 <= n < |run| => Gain(l, run[n].now))
  }

  function Levels(l: Limit, run: seq<Request>, key: string): seq<real>
    requires WellFormed(l)
  {
    seq(|run|, n requires 0 <= n < |run| => LevelBefore(l, run, key, n))
  }

  function Servings(l: Limit, run: seq<Request>, key: string): seq<nat>
    requires WellFormed(l)
  {
    seq(|run|, n requires 0 <= n < |run| => Served(l, run, key, n))
  }

  lemma KeyIsAccount(l: Limit, run: seq<Request>, key: string)
    requires WellFormed(l) && NonDecreasing(run)
    ensures IsAccount(Capacity(l), Clock(l, run), Levels(l, run, key), Servings(l, run, key))
  {
    forall n | 0 <= n < |run| ensures LevelBefore(l, run, key, n) <= Capacity(l) {
      TokensStayWithinCapacity(l, run, n);
      LevelWithinBounds(l, After(l, run, n), key, run[n].now);
    }
    forall n | 0 <= n < |run| - 1
      ensures LevelBefore(l, run, key, n + 1)
              == Min(Capacity(l), LevelBefore(l, run, key, n) - Served(l, run, key, n) as real
                                  + Gain(l, run[n + 1].now) - Gain(l, run[n].now))
    {
      LevelMoves(l, run, key, n);
      GainAdds(l, run[n].now, run[n + 1].now - run[n].now);
    }
  }

  lemma {:induction false} AllowedIsSum(l: Limit, run: seq<Request>, key: string, i: nat, j: nat)
    requires WellFormed(l) && i <= j <= |run|
    ensures Allowed(l, run, key, i, j) == Sum(Servings(l, run, key), i, j)
    decreases j
  {
    if i < j { AllowedIsSum(l, run, key, i, j - 1); }
  }

  lemma AllowedPlusLevelIsBounded(l: Limit, run: seq<Request>, key: string, i: nat, n: nat)
    requires WellFormed(l) && NonDecreasing(run) && i <= n < |run|
    ensures Allowed(l, run, key, i, n) as real + LevelBefore(l, run, key, n) <= Budget(l, run, i, run[n].now)
  {
    KeyIsAccount(l, run, key);
    AllowedIsSum(l, run, key, i, n);
    AccountIsBounded(Capacity(l), Clock(l, run), Levels(l, run, key), Servings(l, run, key), i, n);
    GainAdds(l, run[i].now, run[n].now - run[i].now);
  }

  lemma RequestFindsLevel(l: Limit, run: seq<Request>, n: nat)
    requires WellFormed(l) && NonDecreasing(run) && n < |run|
    ensures Found(l, After(l, run, n), run[n]) == LevelBefore(l, run, run[n].key, n)
  {
    TokensStayWithinCapacity(l, run, n);
    EvictionKeepsLevel(l, After(l, run, n), run[n].idle, run[n].key, run[n].now, run[n].now);
  }

  lemma ServedOnlyTokens(l: Limit, run: seq<Request>, key: string, n: nat)
    requires WellFormed(l) && NonDecreasing(run) && n < |run|
    ensures Served(l, run, key, n) as real <= LevelBefore(l, run, key, n)
  {
    RequestFindsLevel(l, run, n);
    TokensStayWithinCapacity(l, run, n);
    LevelWithinBounds(l, After(l, run, n), key, run[n].now);
  }

  /** In any interval of a run at most capacity plus rate times its length are allowed. */
  lemma AllowedIsBounded(l: Limit, run: seq<Request>, key: string, i: nat, j: nat)
    requires WellFormed(l) && NonDecreasing(run) && i < j <= |run|
    ensures Allowed(l, run, key, i, j) as real <= Budget(l, run, i, run[j - 1].now)
  {
    AllowedPlusLevelIsBounded(l, run, key, i, j - 1);
    ServedOnlyTokens(l, run, key, j - 1);
    assert Allowed(l, run, key, i, j) == Allowed(l, run, key, i, j - 1) + Served(l, run, key, j - 1);
  }

  /** A denied request would have broken the bound of some interval. */
  lemma DeniedByBudget(l: Limit, run: seq<Request>, n: nat) returns (i: nat)
    requires WellFormed(l) && NonDecreasing(run) && n < |run| && !ReplyTo(l, run, n).allowed
    ensures i <= n && Allowed(l, run, run[n].key, i, n) as real + 1.0 > Budget(l, run, i, run[n].now)
  {
    var key := run[n].key;
    RequestFindsLevel(l, run, n);
    KeyIsAccount(l, run, key);
    i := SomeIntervalIsTight(Capacity(l), Clock(l, run), Levels(l, run, key), Servings(l, run, key), n);
    AllowedIsSum(l, run, key, i, n);
    GainAdds(l, run[i].now, run[n].now - run[i].now);
  }

  lemma AllowedByBudget(l: Limit, run: seq<Request>, i: nat, n: nat)
    requires WellFormed(l) && NonDecreasing(run) && i <= n < |run| && ReplyTo(l, run, n).allowed
    ensures Allowed(l, run, run[n].key, i, n) as real + 1.0 <= Budget(l, run, i, run[n].now)
  {
    RequestFindsLevel(l, run, n);
    AllowedPlusLevelIsBounded(l, run, run[n].key, i, n);
  }

  /** A request is denied only when allowing it would break the bound of some interval: the limiter
      allows exactly what the bound permits. */
  lemma AllowedIffWithinEveryBudget(l: Limit, run: seq<Request>, n: nat)
    requires WellFormed(l) && NonDecreasing(run) && n < |run|
    ensures ReplyTo(l, run, n).allowed
            <==> forall i :: 0 <= i <= n ==>
                   Allowed(l, run, run[n].key, i, n) as real + 1.0 <= Budget(l, run, i, run[n].now)
  {
    if ReplyTo(l, run, n).allowed {
      forall i | 0 <= i <= n
        ensures Allowed(l, run, run[n].key, i, n) as real + 1.0 <= Budget(l, run, i, run[n].now)
      {
        AllowedByBudget(l, run, i, n);
      }
    } else {
      var i := DeniedByBudget(l, run, n);
    }
  }

  // ---- what a denied caller is told ----

  lemma CeilingIsLeast(x: real)
    ensures Ceiling(x) as real - 1.0 < x <= Ceiling(x) as real
  {
  }

  lemma QuotientCompares(x: real, rate: real, seconds: real)
    requires rate > 0.0
    ensures x / rate <= seconds <==> x <= rate * seconds
  {
    assert x == rate * (x / rate);
    if x / rate <= seconds {
      assert rate * (seconds - x / rate) >= 0.0;
      assert rate * seconds == rate * (x / rate) + rate * (seconds - x / rate);
    } else {
      assert rate * (x / rate - seconds) > 0.0;
      assert rate * (x / rate) == rate * seconds + rate * (x / rate - seconds);
    }
  }

  lemma AdviceIsLeast(rate: real, missing: real, ms: nat)
    requires rate > 0.0 && missing > 0.0
    ensures var advised := Ceiling(missing / rate);
            && advised >= 1
            && (ms >= 1000 * advised ==> missing <= rate * Seconds(ms))
            && (ms <= 1000 * (advised - 1) ==> rate * Seconds(ms) < missing)
  {
    CeilingIsLeast(missing / rate);
    QuotientCompares(missing, rate, 0.0);
    QuotientCompares(missing, rate, Seconds(ms));
  }

  lemma RetryFinds(l: Limit, buckets: Buckets, r: Request, retry: Request)
    requires WellFormed(l) && Sound(l, buckets, r.now) && Found(l, buckets, r) < 1.0
    requires retry.key == r.key && retry.now >= r.now
    ensures Found(l, Step(l, buckets, r), retry)
            == Min(Capacity(l), Found(l, buckets, r) + Gain(l, retry.now - r.now))
  {
    LevelWithinBounds(l, Evict(l, buckets, r.idle, r.now), r.key, r.now);
    EvictionKeepsLevel(l, Step(l, buckets, r), retry.idle, r.key, retry.now, retry.now);
  }

  lemma AdviceDecides(l: Limit, found: real, again: real, ms: nat)
    requires WellFormed(l) && found < 1.0 && again == Min(Capacity(l), found + Gain(l, ms))
    ensures ReplyFor(l, found).retryAfter >= 1
    ensures ms >= 1000 * ReplyFor(l, found).retryAfter ==> again >= 1.0
    ensures ms <= 1000 * (ReplyFor(l, found).retryAfter - 1) ==> again < 1.0
  {
    AdviceIsLeast(l.rate, 1.0 - found, ms);
  }

  /** After a denial the same key's next request, if no other comes first, is allowed once the
      advised seconds have passed, and is denied when a second less or more is left out. */
  lemma RetryAfterIsSufficientAndTight(l: Limit, buckets: Buckets, r: Request, retry: Request, found: real, again: real)
    requires WellFormed(l) && Sound(l, buckets, r.now) && retry.key == r.key && retry.now >= r.now
    requires found == Found(l, buckets, r) < 1.0 && again == Found(l, Step(l, buckets, r), retry)
    ensures !ReplyFor(l, found).allowed && ReplyFor(l, found).retryAfter >= 1
    ensures retry.now - r.now >= 1000 * ReplyFor(l, found).retryAfter ==> again >= 1.0 && ReplyFor(l, again).allowed
    ensures retry.now - r.now <= 1000 * (ReplyFor(l, found).retryAfter - 1) ==> again < 1.0 && !ReplyFor(l, again).allowed
  {
    RetryFinds(l, buckets, r, retry);
    AdviceDecides(l, found, again, retry.now - r.now);
  }

  /** A burst of n requests of one key at one instant. */
  function Burst(l: Limit, buckets: Buckets, key: string, now: int, n: nat): Buckets
    requires WellFormed(l)
  {
    if n == 0 then buckets else Charge(l, Burst(l, buckets, key, now, n - 1), key, now)
  }

  /** `remaining` is the number of further requests that would be allowed at that instant. */
  lemma {:induction false} RemainingIsExact(l: Limit, buckets: Buckets, key: string, now: int, n: nat)
    requires WellFormed(l) && Sound(l, buckets, now)
    ensures var remaining := ReplyFor(l, Level(l, buckets, key, now)).remaining;
            var after := Charge(l, buckets, key, now);
            var level := Level(l, Burst(l, after, key, now, n), key, now);
            && (n <= remaining ==> level == Level(l, after, key, now) - n as real)
            && (n < remaining ==> ReplyFor(l, level).allowed)
            && (n == remaining ==> !ReplyFor(l, level).allowed)
  {
    GainOfNothing(l);
    LevelWithinBounds(l, buckets, key, now);
    if n > 0 { RemainingIsExact(l, buckets, key, now, n - 1); }
  }

  /** A clock set back by an hour gives a spent bucket everything again: the bound needs a clock that
      never goes back. */
  lemma ClockSetBackRefills()
    ensures var l := NewLimit(1, 60.0);
            var run := [Request("u", 3600000, {}), Request("u", 0, {}), Request("u", 3600000, {})];
            && ReplyTo(l, run, 0).allowed && ReplyTo(l, run, 2).allowed
            && run[0].now == run[2].now && Budget(l, run, 0, run[2].now) == 1.0
  {
    var l := NewLimit(1, 60.0);
    var run := [Request("u", 3600000, {}), Request("u", 0, {}), Request("u", 3600000, {})];
    assert After(l, run, 1)["u"] == Bucket(0.0, 3600000);
    assert After(l, run, 2)["u"] == Bucket(0.0, 0);
    TtlRefills(l, 3600000);
  }

  // ---- the limiter over its store ----

  class Store {
    var buckets: Buckets

    constructor ()
      ensures buckets == map[]
    {
      buckets := map[];
    }

    /** The store drops keys at the end of their time to live. No request from now on can tell. */
    method Expire(l: Limit, idle: set<string>, now: int)
      requires WellFormed(l)
      modifies this
      ensures forall k :: k in buckets ==> k in old(buckets) && buckets[k] == old(buckets)[k]
      ensures forall k :: k in old(buckets) && k !in buckets ==> k in idle && now - old(buckets)[k].updated >= 1000 * TtlSeconds(l)
      ensures forall k :: k in idle && k in buckets ==> now - buckets[k].updated < 1000 * TtlSeconds(l)
      ensures Sound(l, old(buckets), now) ==> Alike(l, buckets, old(buckets), now)
    {
      if Sound(l, buckets, now) {
        forall k, later | now <= later ensures Level(l, Evict(l, buckets, idle, now), k, later) == Level(l, buckets, k, later) {
          EvictionKeepsLevel(l, buckets, idle, k, now, later);
        }
      }
      buckets := Evict(l, buckets, idle, now);
    }

    method Check(l: Limit, key: string, now: int) returns (reply: Reply)
      requires WellFormed(l)
      modifies this
      ensures buckets == Charge(l, old(buckets), key, now)
      ensures reply == ReplyFor(l, Level(l, old(buckets), key, now))
    {
      var rate, capacity := l.rate, l.maximum as real;
      var tokens := capacity;
      if key in buckets {
        var data := buckets[key];
        var elapsed := Seconds(if now > data.updated then now - data.updated else 0);
        tokens := Min(capacity, data.tokens + rate * elapsed);
      }
      assert tokens == Level(l, buckets, key, now);
      if tokens >= 1.0 {
        tokens := tokens - 1.0;
        reply := Reply(true, tokens.Floor, 0);
      } else {
        var retry := Ceiling((1.0 - tokens) / rate);
        if retry < 1 { retry := 1; }
        reply := Reply(false, tokens.Floor, retry);
      }
      buckets := buckets[key := Bucket(tokens, now)];
    }
  }
}
