/**
 Quotes and one-minute candles that the market worker writes in live mode
 (python-services/market-worker/worker.py, QuoteWriter.write, volume_delta, make_candle).

 One subscription symbol and its aliases form a family; every write goes to all of them. Times are
 microseconds since 1970, UTC; prices are paise.
 */
module QuoteWriter {
  import opened Wrappers

  const SECOND := 1000000
  const MINUTE := 60
  const DAY := 86400

  /** One call of write: the exchange time, the clock when it is made, the cumulative volume of the
      day, and whether it may build history. */
  datatype Tick = Tick(live: bool, price: int, volume: int, at: nat, clock: int, build: bool)

  datatype Candle = Candle(timestamp: int, open: int, high: int, low: int, close: int, volume: int)

  function Max(x: int, y: int): int { if x >= y then x else y }

  function Min(x: int, y: int): int { if x <= y then x else y }

  /** The start of the minute, in seconds. */
  function Bucket(t: Tick): int { t.at / SECOND / MINUTE * MINUTE }

  function Date(t: Tick): int { t.at / SECOND / DAY }

  function Cumulative(t: Tick): int { Max(t.volume, 0) }

  /** What one symbol has: the time of its last quote, its last day and cumulative volume, and its
      candles, the newest first. */
  datatype State = State(last: Option<nat>, daily: Option<(int, int)>, history: seq<Candle>)

  const EMPTY := State(None, None, [])

  predicate Accepts(last: Option<nat>, t: Tick) {
    t.live && t.price > 0 && t.at <= t.clock + 5 * SECOND && (last.Some? ==> last.value <= t.at)
  }

  function Delta(daily: Option<(int, int)>, t: Tick): int {
    if daily.None? || daily.value.0 != Date(t) then Cumulative(t)
    else Max(Cumulative(t) - daily.value.1, 0)
  }

  predicate SameMinute(latest: Option<Candle>, t: Tick) {
    latest.Some? && latest.value.timestamp == Bucket(t)
  }

  function MakeCandle(latest: Option<Candle>, t: Tick, volume: int): Candle {
    if SameMinute(latest, t) then
      latest.value.(high := Max(latest.value.high, t.price), low := Min(latest.value.low, t.price),
                    close := t.price, volume := latest.value.volume + volume)
    else Candle(Bucket(t), t.price, t.price, t.price, t.price, volume)
  }

  function Head(history: seq<Candle>): Option<Candle> {
    if history == [] then None else Some(history[0])
  }

  /** The newest candle is replaced within its minute, and joined by a new one after it. */
  function Extend(history: seq<Candle>, t: Tick, volume: int): seq<Candle> {
    var candle := MakeCandle(Head(history), t, volume);
    if SameMinute(Head(history), t) then history[0 := candle] else [candle] + history
  }

  /** LTRIM key 0 max-1: a maximum of zero trims nothing. */
  function Trim(history: seq<Candle>, max: nat): seq<Candle> {
    if max == 0 || |history| <= max then history else history[..max]
  }

  function Step(s: State, t: Tick, max: nat): State {
    if !Accepts(s.last, t) then s
    else if !t.build then s.(last := Some(t.at))
    else State(Some(t.at), Some((Date(t), Cumulative(t))), Trim(Extend(s.history, t, Delta(s.daily, t)), max))
  }

  function After(ticks: seq<Tick>, max: nat): State {
    if ticks == [] then EMPTY else Step(After(ticks[..|ticks| - 1], max), ticks[|ticks| - 1], max)
  }

  // ---- the ticks that count ----

  /** The time of the last quote accepted. */
  function LastAccepted(ticks: seq<Tick>): Option<nat> {
    if ticks == [] then None
    else
      var before, t := LastAccepted(ticks[..|ticks| - 1]), ticks[|ticks| - 1];
      if Accepts(before, t) then Some(t.at) else before
  }

  /** The accepted ticks that build history, in order. */
  function Built(ticks: seq<Tick>): seq<Tick> {
    if ticks == [] then []
    else
      var init, t := ticks[..|ticks| - 1], ticks[|ticks| - 1];
      Built(init) + if Accepts(LastAccepted(init), t) && t.build then [t] else []
  }

  predicate InOrder(built: seq<Tick>) {
    && (forall i, j :: 0 <= i <= j < |built| ==> built[i].at <= built[j].at)
    && (forall i :: 0 <= i < |built| ==> built[i].price > 0)
  }

  /** What a tick adds to its day's volume, given the tick before it. */
  function DeltaAt(built: seq<Tick>, i: nat): int
    requires i < |built|
  {
    if i == 0 || Date(built[i - 1]) != Date(built[i]) then Cumulative(built[i])
    else Max(Cumulative(built[i]) - Cumulative(built[i - 1]), 0)
  }

  /** All candles of a sequence of ticks, without a limit. */
  function Candles(built: seq<Tick>): seq<Candle> {
    if built == [] then []
    else Extend(Candles(built[..|built| - 1]), built[|built| - 1], DeltaAt(built, |built| - 1))
  }

  lemma {:induction false} BuiltIsInOrder(ticks: seq<Tick>)
    ensures InOrder(Built(ticks))
    ensures Built(ticks) != [] ==>
              LastAccepted(ticks).Some? && Built(ticks)[|Built(ticks)| - 1].at <= LastAccepted(ticks).value
  {
    if ticks != [] { BuiltIsInOrder(ticks[..|ticks| - 1]); }
  }

  lemma ExtendOfTrim(history: seq<Candle>, t: Tick, volume: int, max: nat)
    ensures Trim(Extend(Trim(history, max), t, volume), max) == Trim(Extend(history, t, volume), max)
  {
    assert Head(Trim(history, max)) == Head(history);
  }

  predicate Follows(s: State, built: seq<Tick>, max: nat) {
    && s.history == Trim(Candles(built), max)
    && s.daily == if built == [] then None else Some((Date(built[|built| - 1]), Cumulative(built[|built| - 1])))
  }

  lemma NextCandle(s: State, built: seq<Tick>, t: Tick, max: nat)
    requires Follows(s, built, max) && Accepts(s.last, t) && t.build
    ensures Follows(Step(s, t, max), built + [t], max)
  {
    assert (built + [t])[..|built|] == built;
    assert Delta(s.daily, t) == DeltaAt(built + [t], |built|);
    ExtendOfTrim(Candles(built), t, DeltaAt(built + [t], |built|), max);
  }

  /** The running state, with its head cache and its trimming, holds exactly the newest candles. */
  lemma {:induction false} HistoryIsNewestCandles(ticks: seq<Tick>, max: nat)
    ensures After(ticks, max).last == LastAccepted(ticks)
    ensures Follows(After(ticks, max), Built(ticks), max)
  {
    if ticks != [] {
      var init, t := ticks[..|ticks| - 1], ticks[|ticks| - 1];
      HistoryIsNewestCandles(init, max);
      if Accepts(LastAccepted(init), t) && t.build {
        NextCandle(After(init, max), Built(init), t, max);
      } else {
        assert Built(init) + [] == Built(init);
      }
    }
  }

  // ---- the candles ----

  /** The positions of a minute's ticks. */
  function Minute(built: seq<Tick>, timestamp: int): seq<nat> {
    if built == [] then []
    else
      Minute(built[..|built| - 1], timestamp)
      + if Bucket(built[|built| - 1]) == timestamp then [|built| - 1] else []
  }

  predicate Within(at: seq<nat>, n: nat) {
    forall k :: 0 <= k < |at| ==> at[k] < n
  }

  function DeltaSum(built: seq<Tick>, at: seq<nat>): int
    requires Within(at, |built|)
  {
    if at == [] then 0 else DeltaSum(built, at[..|at| - 1]) + DeltaAt(built, at[|at| - 1])
  }

  /** First, highest, lowest and last price of the ticks at these positions, and the sum of what they
      add to the volume. */
  ghost predicate Summarises(c: Candle, built: seq<Tick>, at: seq<nat>) {
    && at != [] && Within(at, |built|)
    && c.open == built[at[0]].price && c.close == built[at[|at| - 1]].price
    && (forall k :: 0 <= k < |at| ==> c.low <= built[at[k]].price <= c.high)
    && (exists k :: 0 <= k < |at| && built[at[k]].price == c.high)
    && (exists k :: 0 <= k < |at| && built[at[k]].price == c.low)
    && c.volume == DeltaSum(built, at)
  }

  predicate Descending(history: seq<Candle>) {
    forall i, j :: 0 <= i < j < |history| ==> history[i].timestamp > history[j].timestamp
  }

  lemma BucketIsMonotone(s: Tick, t: Tick)
    requires s.at <= t.at
    ensures Bucket(s) <= Bucket(t) && Date(s) <= Date(t)
  {
    assert s.at / SECOND <= t.at / SECOND;
  }

  lemma {:induction false} CandlesDescend(built: seq<Tick>)
    requires InOrder(built)
    ensures Descending(Candles(built))
    ensures built != [] ==> Candles(built) != [] && Candles(built)[0].timestamp == Bucket(built[|built| - 1])
    ensures built == [] ==> Candles(built) == []
  {
    if built != [] {
      var init := built[..|built| - 1];
      CandlesDescend(init);
      if init != [] { BucketIsMonotone(init[|init| - 1], built[|built| - 1]); }
    }
  }

  lemma MinuteSnoc(built: seq<Tick>, t: Tick, timestamp: int)
    ensures Minute(built + [t], timestamp)
            == Minute(built, timestamp) + if Bucket(t) == timestamp then [|built|] else []
  {
    assert (built + [t])[..|built|] == built;
  }

  /** The positions of a minute are those of all ticks in it. */
  lemma {:induction false} MinuteIsExact(built: seq<Tick>, timestamp: int, i: nat)
    ensures i in Minute(built, timestamp) <==> i < |built| && Bucket(built[i]) == timestamp
  {
    if built != [] {
      var init := built[..|built| - 1];
      MinuteIsExact(init, timestamp, i);
      MinuteSnoc(init, built[|built| - 1], timestamp);
      assert built == init + [built[|built| - 1]];
    }
  }

  lemma {:induction false} DeltaSumOfPrefix(built: seq<Tick>, t: Tick, at: seq<nat>)
    requires Within(at, |built|)
    ensures DeltaSum(built + [t], at) == DeltaSum(built, at)
  {
    if at != [] {
      var last := at[|at| - 1];
      assert (built + [t])[last] == built[last];
      assert last > 0 ==> (built + [t])[last - 1] == built[last - 1];
      DeltaSumOfPrefix(built, t, at[..|at| - 1]);
    }
  }

  lemma StillSummarises(c: Candle, built: seq<Tick>, t: Tick, at: seq<nat>)
    requires Summarises(c, built, at)
    ensures Summarises(c, built + [t], at)
  {
    DeltaSumOfPrefix(built, t, at);
    assert forall k :: 0 <= k < |at| ==> (built + [t])[at[k]] == built[at[k]];
  }

  lemma DeltaSumSnoc(built: seq<Tick>, at: seq<nat>, i: nat)
    requires i < |built| && Within(at, |built|)
    ensures Within(at + [i], |built|) && DeltaSum(built, at + [i]) == DeltaSum(built, at) + DeltaAt(built, i)
  {
    assert (at + [i])[..|at|] == at;
  }

  /** A candle of some ticks and one tick more. */
  lemma OneMoreSummarises(c: Candle, all: seq<Tick>, at: seq<nat>, i: nat, joined: Candle)
    requires Summarises(c, all, at) && i < |all|
    requires joined == c.(high := Max(c.high, all[i].price), low := Min(c.low, all[i].price), close := all[i].price,
                          volume := c.volume + DeltaAt(all, i))
    ensures Summarises(joined, all, at + [i])
  {
    DeltaSumSnoc(all, at, i);
    var h :| 0 <= h < |at| && all[at[h]].price == c.high;
    var l :| 0 <= l < |at| && all[at[l]].price == c.low;
    var to := at + [i];
    assert to[h] == at[h] && to[l] == at[l] && to[|at|] == i;
    assert all[to[if joined.high == c.high then h else |at|]].price == joined.high;
    assert all[to[if joined.low == c.low then l else |at|]].price == joined.low;
  }

  lemma JoinSummarises(c: Candle, built: seq<Tick>, t: Tick, at: seq<nat>)
    requires Summarises(c, built, at) && c.timestamp == Bucket(t)
    ensures Summarises(MakeCandle(Some(c), t, DeltaAt(built + [t], |built|)), built + [t], at + [|built|])
  {
    StillSummarises(c, built, t, at);
    OneMoreSummarises(c, built + [t], at, |built|, MakeCandle(Some(c), t, DeltaAt(built + [t], |built|)));
  }

  lemma OneSummarises(all: seq<Tick>, i: nat, c: Candle)
    requires i < |all|
    requires c.open == c.high == c.low == c.close == all[i].price && c.volume == DeltaAt(all, i)
    ensures Summarises(c, all, [i])
  {
    var at: seq<nat> := [i];
    assert at[..0] == [];
    assert all[at[0]].price == c.high && all[at[0]].price == c.low;
  }

  ghost predicate AllSummarise(history: seq<Candle>, built: seq<Tick>) {
    forall k :: 0 <= k < |history| ==> Summarises(history[k], built, Minute(built, history[k].timestamp))
  }

  lemma {:induction false} NoTickInMinute(built: seq<Tick>, timestamp: int)
    requires InOrder(built) && (built != [] ==> Bucket(built[|built| - 1]) < timestamp)
    ensures Minute(built, timestamp) == []
  {
    if built != [] {
      var init := built[..|built| - 1];
      if init != [] { BucketIsMonotone(init[|init| - 1], built[|built| - 1]); }
      NoTickInMinute(init, timestamp);
    }
  }

  lemma TailStillSummarises(history: seq<Candle>, built: seq<Tick>, t: Tick, k: nat)
    requires AllSummarise(history, built) && k < |history| && history[k].timestamp != Bucket(t)
    ensures Summarises(history[k], built + [t], Minute(built + [t], history[k].timestamp))
  {
    var at := Minute(built, history[k].timestamp);
    MinuteSnoc(built, t, history[k].timestamp);
    assert at + [] == at;
    StillSummarises(history[k], built, t, at);
  }

  lemma HeadSummarises(history: seq<Candle>, built: seq<Tick>, t: Tick)
    requires InOrder(built) && AllSummarise(history, built)
    requires if built == [] then history == []
             else history != [] && history[0].timestamp == Bucket(built[|built| - 1]) <= Bucket(t)
    ensures Summarises(MakeCandle(Head(history), t, DeltaAt(built + [t], |built|)), built + [t],
                       Minute(built + [t], Bucket(t)))
  {
    var candle := MakeCandle(Head(history), t, DeltaAt(built + [t], |built|));
    MinuteSnoc(built, t, Bucket(t));
    if SameMinute(Head(history), t) {
      JoinSummarises(history[0], built, t, Minute(built, Bucket(t)));
    } else {
      NoTickInMinute(built, Bucket(t));
      assert Minute(built + [t], Bucket(t)) == [|built|];
      OneSummarises(built + [t], |built|, candle);
    }
  }

  lemma ExtendKeepsTail(history: seq<Candle>, t: Tick, volume: int, k: nat) returns (from: nat)
    requires Descending(history) && (history != [] ==> history[0].timestamp <= Bucket(t)) && 0 < k < |Extend(history, t, volume)|
    ensures from < |history| && Extend(history, t, volume)[k] == history[from] && history[from].timestamp != Bucket(t)
  {
    from := if SameMinute(Head(history), t) then k else k - 1;
  }

  lemma ExtendSummarises(history: seq<Candle>, built: seq<Tick>, t: Tick)
    requires InOrder(built) && AllSummarise(history, built) && Descending(history)
    requires if built == [] then history == []
             else history != [] && history[0].timestamp == Bucket(built[|built| - 1]) <= Bucket(t)
    ensures AllSummarise(Extend(history, t, DeltaAt(built + [t], |built|)), built + [t])
  {
    HeadSummarises(history, built, t);
    var volume := DeltaAt(built + [t], |built|);
    var more := Extend(history, t, volume);
    forall k: nat | k < |more| ensures Summarises(more[k], built + [t], Minute(built + [t], more[k].timestamp)) {
      if k > 0 {
        var from := ExtendKeepsTail(history, t, volume, k);
        TailStillSummarises(history, built, t, from);
      }
    }
  }

  lemma {:induction false} CandlesSummarise(built: seq<Tick>)
    requires InOrder(built)
    ensures AllSummarise(Candles(built), built)
  {
    if built != [] {
      var init := built[..|built| - 1];
      assert built == init + [built[|built| - 1]];
      CandlesSummarise(init);
      CandlesDescend(init);
      if init != [] { BucketIsMonotone(init[|init| - 1], built[|built| - 1]); }
      ExtendSummarises(Candles(init), init, built[|built| - 1]);
    }
  }

  /** In every run from an empty history: one candle a minute, the newest first, each the first,
      highest, lowest and last price of its minute's accepted ticks with the volume they added. */
  lemma HistoryIsRight(ticks: seq<Tick>, max: nat)
    ensures Descending(After(ticks, max).history)
    ensures AllSummarise(After(ticks, max).history, Built(ticks))
  {
    HistoryIsNewestCandles(ticks, max);
    BuiltIsInOrder(ticks);
    CandlesDescend(Built(ticks));
    CandlesSummarise(Built(ticks));
    TrimKeeps(Candles(Built(ticks)), Built(ticks), max);
  }

  lemma TrimKeeps(history: seq<Candle>, built: seq<Tick>, max: nat)
    requires Descending(history) && AllSummarise(history, built)
    ensures Descending(Trim(history, max)) && AllSummarise(Trim(history, max), built)
  {
  }

  /** No minute with a tick is without its candle until it is trimmed away. */
  lemma {:induction false} EveryMinuteHasCandle(built: seq<Tick>, i: nat)
    requires InOrder(built) && i < |built|
    ensures exists k :: 0 <= k < |Candles(built)| && Candles(built)[k].timestamp == Bucket(built[i])
  {
    var init := built[..|built| - 1];
    CandlesDescend(built);
    if i < |init| {
      EveryMinuteHasCandle(init, i);
      var k :| 0 <= k < |Candles(init)| && Candles(init)[k].timestamp == Bucket(init[i]);
      var shift := if SameMinute(Head(Candles(init)), built[|built| - 1]) then k else k + 1;
      assert Candles(built)[shift].timestamp == Bucket(built[i]);
    }
  }

  // ---- volume ----

  function DayOf(c: Candle): int { c.timestamp / DAY }

  function DayVolume(history: seq<Candle>, day: int): int {
    if history == [] then 0
    else (if DayOf(history[0]) == day then history[0].volume else 0) + DayVolume(history[1..], day)
  }

  /** How far the cumulative volume fell back within a day, in all. */
  function Drops(built: seq<Tick>, day: int): int {
    if |built| < 2 then 0
    else
      var s, t := built[|built| - 2], built[|built| - 1];
      Drops(built[..|built| - 1], day)
      + if Date(s) == Date(t) == day then Max(Cumulative(s) - Cumulative(t), 0) else 0
  }

  /** The day's last cumulative volume, nothing before its first tick. */
  function LastCumulative(built: seq<Tick>, day: int): int {
    if built == [] then 0
    else if Date(built[|built| - 1]) == day then Cumulative(built[|built| - 1])
    else LastCumulative(built[..|built| - 1], day)
  }

  lemma MinuteWithinDay(t: Tick)
    ensures Bucket(t) / DAY == Date(t)
  {
    var seconds := t.at / SECOND;
    var minute := seconds / MINUTE;
    assert seconds == MINUTE * minute + seconds % MINUTE;
    assert minute * MINUTE == DAY * (minute / 1440) + MINUTE * (minute % 1440);
    assert seconds / DAY == minute / 1440;
  }

  lemma ExtendAddsVolume(history: seq<Candle>, t: Tick, volume: int, day: int)
    ensures DayVolume(Extend(history, t, volume), day)
            == DayVolume(history, day) + if Date(t) == day then volume else 0
  {
    MinuteWithinDay(t);
    var candle := MakeCandle(Head(history), t, volume);
    if SameMinute(Head(history), t) {
      assert history[0 := candle][1..] == history[1..];
    } else {
      assert ([candle] + history)[1..] == history;
    }
  }

  lemma {:induction false} NothingBeforeDay(built: seq<Tick>, day: int)
    requires InOrder(built) && (built != [] ==> Date(built[|built| - 1]) < day)
    ensures LastCumulative(built, day) == 0
  {
    if built != [] {
      var init := built[..|built| - 1];
      if init != [] { BucketIsMonotone(init[|init| - 1], built[|built| - 1]); }
      NothingBeforeDay(init, day);
    }
  }

  lemma {:induction false} DropsAreNotNegative(built: seq<Tick>, day: int)
    ensures Drops(built, day) >= 0
  {
    if |built| >= 2 { DropsAreNotNegative(built[..|built| - 1], day); }
  }

  /** A day's candles add up to its last cumulative volume and all it ever fell back by. */
  lemma {:induction false} DayVolumeIsLastPlusDrops(built: seq<Tick>, day: int)
    requires InOrder(built)
    ensures DayVolume(Candles(built), day) == LastCumulative(built, day) + Drops(built, day)
  {
    if built != [] {
      var init, t := built[..|built| - 1], built[|built| - 1];
      DayVolumeIsLastPlusDrops(init, day);
      ExtendAddsVolume(Candles(init), t, DeltaAt(built, |built| - 1), day);
      if init != [] {
        BucketIsMonotone(init[|init| - 1], t);
        assert init[|init| - 1] == built[|built| - 2];
      }
      if Date(t) == day && (init == [] || Date(init[|init| - 1]) != day) { NothingBeforeDay(init, day); }
    }
  }

  predicate NeverFalls(built: seq<Tick>, day: int) {
    forall i :: 0 < i < |built| && Date(built[i - 1]) == day && Date(built[i]) == day ==>
      Cumulative(built[i - 1]) <= Cumulative(built[i])
  }

  lemma {:induction false} DropsAreZeroIffNeverFalls(built: seq<Tick>, day: int)
    ensures Drops(built, day) == 0 <==> NeverFalls(built, day)
  {
    if |built| >= 2 {
      var init := built[..|built| - 1];
      DropsAreZeroIffNeverFalls(init, day);
      DropsAreNotNegative(init, day);
      NeverFallsSnoc(init, built[|built| - 1], day);
      assert built == init + [built[|built| - 1]];
    }
  }

  lemma NeverFallsSnoc(built: seq<Tick>, t: Tick, day: int)
    requires built != []
    ensures var s := built[|built| - 1];
            NeverFalls(built + [t], day)
            <==> NeverFalls(built, day) && (Date(s) == day && Date(t) == day ==> Cumulative(s) <= Cumulative(t))
  {
    var all, n := built + [t], |built|;
    assert all[n - 1] == built[n - 1] && all[n] == t;
    if NeverFalls(all, day) {
      forall i | 0 < i < n && Date(built[i - 1]) == day && Date(built[i]) == day
        ensures Cumulative(built[i - 1]) <= Cumulative(built[i])
      {
        assert all[i - 1] == built[i - 1] && all[i] == built[i];
      }
    }
  }

  /** A day's candles, all of them kept, add up to its last cumulative volume if and only if that
      volume never fell during the day. */
  lemma VolumeAddsUpIffNeverFalls(built: seq<Tick>, day: int)
    requires InOrder(built)
    ensures DayVolume(Candles(built), day) == LastCumulative(built, day) <==> NeverFalls(built, day)
  {
    DayVolumeIsLastPlusDrops(built, day);
    DropsAreZeroIffNeverFalls(built, day);
  }

  // ---- which ticks count, on their fields ----

  /** A live tick with a price, at most five seconds ahead of the clock, is accepted unless an accepted tick
      before it is later. */
  predicate Counts(ticks: seq<Tick>, i: nat)
    requires i < |ticks|
    decreases i
  {
    && ticks[i].live && ticks[i].price > 0 && ticks[i].at <= ticks[i].clock + 5000000
    && forall j :: 0 <= j < i && Counts(ticks, j) ==> ticks[j].at <= ticks[i].at
  }

  lemma {:induction false} CountsInPrefix(ticks: seq<Tick>, t: Tick, i: nat)
    requires i < |ticks|
    ensures Counts(ticks + [t], i) <==> Counts(ticks, i)
    decreases i
  {
    assert (ticks + [t])[i] == ticks[i];
    forall j: nat | j < i ensures (Counts(ticks + [t], j) <==> Counts(ticks, j)) && (ticks + [t])[j] == ticks[j] {
      CountsInPrefix(ticks, t, j);
    }
  }

  /** The time of the last quote is that of an accepted tick, and no accepted tick is later. */
  predicate IsLastTime(ticks: seq<Tick>, last: Option<nat>) {
    && (last.Some? ==> exists i :: 0 <= i < |ticks| && Counts(ticks, i) && ticks[i].at == last.value)
    && (forall i :: 0 <= i < |ticks| && Counts(ticks, i) ==> last.Some? && ticks[i].at <= last.value)
  }

  lemma AcceptsIffCounts(ticks: seq<Tick>, t: Tick, last: Option<nat>)
    requires IsLastTime(ticks, last)
    ensures Accepts(last, t) <==> Counts(ticks + [t], |ticks|)
  {
    var all := ticks + [t];
    forall i: nat | i < |ticks| ensures (Counts(all, i) <==> Counts(ticks, i)) && all[i] == ticks[i] {
      CountsInPrefix(ticks, t, i);
    }
    assert all[|ticks|] == t;
    if last.Some? {
      var i :| 0 <= i < |ticks| && Counts(ticks, i) && ticks[i].at == last.value;
      assert Counts(all, i) && all[i].at == last.value;
    }
  }

  lemma LastTimeSnoc(ticks: seq<Tick>, t: Tick, last: Option<nat>)
    requires IsLastTime(ticks, last)
    ensures IsLastTime(ticks + [t], if Counts(ticks + [t], |ticks|) then Some(t.at) else last)
  {
    var all := ticks + [t];
    forall i: nat | i < |ticks| ensures (Counts(all, i) <==> Counts(ticks, i)) && all[i] == ticks[i] {
      CountsInPrefix(ticks, t, i);
    }
    if Counts(all, |ticks|) {
      assert all[|ticks|].at == t.at;
    } else if last.Some? {
      var i :| 0 <= i < |ticks| && Counts(ticks, i) && ticks[i].at == last.value;
      assert Counts(all, i) && all[i].at == last.value;
    }
  }

  lemma {:induction false} LastAcceptedCounts(ticks: seq<Tick>)
    ensures IsLastTime(ticks, LastAccepted(ticks))
  {
    if ticks != [] {
      var init, t := ticks[..|ticks| - 1], ticks[|ticks| - 1];
      assert init + [t] == ticks;
      LastAcceptedCounts(init);
      AcceptsIffCounts(init, t, LastAccepted(init));
      LastTimeSnoc(init, t, LastAccepted(init));
    }
  }

  /** A tick is the last quote, and joins those that build history if it may, if and only if it counts;
      otherwise nothing changes. */
  lemma TickIsAcceptedIff(ticks: seq<Tick>, t: Tick, max: nat)
    ensures var all, before, after := ticks + [t], After(ticks, max), After(ticks + [t], max);
            if Counts(all, |ticks|)
            then && after.last == Some(t.at)
                 && Built(all) == Built(ticks) + (if t.build then [t] else [])
                 && (!t.build ==> after == before.(last := Some(t.at)))
                 && (t.build ==> after.history != [] && after.history[0].close == t.price
                                 && after.history[0].timestamp == t.at / 1000000 / 60 * 60)
            else after == before && Built(all) == Built(ticks)
  {
    var all := ticks + [t];
    assert all[..|ticks|] == ticks && all[|ticks|] == t;
    LastAcceptedCounts(ticks);
    AcceptsIffCounts(ticks, t, LastAccepted(ticks));
    HistoryIsNewestCandles(ticks, max);
  }

  /** A candle begins on a whole minute and holds the ticks of its sixty seconds; a day has 86,400. */
  lemma MinutesAndDays(t: Tick)
    ensures Bucket(t) % 60 == 0 && Bucket(t) * 1000000 <= t.at < (Bucket(t) + 60) * 1000000
    ensures Date(t) * 86400000000 <= t.at < (Date(t) + 1) * 86400000000
  {
    var seconds := t.at / 1000000;
    assert seconds * 1000000 <= t.at < (seconds + 1) * 1000000;
    assert seconds / 60 * 60 <= seconds < seconds / 60 * 60 + 60;
  }

  lemma HeadIsWritten(history: seq<Candle>, t: Tick, volume: int, max: nat)
    ensures var written := Trim(Extend(history, t, volume), max);
            written != [] && written[0].close == t.price && written[0].timestamp == t.at / 1000000 / 60 * 60
  {
  }

  /** The stored list is the head of all candles, as long as the limit allows. */
  lemma HistoryIsCut(ticks: seq<Tick>, max: nat)
    ensures var kept, all := After(ticks, max).history, Candles(Built(ticks));
            kept <= all && |kept| == if max == 0 || |all| <= max then |all| else max
  {
    HistoryIsNewestCandles(ticks, max);
  }

  /** A tick adds what its cumulative volume, at least zero, exceeds that of the tick before it by on the same
      day, or all of it. */
  lemma AddedVolume(built: seq<Tick>, i: nat)
    requires i < |built|
    ensures var volume := if built[i].volume < 0 then 0 else built[i].volume;
            if i == 0 || built[i - 1].at / 1000000 / 86400 != built[i].at / 1000000 / 86400 then DeltaAt(built, i) == volume
            else var before := if built[i - 1].volume < 0 then 0 else built[i - 1].volume;
                 DeltaAt(built, i) == if volume < before then 0 else volume - before
  {
  }

  // ---- the writer ----

  class QuoteWriter {
    const family: seq<string>
    const max: nat
    var lastQuote: map<string, nat>
    var daily: map<string, (int, int)>
    var latestCandle: map<string, Option<Candle>>
    var history: map<string, seq<Candle>>
    ghost var state: State

    /** What is kept for a symbol; the head cache, where it is filled, agrees with the history. */
    ghost predicate Keeps(symbol: string, s: State)
      reads this
    {
      && (if s.last.Some? then symbol in lastQuote && lastQuote[symbol] == s.last.value else symbol !in lastQuote)
      && (if s.daily.Some? then symbol in daily && daily[symbol] == s.daily.value else symbol !in daily)
      && symbol in history && history[symbol] == s.history
      && (symbol in latestCandle ==> latestCandle[symbol] == Head(s.history))
    }

    /** Every symbol of the family has the same quotes and candles. */
    ghost predicate Valid()
      reads this
    {
      && (forall i, j :: 0 <= i < j < |family| ==> family[i] != family[j])
      && (forall i :: 0 <= i < |family| ==> Keeps(family[i], state))
    }

    constructor (family: seq<string>, max: nat)
      requires forall i, j :: 0 <= i < j < |family| ==> family[i] != family[j]
      ensures Valid() && state == EMPTY && this.family == family && this.max == max
    {
      this.family, this.max := family, max;
      lastQuote, daily, latestCandle := map[], map[], map[];
      history := map symbol | symbol in family :: [];
      state := EMPTY;
    }

    method VolumeDelta(symbol: string, day: int, volume: int) returns (delta: int)
      modifies this`daily
      ensures daily == old(daily)[symbol := (day, Max(volume, 0))]
      ensures delta == if symbol !in old(daily) || old(daily)[symbol].0 != day then Max(volume, 0)
                       else Max(Max(volume, 0) - old(daily)[symbol].1, 0)
    {
      var cumulative := Max(volume, 0);
      delta := if symbol !in daily || daily[symbol].0 != day then cumulative else Max(cumulative - daily[symbol].1, 0);
      daily := daily[symbol := (day, cumulative)];
    }

    /** Candle and history of one symbol; the newest candle is taken from the cache when it is there. */
    method WriteSymbol(symbol: string, t: Tick)
      requires symbol in history && (symbol in latestCandle ==> latestCandle[symbol] == Head(history[symbol]))
      modifies this`daily, this`latestCandle, this`history
      ensures daily == old(daily)[symbol := (Date(t), Cumulative(t))]
      ensures var before := if symbol in old(daily) then Some(old(daily)[symbol]) else None;
              var written := Trim(Extend(old(history)[symbol], t, Delta(before, t)), max);
              history == old(history)[symbol := written]
              && latestCandle == old(latestCandle)[symbol := Head(written)]
    {
      var latest := if symbol in latestCandle then latestCandle[symbol] else Head(history[symbol]);
      var delta := VolumeDelta(symbol, Date(t), t.volume);
      var candle := MakeCandle(latest, t, delta);
      latestCandle := latestCandle[symbol := Some(candle)];
      var candles := if SameMinute(latest, t) then history[symbol][0 := candle] else [candle] + history[symbol];
      history := history[symbol := if max > 0 && |candles| > max then candles[..max] else candles];
    }

    /** The time of the last quote, for every symbol of the family. */
    method WriteTimes(at: nat)
      modifies this`lastQuote
      ensures forall i :: 0 <= i < |family| ==> family[i] in lastQuote && lastQuote[family[i]] == at
    {
      for n := 0 to |family|
        invariant forall i :: 0 <= i < n ==> family[i] in lastQuote && lastQuote[family[i]] == at
      {
        lastQuote := lastQuote[family[n] := at];
      }
    }

    method WriteCandles(t: Tick)
      requires Valid() && state.last == Some(t.at)
      modifies this`daily, this`latestCandle, this`history, this`state
      ensures Valid() && state == old(state).(daily := Some((Date(t), Cumulative(t))),
                history := Trim(Extend(old(state).history, t, Delta(old(state).daily, t)), max))
    {
      ghost var next := state.(daily := Some((Date(t), Cumulative(t))),
                               history := Trim(Extend(state.history, t, Delta(state.daily, t)), max));
      for n := 0 to |family|
        invariant state == old(state)
        invariant forall i :: 0 <= i < n ==> Keeps(family[i], next)
        invariant forall i :: n <= i < |family| ==> Keeps(family[i], state)
      {
        WriteSymbol(family[n], t);
      }
      state := next;
    }

    method Write(symbol: string, t: Tick)
      requires Valid() && symbol in family
      modifies this
      ensures Valid() && state == Step(old(state), t, max)
      ensures t.live && t.price > 0 && t.at <= t.clock + 5000000 && (symbol in old(lastQuote) ==> old(lastQuote)[symbol] <= t.at) ==>
                forall i :: 0 <= i < |family| ==>
                  && family[i] in lastQuote && lastQuote[family[i]] == t.at
                  && family[i] in history
                  && (t.build ==> history[family[i]] != [] && history[family[i]][0].close == t.price
                                  && history[family[i]][0].timestamp == t.at / 1000000 / 60 * 60)
                  && (!t.build ==> history == old(history) && daily == old(daily) && latestCandle == old(latestCandle))
      ensures !(t.live && t.price > 0 && t.at <= t.clock + 5000000 && (symbol in old(lastQuote) ==> old(lastQuote)[symbol] <= t.at)) ==>
                lastQuote == old(lastQuote) && daily == old(daily) && latestCandle == old(latestCandle) && history == old(history)
    {
      var n :| 0 <= n < |family| && family[n] == symbol;
      assert Keeps(family[n], state);
      if !t.live || t.price <= 0 || t.at > t.clock + 5 * SECOND { return; }
      if symbol in lastQuote && lastQuote[symbol] > t.at { return; }
      WriteTimes(t.at);
      state := state.(last := Some(t.at));
      if t.build {
        WriteCandles(t);
        HeadIsWritten(old(state).history, t, Delta(old(state).daily, t), max);
      }
      assert forall i :: 0 <= i < |family| ==> Keeps(family[i], state);
    }
  }
}
