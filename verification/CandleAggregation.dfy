/**
 Candles joined into larger bars anchored at the exchange session
 (frontend/src/lib/marketData.ts).

 Timestamps are seconds, or milliseconds when they are too large to be seconds.
 */
module CandleAggregation {

  datatype Candle = Candle(timestamp: int, open: int, high: int, low: int, close: int, volume: int)

  const MILLISECONDS_ABOVE := 100000000000
  const IST_OFFSET := 19800
  const DAY := 86400

  predicate IsFrame(minutes: int) { minutes == 5 || minutes == 15 }

  function Minutes(timeframe: string): int {
    if timeframe == "5m" then 5 else if timeframe == "15m" then 15 else 1
  }

  function Max(x: int, y: int): int { if x >= y then x else y }

  function Min(x: int, y: int): int { if x <= y then x else y }

  function Seconds(timestamp: int): int {
    if timestamp > MILLISECONDS_ABOVE then timestamp / 1000 else timestamp
  }

  function IstDay(seconds: int): int { (seconds + IST_OFFSET) / DAY }

  /** The start of the bar a timestamp falls in, counted from 09:15 of its day. */
  function Key(timestamp: int, minutes: int): int
    requires IsFrame(minutes)
  {
    var seconds := Seconds(timestamp);
    var open := IstDay(seconds) * DAY - IST_OFFSET + 9 * 3600 + 15 * 60;
    open + (seconds - open) / (minutes * 60) * (minutes * 60)
  }

  /** A bar extended by a later candle. */
  function Join(bar: Candle, c: Candle): Candle {
    bar.(high := Max(bar.high, c.high), low := Min(bar.low, c.low), close := c.close, volume := bar.volume + c.volume)
  }

  // ---- sorting ----

  predicate Sorted(cs: seq<Candle>) {
    forall i, j :: 0 <= i < j < |cs| ==> cs[i].timestamp <= cs[j].timestamp
  }

  /** Put a candle behind all that are not later. */
  function Insert(cs: seq<Candle>, c: Candle): (r: seq<Candle>) {
    if cs != [] && cs[|cs| - 1].timestamp > c.timestamp
    then Insert(cs[..|cs| - 1], c) + [cs[|cs| - 1]]
    else cs + [c]
  }

  /** The stable order by timestamp. */
  function Sort(cs: seq<Candle>): seq<Candle> {
    if cs == [] then [] else Insert(Sort(cs[..|cs| - 1]), cs[|cs| - 1])
  }

  /** The candles of a list that have a timestamp, in their order. */
  function At(cs: seq<Candle>, timestamp: int): seq<Candle> {
    if cs == [] then []
    else
      At(cs[..|cs| - 1], timestamp) + if cs[|cs| - 1].timestamp == timestamp then [cs[|cs| - 1]] else []
  }

  lemma {:induction false} InsertKeepsAll(cs: seq<Candle>, c: Candle)
    ensures multiset(Insert(cs, c)) == multiset(cs) + multiset{c}
  {
    if cs != [] && cs[|cs| - 1].timestamp > c.timestamp {
      InsertKeepsAll(cs[..|cs| - 1], c);
      assert cs == cs[..|cs| - 1] + [cs[|cs| - 1]];
    }
  }

  lemma {:induction false} InsertKeepsSorted(cs: seq<Candle>, c: Candle)
    requires Sorted(cs)
    ensures Sorted(Insert(cs, c))
  {
    if cs != [] && cs[|cs| - 1].timestamp > c.timestamp {
      var init, last := cs[..|cs| - 1], cs[|cs| - 1];
      InsertKeepsSorted(init, c);
      InsertKeepsAll(init, c);
      forall i | 0 <= i < |Insert(init, c)| ensures Insert(init, c)[i].timestamp <= last.timestamp {
        assert Insert(init, c)[i] in multiset(init) + multiset{c};
      }
    }
  }

  lemma AtSnoc(cs: seq<Candle>, c: Candle, timestamp: int)
    ensures At(cs + [c], timestamp) == At(cs, timestamp) + if c.timestamp == timestamp then [c] else []
  {
    assert (cs + [c])[..|cs|] == cs;
  }

  lemma {:induction false} InsertIsStable(cs: seq<Candle>, c: Candle, timestamp: int)
    ensures At(Insert(cs, c), timestamp) == At(cs, timestamp) + if c.timestamp == timestamp then [c] else []
  {
    if cs != [] && cs[|cs| - 1].timestamp > c.timestamp {
      InsertIsStable(cs[..|cs| - 1], c, timestamp);
      AtSnoc(Insert(cs[..|cs| - 1], c), cs[|cs| - 1], timestamp);
    } else {
      AtSnoc(cs, c, timestamp);
    }
  }

  lemma {:induction false} SortKeepsAll(cs: seq<Candle>)
    ensures multiset(Sort(cs)) == multiset(cs)
  {
    if cs != [] {
      SortKeepsAll(cs[..|cs| - 1]);
      InsertKeepsAll(Sort(cs[..|cs| - 1]), cs[|cs| - 1]);
      assert cs == cs[..|cs| - 1] + [cs[|cs| - 1]];
    }
  }

  lemma {:induction false} SortOrders(cs: seq<Candle>)
    ensures Sorted(Sort(cs))
  {
    if cs != [] {
      SortOrders(cs[..|cs| - 1]);
      InsertKeepsSorted(Sort(cs[..|cs| - 1]), cs[|cs| - 1]);
    }
  }

  /** Sorting keeps every candle and orders them. */
  lemma SortSorts(cs: seq<Candle>)
    ensures Sorted(Sort(cs)) && multiset(Sort(cs)) == multiset(cs)
  {
    SortOrders(cs);
    SortKeepsAll(cs);
  }

  /** Candles of one timestamp keep their order. */
  lemma {:induction false} SortIsStable(cs: seq<Candle>, timestamp: int)
    ensures At(Sort(cs), timestamp) == At(cs, timestamp)
  {
    if cs != [] {
      SortIsStable(cs[..|cs| - 1], timestamp);
      InsertIsStable(Sort(cs[..|cs| - 1]), cs[|cs| - 1], timestamp);
    }
  }

  lemma {:induction false} SortOfSorted(cs: seq<Candle>)
    requires Sorted(cs)
    ensures Sort(cs) == cs
  {
    if cs != [] {
      var init, last := cs[..|cs| - 1], cs[|cs| - 1];
      SortOfSorted(init);
      assert Insert(init, last) == init + [last] == cs;
    }
  }

  // ---- grouping ----

  /** The position of the bar with a key, or the length when there is none. */
  function Find(bars: seq<Candle>, key: int): (i: nat)
    ensures i <= |bars| && (i < |bars| ==> bars[i].timestamp == key)
    ensures forall j :: 0 <= j < i ==> bars[j].timestamp != key
  {
    if bars == [] then 0
    else if bars[0].timestamp == key then 0
    else
      var i := Find(bars[1..], key);
      assert forall j :: 0 < j < |bars| ==> bars[j] == bars[1..][j - 1];
      1 + i
  }

  /** One candle joins the bar of its key, which keeps its place, or starts the last bar. */
  function Put(bars: seq<Candle>, c: Candle, minutes: int): seq<Candle>
    requires IsFrame(minutes)
  {
    var key := Key(c.timestamp, minutes);
    var i := Find(bars, key);
    if i < |bars| then bars[i := Join(bars[i], c)] else bars + [c.(timestamp := key)]
  }

  function Group(cs: seq<Candle>, minutes: int): seq<Candle>
    requires IsFrame(minutes)
  {
    if cs == [] then [] else Put(Group(cs[..|cs| - 1], minutes), cs[|cs| - 1], minutes)
  }

  function Aggregate(cs: seq<Candle>, timeframe: string): seq<Candle> {
    if Minutes(timeframe) == 1 then cs else Group(Sort(cs), Minutes(timeframe))
  }

  // ---- what a bar says about its candles ----

  /** The candles of one bar, in their order. */
  function Members(cs: seq<Candle>, key: int, minutes: int): seq<Candle>
    requires IsFrame(minutes)
  {
    if cs == [] then []
    else
      Members(cs[..|cs| - 1], key, minutes)
      + if Key(cs[|cs| - 1].timestamp, minutes) == key then [cs[|cs| - 1]] else []
  }

  function Volume(cs: seq<Candle>): int {
    if cs == [] then 0 else Volume(cs[..|cs| - 1]) + cs[|cs| - 1].volume
  }

  /** The bar opens with its first candle, closes with its last, spans their highs and lows, and has
      their volume. */
  ghost predicate Summarises(bar: Candle, cs: seq<Candle>) {
    && cs != []
    && bar.open == cs[0].open && bar.close == cs[|cs| - 1].close
    && (forall c :: c in cs ==> bar.low <= c.low && c.high <= bar.high)
    && (exists c :: c in cs && c.high == bar.high) && (exists c :: c in cs && c.low == bar.low)
    && bar.volume == Volume(cs)
  }

  lemma JoinSummarises(bar: Candle, cs: seq<Candle>, c: Candle)
    requires Summarises(bar, cs)
    ensures Summarises(Join(bar, c), cs + [c])
  {
    assert (cs + [c])[..|cs|] == cs;
    var high :| high in cs && high.high == bar.high;
    var low :| low in cs && low.low == bar.low;
    assert high in cs + [c] && low in cs + [c] && c in cs + [c];
  }

  lemma OneSummarises(c: Candle, key: int)
    ensures Summarises(c.(timestamp := key), [c])
  {
    assert [c][..0] == [];
    assert c in [c];
  }

  ghost predicate AllSummarise(bars: seq<Candle>, cs: seq<Candle>, minutes: int)
    requires IsFrame(minutes)
  {
    forall i :: 0 <= i < |bars| ==> Summarises(bars[i], Members(cs, bars[i].timestamp, minutes))
  }

  predicate Distinct(bars: seq<Candle>) {
    forall i, j :: 0 <= i < j < |bars| ==> bars[i].timestamp != bars[j].timestamp
  }

  predicate Covers(bars: seq<Candle>, cs: seq<Candle>, minutes: int)
    requires IsFrame(minutes)
  {
    forall c :: c in cs ==> exists i :: 0 <= i < |bars| && bars[i].timestamp == Key(c.timestamp, minutes)
  }

  /** For any list: every bar summarises exactly the candles of its key, no key has two bars, and every
      candle has its bar. */
  lemma {:induction false} BarsSummarise(cs: seq<Candle>, minutes: int)
    requires IsFrame(minutes)
    ensures AllSummarise(Group(cs, minutes), cs, minutes)
    ensures Distinct(Group(cs, minutes)) && Covers(Group(cs, minutes), cs, minutes)
  {
    if cs != [] {
      var init, c := cs[..|cs| - 1], cs[|cs| - 1];
      assert cs == init + [c];
      BarsSummarise(init, minutes);
      PutKeepsDistinct(Group(init, minutes), init, c, minutes);
      PutKeepsSummaries(Group(init, minutes), init, c, minutes);
    }
  }

  lemma PutKeepsDistinct(bars: seq<Candle>, init: seq<Candle>, c: Candle, minutes: int)
    requires IsFrame(minutes) && Distinct(bars) && Covers(bars, init, minutes)
    ensures Distinct(Put(bars, c, minutes)) && Covers(Put(bars, c, minutes), init + [c], minutes)
  {
    var more := Put(bars, c, minutes);
    var k := Find(bars, Key(c.timestamp, minutes));
    forall d | d in init + [c] ensures exists i :: 0 <= i < |more| && more[i].timestamp == Key(d.timestamp, minutes) {
      if d in init {
        var i :| 0 <= i < |bars| && bars[i].timestamp == Key(d.timestamp, minutes);
        assert more[i].timestamp == Key(d.timestamp, minutes);
      } else {
        assert more[k].timestamp == Key(d.timestamp, minutes);
      }
    }
  }

  lemma MembersSnoc(cs: seq<Candle>, c: Candle, key: int, minutes: int)
    requires IsFrame(minutes)
    ensures Members(cs + [c], key, minutes)
            == Members(cs, key, minutes) + if Key(c.timestamp, minutes) == key then [c] else []
  {
    assert (cs + [c])[..|cs|] == cs;
  }

  lemma JoinedBar(bars: seq<Candle>, init: seq<Candle>, c: Candle, minutes: int)
    requires IsFrame(minutes) && AllSummarise(bars, init, minutes)
    requires Find(bars, Key(c.timestamp, minutes)) < |bars|
    ensures Summarises(Join(bars[Find(bars, Key(c.timestamp, minutes))], c), Members(init + [c], Key(c.timestamp, minutes), minutes))
  {
    var key := Key(c.timestamp, minutes);
    MembersSnoc(init, c, key, minutes);
    JoinSummarises(bars[Find(bars, key)], Members(init, key, minutes), c);
  }

  lemma NewBar(bars: seq<Candle>, init: seq<Candle>, c: Candle, minutes: int)
    requires IsFrame(minutes) && Covers(bars, init, minutes)
    requires Find(bars, Key(c.timestamp, minutes)) == |bars|
    ensures Summarises(c.(timestamp := Key(c.timestamp, minutes)), Members(init + [c], Key(c.timestamp, minutes), minutes))
  {
    var key := Key(c.timestamp, minutes);
    MembersSnoc(init, c, key, minutes);
    NoMembers(init, key, minutes, bars);
    assert Members(init + [c], key, minutes) == [c];
    OneSummarises(c, key);
  }

  lemma PutKeepsSummaries(bars: seq<Candle>, init: seq<Candle>, c: Candle, minutes: int)
    requires IsFrame(minutes) && Distinct(bars) && Covers(bars, init, minutes) && AllSummarise(bars, init, minutes)
    ensures AllSummarise(Put(bars, c, minutes), init + [c], minutes)
  {
    var more, key := Put(bars, c, minutes), Key(c.timestamp, minutes);
    var k := Find(bars, key);
    if k < |bars| { JoinedBar(bars, init, c, minutes); } else { NewBar(bars, init, c, minutes); }
    forall i | 0 <= i < |more| && i != k
      ensures Summarises(more[i], Members(init + [c], more[i].timestamp, minutes))
    {
      MembersSnoc(init, c, bars[i].timestamp, minutes);
      assert Members(init, bars[i].timestamp, minutes) + [] == Members(init, bars[i].timestamp, minutes);
    }
  }

  lemma {:induction false} NoMembers(cs: seq<Candle>, key: int, minutes: int, bars: seq<Candle>)
    requires IsFrame(minutes) && forall i :: 0 <= i < |bars| ==> bars[i].timestamp != key
    requires Covers(bars, cs, minutes)
    ensures Members(cs, key, minutes) == []
  {
    if cs != [] {
      var c := cs[|cs| - 1];
      assert c in cs;
      NoMembers(cs[..|cs| - 1], key, minutes, bars);
    }
  }

  // ---- volume ----

  lemma {:induction false} VolumeOfUpdate(bars: seq<Candle>, i: nat, bar: Candle)
    requires i < |bars|
    ensures Volume(bars[i := bar]) == Volume(bars) - bars[i].volume + bar.volume
  {
    var init := bars[..|bars| - 1];
    if i == |bars| - 1 {
      assert bars[i := bar][..|bars| - 1] == init;
    } else {
      assert bars[i := bar][..|bars| - 1] == init[i := bar];
      VolumeOfUpdate(init, i, bar);
    }
  }

  lemma {:induction false} GroupKeepsVolume(cs: seq<Candle>, minutes: int)
    requires IsFrame(minutes)
    ensures Volume(Group(cs, minutes)) == Volume(cs)
  {
    if cs != [] {
      var bars, c := Group(cs[..|cs| - 1], minutes), cs[|cs| - 1];
      GroupKeepsVolume(cs[..|cs| - 1], minutes);
      var i := Find(bars, Key(c.timestamp, minutes));
      if i < |bars| {
        VolumeOfUpdate(bars, i, Join(bars[i], c));
      } else {
        assert (bars + [c.(timestamp := Key(c.timestamp, minutes))])[..|bars|] == bars;
      }
    }
  }

  lemma {:induction false} InsertKeepsVolume(cs: seq<Candle>, c: Candle)
    ensures Volume(Insert(cs, c)) == Volume(cs) + c.volume
  {
    if cs != [] && cs[|cs| - 1].timestamp > c.timestamp {
      var init, last := cs[..|cs| - 1], cs[|cs| - 1];
      InsertKeepsVolume(init, c);
      assert (Insert(init, c) + [last])[..|Insert(init, c)|] == Insert(init, c);
    } else {
      assert (cs + [c])[..|cs|] == cs;
    }
  }

  /** No timeframe and no order of the candles gains or loses volume. */
  lemma VolumeIsConserved(cs: seq<Candle>, timeframe: string)
    ensures Volume(Aggregate(cs, timeframe)) == Volume(cs)
  {
    SortKeepsVolume(cs);
    if Minutes(timeframe) != 1 { GroupKeepsVolume(Sort(cs), Minutes(timeframe)); }
  }

  lemma {:induction false} SortKeepsVolume(cs: seq<Candle>)
    ensures Volume(Sort(cs)) == Volume(cs)
  {
    if cs != [] {
      SortKeepsVolume(cs[..|cs| - 1]);
      InsertKeepsVolume(Sort(cs[..|cs| - 1]), cs[|cs| - 1]);
    }
  }

  // ---- keys ----

  lemma DayIs(seconds: int, day: int)
    requires DAY * day <= seconds + IST_OFFSET < DAY * (day + 1)
    ensures IstDay(seconds) == day
  {
    assert DAY * IstDay(seconds) <= seconds + IST_OFFSET < DAY * IstDay(seconds) + DAY;
  }

  /** The starts of bars, counted from 09:15 of day 0. */
  function Grid(minutes: int, n: int): int { n * (minutes * 60) - IST_OFFSET + 9 * 3600 + 15 * 60 }

  lemma AnchoredKey(seconds: int, minutes: int, day: int, q: int)
    requires IsFrame(minutes)
    requires DAY * day <= seconds + IST_OFFSET < DAY * (day + 1)
    requires q == (seconds - (day * DAY - IST_OFFSET + 33300)) / (minutes * 60)
    ensures var key := day * DAY - IST_OFFSET + 33300 + q * (minutes * 60);
            && key <= seconds < key + minutes * 60
            && DAY * day <= key + IST_OFFSET < DAY * (day + 1)
            && (minutes == 5 ==> key + IST_OFFSET - 33300 == 300 * (288 * day + q))
            && (minutes == 15 ==> key + IST_OFFSET - 33300 == 900 * (96 * day + q))
  {
    var since := seconds - (day * DAY - IST_OFFSET + 33300);
    if minutes == 5 {
      assert 300 * (since / 300) <= since < 300 * (since / 300) + 300;
    } else {
      assert 900 * (since / 900) <= since < 900 * (since / 900) + 900;
    }
  }

  /** A bar starts a whole number of bars from 09:15, no later than its candles, less than its length
      before them, and on their day. */
  lemma KeyStaysInSession(timestamp: int, minutes: int) returns (n: int)
    requires IsFrame(minutes)
    ensures Key(timestamp, minutes) == Grid(minutes, n) <= Seconds(timestamp) < Grid(minutes, n + 1)
    ensures Grid(minutes, n + 1) == Grid(minutes, n) + minutes * 60
    ensures IstDay(Key(timestamp, minutes)) == IstDay(Seconds(timestamp))
  {
    var seconds := Seconds(timestamp);
    var day := IstDay(seconds);
    var q := (seconds - (day * DAY - IST_OFFSET + 33300)) / (minutes * 60);
    assert DAY * day <= seconds + IST_OFFSET < DAY * (day + 1);
    AnchoredKey(seconds, minutes, day, q);
    DayIs(Key(timestamp, minutes), day);
    n := if minutes == 5 then 288 * day + q else 96 * day + q;
  }

  lemma GridIsOrdered(minutes: int, p: int, q: int, s: int, t: int)
    requires IsFrame(minutes) && s <= t
    requires Grid(minutes, p) <= s < Grid(minutes, p + 1) && Grid(minutes, q) <= t < Grid(minutes, q + 1)
    ensures p <= q && Grid(minutes, p) <= Grid(minutes, q)
  {
    if minutes == 5 {
      assert 300 * p < 300 * (q + 1);
    } else {
      assert 900 * p < 900 * (q + 1);
    }
  }

  lemma KeyIsMonotone(s: int, t: int, minutes: int)
    requires IsFrame(minutes) && Seconds(s) <= Seconds(t)
    ensures Key(s, minutes) <= Key(t, minutes)
  {
    var p := KeyStaysInSession(s, minutes);
    var q := KeyStaysInSession(t, minutes);
    GridIsOrdered(minutes, p, q, Seconds(s), Seconds(t));
  }

  lemma KeyIs(timestamp: int, minutes: int, n: int)
    requires IsFrame(minutes) && Grid(minutes, n) <= Seconds(timestamp) < Grid(minutes, n + 1)
    ensures Key(timestamp, minutes) == Grid(minutes, n)
  {
    var p := KeyStaysInSession(timestamp, minutes);
    GridIsOrdered(minutes, p, n, Seconds(timestamp), Seconds(timestamp));
    GridIsOrdered(minutes, n, p, Seconds(timestamp), Seconds(timestamp));
  }

  /** The larger bar of a smaller bar is the larger bar of its candles. */
  lemma KeyNests(timestamp: int, small: int, large: int)
    requires IsFrame(small) && IsFrame(large) && small <= large && Seconds(timestamp) <= MILLISECONDS_ABOVE
    ensures Key(Key(timestamp, small), large) == Key(timestamp, large)
  {
    var p := KeyStaysInSession(timestamp, small);
    var q := KeyStaysInSession(timestamp, large);
    NestedGrid(small, large, p, q, Seconds(timestamp));
    KeyIs(Key(timestamp, small), large, q);
  }

  lemma NestedGrid(small: int, large: int, p: int, q: int, seconds: int)
    requires IsFrame(small) && IsFrame(large) && small <= large
    requires Grid(small, p) <= seconds < Grid(small, p + 1) && Grid(large, q) <= seconds < Grid(large, q + 1)
    ensures Grid(large, q) <= Grid(small, p) < Grid(large, q + 1)
  {
    if small == large {
      GridIsOrdered(small, q, p, seconds, seconds);
      GridIsOrdered(small, p, q, seconds, seconds);
    } else {
      assert 300 * p <= seconds + IST_OFFSET - 9 * 3600 - 15 * 60 < 300 * (p + 1);
      assert 900 * q <= seconds + IST_OFFSET - 9 * 3600 - 15 * 60 < 900 * (q + 1);
    }
  }

  // ---- the bars of a timeframe ----

  lemma {:induction false} MemberOfItsBar(cs: seq<Candle>, c: Candle, minutes: int)
    requires IsFrame(minutes) && c in cs
    ensures c in Members(cs, Key(c.timestamp, minutes), minutes)
  {
    var init := cs[..|cs| - 1];
    if c in init { MemberOfItsBar(init, c, minutes); }
  }

  lemma StartIs(timestamp: int, minutes: int, seconds: int, day: int, start: int)
    requires IsFrame(minutes) && seconds == if timestamp > 100000000000 then timestamp / 1000 else timestamp
    requires start <= seconds < start + minutes * 60
    requires (start - (86400 * day + 13500)) % (minutes * 60) == 0
    ensures Key(timestamp, minutes) == start
  {
    var since := start - (86400 * day + 13500);
    var q := since / (minutes * 60);
    if minutes == 5 {
      assert since == 300 * q;
      KeyIs(timestamp, minutes, 288 * day + q);
    } else {
      assert since == 900 * q;
      KeyIs(timestamp, minutes, 96 * day + q);
    }
  }

  lemma SortHas(cs: seq<Candle>, c: Candle)
    requires c in cs
    ensures c in Sort(cs)
  {
    SortKeepsAll(cs);
    assert c in multiset(cs);
    assert c in multiset(Sort(cs));
  }

  lemma Spans(bar: Candle, cs: seq<Candle>, c: Candle)
    requires Summarises(bar, cs) && c in cs
    ensures bar.low <= c.low && c.high <= bar.high
  {
  }

  lemma BarOf(cs: seq<Candle>, minutes: int, c: Candle) returns (i: nat)
    requires IsFrame(minutes) && c in cs
    ensures i < |Group(cs, minutes)|
    ensures var bar := Group(cs, minutes)[i];
            bar.timestamp == Key(c.timestamp, minutes) && bar.low <= c.low && c.high <= bar.high
  {
    var bars := Group(cs, minutes);
    BarsSummarise(cs, minutes);
    i :| 0 <= i < |bars| && bars[i].timestamp == Key(c.timestamp, minutes);
    MemberOfItsBar(cs, c, minutes);
    Spans(bars[i], Members(cs, bars[i].timestamp, minutes), c);
  }

  /** In a request for 5m or 15m every candle is in the one bar of 300 or 900 seconds that holds its time,
      counted from 09:15 of its day, which is 03:45 UTC; any other request returns the list as it is. */
  lemma CandleIsInBar(cs: seq<Candle>, timeframe: string, c: Candle, seconds: int, day: int, start: int, length: int)
    requires c in cs && seconds == if c.timestamp > 100000000000 then c.timestamp / 1000 else c.timestamp
    requires 86400 * day <= seconds + 19800 < 86400 * (day + 1)
    requires length == if timeframe == "5m" then 300 else 900
    requires start <= seconds < start + length && (start - (86400 * day + 13500)) % length == 0
    ensures timeframe == "5m" || timeframe == "15m" ==>
              exists bar :: bar in Aggregate(cs, timeframe) && bar.timestamp == start
                            && bar.low <= c.low && c.high <= bar.high
    ensures timeframe != "5m" && timeframe != "15m" ==> Aggregate(cs, timeframe) == cs
  {
    if timeframe == "5m" || timeframe == "15m" {
      var minutes := Minutes(timeframe);
      StartIs(c.timestamp, minutes, seconds, day, start);
      SortHas(cs, c);
      var i := BarOf(Sort(cs), minutes, c);
      assert Aggregate(cs, timeframe)[i] in Aggregate(cs, timeframe);
    }
  }

  // ---- bars of bars ----

  /** The order of the timestamps is the order in time: no milliseconds before seconds. */
  predicate Ordered(cs: seq<Candle>) {
    forall i, j :: 0 <= i < |cs| && 0 <= j < |cs| && cs[i].timestamp <= cs[j].timestamp ==>
      Seconds(cs[i].timestamp) <= Seconds(cs[j].timestamp)
  }

  predicate InRange(cs: seq<Candle>) {
    forall c :: c in cs ==> Seconds(c.timestamp) <= MILLISECONDS_ABOVE
  }

  lemma UniformIsOrdered(cs: seq<Candle>)
    requires (forall c :: c in cs ==> c.timestamp <= MILLISECONDS_ABOVE)
             || (forall c :: c in cs ==> c.timestamp > MILLISECONDS_ABOVE)
    ensures Ordered(cs)
  {
    forall i, j | 0 <= i < |cs| && 0 <= j < |cs| && cs[i].timestamp <= cs[j].timestamp
      ensures Seconds(cs[i].timestamp) <= Seconds(cs[j].timestamp)
    {
      assert cs[i] in cs && cs[j] in cs;
    }
  }

  predicate KeysAscend(cs: seq<Candle>, minutes: int)
    requires IsFrame(minutes)
  {
    forall i, j :: 0 <= i < j < |cs| ==> Key(cs[i].timestamp, minutes) <= Key(cs[j].timestamp, minutes)
  }

  lemma SortedKeysAscend(cs: seq<Candle>, minutes: int)
    requires IsFrame(minutes) && Ordered(cs)
    ensures KeysAscend(Sort(cs), minutes)
  {
    SortSorts(cs);
    var s := Sort(cs);
    forall i, j | 0 <= i < j < |s| ensures Key(s[i].timestamp, minutes) <= Key(s[j].timestamp, minutes) {
      assert s[i] in multiset(s) && s[j] in multiset(s);
      assert s[i] in cs && s[j] in cs;
      KeyIsMonotone(s[i].timestamp, s[j].timestamp, minutes);
    }
  }

  predicate Ascending(bars: seq<Candle>) {
    forall i, j :: 0 <= i < j < |bars| ==> bars[i].timestamp < bars[j].timestamp
  }

  predicate LastIs(bars: seq<Candle>, key: int) {
    bars != [] && bars[|bars| - 1].timestamp == key
  }

  /** With ascending keys only the last bar ever grows. */
  lemma PutAtEnd(bars: seq<Candle>, c: Candle, minutes: int)
    requires IsFrame(minutes) && Ascending(bars)
    requires bars != [] ==> bars[|bars| - 1].timestamp <= Key(c.timestamp, minutes)
    ensures var key := Key(c.timestamp, minutes);
            Put(bars, c, minutes)
            == if LastIs(bars, key) then bars[..|bars| - 1] + [Join(bars[|bars| - 1], c)]
               else bars + [c.(timestamp := key)]
  {
    var i := Find(bars, Key(c.timestamp, minutes));
    if bars != [] && i < |bars| {
      assert i == |bars| - 1;
      assert bars[i := Join(bars[i], c)] == bars[..i] + [Join(bars[i], c)];
    }
  }

  lemma PutAscends(bars: seq<Candle>, c: Candle, minutes: int)
    requires IsFrame(minutes) && Ascending(bars)
    requires bars != [] ==> bars[|bars| - 1].timestamp <= Key(c.timestamp, minutes)
    ensures Ascending(Put(bars, c, minutes)) && LastIs(Put(bars, c, minutes), Key(c.timestamp, minutes))
  {
    PutAtEnd(bars, c, minutes);
  }

  lemma {:induction false} BarsAscend(cs: seq<Candle>, minutes: int)
    requires IsFrame(minutes) && KeysAscend(cs, minutes)
    ensures Ascending(Group(cs, minutes))
    ensures cs != [] ==> LastIs(Group(cs, minutes), Key(cs[|cs| - 1].timestamp, minutes))
  {
    if cs != [] {
      var init := cs[..|cs| - 1];
      BarsAscend(init, minutes);
      if init != [] { assert Key(init[|init| - 1].timestamp, minutes) <= Key(cs[|cs| - 1].timestamp, minutes); }
      PutAscends(Group(init, minutes), cs[|cs| - 1], minutes);
    }
  }

  lemma FindIs(bars: seq<Candle>, key: int, i: nat)
    requires i <= |bars| && (i < |bars| ==> bars[i].timestamp == key)
    requires forall j :: 0 <= j < i ==> bars[j].timestamp != key
    ensures Find(bars, key) == i
  {
  }

  /** A bar and then a candle of the same key are put like the bar that joins them. */
  lemma PutTwice(bars: seq<Candle>, bar: Candle, c: Candle, minutes: int)
    requires IsFrame(minutes) && Key(bar.timestamp, minutes) == Key(c.timestamp, minutes)
    ensures Put(Put(bars, bar, minutes), c, minutes) == Put(bars, Join(bar, c), minutes)
  {
    var key := Key(c.timestamp, minutes);
    var i := Find(bars, key);
    FindIs(Put(bars, bar, minutes), key, i);
    if i < |bars| {
      assert Join(Join(bars[i], bar), c) == Join(bars[i], Join(bar, c));
    }
  }

  lemma PutIgnoresTimestamp(bars: seq<Candle>, c: Candle, timestamp: int, minutes: int)
    requires IsFrame(minutes) && Key(timestamp, minutes) == Key(c.timestamp, minutes)
    ensures Put(bars, c.(timestamp := timestamp), minutes) == Put(bars, c, minutes)
  {
  }

  lemma GroupSnoc(cs: seq<Candle>, c: Candle, minutes: int)
    requires IsFrame(minutes)
    ensures Group(cs + [c], minutes) == Put(Group(cs, minutes), c, minutes)
  {
    assert (cs + [c])[..|cs|] == cs;
  }

  lemma {:induction false} GroupOfGroup(cs: seq<Candle>, small: int, large: int)
    requires IsFrame(small) && IsFrame(large) && small <= large && KeysAscend(cs, small) && InRange(cs)
    ensures Group(Group(cs, small), large) == Group(cs, large)
  {
    if cs != [] {
      var init, c := cs[..|cs| - 1], cs[|cs| - 1];
      GroupOfGroup(init, small, large);
      BarsAscend(init, small);
      if init != [] { assert Key(init[|init| - 1].timestamp, small) <= Key(c.timestamp, small); }
      KeyNests(c.timestamp, small, large);
      GroupStep(Group(init, small), c, small, large);
    }
  }

  lemma GroupStep(bars: seq<Candle>, c: Candle, small: int, large: int)
    requires IsFrame(small) && IsFrame(large) && Ascending(bars)
    requires bars != [] ==> bars[|bars| - 1].timestamp <= Key(c.timestamp, small)
    requires Key(Key(c.timestamp, small), large) == Key(c.timestamp, large)
    ensures Group(Put(bars, c, small), large) == Put(Group(bars, large), c, large)
  {
    var key := Key(c.timestamp, small);
    PutAtEnd(bars, c, small);
    if LastIs(bars, key) {
      var rest, last := bars[..|bars| - 1], bars[|bars| - 1];
      assert bars == rest + [last];
      GroupSnoc(rest, last, large);
      GroupSnoc(rest, Join(last, c), large);
      PutTwice(Group(rest, large), last, c, large);
    } else {
      GroupSnoc(bars, c.(timestamp := key), large);
      PutIgnoresTimestamp(Group(bars, large), c, key, large);
    }
  }

  /** Joining to five minutes and then to fifteen is joining to fifteen, and joining twice alike is
      joining once. */
  lemma AggregationComposes(cs: seq<Candle>, small: string, large: string)
    requires Ordered(cs) && InRange(cs)
    requires small in {"5m", "15m"} && large in {"5m", "15m"} && Minutes(small) <= Minutes(large)
    ensures Aggregate(Aggregate(cs, small), large) == Aggregate(cs, large)
  {
    var m := Minutes(small);
    SortedKeysAscend(cs, m);
    BarsAscend(Sort(cs), m);
    SortOfSorted(Group(Sort(cs), m));
    SortKeepsRange(cs);
    GroupOfGroup(Sort(cs), m, Minutes(large));
  }

  lemma SortKeepsRange(cs: seq<Candle>)
    requires InRange(cs)
    ensures InRange(Sort(cs))
  {
    SortSorts(cs);
    forall c | c in Sort(cs) ensures c in cs {
      assert c in multiset(Sort(cs));
    }
  }

  /** A bar covers a candle that falls within its minutes, on its day. */
  predicate CoversCandle(bar: Candle, c: Candle, minutes: int) {
    && bar.timestamp <= Seconds(c.timestamp) < bar.timestamp + minutes * 60
    && IstDay(bar.timestamp) == IstDay(Seconds(c.timestamp))
  }

  /** Bars of an ordered list come in ascending order, and a bar never joins candles of two days. */
  lemma BarsComeInOrder(cs: seq<Candle>, timeframe: string)
    requires Ordered(cs) && Minutes(timeframe) != 1
    ensures Ascending(Aggregate(cs, timeframe))
    ensures forall bar, c ::
              (bar in Aggregate(cs, timeframe) && c in Members(Sort(cs), bar.timestamp, Minutes(timeframe))) ==>
                CoversCandle(bar, c, Minutes(timeframe))
  {
    var m, s := Minutes(timeframe), Sort(cs);
    SortedKeysAscend(cs, m);
    BarsAscend(s, m);
    forall bar, c | bar in Group(s, m) && c in Members(s, bar.timestamp, m) ensures CoversCandle(bar, c, m) {
      MemberIsThere(s, bar.timestamp, m, c);
      var n := KeyStaysInSession(c.timestamp, m);
    }
  }

  lemma {:induction false} MemberIsThere(cs: seq<Candle>, key: int, minutes: int, c: Candle)
    requires IsFrame(minutes) && c in Members(cs, key, minutes)
    ensures c in cs && Key(c.timestamp, minutes) == key
  {
    var init := cs[..|cs| - 1];
    if c in Members(init, key, minutes) { MemberIsThere(init, key, minutes, c); }
  }

  /** Seconds and milliseconds mixed: a candle in milliseconds sorts behind one in seconds that is
      later in time, and joining in two steps opens the bar with another candle than joining in one. */
  lemma MixedResolutionsDoNotCompose(a: Candle, b: Candle)
    requires a.timestamp == 200001000 && b.timestamp == 200000700000 && a.open != b.open
    ensures Aggregate(Aggregate([a, b], "5m"), "15m") != Aggregate([a, b], "15m")
  {
    var cs := [a, b];
    SortOfSorted(cs);
    KeyIs(a.timestamp, 5, 666625);
    KeyIs(b.timestamp, 5, 666624);
    KeyIs(a.timestamp, 15, 222208);
    KeyIs(b.timestamp, 15, 222208);
    var a5, b5 := a.(timestamp := 200001000), b.(timestamp := 200000700);
    GroupTwo(a, b, 5);
    GroupTwo(a, b, 15);
    assert Aggregate(cs, "5m") == [a5, b5];
    assert Aggregate(cs, "15m") == [Join(a.(timestamp := 200000700), b)];
    SortTwo(a5, b5);
    KeyIs(a5.timestamp, 15, 222208);
    KeyIs(b5.timestamp, 15, 222208);
    GroupTwo(b5, a5, 15);
  }

  lemma GroupTwo(a: Candle, b: Candle, minutes: int)
    requires IsFrame(minutes)
    ensures var (j, k) := (Key(a.timestamp, minutes), Key(b.timestamp, minutes));
            Group([a, b], minutes)
            == if j == k then [Join(a.(timestamp := j), b)] else [a.(timestamp := j), b.(timestamp := k)]
  {
    assert [a, b] == [a] + [b] && [a] == [] + [a];
    GroupSnoc([a], b, minutes);
    GroupSnoc([], a, minutes);
    var first := [a.(timestamp := Key(a.timestamp, minutes))];
    assert Group([a], minutes) == first;
    FindIs(first, Key(b.timestamp, minutes), if Key(a.timestamp, minutes) == Key(b.timestamp, minutes) then 0 else 1);
  }

  lemma SortTwo(a: Candle, b: Candle)
    requires a.timestamp > b.timestamp
    ensures Sort([a, b]) == [b, a]
  {
    assert [a, b][..1] == [a] && [a][..0] == [];
    assert Sort([a]) == Insert([], a) == [a];
    assert Insert([a], b) == Insert([a][..0], b) + [a];
  }

  // ---- the loop ----

  /** The map keeps the bars under their keys, in the order the keys were first met. */
  predicate Holds(order: seq<int>, groups: map<int, Candle>, bars: seq<Candle>) {
    && |order| == |bars|
    && (forall i :: 0 <= i < |bars| ==> order[i] == bars[i].timestamp && order[i] in groups && groups[order[i]] == bars[i])
    && (forall k :: k in groups ==> k in order)
  }

  lemma PutHolds(order: seq<int>, groups: map<int, Candle>, bars: seq<Candle>, c: Candle, minutes: int)
    requires IsFrame(minutes) && Holds(order, groups, bars) && Distinct(bars)
    ensures var key := Key(c.timestamp, minutes);
            if key in groups then Holds(order, groups[key := Join(groups[key], c)], Put(bars, c, minutes))
            else Holds(order + [key], groups[key := c.(timestamp := key)], Put(bars, c, minutes))
  {
    var key := Key(c.timestamp, minutes);
    var i := Find(bars, key);
    if key in groups {
      assert key in order;
      var j :| 0 <= j < |order| && order[j] == key;
      assert bars[j].timestamp == key && i <= j;
      assert i == j;
    }
  }

  lemma NextHolds(order: seq<int>, groups: map<int, Candle>, cs: seq<Candle>, n: nat, minutes: int)
    requires IsFrame(minutes) && n < |cs| && Holds(order, groups, Group(cs[..n], minutes))
    ensures var key := Key(cs[n].timestamp, minutes);
            if key in groups then Holds(order, groups[key := Join(groups[key], cs[n])], Group(cs[..n + 1], minutes))
            else Holds(order + [key], groups[key := cs[n].(timestamp := key)], Group(cs[..n + 1], minutes))
  {
    assert cs[..n + 1] == cs[..n] + [cs[n]];
    GroupSnoc(cs[..n], cs[n], minutes);
    BarsSummarise(cs[..n], minutes);
    PutHolds(order, groups, Group(cs[..n], minutes), cs[n], minutes);
  }

  method AggregateCandles(candles: seq<Candle>, timeframe: string) returns (bars: seq<Candle>)
    ensures bars == Aggregate(candles, timeframe)
  {
    var minutes := if timeframe == "5m" then 5 else if timeframe == "15m" then 15 else 1;
    if minutes == 1 { return candles; }
    var sorted := Sort(candles);
    var order: seq<int>, groups: map<int, Candle> := [], map[];
    for n := 0 to |sorted|
      invariant Holds(order, groups, Group(sorted[..n], minutes))
    {
      var candle := sorted[n];
      NextHolds(order, groups, sorted, n, minutes);
      var key := Key(candle.timestamp, minutes);
      if key in groups {
        groups := groups[key := Join(groups[key], candle)];
      } else {
        order := order + [key];
        groups := groups[key := candle.(timestamp := key)];
      }
    }
    assert sorted[..|sorted|] == sorted;
    bars := [];
    for n := 0 to |order|
      invariant bars == Group(sorted, minutes)[..n]
    {
      bars := bars + [groups[order[n]]];
    }
  }
}
