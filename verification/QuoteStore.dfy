/**
 Display quotes: ticks buffered between animation frames (frontend/src/lib/liveStream.ts) and the
 store that keeps the newest quote of every symbol (frontend/src/stores/market-store.ts).
 */
module QuoteStore {
  import opened Wrappers
  import Text

  const MAX_SAFE_INTEGER := 9007199254740991
  const CLOCK_TOLERANCE := 5000

  /** A JSON number: a whole one, or anything else. */
  datatype Price = Whole(paise: int) | NotWhole

  /** `at` has no value where Date.parse gives NaN; `id` stands for all other fields. */
  datatype Quote = Quote(symbol: string, price: Price, at: Option<int>, id: nat)

  datatype Observed = Observed(quote: Quote, receivedAt: int)

  type Quotes = map<string, Quote>

  /** How a symbol becomes a key: trimmed and upper-cased, which it stays when done again. */
  type Keying = string -> string

  ghost predicate Idempotent(norm: Keying) {
    forall s {:trigger norm(norm(s))} :: norm(norm(s)) == norm(s)
  }

  lemma NormalIsKeying()
    ensures Idempotent(Text.Normal)
  {
    forall s: string ensures Text.Normal(Text.Normal(s)) == Text.Normal(s) {
      Text.NormalIsIdempotent(s);
    }
  }

  type Queue = map<string, Observed>

  predicate Priced(q: Quote) {
    q.price.Whole? && 0 < q.price.paise <= MAX_SAFE_INTEGER
  }

  predicate Acceptable(norm: Keying, o: Observed) {
    && norm(o.quote.symbol) != "" && Priced(o.quote)
    && o.quote.at.Some? && o.quote.at.value <= o.receivedAt + CLOCK_TOLERANCE
  }

  function Get(quotes: Quotes, key: string): Option<Quote> {
    if key in quotes then Some(quotes[key]) else None
  }

  predicate OlderThan(q: Quote, current: Option<Quote>) {
    current.Some? && current.value.at.Some? && (q.at.None? || q.at.value < current.value.at.value)
  }

  // ---- the buffer ----

  function Coalesce(norm: Keying, queue: Queue, o: Observed): Queue {
    var key := norm(o.quote.symbol);
    if !Acceptable(norm, o) || (key in queue && OlderThan(o.quote, Some(queue[key].quote))) then queue
    else queue[key := o]
  }

  function CoalesceAll(norm: Keying, ticks: seq<Observed>): Queue {
    if ticks == [] then map[] else Coalesce(norm, CoalesceAll(norm, ticks[..|ticks| - 1]), ticks[|ticks| - 1])
  }

  // ---- the store ----

  function MergeOne(norm: Keying, quotes: Quotes, key: string, q: Quote): Quotes {
    var symbol := norm(key);
    if symbol == "" || !Priced(q) || OlderThan(q, Get(quotes, symbol)) then quotes else quotes[symbol := q]
  }

  function MergeAll(norm: Keying, quotes: Quotes, entries: seq<(string, Quote)>): Quotes {
    if entries == [] then quotes
    else
      var (key, q) := entries[|entries| - 1];
      MergeOne(norm, MergeAll(norm, quotes, entries[..|entries| - 1]), key, q)
  }

  /** The quotes of a batch that go to the store, as of the ones before them in the batch. */
  function Incoming(norm: Keying, quotes: Quotes, batch: seq<Observed>): Quotes {
    if batch == [] then map[]
    else
      var incoming := Incoming(norm, quotes, batch[..|batch| - 1]);
      var o := batch[|batch| - 1];
      var key := norm(o.quote.symbol);
      if !Acceptable(norm, o) || OlderThan(o.quote, Get(quotes + incoming, key)) then incoming
      else incoming[key := o.quote]
  }

  /** A batch from the stream; every incoming quote is merged, under keys that are all different. */
  function Stream(norm: Keying, quotes: Quotes, batch: seq<Observed>): Quotes {
    var incoming := Incoming(norm, quotes, batch);
    map k | k in quotes.Keys + incoming.Keys ::
      if k in incoming && !OlderThan(incoming[k], Get(quotes, k)) then incoming[k] else quotes[k]
  }

  function StreamEach(norm: Keying, quotes: Quotes, ticks: seq<Observed>): Quotes {
    if ticks == [] then quotes
    else Stream(norm, StreamEach(norm, quotes, ticks[..|ticks| - 1]), [ticks[|ticks| - 1]])
  }

  // ---- one symbol at a time ----

  function KeyOf(norm: Keying, o: Observed): string { norm(o.quote.symbol) }

  function Later(norm: Keying, current: Option<Quote>, o: Observed): Option<Quote> {
    if !Acceptable(norm, o) || OlderThan(o.quote, current) then current else Some(o.quote)
  }

  /** What a symbol shows after some ticks. */
  function Pick(norm: Keying, current: Option<Quote>, ticks: seq<Observed>, key: string): Option<Quote> {
    if ticks == [] then current
    else
      var before := Pick(norm, current, ticks[..|ticks| - 1], key);
      if KeyOf(norm, ticks[|ticks| - 1]) == key then Later(norm, before, ticks[|ticks| - 1]) else before
  }

  /** Of a current quote and a later observation with a time, the one to show. */
  function Newer(current: Option<Quote>, observed: Option<Quote>): Option<Quote> {
    if observed.Some? && !OlderThan(observed.value, current) then observed else current
  }

  lemma {:induction false} PickOnlyMovesForward(norm: Keying, current: Option<Quote>, ticks: seq<Observed>, key: string)
    ensures var q := Pick(norm, current, ticks, key);
            && (q != current ==> q.Some? && q.value.at.Some? && !OlderThan(q.value, current))
            && (q.None? ==> current.None?)
  {
    if ticks != [] { PickOnlyMovesForward(norm, current, ticks[..|ticks| - 1], key); }
  }

  lemma {:induction false} IncomingIsPick(norm: Keying, quotes: Quotes, batch: seq<Observed>, key: string)
    ensures var incoming := Incoming(norm, quotes, batch);
            && Get(quotes + incoming, key) == Pick(norm, Get(quotes, key), batch, key)
            && (key in incoming ==> key != "" && Priced(incoming[key]) && incoming[key].at.Some?
                                    && norm(incoming[key].symbol) == key)
  {
    if batch != [] { IncomingIsPick(norm, quotes, batch[..|batch| - 1], key); }
  }

  /** For every batch: each symbol shows what it would show had its ticks been applied one by one. */
  lemma StreamIsPick(norm: Keying, quotes: Quotes, batch: seq<Observed>, key: string)
    ensures Get(Stream(norm, quotes, batch), key) == Pick(norm, Get(quotes, key), batch, key)
  {
    IncomingIsPick(norm, quotes, batch, key);
    PickOnlyMovesForward(norm, Get(quotes, key), batch, key);
  }

  lemma {:induction false} StreamEachIsPick(norm: Keying, quotes: Quotes, ticks: seq<Observed>, key: string)
    ensures Get(StreamEach(norm, quotes, ticks), key) == Pick(norm, Get(quotes, key), ticks, key)
  {
    if ticks != [] {
      var init, last := ticks[..|ticks| - 1], ticks[|ticks| - 1];
      StreamEachIsPick(norm, quotes, init, key);
      StreamIsPick(norm, StreamEach(norm, quotes, init), [last], key);
      assert [last][..0] == [];
      assert Pick(norm, Get(StreamEach(norm, quotes, init), key), [], key) == Get(StreamEach(norm, quotes, init), key);
    }
  }

  lemma {:induction false} CoalescedIsPick(norm: Keying, ticks: seq<Observed>, key: string)
    ensures var queue := CoalesceAll(norm, ticks);
            && Pick(norm, None, ticks, key) == (if key in queue then Some(queue[key].quote) else None)
            && (key in queue ==> Acceptable(norm, queue[key]) && KeyOf(norm, queue[key]) == key)
  {
    if ticks != [] { CoalescedIsPick(norm, ticks[..|ticks| - 1], key); }
  }

  lemma {:induction false} PickFromNothing(norm: Keying, current: Option<Quote>, ticks: seq<Observed>, key: string)
    ensures Pick(norm, current, ticks, key) == Newer(current, Pick(norm, None, ticks, key))
  {
    if ticks != [] {
      PickFromNothing(norm, current, ticks[..|ticks| - 1], key);
      PickOnlyMovesForward(norm, None, ticks[..|ticks| - 1], key);
    }
  }

  /** The buffered ticks in some order, each once. */
  predicate Lists(norm: Keying, batch: seq<Observed>, queue: Queue) {
    && (forall i :: 0 <= i < |batch| ==> KeyOf(norm, batch[i]) in queue && queue[KeyOf(norm, batch[i])] == batch[i])
    && (forall i, j :: 0 <= i < j < |batch| ==> KeyOf(norm, batch[i]) != KeyOf(norm, batch[j]))
    && (forall k :: k in queue ==> queue[k] in batch)
  }

  lemma {:induction false} PickOfList(norm: Keying, batch: seq<Observed>, key: string, current: Option<Quote>)
    requires forall i, j :: 0 <= i < j < |batch| ==> KeyOf(norm, batch[i]) != KeyOf(norm, batch[j])
    ensures (forall o :: o in batch ==> KeyOf(norm, o) != key) ==> Pick(norm, current, batch, key) == current
    ensures forall o :: o in batch && KeyOf(norm, o) == key ==> Pick(norm, current, batch, key) == Later(norm, current, o)
  {
    if batch != [] { PickOfList(norm, batch[..|batch| - 1], key, current); }
  }

  lemma FlushOfSymbol(norm: Keying, quotes: Quotes, ticks: seq<Observed>, batch: seq<Observed>, key: string)
    requires Lists(norm, batch, CoalesceAll(norm, ticks))
    ensures Get(Stream(norm, quotes, batch), key) == Get(StreamEach(norm, quotes, ticks), key)
  {
    var queue := CoalesceAll(norm, ticks);
    StreamIsPick(norm, quotes, batch, key);
    StreamEachIsPick(norm, quotes, ticks, key);
    CoalescedIsPick(norm, ticks, key);
    PickFromNothing(norm, Get(quotes, key), ticks, key);
    PickOfList(norm, batch, key, Get(quotes, key));
    if key in queue {
      assert queue[key] in batch;
    } else {
      forall o | o in batch ensures KeyOf(norm, o) != key {
        var i :| 0 <= i < |batch| && batch[i] == o;
      }
    }
  }

  lemma SameQuotes(a: Quotes, b: Quotes)
    requires forall k :: Get(a, k) == Get(b, k)
    ensures a == b
  {
    forall k ensures k in a <==> k in b
             ensures k in a ==> a[k] == b[k]
    {
      assert Get(a, k) == Get(b, k);
    }
  }

  /** Buffering ticks and flushing once leaves the quotes that applying each on arrival leaves, whatever
      order the buffer is read in. */
  lemma FlushIsTickByTick(norm: Keying, quotes: Quotes, ticks: seq<Observed>, batch: seq<Observed>)
    requires Lists(norm, batch, CoalesceAll(norm, ticks))
    ensures Stream(norm, quotes, batch) == StreamEach(norm, quotes, ticks)
  {
    forall k ensures Get(Stream(norm, quotes, batch), k) == Get(StreamEach(norm, quotes, ticks), k) {
      FlushOfSymbol(norm, quotes, ticks, batch, k);
    }
    SameQuotes(Stream(norm, quotes, batch), StreamEach(norm, quotes, ticks));
  }

  // ---- which quotes are kept, on their fields ----

  /** A quote with a symbol and a whole price of 1 to 9007199254740991 paise. */
  ghost predicate IsQuote(key: string, q: Quote) {
    key != "" && q.price.Whole? && 1 <= q.price.paise <= 9007199254740991
  }

  /** A tick also has a time, at most five seconds after it was received. */
  ghost predicate IsTick(key: string, o: Observed) {
    IsQuote(key, o.quote) && o.quote.at.Some? && o.quote.at.value - o.receivedAt <= 5000
  }

  /** There is nothing to be older than, or its time is the same or an earlier one. */
  ghost predicate NotBehind(q: Quote, shown: Option<Quote>) {
    match shown
    case None => true
    case Some(last) => last.at.Some? ==> q.at.Some? && q.at.value >= last.at.value
  }

  lemma TickIsBuffered(norm: Keying, ticks: seq<Observed>, o: Observed)
    ensures var before, after := CoalesceAll(norm, ticks), CoalesceAll(norm, ticks + [o]);
            var key := norm(o.quote.symbol);
            after == if IsTick(key, o) && NotBehind(o.quote, if key in before then Some(before[key].quote) else None)
                     then before[key := o] else before
  {
    assert (ticks + [o])[..|ticks|] == ticks;
  }

  lemma TickIsShown(norm: Keying, quotes: Quotes, o: Observed)
    ensures var key := norm(o.quote.symbol);
            Stream(norm, quotes, [o])
            == if IsTick(key, o) && NotBehind(o.quote, Get(quotes, key)) then quotes[key := o.quote] else quotes
  {
    forall k ensures Get(Stream(norm, quotes, [o]), k) == Pick(norm, Get(quotes, k), [o], k) {
      StreamIsPick(norm, quotes, [o], k);
    }
    assert [o][..0] == [];
    var key := norm(o.quote.symbol);
    var shown := if IsTick(key, o) && NotBehind(o.quote, Get(quotes, key)) then quotes[key := o.quote] else quotes;
    forall k ensures Get(Stream(norm, quotes, [o]), k) == Get(shown, k) {
      assert Pick(norm, Get(quotes, k), [], k) == Get(quotes, k);
    }
    SameQuotes(Stream(norm, quotes, [o]), shown);
  }

  lemma EntryIsMerged(norm: Keying, quotes: Quotes, entries: seq<(string, Quote)>, name: string, q: Quote)
    ensures var before, key := MergeAll(norm, quotes, entries), norm(name);
            MergeAll(norm, quotes, entries + [(name, q)])
            == if IsQuote(key, q) && NotBehind(q, Get(before, key)) then before[key := q] else before
  {
    assert (entries + [(name, q)])[..|entries|] == entries;
  }

  // ---- runs ----

  datatype Update = FromStream(batch: seq<Observed>) | FromRest(entries: seq<(string, Quote)>)

  function Apply(norm: Keying, quotes: Quotes, u: Update): Quotes {
    match u
    case FromStream(batch) => Stream(norm, quotes, batch)
    case FromRest(entries) => MergeAll(norm, quotes, entries)
  }

  function After(norm: Keying, quotes: Quotes, updates: seq<Update>): Quotes {
    if updates == [] then quotes else Apply(norm, After(norm, quotes, updates[..|updates| - 1]), updates[|updates| - 1])
  }

  /** The time only moves forward, and once there is one there always is. */
  predicate Forward(before: Option<Quote>, after: Option<Quote>) {
    before.Some? && before.value.at.Some? ==>
      after.Some? && after.value.at.Some? && before.value.at.value <= after.value.at.value
  }

  lemma {:induction false} MergeMovesForward(norm: Keying, quotes: Quotes, entries: seq<(string, Quote)>, key: string)
    ensures Forward(Get(quotes, key), Get(MergeAll(norm, quotes, entries), key))
  {
    if entries != [] { MergeMovesForward(norm, quotes, entries[..|entries| - 1], key); }
  }

  lemma ApplyMovesForward(norm: Keying, quotes: Quotes, u: Update, key: string)
    ensures Forward(Get(quotes, key), Get(Apply(norm, quotes, u), key))
  {
    match u {
      case FromStream(batch) =>
        StreamIsPick(norm, quotes, batch, key);
        PickOnlyMovesForward(norm, Get(quotes, key), batch, key);
      case FromRest(entries) =>
        MergeMovesForward(norm, quotes, entries, key);
    }
  }

  /** Under any run of stream and merge updates a symbol's time never moves backwards. */
  lemma {:induction false} TimeNeverMovesBack(norm: Keying, quotes: Quotes, updates: seq<Update>, i: nat, key: string)
    requires i <= |updates|
    ensures Forward(Get(After(norm, quotes, updates[..i]), key), Get(After(norm, quotes, updates), key))
    decreases |updates|
  {
    if i == |updates| {
      assert updates[..i] == updates;
    } else {
      var init := updates[..|updates| - 1];
      assert init[..i] == updates[..i];
      TimeNeverMovesBack(norm, quotes, init, i, key);
      ApplyMovesForward(norm, After(norm, quotes, init), updates[|updates| - 1], key);
    }
  }

  /** The update carries this quote with its time for the symbol. */
  predicate Offers(norm: Keying, u: Update, key: string, q: Quote) {
    q.at.Some? &&
    match u
    case FromStream(batch) => exists o :: o in batch && Acceptable(norm, o) && KeyOf(norm, o) == key && o.quote == q
    case FromRest(entries) => key != "" && Priced(q) && exists e :: e in entries && norm(e.0) == key && e.1 == q
  }

  predicate AtLeast(shown: Option<Quote>, q: Quote) {
    q.at.Some? ==> shown.Some? && shown.value.at.Some? && q.at.value <= shown.value.at.value
  }

  lemma {:induction false} PickShowsNewest(norm: Keying, current: Option<Quote>, ticks: seq<Observed>, key: string, o: Observed)
    requires o in ticks && Acceptable(norm, o) && KeyOf(norm, o) == key
    ensures AtLeast(Pick(norm, current, ticks, key), o.quote)
  {
    var init := ticks[..|ticks| - 1];
    if o in init { PickShowsNewest(norm, current, init, key, o); }
  }

  lemma {:induction false} MergeShowsNewest(norm: Keying, quotes: Quotes, entries: seq<(string, Quote)>, e: (string, Quote))
    requires e in entries && norm(e.0) != "" && Priced(e.1)
    ensures AtLeast(Get(MergeAll(norm, quotes, entries), norm(e.0)), e.1)
  {
    var init, last := entries[..|entries| - 1], entries[|entries| - 1];
    if e in init {
      MergeShowsNewest(norm, quotes, init, e);
      MergeMovesForward(norm, MergeAll(norm, quotes, init), [last], norm(e.0));
      assert [last][..0] == [];
      assert MergeAll(norm, MergeAll(norm, quotes, init), [last]) == MergeAll(norm, quotes, entries);
    }
  }

  /** What a symbol shows is at least as new as every valid quote it was ever offered. */
  lemma NewestIsShown(norm: Keying, quotes: Quotes, updates: seq<Update>, i: nat, key: string, q: Quote)
    requires i < |updates| && Offers(norm, updates[i], key, q)
    ensures AtLeast(Get(After(norm, quotes, updates), key), q)
  {
    var before := After(norm, quotes, updates[..i]);
    assert updates[..i + 1][..i] == updates[..i];
    match updates[i] {
      case FromStream(batch) =>
        var o :| o in batch && Acceptable(norm, o) && KeyOf(norm, o) == key && o.quote == q;
        StreamIsPick(norm, before, batch, key);
        PickShowsNewest(norm, Get(before, key), batch, key, o);
      case FromRest(entries) =>
        var e :| e in entries && norm(e.0) == key && e.1 == q;
        MergeShowsNewest(norm, before, entries, e);
    }
    TimeNeverMovesBack(norm, quotes, updates, i + 1, key);
  }

  // ---- the loops ----

  class Pending {
    const norm: Keying
    var queue: Queue
    ghost var ticks: seq<Observed>

    ghost predicate Valid() reads this { queue == CoalesceAll(norm, ticks) }

    constructor (norm: Keying)
      ensures Valid() && ticks == [] && this.norm == norm
    {
      this.norm := norm;
      queue, ticks := map[], [];
    }

    method Coalesce(quote: Quote, receivedAt: int)
      requires Valid()
      modifies this
      ensures Valid() && ticks == old(ticks) + [Observed(quote, receivedAt)]
    {
      ticks := ticks + [Observed(quote, receivedAt)];
      assert ticks[..|ticks| - 1] == old(ticks);
      var symbol := norm(quote.symbol);
      if symbol == "" || !Priced(quote) || quote.at.None? || quote.at.value > receivedAt + CLOCK_TOLERANCE {
        return;
      }
      if symbol in queue {
        var previous := queue[symbol].quote.at;
        if previous.Some? && quote.at.value < previous.value { return; }
      }
      queue := queue[symbol := Observed(quote, receivedAt)];
    }

    /** Hand the buffered ticks to the store in the order they are listed, and start again. */
    method Flush(store: Store, batch: seq<Observed>)
      requires Valid() && Lists(norm, batch, queue) && store.norm == norm && Idempotent(norm)
      modifies this, store
      ensures Valid() && ticks == []
      ensures store.quotes == StreamEach(norm, old(store.quotes), old(ticks))
    {
      FlushIsTickByTick(norm, store.quotes, ticks, batch);
      store.UpdateStreamQuotes(batch);
      queue, ticks := map[], [];
    }
  }

  class Store {
    const norm: Keying
    var quotes: Quotes

    constructor (norm: Keying, quotes: Quotes)
      ensures this.norm == norm && this.quotes == quotes
    {
      this.norm, this.quotes := norm, quotes;
    }

    method MergeIncomingQuotes(entries: seq<(string, Quote)>)
      modifies this
      ensures quotes == MergeAll(norm, old(quotes), entries)
    {
      var merged := quotes;
      for n := 0 to |entries|
        invariant merged == MergeAll(norm, quotes, entries[..n]) && quotes == old(quotes)
      {
        var (key, quote) := entries[n];
        assert entries[..n + 1][..n] == entries[..n];
        var symbol := norm(key);
        if symbol == "" || !Priced(quote) { continue; }
        if symbol in merged && merged[symbol].at.Some?
           && (quote.at.None? || quote.at.value < merged[symbol].at.value) {
          continue;
        }
        merged := merged[symbol := quote];
      }
      assert entries[..|entries|] == entries;
      quotes := merged;
    }

    method UpdateStreamQuotes(batch: seq<Observed>)
      requires Idempotent(norm)
      modifies this
      ensures quotes == Stream(norm, old(quotes), batch)
    {
      var incoming: Quotes, order: seq<string> := map[], [];
      for n := 0 to |batch|
        invariant quotes == old(quotes) && incoming == Incoming(norm, quotes, batch[..n])
        invariant Orders(order, incoming)
      {
        var Observed(quote, receivedAt) := batch[n];
        assert batch[..n + 1][..n] == batch[..n];
        var key := norm(quote.symbol);
        var previous := if key in incoming then incoming[key].at else if key in quotes then quotes[key].at else None;
        if key == "" || !Priced(quote) || quote.at.None? || quote.at.value > receivedAt + CLOCK_TOLERANCE
           || (previous.Some? && quote.at.value < previous.value) {
          continue;
        }
        if key !in incoming { order := order + [key]; }
        incoming := incoming[key := quote];
      }
      assert batch[..|batch|] == batch;
      var entries := seq(|order|, i requires 0 <= i < |order| && Orders(order, incoming) => (order[i], incoming[order[i]]));
      MergeOfIncoming(norm, quotes, batch, order, entries);
      MergeIncomingQuotes(entries);
    }
  }

  /** The keys of a map in some order, each once. */
  predicate Orders(order: seq<string>, m: Quotes) {
    && (forall i :: 0 <= i < |order| ==> order[i] in m)
    && (forall i, j :: 0 <= i < j < |order| ==> order[i] != order[j])
    && (forall k :: k in m ==> k in order)
  }

  /** Merging the incoming quotes in any order is the stream update. */
  lemma MergeOfIncoming(norm: Keying, quotes: Quotes, batch: seq<Observed>, order: seq<string>, entries: seq<(string, Quote)>)
    requires Idempotent(norm) && Orders(order, Incoming(norm, quotes, batch)) && |entries| == |order|
    requires forall i :: 0 <= i < |order| ==> entries[i] == (order[i], Incoming(norm, quotes, batch)[order[i]])
    ensures MergeAll(norm, quotes, entries) == Stream(norm, quotes, batch)
  {
    forall i | 0 <= i < |entries|
      ensures norm(entries[i].0) == entries[i].0 && entries[i].0 != "" && Priced(entries[i].1)
    {
      IncomingIsPick(norm, quotes, batch, order[i]);
    }
    forall k ensures Get(MergeAll(norm, quotes, entries), k) == Get(Stream(norm, quotes, batch), k) {
      MergeOfDistinct(norm, quotes, entries, k);
      EntryOf(Incoming(norm, quotes, batch), order, entries, k);
    }
    SameQuotes(MergeAll(norm, quotes, entries), Stream(norm, quotes, batch));
  }

  lemma EntryOf(incoming: Quotes, order: seq<string>, entries: seq<(string, Quote)>, k: string)
    requires Orders(order, incoming) && |entries| == |order|
    requires forall i :: 0 <= i < |order| ==> entries[i] == (order[i], incoming[order[i]])
    ensures k in incoming ==> (k, incoming[k]) in entries
    ensures k !in incoming ==> forall e :: e in entries ==> e.0 != k
  {
    if k in incoming {
      var i :| 0 <= i < |order| && order[i] == k;
      assert entries[i] in entries;
    }
  }

  lemma {:induction false} MergeOfDistinct(norm: Keying, quotes: Quotes, entries: seq<(string, Quote)>, k: string)
    requires forall i, j :: 0 <= i < j < |entries| ==> entries[i].0 != entries[j].0
    requires forall i :: 0 <= i < |entries| ==>
               norm(entries[i].0) == entries[i].0 && entries[i].0 != "" && Priced(entries[i].1)
    ensures (forall e :: e in entries ==> e.0 != k) ==> Get(MergeAll(norm, quotes, entries), k) == Get(quotes, k)
    ensures forall e :: e in entries && e.0 == k ==>
              Get(MergeAll(norm, quotes, entries), k) == Newer(Get(quotes, k), Some(e.1))
  {
    if entries != [] {
      MergeOfDistinct(norm, quotes, entries[..|entries| - 1], k);
    }
  }
}
