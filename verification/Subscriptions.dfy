/**
 Broker subscriptions built from the rows of the activated master in live mode
 (python-services/market-worker/worker.py, InstrumentStore._build_subscriptions).

 Row fields are stripped, `symbol` is upper-cased, and `expiry` is the parsed day, if it parses.
 */
module Subscriptions {
  import opened Wrappers
  import Text

  datatype Row = Row(token: string, segment: string, symbol: string, kind: string, name: string, expiry: Option<int>)

  datatype Subscription = Subscription(symbol: string, token: string, segment: string, exchangeType: int)

  datatype Key = Key(token: string, exchangeType: int)

  type Subs = map<Key, Subscription>

  type Index = map<string, Row>

  /** How symbols are named: the canonical name behind aliases, and the stripped upper-case form. */
  datatype Naming = Naming(resolve: string -> string, upper: string -> string)

  function ExchangeType(segment: string): Option<int> {
    if segment == "NSE" then Some(1) else if segment == "NFO" then Some(2) else None
  }

  /** Names of indexes, their tokens and segments. */
  const FIXED := map[
    "NIFTY" := ("99926000", "NSE"), "NIFTY 50" := ("99926000", "NSE"),
    "BANKNIFTY" := ("99926009", "NSE"), "BANK NIFTY" := ("99926009", "NSE"), "NIFTY BANK" := ("99926009", "NSE"),
    "FINNIFTY" := ("99926037", "NSE"), "NIFTY FIN SERVICE" := ("99926037", "NSE"),
    "MIDCPNIFTY" := ("99926074", "NSE"), "NIFTY MID SELECT" := ("99926074", "NSE"),
    "SENSEX" := ("99919000", "BSE"), "BSE SENSEX" := ("99919000", "BSE")]

  type Fixed = map<string, (string, string)>

  // ---- the index by symbol ----

  predicate IsIndexKind(kind: string) { kind == "INDEX" || kind == "AMXIDX" }

  predicate IsListed(n: Naming, r: Row) {
    || (r.segment == "NSE" && (Text.HasSuffix(r.symbol, "-EQ") || r.kind == "EQUITY" || IsIndexKind(r.kind)))
    || (r.segment == "BSE" && (r.symbol == "SENSEX" || n.upper(r.name) == "SENSEX" || IsIndexKind(r.kind)))
  }

  /** The symbols a row is found under. */
  function KeysOf(n: Naming, today: int, r: Row): seq<string> {
    if r.segment == "NFO" then
      if r.expiry.Some? && r.expiry.value >= today then [r.symbol] else []
    else if IsListed(n, r) then
      var bare := Text.TrimSuffix(r.symbol, "-EQ");
      [r.symbol, bare, n.resolve(bare)] + if IsIndexKind(r.kind) then [n.resolve(r.name)] else []
    else []
  }

  /** A row replaces another under its symbol, except a row of another segment one of the NSE. */
  function Enter(index: Index, key: string, r: Row): Index {
    if key in index && index[key].segment == "NSE" && r.segment != "NSE" then index else index[key := r]
  }

  function EnterAll(index: Index, keys: seq<string>, r: Row): Index {
    if keys == [] then index else Enter(EnterAll(index, keys[..|keys| - 1], r), keys[|keys| - 1], r)
  }

  function IndexOf(n: Naming, today: int, rows: seq<Row>): Index {
    if rows == [] then map[]
    else
      var r := rows[|rows| - 1];
      EnterAll(IndexOf(n, today, rows[..|rows| - 1]), KeysOf(n, today, r), r)
  }

  lemma {:induction false} EnterAllOutcome(index: Index, keys: seq<string>, r: Row, k: string)
    ensures var after := EnterAll(index, keys, r);
            && (k in after ==> (k in keys && after[k] == r) || (k in index && after[k] == index[k]))
            && (k in keys || k in index ==> k in after)
            && (k in index && index[k].segment == "NSE" ==> after[k].segment == "NSE")
            && (k in keys && r.segment == "NSE" ==> after[k] == r)
  {
    if keys != [] { EnterAllOutcome(index, keys[..|keys| - 1], r, k); }
  }

  /** A symbol leads to one of the rows found under it. */
  lemma {:induction false} IndexIsSound(n: Naming, today: int, rows: seq<Row>, k: string)
    requires k in IndexOf(n, today, rows)
    ensures IndexOf(n, today, rows)[k] in rows && k in KeysOf(n, today, IndexOf(n, today, rows)[k])
  {
    if rows != [] {
      var init, r := rows[..|rows| - 1], rows[|rows| - 1];
      EnterAllOutcome(IndexOf(n, today, init), KeysOf(n, today, r), r, k);
      if k in IndexOf(n, today, init) { IndexIsSound(n, today, init, k); }
    }
  }

  /** Every listed row's symbols are found, and a symbol of an NSE row leads to an NSE row, in whatever
      order the rows come. */
  lemma {:induction false} IndexPrefersNse(n: Naming, today: int, rows: seq<Row>, r: Row, k: string)
    requires r in rows && k in KeysOf(n, today, r)
    ensures k in IndexOf(n, today, rows)
    ensures r.segment == "NSE" ==> IndexOf(n, today, rows)[k].segment == "NSE"
  {
    var init, last := rows[..|rows| - 1], rows[|rows| - 1];
    EnterAllOutcome(IndexOf(n, today, init), KeysOf(n, today, last), last, k);
    if r in init { IndexPrefersNse(n, today, init, r, k); }
  }

  // ---- subscriptions ----

  function Found(index: Index, canonical: string, upper: string): Option<Row> {
    if canonical in index then Some(index[canonical])
    else if upper in index then Some(index[upper])
    else None
  }

  function Subscribe(symbol: string, token: string, segment: string): Option<Subscription> {
    if token == "" || ExchangeType(segment).None? then None
    else Some(Subscription(symbol, token, segment, ExchangeType(segment).value))
  }

  /** What one requested symbol is subscribed as. */
  function Request(n: Naming, fixed: Fixed, index: Index, requested: string): Option<Subscription> {
    var canonical, upper := n.resolve(requested), n.upper(requested);
    if canonical in fixed then Subscribe(canonical, fixed[canonical].0, fixed[canonical].1)
    else if upper in fixed then Subscribe(canonical, fixed[upper].0, fixed[upper].1)
    else match Found(index, canonical, upper)
      case None => None
      case Some(r) => Subscribe(if r.segment == "NFO" then r.symbol else canonical, r.token, r.segment)
  }

  function KeyOf(s: Subscription): Key { Key(s.token, s.exchangeType) }

  function RequestAll(n: Naming, fixed: Fixed, index: Index, requests: seq<string>): Subs {
    if requests == [] then map[]
    else
      var subs := RequestAll(n, fixed, index, requests[..|requests| - 1]);
      match Request(n, fixed, index, requests[|requests| - 1])
      case None => subs
      case Some(s) => subs[KeyOf(s) := s]
  }

  function Build(n: Naming, fixed: Fixed, today: int, rows: seq<Row>, requests: seq<string>): Subs {
    RequestAll(n, fixed, IndexOf(n, today, rows), requests)
  }

  /** The subscription is to a fixed index token. */
  predicate IsFixed(fixed: Fixed, s: Subscription) {
    exists name :: name in fixed && fixed[name] == (s.token, s.segment)
  }

  /** The subscription is to the token of a row, and one to a derivative has the row's own symbol. */
  predicate IsRow(rows: seq<Row>, s: Subscription) {
    exists r :: r in rows && r.token == s.token && r.segment == s.segment && (r.segment == "NFO" ==> r.symbol == s.symbol)
  }

  /** The subscription comes from these rows or is a fixed index token. */
  predicate From(fixed: Fixed, rows: seq<Row>, s: Subscription) {
    ExchangeType(s.segment) == Some(s.exchangeType) && s.token != "" && (IsFixed(fixed, s) || IsRow(rows, s))
  }

  lemma RequestIsFromRows(n: Naming, fixed: Fixed, today: int, rows: seq<Row>, requested: string)
    ensures var s := Request(n, fixed, IndexOf(n, today, rows), requested);
            s.Some? ==> From(fixed, rows, s.value)
  {
    var index := IndexOf(n, today, rows);
    var canonical, upper := n.resolve(requested), n.upper(requested);
    if canonical in index { IndexIsSound(n, today, rows, canonical); }
    if upper in index { IndexIsSound(n, today, rows, upper); }
  }

  /** Every subscription built is under its own key, and comes from the rows or is a fixed index. */
  lemma {:induction false} BuildIsFromRows(n: Naming, fixed: Fixed, today: int, rows: seq<Row>, requests: seq<string>, k: Key)
    requires k in Build(n, fixed, today, rows, requests)
    ensures KeyOf(Build(n, fixed, today, rows, requests)[k]) == k
    ensures From(fixed, rows, Build(n, fixed, today, rows, requests)[k])
    ensures exists q :: q in requests && Request(n, fixed, IndexOf(n, today, rows), q) == Some(Build(n, fixed, today, rows, requests)[k])
  {
    if requests != [] {
      var init, q := requests[..|requests| - 1], requests[|requests| - 1];
      RequestIsFromRows(n, fixed, today, rows, q);
      assert q in requests;
      if k in Build(n, fixed, today, rows, init) {
        BuildIsFromRows(n, fixed, today, rows, init, k);
      }
    }
  }

  /** An index name is subscribed to its own token whatever the rows hold, and one of the BSE not at all. */
  lemma IndexNamesIgnoreRows(n: Naming, index: Index, requested: string)
    requires n.resolve(requested) in FIXED
    ensures var name := n.resolve(requested);
            Request(n, FIXED, index, requested)
            == if FIXED[name].1 == "NSE" then Some(Subscription(name, FIXED[name].0, "NSE", 1)) else None
  {
    var name := n.resolve(requested);
    assert FIXED[name].0 != "" && FIXED[name].1 in {"NSE", "BSE"};
  }

  /** A row that may be subscribed: a derivative that has not expired, or a listed cash row. */
  predicate Eligible(n: Naming, today: int, r: Row) {
    if r.segment == "NFO" then r.expiry.Some? && r.expiry.value >= today else IsListed(n, r)
  }

  lemma FoundRowIsEligible(n: Naming, today: int, rows: seq<Row>, symbol: string)
    requires symbol in IndexOf(n, today, rows)
    ensures IndexOf(n, today, rows)[symbol] in rows && Eligible(n, today, IndexOf(n, today, rows)[symbol])
  {
    IndexIsSound(n, today, rows, symbol);
  }

  /** No expired derivative and no bond is ever subscribed. */
  lemma OnlyEligibleRowsAreSubscribed(n: Naming, fixed: Fixed, today: int, rows: seq<Row>, requests: seq<string>, k: Key)
    requires k in Build(n, fixed, today, rows, requests)
    ensures var s := Build(n, fixed, today, rows, requests)[k];
            IsFixed(fixed, s)
            || exists r :: r in rows && Eligible(n, today, r) && r.token == s.token && r.segment == s.segment
  {
    var index := IndexOf(n, today, rows);
    BuildIsFromRows(n, fixed, today, rows, requests, k);
    var q :| q in requests && Request(n, fixed, index, q) == Some(Build(n, fixed, today, rows, requests)[k]);
    var canonical, upper := n.resolve(q), n.upper(q);
    if canonical !in fixed && upper !in fixed {
      FoundRowIsEligible(n, today, rows, if canonical in index then canonical else upper);
    }
  }

  /** Every request that leads to a token is subscribed. */
  lemma {:induction false} RequestIsCovered(n: Naming, fixed: Fixed, today: int, rows: seq<Row>, requests: seq<string>, q: string)
    requires q in requests && Request(n, fixed, IndexOf(n, today, rows), q).Some?
    ensures KeyOf(Request(n, fixed, IndexOf(n, today, rows), q).value) in Build(n, fixed, today, rows, requests)
  {
    var init := requests[..|requests| - 1];
    if q in init { RequestIsCovered(n, fixed, today, rows, init, q); }
  }

  // ---- the loops ----

  method BuildIndex(n: Naming, today: int, rows: seq<Row>) returns (bySymbol: Index)
    ensures bySymbol == IndexOf(n, today, rows)
  {
    bySymbol := map[];
    for i := 0 to |rows|
      invariant bySymbol == IndexOf(n, today, rows[..i])
    {
      var row := rows[i];
      assert rows[..i + 1][..i] == rows[..i];
      var keys := KeysOf(n, today, row);
      for j := 0 to |keys|
        invariant bySymbol == EnterAll(IndexOf(n, today, rows[..i]), keys[..j], row)
      {
        assert keys[..j + 1][..j] == keys[..j];
        if keys[j] !in bySymbol || bySymbol[keys[j]].segment != "NSE" || row.segment == "NSE" {
          bySymbol := bySymbol[keys[j] := row];
        }
      }
      assert keys[..|keys|] == keys;
    }
    assert rows[..|rows|] == rows;
  }

  method BuildSubscriptions(n: Naming, fixed: Fixed, today: int, rows: seq<Row>, requests: seq<string>) returns (subs: Subs)
    ensures subs == Build(n, fixed, today, rows, requests)
  {
    var bySymbol := BuildIndex(n, today, rows);
    subs := map[];
    for i := 0 to |requests|
      invariant subs == RequestAll(n, fixed, bySymbol, requests[..i])
    {
      assert requests[..i + 1][..i] == requests[..i];
      var canonical, upper := n.resolve(requests[i]), n.upper(requests[i]);
      var symbol, token, segment := canonical, "", "";
      if canonical in fixed {
        token, segment := fixed[canonical].0, fixed[canonical].1;
      } else if upper in fixed {
        token, segment := fixed[upper].0, fixed[upper].1;
      } else {
        var row := Found(bySymbol, canonical, upper);
        if row.None? { continue; }
        token, segment := row.value.token, row.value.segment;
        if segment == "NFO" { symbol := row.value.symbol; }
      }
      if token == "" || ExchangeType(segment).None? { continue; }
      var exchangeType := ExchangeType(segment).value;
      subs := subs[Key(token, exchangeType) := Subscription(symbol, token, segment, exchangeType)];
    }
    assert requests[..|requests|] == requests;
  }
}
