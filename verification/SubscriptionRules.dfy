/**
 Which subscription each request leads to, on rows and requests alone
 (python-services/market-worker/worker.py:394-398, 1212-1274).
 */
module SubscriptionRules {
  import opened Wrappers
  import opened Subscriptions
  import Text

  // ---- the row a symbol stands for ----

  predicate CashListed(n: Naming, r: Row) {
    || (r.segment == "NSE" && (Text.HasSuffix(r.symbol, "-EQ") || r.kind in {"EQUITY", "INDEX", "AMXIDX"}))
    || (r.segment == "BSE" && (r.symbol == "SENSEX" || n.upper(r.name) == "SENSEX" || r.kind in {"INDEX", "AMXIDX"}))
  }

  function Bare(symbol: string): string {
    if Text.HasSuffix(symbol, "-EQ") then symbol[..|symbol| - 3] else symbol
  }

  /** An unexpired derivative is found under its symbol; a listed cash row under its symbol with and
      without the -EQ ending and under its canonical symbol; an index under its canonical name too. */
  predicate FoundUnder(n: Naming, today: int, r: Row, k: string) {
    || (r.segment == "NFO" && r.expiry.Some? && r.expiry.value >= today && k == r.symbol)
    || (CashListed(n, r)
        && (|| k == r.symbol || k == Bare(r.symbol) || k == n.resolve(Bare(r.symbol))
            || (r.kind in {"INDEX", "AMXIDX"} && k == n.resolve(r.name))))
  }

  lemma KeysAreFoundUnder(n: Naming, today: int, r: Row, k: string)
    ensures k in KeysOf(n, today, r) <==> FoundUnder(n, today, r, k)
  {
    if r.segment != "NFO" && IsListed(n, r) {
      var bare := Text.TrimSuffix(r.symbol, "-EQ");
      assert bare == Bare(r.symbol);
      var keys := KeysOf(n, today, r);
      assert keys[0] == r.symbol && keys[1] == bare && keys[2] == n.resolve(bare);
      if IsIndexKind(r.kind) { assert keys[3] == n.resolve(r.name); }
    }
  }

  /** Some row of the list, of the NSE if `nse`, is found under the symbol at or after position `from`. */
  ghost predicate SomeFrom(n: Naming, today: int, rows: seq<Row>, k: string, nse: bool, from: nat) {
    exists i :: from <= i < |rows| && FoundUnder(n, today, rows[i], k) && (nse ==> rows[i].segment == "NSE")
  }

  /** Row `i` stands for the symbol: it is the last one of the NSE that is found under it, or, when none of
      the NSE is, the last one of all. */
  ghost predicate StandsFor(n: Naming, today: int, rows: seq<Row>, k: string, i: nat) {
    && i < |rows| && FoundUnder(n, today, rows[i], k)
    && if rows[i].segment == "NSE" then !SomeFrom(n, today, rows, k, true, i + 1)
       else !SomeFrom(n, today, rows, k, true, 0) && !SomeFrom(n, today, rows, k, false, i + 1)
  }

  lemma SomeFromSnoc(n: Naming, today: int, rows: seq<Row>, k: string, nse: bool, from: nat)
    requires rows != []
    ensures var last := rows[|rows| - 1];
            SomeFrom(n, today, rows, k, nse, from) <==>
              || SomeFrom(n, today, rows[..|rows| - 1], k, nse, from)
              || (from < |rows| && FoundUnder(n, today, last, k) && (nse ==> last.segment == "NSE"))
  {
    var init := rows[..|rows| - 1];
    if SomeFrom(n, today, init, k, nse, from) {
      var i :| from <= i < |init| && FoundUnder(n, today, init[i], k) && (nse ==> init[i].segment == "NSE");
      assert rows[i] == init[i];
    }
  }

  lemma EntersLast(n: Naming, today: int, index: Index, r: Row, k: string)
    ensures var after := EnterAll(index, KeysOf(n, today, r), r);
            if FoundUnder(n, today, r, k) && !(k in index && index[k].segment == "NSE" && r.segment != "NSE")
            then k in after && after[k] == r
            else (k in after <==> k in index) && (k in index ==> after[k] == index[k])
  {
    KeysAreFoundUnder(n, today, r, k);
    EnterAllKeeps(index, KeysOf(n, today, r), r, k);
  }

  lemma {:induction false} EnterAllKeeps(index: Index, keys: seq<string>, r: Row, k: string)
    ensures var after := EnterAll(index, keys, r);
            if k in keys && !(k in index && index[k].segment == "NSE" && r.segment != "NSE")
            then k in after && after[k] == r
            else (k in after <==> k in index) && (k in index ==> after[k] == index[k])
  {
    if keys != [] {
      EnterAllKeeps(index, keys[..|keys| - 1], r, k);
      assert k in keys <==> k in keys[..|keys| - 1] || k == keys[|keys| - 1];
    }
  }

  lemma {:induction false} IndexHasSome(n: Naming, today: int, rows: seq<Row>, k: string)
    ensures k in IndexOf(n, today, rows) <==> SomeFrom(n, today, rows, k, false, 0)
    ensures k in IndexOf(n, today, rows) ==>
              (IndexOf(n, today, rows)[k].segment == "NSE" <==> SomeFrom(n, today, rows, k, true, 0))
  {
    if rows != [] {
      var init, last := rows[..|rows| - 1], rows[|rows| - 1];
      IndexHasSome(n, today, init, k);
      EntersLast(n, today, IndexOf(n, today, init), last, k);
      SomeFromSnoc(n, today, rows, k, false, 0);
      SomeFromSnoc(n, today, rows, k, true, 0);
    }
  }

  lemma StandsInInit(n: Naming, today: int, init: seq<Row>, last: Row, rows: seq<Row>, k: string, i: nat)
    requires rows == init + [last] && i < |init| && StandsFor(n, today, rows, k, i)
    ensures StandsFor(n, today, init, k, i)
    ensures FoundUnder(n, today, last, k) ==> init[i].segment == "NSE" && last.segment != "NSE"
  {
    assert rows[i] == init[i] && rows[..|rows| - 1] == init && rows[|rows| - 1] == last;
    SomeFromSnoc(n, today, rows, k, true, 0);
    SomeFromSnoc(n, today, rows, k, true, i + 1);
    SomeFromSnoc(n, today, rows, k, false, i + 1);
  }

  lemma LastStands(n: Naming, today: int, init: seq<Row>, last: Row, rows: seq<Row>, k: string)
    requires rows == init + [last] && StandsFor(n, today, rows, k, |init|)
    ensures FoundUnder(n, today, last, k) && (last.segment == "NSE" || !SomeFrom(n, today, init, k, true, 0))
  {
    assert rows[..|rows| - 1] == init && rows[|rows| - 1] == last;
    SomeFromSnoc(n, today, rows, k, true, 0);
  }

  /** The index holds, under each symbol, the row that stands for it. */
  lemma {:induction false} IndexHolds(n: Naming, today: int, rows: seq<Row>, k: string, i: nat)
    requires StandsFor(n, today, rows, k, i)
    ensures k in IndexOf(n, today, rows) && IndexOf(n, today, rows)[k] == rows[i]
  {
    var init, last := rows[..|rows| - 1], rows[|rows| - 1];
    assert rows == init + [last];
    EntersLast(n, today, IndexOf(n, today, init), last, k);
    if i < |init| {
      StandsInInit(n, today, init, last, rows, k, i);
      IndexHolds(n, today, init, k, i);
    } else {
      LastStands(n, today, init, last, rows, k);
      IndexHasSome(n, today, init, k);
    }
  }

  /** A symbol under which some row is found has one that stands for it. */
  lemma {:induction false} SomeStandsFor(n: Naming, today: int, rows: seq<Row>, k: string) returns (i: nat)
    requires SomeFrom(n, today, rows, k, false, 0)
    ensures StandsFor(n, today, rows, k, i)
  {
    var init, last := rows[..|rows| - 1], rows[|rows| - 1];
    SomeFromSnoc(n, today, rows, k, false, 0);
    SomeFromSnoc(n, today, rows, k, true, 0);
    if FoundUnder(n, today, last, k) && (last.segment == "NSE" || !SomeFrom(n, today, init, k, true, 0)) {
      i := |init|;
    } else {
      i := SomeStandsFor(n, today, init, k);
      assert rows[i] == init[i];
      SomeFromSnoc(n, today, rows, k, true, i + 1);
      SomeFromSnoc(n, today, rows, k, false, i + 1);
      assert init[i].segment != "NSE" ==> !SomeFrom(n, today, init, k, true, 0);
    }
  }

  // ---- what a request leads to ----

  /** A type and segment the broker knows, and a token. */
  predicate Subscribable(s: Subscription) {
    s.token != "" && ((s.segment == "NSE" && s.exchangeType == 1) || (s.segment == "NFO" && s.exchangeType == 2))
  }

  /** The row that answers a request: the one its canonical symbol stands for, or, when none is found under
      that, the one its upper-case form stands for. */
  ghost predicate RowAnswers(n: Naming, today: int, rows: seq<Row>, requested: string, i: nat) {
    || StandsFor(n, today, rows, n.resolve(requested), i)
    || (!SomeFrom(n, today, rows, n.resolve(requested), false, 0) && StandsFor(n, today, rows, n.upper(requested), i))
  }

  /** A request is answered with a fixed index of its canonical symbol, or of its upper-case form, or else
      with its row; a derivative keeps its own symbol. */
  ghost predicate Answers(n: Naming, fixed: Fixed, today: int, rows: seq<Row>, requested: string, s: Subscription) {
    var canonical, upper := n.resolve(requested), n.upper(requested);
    && Subscribable(s)
    && if canonical in fixed then s.symbol == canonical && (s.token, s.segment) == fixed[canonical]
       else if upper in fixed then s.symbol == canonical && (s.token, s.segment) == fixed[upper]
       else exists i: nat :: RowAnswers(n, today, rows, requested, i)
                        && s.token == rows[i].token && s.segment == rows[i].segment
                        && s.symbol == if rows[i].segment == "NFO" then rows[i].symbol else canonical
  }

  lemma FoundAnswers(n: Naming, today: int, rows: seq<Row>, requested: string)
    ensures var found := Found(IndexOf(n, today, rows), n.resolve(requested), n.upper(requested));
            && (forall i: nat :: RowAnswers(n, today, rows, requested, i) ==> found == Some(rows[i]))
            && (found.Some? ==> exists i: nat :: RowAnswers(n, today, rows, requested, i))
  {
    var canonical, upper := n.resolve(requested), n.upper(requested);
    IndexHasSome(n, today, rows, canonical);
    IndexHasSome(n, today, rows, upper);
    forall i: nat | RowAnswers(n, today, rows, requested, i)
      ensures Found(IndexOf(n, today, rows), canonical, upper) == Some(rows[i])
    {
      if StandsFor(n, today, rows, canonical, i) {
        IndexHolds(n, today, rows, canonical, i);
      } else {
        IndexHolds(n, today, rows, upper, i);
      }
    }
    if canonical in IndexOf(n, today, rows) {
      var i := SomeStandsFor(n, today, rows, canonical);
      assert RowAnswers(n, today, rows, requested, i);
    } else if upper in IndexOf(n, today, rows) {
      var i := SomeStandsFor(n, today, rows, upper);
      assert RowAnswers(n, today, rows, requested, i);
    }
  }

  lemma RequestAnswers(n: Naming, fixed: Fixed, today: int, rows: seq<Row>, requested: string, s: Subscription)
    ensures Request(n, fixed, IndexOf(n, today, rows), requested) == Some(s) <==> Answers(n, fixed, today, rows, requested, s)
  {
    FoundAnswers(n, today, rows, requested);
  }

  /** Request `q` is the last one that leads to the key of `s`, and leads to `s`. */
  ghost predicate LastAnswer(n: Naming, fixed: Fixed, today: int, rows: seq<Row>, requests: seq<string>, q: nat, s: Subscription) {
    && q < |requests| && Answers(n, fixed, today, rows, requests[q], s)
    && forall p, other {:trigger Answers(n, fixed, today, rows, requests[p], other)} ::
         q < p < |requests| && Answers(n, fixed, today, rows, requests[p], other) ==>
           !(other.token == s.token && other.exchangeType == s.exchangeType)
  }

  /** `r` is what the request leads to, if anything. */
  ghost predicate Leads(n: Naming, fixed: Fixed, today: int, rows: seq<Row>, requested: string, r: Option<Subscription>) {
    forall s {:trigger Answers(n, fixed, today, rows, requested, s)} :: Answers(n, fixed, today, rows, requested, s) <==> r == Some(s)
  }

  lemma RequestLeads(n: Naming, fixed: Fixed, today: int, rows: seq<Row>, requested: string)
    ensures Leads(n, fixed, today, rows, requested, Request(n, fixed, IndexOf(n, today, rows), requested))
  {
    forall s: Subscription
      ensures Answers(n, fixed, today, rows, requested, s) <==> Request(n, fixed, IndexOf(n, today, rows), requested) == Some(s)
    {
      RequestAnswers(n, fixed, today, rows, requested, s);
    }
  }

  predicate SameKey(s: Subscription, other: Subscription) {
    s.token == other.token && s.exchangeType == other.exchangeType
  }

  /** What is subscribed is exactly what the requests lead to, a later one before an earlier one of the
      same token and type. */
  lemma {:induction false} BuildIsExact(n: Naming, fixed: Fixed, today: int, rows: seq<Row>, requests: seq<string>, s: Subscription)
    ensures var subs, k := Build(n, fixed, today, rows, requests), Key(s.token, s.exchangeType);
            (k in subs && subs[k] == s) <==> exists q: nat :: LastAnswer(n, fixed, today, rows, requests, q, s)
  {
    if requests != [] {
      var init, last := requests[..|requests| - 1], requests[|requests| - 1];
      var r := Request(n, fixed, IndexOf(n, today, rows), last);
      BuildIsExact(n, fixed, today, rows, init, s);
      RequestLeads(n, fixed, today, rows, last);
      if r.Some? && SameKey(s, r.value) {
        NewAnswerCounts(n, fixed, today, rows, requests, s, r.value);
      } else {
        OldAnswersCount(n, fixed, today, rows, init, requests, s, r);
      }
    }
  }

  lemma NewAnswerCounts(n: Naming, fixed: Fixed, today: int, rows: seq<Row>, requests: seq<string>, s: Subscription, r: Subscription)
    requires requests != [] && Leads(n, fixed, today, rows, requests[|requests| - 1], Some(r)) && SameKey(s, r)
    ensures (exists q: nat :: LastAnswer(n, fixed, today, rows, requests, q, s)) <==> r == s
  {
    var m := |requests| - 1;
    assert Answers(n, fixed, today, rows, requests[m], r);
    if r == s { assert LastAnswer(n, fixed, today, rows, requests, m, s); }
  }

  lemma OldAnswersCount(n: Naming, fixed: Fixed, today: int, rows: seq<Row>, init: seq<string>, requests: seq<string>,
                        s: Subscription, r: Option<Subscription>)
    requires requests != [] && init == requests[..|requests| - 1]
    requires Leads(n, fixed, today, rows, requests[|requests| - 1], r) && (r.Some? ==> !SameKey(s, r.value))
    ensures (exists q: nat :: LastAnswer(n, fixed, today, rows, requests, q, s))
            <==> exists q: nat :: LastAnswer(n, fixed, today, rows, init, q, s)
  {
    var m := |requests| - 1;
    forall q: nat | LastAnswer(n, fixed, today, rows, requests, q, s) ensures LastAnswer(n, fixed, today, rows, init, q, s) {
      assert q < m && init[q] == requests[q];
    }
    forall q: nat | LastAnswer(n, fixed, today, rows, init, q, s) ensures LastAnswer(n, fixed, today, rows, requests, q, s) {
      assert init[q] == requests[q];
    }
  }

  // ---- equities, derivatives, and requests that lead to nothing ----

  predicate NoIndex(n: Naming, fixed: Fixed, requested: string) {
    n.resolve(requested) !in fixed && n.upper(requested) !in fixed
  }

  /** No later request leads to the token under the type. */
  ghost predicate Unrepeated(n: Naming, fixed: Fixed, today: int, rows: seq<Row>, requests: seq<string>, q: nat,
                             token: string, exchangeType: int)
  {
    forall p, other {:trigger Answers(n, fixed, today, rows, requests[p], other)} ::
      q < p < |requests| && Answers(n, fixed, today, rows, requests[p], other) ==>
        !(other.token == token && other.exchangeType == exchangeType)
  }

  /** Every request that leads to a token has it subscribed. */
  lemma BuildCoversRequests(n: Naming, fixed: Fixed, today: int, rows: seq<Row>, requests: seq<string>, q: nat, s: Subscription)
    requires q < |requests| && Answers(n, fixed, today, rows, requests[q], s)
    ensures Key(s.token, s.exchangeType) in Build(n, fixed, today, rows, requests)
  {
    RequestAnswers(n, fixed, today, rows, requests[q], s);
    RequestIsCovered(n, fixed, today, rows, requests, requests[q]);
  }

  /** A requested equity is subscribed on the cash exchange under its canonical symbol, by the last row of
      the NSE that is found under that symbol. */
  lemma EquityIsSubscribed(n: Naming, fixed: Fixed, today: int, rows: seq<Row>, requests: seq<string>, q: nat, i: nat)
    requires q < |requests| && NoIndex(n, fixed, requests[q])
    requires i < |rows| && FoundUnder(n, today, rows[i], n.resolve(requests[q])) && rows[i].segment == "NSE" && rows[i].token != ""
    requires forall j :: i < j < |rows| && rows[j].segment == "NSE" ==> !FoundUnder(n, today, rows[j], n.resolve(requests[q]))
    requires Unrepeated(n, fixed, today, rows, requests, q, rows[i].token, 1)
    ensures var subs := Build(n, fixed, today, rows, requests);
            && Key(rows[i].token, 1) in subs
            && subs[Key(rows[i].token, 1)] == Subscription(n.resolve(requests[q]), rows[i].token, "NSE", 1)
  {
    var s := Subscription(n.resolve(requests[q]), rows[i].token, "NSE", 1);
    assert StandsFor(n, today, rows, n.resolve(requests[q]), i);
    assert RowAnswers(n, today, rows, requests[q], i);
    assert Answers(n, fixed, today, rows, requests[q], s);
    assert LastAnswer(n, fixed, today, rows, requests, q, s);
    BuildIsExact(n, fixed, today, rows, requests, s);
  }

  /** A requested derivative, found under the canonical symbol where no cash row is, is subscribed on the
      derivatives exchange under its own symbol. */
  lemma DerivativeIsSubscribed(n: Naming, fixed: Fixed, today: int, rows: seq<Row>, requests: seq<string>, q: nat, i: nat)
    requires q < |requests| && NoIndex(n, fixed, requests[q]) && i < |rows| && rows[i].token != ""
    requires rows[i].segment == "NFO" && rows[i].symbol == n.resolve(requests[q]) && rows[i].expiry.Some? && rows[i].expiry.value >= today
    requires forall j :: 0 <= j < |rows| && j != i ==> !FoundUnder(n, today, rows[j], n.resolve(requests[q]))
    requires Unrepeated(n, fixed, today, rows, requests, q, rows[i].token, 2)
    ensures var subs := Build(n, fixed, today, rows, requests);
            && Key(rows[i].token, 2) in subs
            && subs[Key(rows[i].token, 2)] == Subscription(rows[i].symbol, rows[i].token, "NFO", 2)
  {
    var s := Subscription(rows[i].symbol, rows[i].token, "NFO", 2);
    assert FoundUnder(n, today, rows[i], n.resolve(requests[q]));
    assert StandsFor(n, today, rows, n.resolve(requests[q]), i);
    assert RowAnswers(n, today, rows, requests[q], i);
    assert Answers(n, fixed, today, rows, requests[q], s);
    assert LastAnswer(n, fixed, today, rows, requests, q, s);
    BuildIsExact(n, fixed, today, rows, requests, s);
  }

  /** A request that no fixed index and no row answers adds nothing. */
  lemma UnansweredAddsNothing(n: Naming, fixed: Fixed, today: int, rows: seq<Row>, requests: seq<string>, requested: string)
    requires NoIndex(n, fixed, requested)
    requires forall i :: 0 <= i < |rows| ==>
               !FoundUnder(n, today, rows[i], n.resolve(requested)) && !FoundUnder(n, today, rows[i], n.upper(requested))
    ensures Build(n, fixed, today, rows, requests + [requested]) == Build(n, fixed, today, rows, requests)
  {
    assert (requests + [requested])[..|requests|] == requests;
    FoundAnswers(n, today, rows, requested);
  }
}
