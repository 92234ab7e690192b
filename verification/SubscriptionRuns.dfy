/**
 Runs of the subscription store in which a property fails, each from the start: what a lookup finds
 was built from another master's rows, or the broker sends a token that no lookup resolves.
 */
module SubscriptionRuns {
  import opened Wrappers
  import S = Subscriptions
  import opened SubscriptionStore
  import B = BrokerTokens

  /** The first master is activated and the first connection opens in it. */
  function OpensFirst(first: Rows, today: int): seq<Step> { [Refresh(1, first, today), ReadTokens, SubscribeAll(false)] }

  function Opened(c: Config, first: Rows, today: int): State {
    var subs := c.build(today, first, c.symbols);
    State(Some(1), first, subs, map[], Open(Era(1, 1)), 1, subs.Keys, Era(1, 1), Some(1))
  }

  lemma FirstOpens(c: Config, first: Rows, today: int)
    ensures After(c, OpensFirst(first, today)) == Opened(c, first, today)
  {
    AfterThen(c, [], OpensFirst(first, today));
    assert [] + OpensFirst(first, today) == OpensFirst(first, today);
    ApplyThree(c, START, Refresh(1, first, today), ReadTokens, SubscribeAll(false));
  }

  /** The synchronisation reads the rows of the master in between. */
  function ReadsSecond(second: Rows, today: int, demand: seq<string>): seq<Step> {
    [Work(1, Begin), Refresh(2, second, today), Work(1, ReadRows(today, demand))]
  }

  function FirstReturns(first: Rows, today: int): seq<Step> {
    [Refresh(1, first, today), Work(1, ReadCurrent), Work(1, InstallLookups)]
  }

  lemma SecondIsRead(c: Config, first: Rows, second: Rows, today: int, demand: seq<string>)
    ensures var t := ApplyAll(c, Opened(c, first, today), ReadsSecond(second, today, demand));
            && t.epoch == Some(2) && 1 in t.syncs
            && t.syncs[1] == Sync(Wanted, Some(1), Era(1, 1), c.build(today, second, c.symbols + demand), map[])
  {
    ApplyThree(c, Opened(c, first, today), Work(1, Begin), Refresh(2, second, today), Work(1, ReadRows(today, demand)));
  }

  lemma SecondIsInstalled(c: Config, s: State, first: Rows, today: int, want: S.Subs, key: S.Key)
    requires s.epoch == Some(2) && 1 in s.syncs && s.syncs[1] == Sync(Wanted, Some(1), Era(1, 1), want, map[]) && key in want
    ensures Found(ApplyAll(c, s, FirstReturns(first, today)), key, Some(1)) == Some(want[key])
  {
    ApplyThree(c, s, Refresh(1, first, today), Work(1, ReadCurrent), Work(1, InstallLookups));
  }

  /** A master that comes back: a synchronisation that began in it and read the rows of the master in
      between installs those rows' subscriptions under it. */
  lemma ReturningEpochMixesRows(c: Config, first: Rows, second: Rows, today: int, demand: seq<string>, key: S.Key)
    requires key in c.build(today, second, c.symbols + demand)
    ensures var steps := OpensFirst(first, today) + ReadsSecond(second, today, demand) + FirstReturns(first, today);
            Found(After(c, steps), key, Some(1)) == Some(c.build(today, second, c.symbols + demand)[key])
  {
    var init := OpensFirst(first, today) + ReadsSecond(second, today, demand);
    FirstOpens(c, first, today);
    AfterThen(c, OpensFirst(first, today), ReadsSecond(second, today, demand));
    AfterThen(c, init, FirstReturns(first, today));
    SecondIsRead(c, first, second, today, demand);
    SecondIsInstalled(c, After(c, init), first, today, c.build(today, second, c.symbols + demand), key);
  }

  /** A synchronisation begins while the master is invalid and reads the rows of the next one. */
  function LeftoverReads(first: Rows, today: int, demand: seq<string>): seq<Step> {
    [Invalidate, Work(1, Begin), Refresh(1, first, today), Work(1, ReadRows(today, demand))]
  }

  function SecondOpens(second: Rows, today: int): seq<Step> {
    [Refresh(2, second, today), Close, ReadTokens, SubscribeAll(false)]
  }

  function SecondReads(today: int, demand: seq<string>): seq<Step> {
    [Work(2, Begin), Work(2, ReadRows(today, demand)), Invalidate]
  }

  function LeftoverInstalls(): seq<Step> { [Work(1, ReadCurrent), Work(1, InstallLookups)] }

  function SecondInstalls(second: Rows, today: int): seq<Step> {
    [Work(2, ReadCurrent), Refresh(2, second, today), Work(2, InstallLookups)]
  }

  lemma LeftoverIsRead(c: Config, first: Rows, today: int, demand: seq<string>)
    ensures var t := ApplyAll(c, Opened(c, first, today), LeftoverReads(first, today, demand));
            && t.epoch == Some(1) && t.session == 1 && t.era == Era(3, 2) && t.syncs.Keys == {1}
            && t.syncs[1] == Sync(Wanted, None, Era(2, 1), c.build(today, first, c.symbols + demand), map[])
  {
    ApplyFour(c, Opened(c, first, today), Invalidate, Work(1, Begin), Refresh(1, first, today), Work(1, ReadRows(today, demand)));
  }

  lemma SecondIsOpened(c: Config, s: State, second: Rows, today: int)
    requires s.epoch == Some(1) && s.session == 1 && s.era == Era(3, 2) && s.syncs.Keys == {1}
    ensures var t := ApplyAll(c, s, SecondOpens(second, today));
            && t.epoch == Some(2) && t.rows == second && t.syncs == s.syncs
            && t.session == 2 && t.connection == Open(Era(4, 3)) && t.era == Era(4, 3)
  {
    ApplyFour(c, s, Refresh(2, second, today), Close, ReadTokens, SubscribeAll(false));
  }

  lemma SecondHasRead(c: Config, s: State, today: int, demand: seq<string>)
    requires s.epoch == Some(2) && s.session == 2 && s.connection.Open? && s.syncs.Keys == {1}
    ensures var t := ApplyAll(c, s, SecondReads(today, demand));
            && t.epoch == None && t.subs == map[] && t.syncs.Keys == {1, 2} && t.syncs[1] == s.syncs[1]
            && t.syncs[2].phase == Wanted && t.syncs[2].epoch == Some(2)
            && t.syncs[2].desired == c.build(today, s.rows, c.symbols + demand)
  {
    ApplyThree(c, s, Work(2, Begin), Work(2, ReadRows(today, demand)), Invalidate);
  }

  lemma LeftoverIsInstalled(c: Config, s: State)
    requires s.epoch == None && s.subs == map[] && s.syncs.Keys == {1, 2}
    requires s.syncs[1].phase == Wanted && s.syncs[1].epoch == None
    ensures var t := ApplyAll(c, s, LeftoverInstalls());
            t.epoch == None && t.subs == s.syncs[1].desired && 2 in t.syncs && t.syncs[2] == s.syncs[2]
  {
    ApplyTwo(c, s, Work(1, ReadCurrent), Work(1, InstallLookups));
  }

  lemma SecondKeepsLeftover(c: Config, s: State, second: Rows, today: int, key: S.Key)
    requires s.epoch == None && 2 in s.syncs && s.syncs[2].phase == Wanted && s.syncs[2].epoch == Some(2)
    requires key in s.subs && key !in s.syncs[2].desired
    ensures Found(ApplyAll(c, s, SecondInstalls(second, today)), key, Some(2)) == Some(s.subs[key])
  {
    ApplyThree(c, s, Work(2, ReadCurrent), Refresh(2, second, today), Work(2, InstallLookups));
  }

  function LeftoverRun(first: Rows, second: Rows, today: int, demand: seq<string>, other: seq<string>): seq<Step> {
    OpensFirst(first, today) + LeftoverReads(first, today, demand) + SecondOpens(second, today)
    + SecondReads(today, other) + LeftoverInstalls() + SecondInstalls(second, today)
  }

  /** Two synchronisations and masters that go one way: one that began while the master was invalid
      installs the first master's rows while the master is invalid again, where the other, which began
      in the second master, reads them and installs them under it. */
  lemma LeftoverMixesRows(c: Config, first: Rows, second: Rows, today: int, demand: seq<string>, other: seq<string>, key: S.Key)
    requires key in c.build(today, first, c.symbols + demand) && key !in c.build(today, second, c.symbols + other)
    ensures var steps := LeftoverRun(first, second, today, demand, other);
            && OneWay(Activations(steps))
            && Found(After(c, steps), key, Some(2)) == Some(c.build(today, first, c.symbols + demand)[key])
  {
    var a := OpensFirst(first, today);
    var b := a + LeftoverReads(first, today, demand);
    var d := b + SecondOpens(second, today);
    var e := d + SecondReads(today, other);
    var f := e + LeftoverInstalls();
    FirstOpens(c, first, today);
    AfterThen(c, a, LeftoverReads(first, today, demand));
    LeftoverIsRead(c, first, today, demand);
    AfterThen(c, b, SecondOpens(second, today));
    SecondIsOpened(c, After(c, b), second, today);
    AfterThen(c, d, SecondReads(today, other));
    SecondHasRead(c, After(c, d), today, other);
    AfterThen(c, e, LeftoverInstalls());
    LeftoverIsInstalled(c, After(c, e));
    AfterThen(c, f, SecondInstalls(second, today));
    SecondKeepsLeftover(c, After(c, f), second, today, key);
    LeftoverActivations(first, second, today, demand, other);
  }

  lemma SixBlocks(a: seq<Step>, b: seq<Step>, d: seq<Step>, e: seq<Step>, f: seq<Step>, g: seq<Step>)
    requires Activations(a) == [1] && Activations(b) == [1] && Activations(d) == [2]
    requires Activations(e) == [] && Activations(f) == [] && Activations(g) == [2]
    ensures Activations(a + b + d + e + f + g) == [1, 1, 2, 2]
  {
    ActivationsJoined(a, b);
    ActivationsJoined(a + b, d);
    ActivationsJoined(a + b + d, e);
    ActivationsJoined(a + b + d + e, f);
    ActivationsJoined(a + b + d + e + f, g);
  }

  lemma FirstThenSecondIsOneWay(epochs: seq<nat>)
    requires epochs == [1, 1, 2, 2]
    ensures OneWay(epochs)
  {
  }

  lemma LeftoverActivations(first: Rows, second: Rows, today: int, demand: seq<string>, other: seq<string>)
    ensures OneWay(Activations(LeftoverRun(first, second, today, demand, other)))
  {
    BlockActivations(first, second, today, demand, other);
    SixBlocks(OpensFirst(first, today), LeftoverReads(first, today, demand), SecondOpens(second, today),
              SecondReads(today, other), LeftoverInstalls(), SecondInstalls(second, today));
    FirstThenSecondIsOneWay(Activations(LeftoverRun(first, second, today, demand, other)));
  }

  lemma BlockActivations(first: Rows, second: Rows, today: int, demand: seq<string>, other: seq<string>)
    ensures Activations(OpensFirst(first, today)) == [1] && Activations(LeftoverReads(first, today, demand)) == [1]
    ensures Activations(SecondOpens(second, today)) == [2] && Activations(SecondReads(today, other)) == []
    ensures Activations(LeftoverInstalls()) == [] && Activations(SecondInstalls(second, today)) == [2]
  {
    ActivationsOfFour(LeftoverReads(first, today, demand));
    ActivationsOfFour(SecondOpens(second, today));
    ActivationsOfThree(OpensFirst(first, today));
    ActivationsOfThree(SecondReads(today, other));
    ActivationsOfThree(SecondInstalls(second, today));
    ActivationsOfTwo(LeftoverInstalls());
  }

  lemma ActivationsOfTwo(steps: seq<Step>)
    requires |steps| == 2
    ensures Activations(steps) == ActivationsOf(steps[0]) + ActivationsOf(steps[1])
  {
    assert Activations(steps[..1]) == ActivationsOf(steps[0]) by { assert steps[..1][..0] == []; }
  }

  lemma ActivationsOfThree(steps: seq<Step>)
    requires |steps| == 3
    ensures Activations(steps) == ActivationsOf(steps[0]) + ActivationsOf(steps[1]) + ActivationsOf(steps[2])
  {
    ActivationsOfTwo(steps[..2]);
  }

  lemma ActivationsOfFour(steps: seq<Step>)
    requires |steps| == 4
    ensures Activations(steps) == ActivationsOf(steps[0]) + ActivationsOf(steps[1]) + ActivationsOf(steps[2]) + ActivationsOf(steps[3])
  {
    ActivationsOfThree(steps[..3]);
  }

  // ---- a synchronisation that outlives its connection ----

  function Prepares(w: nat, today: int, demand: seq<string>): seq<Step> {
    [Work(w, Begin), Work(w, ReadRows(today, demand)), Work(w, ReadCurrent), Work(w, InstallLookups)]
  }

  /** Undisturbed, a synchronisation adds what it wants to the store before it calls the broker. */
  lemma SyncPrepares(c: Config, s: State, w: nat, today: int, demand: seq<string>)
    requires MayBegin(s, w)
    ensures var desired := c.build(today, s.rows, c.symbols + demand);
            ApplyAll(c, s, Prepares(w, today, demand))
            == Move(s.(subs := s.subs + desired), w, Sync(Installed, s.epoch, s.era, desired, s.subs))
  {
    ApplyFour(c, s, Work(w, Begin), Work(w, ReadRows(today, demand)), Work(w, ReadCurrent), Work(w, InstallLookups));
    var desired := c.build(today, s.rows, c.symbols + demand);
    var last := Sync(Installed, s.epoch, s.era, desired, s.subs);
    var y1, y2 := Sync(Began, s.epoch, s.era, map[], map[]), Sync(Wanted, s.epoch, s.era, desired, map[]);
    var y3 := Sync(Compared, s.epoch, s.era, desired, s.subs);
    assert s.syncs[w := y1][w := y2] == s.syncs[w := y2];
    assert s.syncs[w := y2][w := y3] == s.syncs[w := y3];
    assert s.syncs[w := y3][w := last] == s.syncs[w := last];
  }

  function Calls(w: nat): seq<Step> { [Work(w, Unsubscribe(false)), Work(w, Subscribe(false))] }

  function Reopens(): seq<Step> { [Close, ReadTokens, SubscribeAll(false)] }

  /** Only the broker and the phase are not the same. */
  predicate AlikeButBroker(s: State, t: State) {
    && t.epoch == s.epoch && t.rows == s.rows && t.subs == s.subs && t.connection == s.connection
    && t.session == s.session && t.era == s.era
  }

  lemma CallsAreMade(c: Config, s: State, w: nat)
    requires w in s.syncs && s.syncs[w].phase.Installed?
    ensures var t := ApplyAll(c, s, Calls(w));
            AlikeButBroker(s, t) && t.syncs == s.syncs[w := s.syncs[w].(phase := Extended)]
  {
    var y := s.syncs[w];
    ApplyTwo(c, s, Work(w, Unsubscribe(false)), Work(w, Subscribe(false)));
    var u := Apply(c, s, Work(w, Unsubscribe(false)));
    assert u == Unsubscribed(s, w, y, false);
    assert Apply(c, u, Work(w, Subscribe(false))) == Subscribed(u, w, u.syncs[w], false);
    assert s.syncs[w := y.(phase := Pruned)][w := y.(phase := Extended)] == s.syncs[w := y.(phase := Extended)];
  }

  lemma ConnectionReopens(c: Config, s: State)
    ensures var t := ApplyAll(c, s, Reopens());
            && t == s.(connection := Open(s.era), session := s.session + 1, broker := s.subs.Keys)
            && B.SameMaster(t)
  {
    ApplyThree(c, s, Close, ReadTokens, SubscribeAll(false));
  }

  function FinishedSync(w: nat, today: int, demand: seq<string>): seq<Step> {
    Prepares(w, today, demand) + Calls(w) + [Work(w, Finish)]
  }

  lemma {:induction false} ApplyAllJoined(c: Config, s: State, steps: seq<Step>, more: seq<Step>)
    ensures ApplyAll(c, s, steps + more) == ApplyAll(c, ApplyAll(c, s, steps), more)
    decreases |steps|
  {
    if steps == [] {
      assert steps + more == more;
    } else {
      assert (steps + more)[1..] == steps[1..] + more;
      ApplyAllJoined(c, Apply(c, s, steps[0]), steps[1..], more);
    }
  }

  lemma SyncExtends(c: Config, s: State, w: nat, today: int, demand: seq<string>)
    requires MayBegin(s, w)
    ensures var desired := c.build(today, s.rows, c.symbols + demand);
            var t := ApplyAll(c, s, Prepares(w, today, demand) + Calls(w));
            && AlikeButBroker(s.(subs := s.subs + desired), t)
            && t.syncs.Keys == s.syncs.Keys + {w} && t.syncs[w] == Sync(Extended, s.epoch, s.era, desired, s.subs)
  {
    ApplyAllJoined(c, s, Prepares(w, today, demand), Calls(w));
    SyncPrepares(c, s, w, today, demand);
    CallsAreMade(c, ApplyAll(c, s, Prepares(w, today, demand)), w);
  }

  lemma FinishSettles(c: Config, s: State, w: nat)
    requires w in s.syncs && s.syncs[w].phase.Extended? && s.syncs[w].epoch == s.epoch
    ensures var t := ApplyAll(c, s, [Work(w, Finish)]);
            AlikeButBroker(s.(subs := s.syncs[w].desired), t) && w !in t.syncs && t.broker == s.broker
  {
    ApplyOne(c, s, Work(w, Finish));
  }

  lemma SyncFinishes(c: Config, s: State, w: nat, today: int, demand: seq<string>)
    requires MayBegin(s, w)
    ensures var t := ApplyAll(c, s, FinishedSync(w, today, demand));
            AlikeButBroker(s.(subs := c.build(today, s.rows, c.symbols + demand)), t) && w !in t.syncs
  {
    var init := Prepares(w, today, demand) + Calls(w);
    ApplyAllJoined(c, s, init, [Work(w, Finish)]);
    SyncExtends(c, s, w, today, demand);
    FinishSettles(c, ApplyAll(c, s, init), w);
  }

  /** The first connection's loop drops some demand and outlives the connection: the next connection
      subscribes the dropped tokens, which the loop then takes out of the store. */
  function StaleFinishRun(first: Rows, today: int, demand: seq<string>, other: seq<string>): seq<Step> {
    OpensFirst(first, today) + FinishedSync(1, today, demand) + (Prepares(1, today, other) + Calls(1))
    + Reopens() + [Work(1, Finish)]
  }

  lemma StaleFinishHidesTokens(c: Config, first: Rows, today: int, demand: seq<string>, other: seq<string>, key: S.Key)
    requires key in c.build(today, first, c.symbols + demand) && key !in c.build(today, first, c.symbols + other)
    ensures var t := After(c, StaleFinishRun(first, today, demand, other));
            B.SameMaster(t) && key in t.broker && Found(t, key, t.epoch).None?
  {
    var a := OpensFirst(first, today);
    var b := a + FinishedSync(1, today, demand);
    var d := b + (Prepares(1, today, other) + Calls(1));
    var e := d + Reopens();
    FirstOpens(c, first, today);
    AfterThen(c, a, FinishedSync(1, today, demand));
    SyncFinishes(c, After(c, a), 1, today, demand);
    AfterThen(c, b, Prepares(1, today, other) + Calls(1));
    SyncExtends(c, After(c, b), 1, today, other);
    AfterThen(c, d, Reopens());
    ConnectionReopens(c, After(c, d));
    AfterThen(c, e, [Work(1, Finish)]);
    FinishSettles(c, After(c, e), 1);
  }

  function StaleRollBack(): seq<Step> { [Work(1, Unsubscribe(false)), Work(1, Subscribe(true)), Work(1, RollBack)] }

  /** The first connection's loop wants more tokens and outlives the connection: the next connection
      subscribes them, the loop's call to subscribe raises and it takes them out of the store. */
  function StaleRollBackRun(first: Rows, today: int, demand: seq<string>): seq<Step> {
    OpensFirst(first, today) + Prepares(1, today, demand) + Reopens() + StaleRollBack()
  }

  lemma SyncRollsBack(c: Config, s: State)
    requires 1 in s.syncs && s.syncs[1].phase.Installed? && s.syncs[1].epoch == s.epoch && Added(s.syncs[1]) != {}
    requires s.session == 2
    ensures var t := ApplyAll(c, s, StaleRollBack());
            AlikeButBroker(s.(subs := s.syncs[1].current), t) && t.broker == s.broker
  {
    var y := s.syncs[1];
    ApplyThree(c, s, Work(1, Unsubscribe(false)), Work(1, Subscribe(true)), Work(1, RollBack));
    var u := Apply(c, s, Work(1, Unsubscribe(false)));
    assert u == Unsubscribed(s, 1, y, false) && u.syncs[1] == y.(phase := Pruned);
    var v := Apply(c, u, Work(1, Subscribe(true)));
    assert v == Subscribed(u, 1, u.syncs[1], true) && v.syncs[1] == y.(phase := Failed);
  }

  lemma StaleRollBackHidesTokens(c: Config, first: Rows, today: int, demand: seq<string>, key: S.Key)
    requires key in c.build(today, first, c.symbols + demand) && key !in c.build(today, first, c.symbols)
    ensures var t := After(c, StaleRollBackRun(first, today, demand));
            B.SameMaster(t) && key in t.broker && Found(t, key, t.epoch).None?
  {
    var a := OpensFirst(first, today);
    var b := a + Prepares(1, today, demand);
    var d := b + Reopens();
    FirstOpens(c, first, today);
    AfterThen(c, a, Prepares(1, today, demand));
    SyncPrepares(c, After(c, a), 1, today, demand);
    AfterThen(c, b, Reopens());
    ConnectionReopens(c, After(c, b));
    AfterThen(c, d, StaleRollBack());
    assert key in Added(After(c, d).syncs[1]);
    SyncRollsBack(c, After(c, d));
  }

  // ---- a stale write over tokens that are about to be subscribed ----

  /** The second connection's own synchronisation has installed its lookups and unsubscribed. */
  function SecondPrunes(today: int, demand: seq<string>): seq<Step> {
    Prepares(2, today, demand) + [Work(2, Unsubscribe(false))]
  }

  /** The first connection's loop ends between the second's call to unsubscribe and its call to subscribe:
      what the broker then sends is still in the store, what it is about to send no longer is. */
  function LateFinishRun(first: Rows, today: int, demand: seq<string>): seq<Step> {
    OpensFirst(first, today) + (Prepares(1, today, []) + Calls(1)) + Reopens() + SecondPrunes(today, demand) + [Work(1, Finish)]
  }

  lemma SecondIsPruned(c: Config, s: State, today: int, demand: seq<string>)
    requires MayBegin(s, 2) && s.session == 2 && s.connection.Open? && 1 in s.syncs
    ensures var desired := c.build(today, s.rows, c.symbols + demand);
            var t := ApplyAll(c, s, SecondPrunes(today, demand));
            && AlikeButBroker(s.(subs := s.subs + desired), t)
            && 1 in t.syncs && t.syncs[1] == s.syncs[1]
            && 2 in t.syncs && t.syncs[2] == Sync(Pruned, s.epoch, s.era, desired, s.subs)
            && t.broker == s.broker - (s.subs.Keys - desired.Keys)
  {
    var m := ApplyAll(c, s, Prepares(2, today, demand));
    ApplyAllJoined(c, s, Prepares(2, today, demand), [Work(2, Unsubscribe(false))]);
    SyncPrepares(c, s, 2, today, demand);
    ApplyOne(c, m, Work(2, Unsubscribe(false)));
    assert Apply(c, m, Work(2, Unsubscribe(false))) == Unsubscribed(m, 2, m.syncs[2], false);
  }

  lemma SubscribeSends(c: Config, s: State, key: S.Key)
    requires s.session == 2 && s.connection.Open? && 2 in s.syncs && s.syncs[2].phase.Pruned? && key in Added(s.syncs[2])
    ensures var t := ApplyAll(c, s, [Work(2, Subscribe(false))]); AlikeButBroker(s, t) && key in t.broker
  {
    ApplyOne(c, s, Work(2, Subscribe(false)));
    assert Apply(c, s, Work(2, Subscribe(false))) == Subscribed(s, 2, s.syncs[2], false);
  }

  /** Right before the first connection's loop ends. */
  lemma LateFinishIsReached(c: Config, first: Rows, today: int, demand: seq<string>)
    ensures var base, desired := c.build(today, first, c.symbols), c.build(today, first, c.symbols + demand);
            var s := After(c, OpensFirst(first, today) + (Prepares(1, today, []) + Calls(1)) + Reopens() + SecondPrunes(today, demand));
            && B.SameMaster(s) && s.epoch == Some(1) && s.session == 2 && 1 in s.syncs && 2 in s.syncs
            && s.syncs[1] == Sync(Extended, Some(1), Era(1, 1), base, base)
            && s.syncs[2].phase == Pruned && s.syncs[2].desired == desired && s.syncs[2].current == base
            && s.broker <= base.Keys
  {
    var base := c.build(today, first, c.symbols);
    var a := OpensFirst(first, today);
    var b := a + (Prepares(1, today, []) + Calls(1));
    var d := b + Reopens();
    assert c.symbols + [] == c.symbols;
    FirstOpens(c, first, today);
    AfterThen(c, a, Prepares(1, today, []) + Calls(1));
    SyncExtends(c, After(c, a), 1, today, []);
    assert base + base == base;
    AfterThen(c, b, Reopens());
    ConnectionReopens(c, After(c, b));
    AfterThen(c, d, SecondPrunes(today, demand));
    SecondIsPruned(c, After(c, d), today, demand);
  }

  lemma LateFinishHidesTokens(c: Config, first: Rows, today: int, demand: seq<string>, key: S.Key)
    requires key in c.build(today, first, c.symbols + demand) && key !in c.build(today, first, c.symbols)
    ensures var s := After(c, LateFinishRun(first, today, demand));
            var t := After(c, LateFinishRun(first, today, demand) + [Work(2, Subscribe(false))]);
            && B.SameMaster(s) && B.Resolves(s)
            && B.SameMaster(t) && key in t.broker && Found(t, key, t.epoch).None?
  {
    var e := OpensFirst(first, today) + (Prepares(1, today, []) + Calls(1)) + Reopens() + SecondPrunes(today, demand);
    LateFinishIsReached(c, first, today, demand);
    AfterThen(c, e, [Work(1, Finish)]);
    LateFinishDrops(c, After(c, e));
    AfterThen(c, LateFinishRun(first, today, demand), [Work(2, Subscribe(false))]);
    SubscribeSends(c, After(c, LateFinishRun(first, today, demand)), key);
  }

  lemma LateFinishDrops(c: Config, s: State)
    requires 1 in s.syncs && s.syncs[1].phase.Extended? && s.syncs[1].epoch == s.epoch && s.session == 2
    ensures var t := ApplyAll(c, s, [Work(1, Finish)]);
            && AlikeButBroker(s.(subs := s.syncs[1].desired), t) && t.broker == s.broker
            && (2 in s.syncs ==> 2 in t.syncs && t.syncs[2] == s.syncs[2])
  {
    ApplyOne(c, s, Work(1, Finish));
  }

  // ---- a rolled-back store that claims what the broker no longer sends ----

  function RaisesLate(today: int, demand: seq<string>): seq<Step> {
    Prepares(1, today, demand) + [Work(1, Unsubscribe(false)), Work(1, Subscribe(true)), Work(1, RollBack)]
  }

  lemma LateRaiseRollsBack(c: Config, s: State, today: int, demand: seq<string>)
    requires MayBegin(s, 1) && s.session == 1 && s.connection.Open?
    requires c.build(today, s.rows, c.symbols + demand).Keys - s.subs.Keys != {}
    ensures var desired := c.build(today, s.rows, c.symbols + demand);
            var t := ApplyAll(c, s, RaisesLate(today, demand));
            AlikeButBroker(s, t) && 1 !in t.syncs && t.broker == s.broker - (s.subs.Keys - desired.Keys)
  {
    var m := ApplyAll(c, s, Prepares(1, today, demand));
    ApplyAllJoined(c, s, Prepares(1, today, demand), [Work(1, Unsubscribe(false)), Work(1, Subscribe(true)), Work(1, RollBack)]);
    SyncPrepares(c, s, 1, today, demand);
    ApplyThree(c, m, Work(1, Unsubscribe(false)), Work(1, Subscribe(true)), Work(1, RollBack));
    var y := m.syncs[1];
    var u := Apply(c, m, Work(1, Unsubscribe(false)));
    assert u == Unsubscribed(m, 1, y, false) && u.syncs[1] == y.(phase := Pruned);
    var v := Apply(c, u, Work(1, Subscribe(true)));
    assert v == Subscribed(u, 1, u.syncs[1], true) && v.syncs[1] == y.(phase := Failed);
  }

  /** The demand changes from one token to another, the old one is unsubscribed and the call that
      subscribes the new one raises: the store still resolves the old one, which the broker does not send. */
  function RollBackRun(first: Rows, today: int, demand: seq<string>, other: seq<string>): seq<Step> {
    OpensFirst(first, today) + FinishedSync(1, today, demand) + RaisesLate(today, other)
  }

  lemma RollBackClaimsTokens(c: Config, first: Rows, today: int, demand: seq<string>, other: seq<string>, key: S.Key, late: S.Key)
    requires key in c.build(today, first, c.symbols + demand) && key !in c.build(today, first, c.symbols + other)
    requires late in c.build(today, first, c.symbols + other) && late !in c.build(today, first, c.symbols + demand)
    ensures var t := After(c, RollBackRun(first, today, demand, other));
            B.SameMaster(t) && t.session !in t.syncs && Found(t, key, t.epoch).Some? && key !in t.broker
  {
    var a := OpensFirst(first, today);
    var b := a + FinishedSync(1, today, demand);
    FirstOpens(c, first, today);
    AfterThen(c, a, FinishedSync(1, today, demand));
    SyncFinishes(c, After(c, a), 1, today, demand);
    AfterThen(c, b, RaisesLate(today, other));
    assert late in c.build(today, first, c.symbols + other).Keys - After(c, b).subs.Keys;
    LateRaiseRollsBack(c, After(c, b), today, other);
  }
}
