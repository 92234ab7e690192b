/**
 The instrument store and the threads' methods over it
 (python-services/market-worker/worker.py, InstrumentStore, sync_demand_subscriptions, on_open).

 Where a method holds no lock the steps of other threads may come between; they are its parameters.
 */
module SubscriptionWorker {
  import opened Wrappers
  import S = Subscriptions
  import opened SubscriptionStore
  import B = BrokerTokens
  import R = SubscriptionRuns

  /** Steps of threads other than loop `w`. */
  predicate NotOf(w: nat, steps: seq<Step>) {
    forall step :: step in steps ==> !(step.Work? && step.worker == w)
  }

  /** Steps of threads other than the connection's. */
  predicate NotConnecting(steps: seq<Step>) {
    forall step :: step in steps ==> step.Refresh? || step.Invalidate? || step.Work?
  }

  lemma OtherKeepsSync(c: Config, s: State, w: nat, step: Step)
    requires w in s.syncs && !(step.Work? && step.worker == w)
    ensures w in Apply(c, s, step).syncs && Apply(c, s, step).syncs[w] == s.syncs[w]
  {
  }

  lemma {:induction false} OthersKeepSync(c: Config, s: State, w: nat, steps: seq<Step>)
    requires w in s.syncs && NotOf(w, steps)
    ensures var t := ApplyAll(c, s, steps); w in t.syncs && t.syncs[w] == s.syncs[w]
    decreases |steps|
  {
    if steps != [] {
      OtherKeepsSync(c, s, w, steps[0]);
      OthersKeepSync(c, Apply(c, s, steps[0]), w, steps[1..]);
    }
  }

  lemma OtherKeepsConnection(c: Config, s: State, step: Step)
    requires s.connection.Opening? && (step.Refresh? || step.Invalidate? || step.Work?)
    ensures var t := Apply(c, s, step); t.connection == s.connection && t.session == s.session && t.broker == s.broker
  {
    if step.Work? && !step.action.Begin? && step.worker in s.syncs {
      B.AdvanceKeepsConnection(c, s, step.worker, step.action);
    }
  }

  lemma {:induction false} OthersKeepConnection(c: Config, s: State, steps: seq<Step>)
    requires s.connection.Opening? && NotConnecting(steps)
    ensures var t := ApplyAll(c, s, steps);
            t.connection == s.connection && t.session == s.session && t.broker == s.broker
    decreases |steps|
  {
    if steps != [] {
      OtherKeepsConnection(c, s, steps[0]);
      OthersKeepConnection(c, Apply(c, s, steps[0]), steps[1..]);
    }
  }

  predicate Quiet(others: seq<seq<Step>>) {
    forall i :: 0 <= i < |others| ==> others[i] == []
  }

  predicate CallRaises(y: Sync, unsubscribeRaises: bool, subscribeRaises: bool) {
    (Removed(y) != {} && unsubscribeRaises) || (Added(y) != {} && subscribeRaises)
  }

  /** The steps until the lookups are installed, with those of other threads in the gaps. */
  function Preparing(w: nat, today: int, demand: seq<string>, others: seq<seq<Step>>): seq<Step>
    requires |others| >= 3
  {
    [Work(w, Begin)] + others[0] + [Work(w, ReadRows(today, demand))] + others[1] + [Work(w, ReadCurrent)] + others[2]
    + [Work(w, InstallLookups)]
  }

  /** The steps from the calls to the broker on. */
  function Calling(w: nat, y: Sync, unsubscribeRaises: bool, subscribeRaises: bool, others: seq<seq<Step>>): seq<Step>
    requires |others| >= 2
  {
    if Removed(y) != {} && unsubscribeRaises then
      [Work(w, Unsubscribe(unsubscribeRaises))] + others[0] + [Work(w, RollBack)]
    else
      [Work(w, Unsubscribe(unsubscribeRaises))] + others[0] + [Work(w, Subscribe(subscribeRaises))] + others[1]
      + [Work(w, if Added(y) != {} && subscribeRaises then RollBack else Finish)]
  }

  /** All the steps of a synchronisation that follows `before`; there are no calls if its epoch has changed. */
  function Synchronising(c: Config, before: seq<Step>, w: nat, today: int, demand: seq<string>,
                         unsubscribeRaises: bool, subscribeRaises: bool, others: seq<seq<Step>>): seq<Step>
    requires |others| == 6
  {
    var prepared := before + Preparing(w, today, demand, others);
    var s := After(c, prepared);
    if w in s.syncs then prepared + others[3] + Calling(w, s.syncs[w], unsubscribeRaises, subscribeRaises, others[4..])
    else prepared
  }

  /** The steps from the calls on, when nothing comes between. */
  function CallSteps(w: nat, y: Sync, unsubscribeRaises: bool, subscribeRaises: bool): seq<Step> {
    Calling(w, y, unsubscribeRaises, subscribeRaises, [[], []])
  }

  /** What a synchronisation of the open connection leaves, when nothing comes between. */
  predicate Synchronised(s: State, t: State, current: S.Subs, desired: S.Subs, raised: bool) {
    && t.epoch == s.epoch && t.rows == s.rows && t.connection == s.connection && t.session == s.session
    && t.subs == (if raised then current else desired)
    && (!raised ==> t.broker == s.broker - (current.Keys - desired.Keys) + (desired.Keys - current.Keys))
    && (raised ==> t.broker == s.broker || t.broker == s.broker - (current.Keys - desired.Keys))
  }

  lemma CallsSettle(c: Config, s: State, w: nat, unsubscribeRaises: bool, subscribeRaises: bool)
    requires w in s.syncs && s.syncs[w].phase.Installed? && s.syncs[w].epoch == s.epoch
    requires s.connection.Open? && w == s.session
    ensures var y := s.syncs[w];
            var t := ApplyAll(c, s, CallSteps(w, y, unsubscribeRaises, subscribeRaises));
            Synchronised(s, t, y.current, y.desired, CallRaises(y, unsubscribeRaises, subscribeRaises))
  {
    var y := s.syncs[w];
    var u := Apply(c, s, Work(w, Unsubscribe(unsubscribeRaises)));
    assert u == Unsubscribed(s, w, y, unsubscribeRaises);
    if Removed(y) != {} && unsubscribeRaises {
      assert CallSteps(w, y, unsubscribeRaises, subscribeRaises) == [Work(w, Unsubscribe(unsubscribeRaises)), Work(w, RollBack)];
      ApplyTwo(c, s, Work(w, Unsubscribe(unsubscribeRaises)), Work(w, RollBack));
      assert Apply(c, u, Work(w, RollBack)) == Settled(u, w, u.syncs[w], y.current);
    } else {
      var raised := Added(y) != {} && subscribeRaises;
      assert CallSteps(w, y, unsubscribeRaises, subscribeRaises)
             == [Work(w, Unsubscribe(unsubscribeRaises)), Work(w, Subscribe(subscribeRaises)),
                 Work(w, if raised then RollBack else Finish)];
      ApplyThree(c, s, Work(w, Unsubscribe(unsubscribeRaises)), Work(w, Subscribe(subscribeRaises)),
                   Work(w, if raised then RollBack else Finish));
      var v := Apply(c, u, Work(w, Subscribe(subscribeRaises)));
      assert v == Subscribed(u, w, u.syncs[w], subscribeRaises);
      assert Apply(c, v, Work(w, if raised then RollBack else Finish))
             == Settled(v, w, v.syncs[w], if raised then y.current else y.desired);
    }
  }

  /** A whole synchronisation when nothing comes between. */
  lemma SyncSettles(c: Config, s: State, w: nat, today: int, demand: seq<string>, y: Sync, unsubscribeRaises: bool, subscribeRaises: bool)
    requires MayBegin(s, w) && s.connection.Open? && w == s.session
    requires y == Sync(Installed, s.epoch, s.era, c.build(today, s.rows, c.symbols + demand), s.subs)
    ensures var m := ApplyAll(c, s, R.Prepares(w, today, demand));
            var t := ApplyAll(c, m, CallSteps(w, y, unsubscribeRaises, subscribeRaises));
            && w in m.syncs && m.syncs[w] == y
            && Synchronised(s, t, y.current, y.desired, CallRaises(y, unsubscribeRaises, subscribeRaises))
  {
    R.SyncPrepares(c, s, w, today, demand);
    var m := ApplyAll(c, s, R.Prepares(w, today, demand));
    CallsSettle(c, m, w, unsubscribeRaises, subscribeRaises);
  }

  lemma QuietPreparing(w: nat, today: int, demand: seq<string>, others: seq<seq<Step>>)
    requires |others| >= 3 && Quiet(others)
    ensures Preparing(w, today, demand, others) == R.Prepares(w, today, demand)
  {
  }

  lemma QuietCalling(before: seq<Step>, w: nat, y: Sync, unsubscribeRaises: bool, subscribeRaises: bool, others: seq<seq<Step>>)
    requires |others| == 6 && Quiet(others)
    ensures before + others[3] + Calling(w, y, unsubscribeRaises, subscribeRaises, others[4..])
            == before + CallSteps(w, y, unsubscribeRaises, subscribeRaises)
  {
    assert others[4..] == [[], []];
    assert before + others[3] == before;
  }

  lemma JoinPreparing<T>(t: seq<T>, a: seq<T>, b: seq<T>, c: seq<T>, d: seq<T>, e: seq<T>, f: seq<T>, g: seq<T>)
    ensures t + a + b + c + d + e + f + g == t + (a + b + c + d + e + f + g)
  {
  }

  lemma JoinCalling<T>(t: seq<T>, a: seq<T>, b: seq<T>, c: seq<T>, d: seq<T>, e: seq<T>)
    ensures t + a + b + c + d + e == t + (a + b + c + d + e)
    ensures t + a + b + c == t + (a + b + c)
  {
  }

  class InstrumentStore {
    const config: Config
    var epoch: Epoch
    var rows: Rows
    var subs: S.Subs
    var syncs: map<nat, Sync>
    var connection: Connection
    var session: nat
    var broker: set<S.Key>
    var era: Era
    var latest: Epoch
    ghost var trace: seq<Step>

    function Contents(): State
      reads this
    {
      State(epoch, rows, subs, syncs, connection, session, broker, era, latest)
    }

    /** The store is what the steps so far made of it. */
    ghost predicate Valid()
      reads this
    {
      Contents() == After(config, trace)
    }

    constructor (config: Config)
      ensures this.config == config && trace == [] && Valid()
    {
      this.config := config;
      epoch, rows, subs, syncs, connection := None, [], map[], map[], Closed;
      session, broker, era, latest, trace := 0, {}, Era(0, 0), None, [];
    }

    ghost method Extend(before: State, step: Step)
      requires before == After(config, trace) && Contents() == Apply(config, before, step)
      modifies this`trace
      ensures Valid() && trace == old(trace) + [step]
    {
      AfterSnoc(config, trace, step);
      trace := trace + [step];
    }

    /** What other threads do while no lock is held. */
    method Interfere(steps: seq<Step>)
      requires Valid()
      modifies this
      ensures Valid() && trace == old(trace) + steps && Contents() == ApplyAll(config, old(Contents()), steps)
    {
      AfterThen(config, trace, steps);
      var t := ApplyAll(config, Contents(), steps);
      epoch, rows, subs, syncs, connection := t.epoch, t.rows, t.subs, t.syncs, t.connection;
      session, broker, era, latest := t.session, t.broker, t.era, t.latest;
      trace := trace + steps;
    }

    /** on_data's lookup: what it finds comes from the expected master, and what the broker sends is found. */
    method Lookup(key: S.Key, expected: Epoch, ghost content: nat -> Rows, ghost from: (Rows, S.Subscription) -> bool)
      returns (found: Option<S.Subscription>)
      requires Valid()
      ensures expected.Some? && expected != epoch ==> found.None?
      ensures expected.None? || expected == epoch ==> (found.Some? <==> key in subs) && (found.Some? ==> found.value == subs[key])
      ensures BuildsFrom(config.build, from) && Monotone(from) && HonestRun(config, content, trace) && expected.Some? ==>
                (found.Some? ==> S.KeyOf(found.value) == key && from(content(expected.value), found.value))
      ensures B.CoveredRun(config, trace) && B.SameMaster(Contents()) && key in broker && expected == epoch ==> found.Some?
    {
      B.RunResolves(config, trace);
      if BuildsFrom(config.build, from) && Monotone(from) && HonestRun(config, content, trace) && expected.Some? {
        LookupSeesOneEpoch(config, content, from, trace, key, expected.value);
      }
      if expected.Some? && expected != epoch { return None; }
      found := if key in subs then Some(subs[key]) else None;
    }

    /** The commit of a refresh; true when the subscriptions changed. */
    method CommitRefresh(signature: nat, fetched: Rows, today: int) returns (changed: bool)
      requires Valid()
      modifies this
      ensures Valid() && trace == old(trace) + [Refresh(signature, fetched, today)]
      ensures epoch == Some(signature) && (changed <==> subs != old(subs))
      ensures old(epoch) == Some(signature) ==> Contents() == old(Contents())
      ensures old(epoch) != Some(signature) ==> rows == fetched && subs == config.build(today, fetched, config.symbols)
      ensures syncs == old(syncs) && connection == old(connection) && broker == old(broker)
    {
      ghost var before := Contents();
      if epoch == Some(signature) {
        Extend(before, Refresh(signature, fetched, today));
        return false;
      }
      var built := config.build(today, fetched, config.symbols);
      changed := subs != built;
      rows, epoch, subs, latest := fetched, Some(signature), built, Some(signature);
      era := Era(era.changes + 1, era.activations + 1);
      Extend(before, Refresh(signature, fetched, today));
    }

    /** Once the master is invalid no lookup that expects one finds anything. */
    method InvalidateMaster()
      requires Valid()
      modifies this
      ensures Valid() && trace == old(trace) + [Invalidate]
      ensures rows == [] && forall key, expected :: Found(Contents(), key, expected).None?
      ensures syncs == old(syncs) && connection == old(connection) && broker == old(broker)
    {
      ghost var before := Contents();
      epoch, rows, subs, era := None, [], map[], era.(changes := era.changes + 1);
      Extend(before, Invalidate);
    }

    /** A connection opens: it reads its tokens, and subscribes them unless the call raises. */
    method OpenConnection(raises: bool, others: seq<Step>)
      requires Valid() && connection.Closed? && NotConnecting(others)
      modifies this
      ensures Valid() && trace == old(trace) + [ReadTokens] + others + [SubscribeAll(raises)]
      ensures if raises then connection.Closed? && broker == {} else connection.Open? && broker == old(subs).Keys
      ensures session == old(session) + 1
      ensures B.CoveredRun(config, trace) && B.SameMaster(Contents()) ==> B.Resolves(Contents())
    {
      ghost var before := Contents();
      var tokens := subs.Keys;
      connection, session, broker := Opening(era, tokens), session + 1, {};
      Extend(before, ReadTokens);
      OthersKeepConnection(config, Contents(), others);
      Interfere(others);
      before := Contents();
      if raises {
        connection := Closed;
      } else {
        broker := tokens;
        connection := Open(connection.era);
      }
      Extend(before, SubscribeAll(raises));
      B.RunResolves(config, trace);
    }

    /** Loop `w` is at work and has got as far as `y`. */
    ghost predicate Working(w: nat, y: Sync)
      reads this
    {
      Valid() && w in syncs && syncs[w] == y
    }

    /** Loop `w` has taken a step, and then other threads have while it holds no lock. */
    method StepTaken(ghost before: State, w: nat, ghost y: Sync, ghost a: Action, others: seq<Step>)
      requires before == After(config, trace) && Contents() == Apply(config, before, Work(w, a))
      requires w in syncs && syncs[w] == y && NotOf(w, others)
      modifies this
      ensures Working(w, y) && trace == old(trace) + [Work(w, a)] + others
    {
      Extend(before, Work(w, a));
      OthersKeepSync(config, Contents(), w, others);
      Interfere(others);
    }

    method BeginSync(w: nat, others: seq<Step>) returns (began: Epoch, ghost y: Sync)
      requires Valid() && MayBegin(Contents(), w) && NotOf(w, others)
      modifies this
      ensures Working(w, y) && y == Sync(Began, began, y.era, map[], map[]) && began == old(epoch)
      ensures trace == old(trace) + [Work(w, Begin)] + others
    {
      ghost var before := Contents();
      began, y := epoch, Sync(Began, epoch, era, map[], map[]);
      syncs := syncs[w := Sync(Began, epoch, era, map[], map[])];
      StepTaken(before, w, y, Begin, others);
    }

    method ReadDemand(w: nat, ghost y: Sync, today: int, demand: seq<string>, others: seq<Step>) returns (desired: S.Subs)
      requires Working(w, y) && y.phase.Began? && NotOf(w, others)
      modifies this
      ensures Working(w, y.(phase := Wanted, desired := desired))
      ensures trace == old(trace) + [Work(w, ReadRows(today, demand))] + others
    {
      ghost var before := Contents();
      desired := config.build(today, rows, config.symbols + demand);
      syncs := syncs[w := syncs[w].(phase := Wanted, desired := desired)];
      StepTaken(before, w, y.(phase := Wanted, desired := desired), ReadRows(today, demand), others);
    }

    method ReadSubscriptions(w: nat, ghost y: Sync, others: seq<Step>) returns (current: S.Subs)
      requires Working(w, y) && y.phase.Wanted? && NotOf(w, others)
      modifies this
      ensures Working(w, y.(phase := Compared, current := current))
      ensures trace == old(trace) + [Work(w, ReadCurrent)] + others
    {
      ghost var before := Contents();
      current := subs;
      syncs := syncs[w := syncs[w].(phase := Compared, current := current)];
      StepTaken(before, w, y.(phase := Compared, current := current), ReadCurrent, others);
    }

    method Install(w: nat, ghost y: Sync, began: Epoch, desired: S.Subs, current: S.Subs) returns (installed: bool)
      requires Working(w, y) && y == Sync(Compared, began, y.era, desired, current)
      modifies this
      ensures Valid() && trace == old(trace) + [Work(w, InstallLookups)]
      ensures if installed then Working(w, y.(phase := Installed)) else w !in syncs
    {
      ghost var before := Contents();
      installed := began == epoch;
      if installed {
        subs := current + desired;
        syncs := syncs[w := syncs[w].(phase := Installed)];
      } else {
        syncs := syncs - {w};
      }
      Extend(before, Work(w, InstallLookups));
    }

    method Unsubscribe(w: nat, ghost y: Sync, removed: set<S.Key>, raises: bool, others: seq<Step>) returns (raised: bool)
      requires Working(w, y) && y.phase.Installed? && removed == Removed(y) && NotOf(w, others)
      modifies this
      ensures Working(w, y.(phase := if raised then Failed else Pruned)) && (raised <==> removed != {} && raises)
      ensures trace == old(trace) + [Work(w, Action.Unsubscribe(raises))] + others
    {
      ghost var before := Contents();
      raised := removed != {} && raises;
      syncs := syncs[w := syncs[w].(phase := if raised then Failed else Pruned)];
      if !raised && connection.Open? && w == session { broker := broker - removed; }
      StepTaken(before, w, y.(phase := if raised then Failed else Pruned), Action.Unsubscribe(raises), others);
    }

    method Subscribe(w: nat, ghost y: Sync, added: set<S.Key>, raises: bool, others: seq<Step>) returns (raised: bool)
      requires Working(w, y) && y.phase.Pruned? && added == Added(y) && NotOf(w, others)
      modifies this
      ensures Working(w, y.(phase := if raised then Failed else Extended)) && (raised <==> added != {} && raises)
      ensures trace == old(trace) + [Work(w, Action.Subscribe(raises))] + others
    {
      ghost var before := Contents();
      raised := added != {} && raises;
      syncs := syncs[w := syncs[w].(phase := if raised then Failed else Extended)];
      if !raised && connection.Open? && w == session { broker := broker + added; }
      StepTaken(before, w, y.(phase := if raised then Failed else Extended), Action.Subscribe(raises), others);
    }

    method Settle(w: nat, ghost y: Sync, began: Epoch, final: S.Subs, ghost a: Action) returns (settled: bool)
      requires Working(w, y) && y.epoch == began
      requires (y.phase.Failed? && a == RollBack && final == y.current) || (y.phase.Extended? && a == Finish && final == y.desired)
      modifies this
      ensures Valid() && w !in syncs && trace == old(trace) + [Work(w, a)]
      ensures settled <==> began == epoch
      ensures settled ==> subs == final
    {
      ghost var before := Contents();
      settled := began == epoch;
      if settled { subs := final; }
      syncs := syncs - {w};
      Extend(before, Work(w, a));
    }

    method Prepare(w: nat, today: int, demand: seq<string>, others: seq<seq<Step>>)
      returns (installed: bool, began: Epoch, desired: S.Subs, current: S.Subs, ghost y: Sync)
      requires Valid() && MayBegin(Contents(), w)
      requires |others| >= 3 && forall i :: 0 <= i < 3 ==> NotOf(w, others[i])
      modifies this
      ensures Valid() && y == Sync(Installed, began, y.era, desired, current) && began == old(epoch)
      ensures if installed then Working(w, y) else w !in syncs
      ensures trace == old(trace) + Preparing(w, today, demand, others)
    {
      began, y := BeginSync(w, others[0]);
      desired := ReadDemand(w, y, today, demand, others[1]);
      y := y.(phase := Wanted, desired := desired);
      current := ReadSubscriptions(w, y, others[2]);
      y := y.(phase := Compared, current := current);
      installed := Install(w, y, began, desired, current);
      y := y.(phase := Installed);
      JoinPreparing(old(trace), [Work(w, Begin)], others[0], [Work(w, ReadRows(today, demand))], others[1],
                    [Work(w, ReadCurrent)], others[2], [Work(w, InstallLookups)]);
    }

    method CallBroker(w: nat, ghost y: Sync, began: Epoch, desired: S.Subs, current: S.Subs,
                      unsubscribeRaises: bool, subscribeRaises: bool, others: seq<seq<Step>>)
      returns (added: set<S.Key>, raised: bool)
      requires Working(w, y) && y == Sync(Installed, began, y.era, desired, current)
      requires |others| == 2 && forall i :: 0 <= i < 2 ==> NotOf(w, others[i])
      modifies this
      ensures Valid() && w !in syncs
      ensures raised <==> CallRaises(y, unsubscribeRaises, subscribeRaises)
      ensures added == if raised || began != epoch then {} else Added(y)
      ensures trace == old(trace) + Calling(w, y, unsubscribeRaises, subscribeRaises, others)
    {
      raised := Unsubscribe(w, y, current.Keys - desired.Keys, unsubscribeRaises, others[0]);
      if raised {
        var settled := Settle(w, y.(phase := Failed), began, current, RollBack);
        JoinCalling(old(trace), [Work(w, Action.Unsubscribe(unsubscribeRaises))], others[0], [Work(w, RollBack)], [], []);
        return {}, true;
      }
      added := desired.Keys - current.Keys;
      raised := Subscribe(w, y.(phase := Pruned), added, subscribeRaises, others[1]);
      ghost var last := if raised then RollBack else Finish;
      var settled := Settle(w, y.(phase := if raised then Failed else Extended), began, if raised then current else desired, last);
      if raised || !settled { added := {}; }
      JoinCalling(old(trace), [Work(w, Action.Unsubscribe(unsubscribeRaises))], others[0],
                  [Work(w, Action.Subscribe(subscribeRaises))], others[1], [Work(w, last)]);
    }

    /** One synchronisation of loop `w` with the demand; `others` is what other threads do at the six
        points where it holds no lock. However they come between, its own steps are those specified, and the
        broker's tokens are resolved where stale writes cover what it sends or is about to send. When nothing
        comes between, the store and the broker end with exactly what is wanted, or the store with what it
        held if a call raised. */
    method SyncDemandSubscriptions(w: nat, today: int, demand: seq<string>, unsubscribeRaises: bool, subscribeRaises: bool,
                                   others: seq<seq<Step>>)
      returns (added: set<S.Key>, raised: bool)
      requires Valid() && MayBegin(Contents(), w)
      requires |others| == 6 && forall i :: 0 <= i < 6 ==> NotOf(w, others[i])
      modifies this
      ensures Valid() && w !in syncs
      ensures added != {} ==> !raised && epoch == old(epoch)
      ensures trace == Synchronising(config, old(trace), w, today, demand, unsubscribeRaises, subscribeRaises, others)
      ensures B.CoveredRun(config, trace) && B.SameMaster(Contents()) ==> B.Resolves(Contents())
      ensures Quiet(others) && old(connection).Open? && w == old(session) ==>
                var desired := config.build(today, old(rows), config.symbols + demand);
                && Synchronised(old(Contents()), Contents(), old(subs), desired, raised)
                && (raised <==> CallRaises(Sync(Installed, old(epoch), old(era), desired, old(subs)), unsubscribeRaises, subscribeRaises))
                && added == (if raised then {} else desired.Keys - old(subs).Keys)
                && (old(broker) == old(subs).Keys && !raised ==> broker == subs.Keys)
    {
      var installed, began, desired, current, y := Prepare(w, today, demand, others);
      ghost var prepared := trace;
      if installed {
        OthersKeepSync(config, Contents(), w, others[3]);
        Interfere(others[3]);
        added, raised := CallBroker(w, y, began, desired, current, unsubscribeRaises, subscribeRaises, others[4..]);
      } else {
        added, raised := {}, false;
      }
      B.RunResolves(config, trace);
      if Quiet(others) && old(connection).Open? && w == old(session) {
        ghost var z := Sync(Installed, old(epoch), old(era), config.build(today, old(rows), config.symbols + demand), old(subs));
        QuietPreparing(w, today, demand, others);
        QuietCalling(prepared, w, z, unsubscribeRaises, subscribeRaises, others);
        SyncSettles(config, old(Contents()), w, today, demand, z, unsubscribeRaises, subscribeRaises);
        AfterThen(config, old(trace), R.Prepares(w, today, demand));
        AfterThen(config, prepared, CallSteps(w, z, unsubscribeRaises, subscribeRaises));
        B.PrunedEquals(z.current.Keys, z.desired.Keys);
        B.ExtendedEquals(z.current.Keys, z.desired.Keys);
      }
    }
  }
}
