/**
 What the broker sends against what the store resolves, over runs of the subscription store
 (python-services/market-worker/worker.py, sync_demand_subscriptions, run_feed).
 */
module BrokerTokens {
  import opened Wrappers
  import S = Subscriptions
  import opened SubscriptionStore

  /** The master was not replaced or invalidated since the connection read its tokens. */
  predicate Standing(s: State) {
    !s.connection.Closed? && s.connection.era == s.era
  }

  predicate SameMaster(s: State) {
    s.connection.Open? && s.connection.era == s.era
  }

  /** Every token the broker sends is found under the standing epoch. */
  predicate Resolves(s: State) {
    forall key :: key in s.broker ==> Found(s, key, s.epoch).Some?
  }

  predicate Ordered(s: State) {
    && InStep(s)
    && (forall w :: w in s.syncs ==> w <= s.session)
    && (!s.connection.Closed? ==> s.connection.era.changes <= s.era.changes)
    && (s.connection.Opening? ==> s.session !in s.syncs && s.broker == {})
    && (s.connection.Open? && s.session in s.syncs ==> s.connection.era.changes <= s.syncs[s.session].era.changes)
  }

  /** The tokens that the connection, or its own synchronisation, is about to subscribe. */
  function Due(s: State): set<S.Key> {
    if s.connection.Opening? then s.connection.tokens
    else if s.connection.Open? && s.session in s.syncs
            && (s.syncs[s.session].phase.Installed? || s.syncs[s.session].phase.Pruned?) then Added(s.syncs[s.session])
    else {}
  }

  /** What the broker sends against what the connection's own synchronisation has read. */
  predicate PhaseWithin(y: Sync, broker: set<S.Key>) {
    match y.phase
    case Began => true
    case Wanted => true
    case Compared => broker <= y.current.Keys
    case Installed => broker <= y.current.Keys
    case Pruned => broker <= y.current.Keys * y.desired.Keys
    case Extended => broker <= y.desired.Keys
    case Failed => broker <= y.current.Keys
  }

  /** The store resolves what the broker sends and what it is about to send. */
  predicate BrokerWithin(s: State) {
    && s.broker + Due(s) <= s.subs.Keys
    && (s.session in s.syncs ==> PhaseWithin(s.syncs[s.session], s.broker))
  }

  predicate BrokerInv(s: State) {
    Ordered(s) && (Standing(s) ==> BrokerWithin(s))
  }

  /** A write of a synchronisation that outlived its connection and whose epoch stands. */
  predicate StaleWrite(s: State, step: Step) {
    && step.Work? && step.worker in s.syncs && step.worker != s.session
    && s.syncs[step.worker].epoch == s.epoch && Written(s.syncs[step.worker], step.action).Some?
  }

  function WrittenKeys(s: State, step: Step): set<S.Key>
    requires StaleWrite(s, step)
  {
    Written(s.syncs[step.worker], step.action).value.Keys
  }

  /** A stale write leaves in the store whatever the broker sends or is about to send. */
  predicate Covers(s: State, step: Step) {
    Standing(s) && StaleWrite(s, step) ==> s.broker + Due(s) <= WrittenKeys(s, step)
  }

  ghost predicate CoveredRun(c: Config, steps: seq<Step>) {
    forall i {:trigger steps[..i]} :: 0 <= i < |steps| ==> Covers(After(c, steps[..i]), steps[i])
  }

  lemma PrunedWithin(broker: set<S.Key>, current: set<S.Key>, desired: set<S.Key>)
    requires broker <= current
    ensures broker - (current - desired) <= current * desired
  {
  }

  lemma ExtendedWithin(broker: set<S.Key>, current: set<S.Key>, desired: set<S.Key>)
    requires broker <= current * desired
    ensures broker + (desired - current) <= desired
  {
  }

  lemma AdvanceKeepsConnection(c: Config, s: State, w: nat, a: Action)
    requires w in s.syncs
    ensures var t := Advance(c, s, w, s.syncs[w], a);
            && t.connection == s.connection && t.session == s.session
            && (!s.connection.Open? || w != s.session ==> t.broker == s.broker)
  {
  }

  lemma AdvanceKeepsOrdered(c: Config, s: State, w: nat, a: Action)
    requires Ordered(s) && w in s.syncs
    ensures Ordered(Advance(c, s, w, s.syncs[w], a))
  {
    AdvanceKeepsMaster(c, s, w, a);
    AdvanceKeepsConnection(c, s, w, a);
  }

  /** What a step of another synchronisation leaves as it was. */
  lemma OthersKeepOwn(c: Config, s: State, w: nat, a: Action)
    requires w in s.syncs && w != s.session
    ensures var t := Advance(c, s, w, s.syncs[w], a);
            && t.connection == s.connection && t.session == s.session && t.broker == s.broker && t.era == s.era
            && (s.session in t.syncs <==> s.session in s.syncs)
            && (s.session in s.syncs ==> t.syncs[s.session] == s.syncs[s.session])
            && t.subs.Keys == (if StaleWrite(s, Work(w, a)) then WrittenKeys(s, Work(w, a)) else s.subs.Keys)
  {
    AdvanceKeepsConnection(c, s, w, a);
    AdvanceKeepsMaster(c, s, w, a);
    OthersAreKept(c, s, w, a);
    if Writes(Work(w, a)) { WriteTakes(c, s, w, a); }
  }

  /** While the master of the connection stands, a step of a synchronisation that outlived its connection
      keeps the invariant if and only if it covers what the broker sends or is about to send. */
  lemma StaleStepKeepsIff(c: Config, s: State, w: nat, a: Action)
    requires BrokerInv(s) && w in s.syncs && w != s.session
    ensures BrokerInv(Apply(c, s, Work(w, a))) <==> Covers(s, Work(w, a))
  {
    if !a.Begin? {
      AdvanceKeepsOrdered(c, s, w, a);
      OthersKeepOwn(c, s, w, a);
    }
  }

  lemma OwnUnsubscribeKeepsWithin(s: State, raises: bool)
    requires SameMaster(s) && BrokerWithin(s) && s.session in s.syncs && s.syncs[s.session].phase.Installed?
    ensures BrokerWithin(Unsubscribed(s, s.session, s.syncs[s.session], raises))
  {
    var y := s.syncs[s.session];
    PrunedWithin(s.broker, y.current.Keys, y.desired.Keys);
  }

  lemma OwnSubscribeKeepsWithin(s: State, raises: bool)
    requires SameMaster(s) && BrokerWithin(s) && s.session in s.syncs && s.syncs[s.session].phase.Pruned?
    ensures BrokerWithin(Subscribed(s, s.session, s.syncs[s.session], raises))
  {
    var y := s.syncs[s.session];
    ExtendedWithin(s.broker, y.current.Keys, y.desired.Keys);
  }

  /** A step of the connection's own synchronisation while its master stands. */
  lemma OwnStepKeepsWithin(c: Config, s: State, a: Action)
    requires Ordered(s) && SameMaster(s) && BrokerWithin(s) && s.session in s.syncs
    ensures BrokerWithin(Advance(c, s, s.session, s.syncs[s.session], a))
  {
    var y := s.syncs[s.session];
    assert y.epoch == s.epoch;
    if a.Unsubscribe? {
      if y.phase.Installed? { OwnUnsubscribeKeepsWithin(s, a.raises); }
    } else if a.Subscribe? {
      if y.phase.Pruned? { OwnSubscribeKeepsWithin(s, a.raises); }
    }
  }

  lemma WorkKeepsBrokerInv(c: Config, s: State, w: nat, a: Action)
    requires BrokerInv(s) && w in s.syncs && Covers(s, Work(w, a)) && !a.Begin?
    ensures BrokerInv(Apply(c, s, Work(w, a)))
  {
    if w != s.session {
      StaleStepKeepsIff(c, s, w, a);
    } else {
      AdvanceKeepsOrdered(c, s, w, a);
      AdvanceKeepsConnection(c, s, w, a);
      AdvanceKeepsMaster(c, s, w, a);
      if SameMaster(s) { OwnStepKeepsWithin(c, s, a); }
    }
  }

  lemma BeginKeepsBrokerInv(c: Config, s: State, w: nat)
    requires BrokerInv(s)
    ensures BrokerInv(WorkStep(c, s, w, Begin))
  {
  }

  lemma ConnectKeepsBrokerInv(s: State, step: Step)
    requires BrokerInv(s)
    ensures BrokerInv(ConnectStep(s, step))
  {
  }

  lemma StepKeepsBrokerInv(c: Config, s: State, step: Step)
    requires BrokerInv(s) && Covers(s, step)
    ensures BrokerInv(Apply(c, s, step))
  {
    match step {
      case Refresh(_, _, _) =>
      case Invalidate =>
      case Work(w, a) =>
        if a.Begin? {
          BeginKeepsBrokerInv(c, s, w);
        } else if w in s.syncs {
          WorkKeepsBrokerInv(c, s, w, a);
        }
      case ReadTokens => ConnectKeepsBrokerInv(s, step);
      case SubscribeAll(_) => ConnectKeepsBrokerInv(s, step);
      case Close => ConnectKeepsBrokerInv(s, step);
    }
  }

  lemma {:induction false} RunKeepsBrokerInv(c: Config, steps: seq<Step>)
    requires CoveredRun(c, steps)
    ensures BrokerInv(After(c, steps))
  {
    if steps != [] {
      var init := steps[..|steps| - 1];
      forall i | 0 <= i < |init| ensures Covers(After(c, init[..i]), init[i]) {
        assert init[..i] == steps[..i];
      }
      RunKeepsBrokerInv(c, init);
      assert Covers(After(c, steps[..|steps| - 1]), steps[|steps| - 1]);
      StepKeepsBrokerInv(c, After(c, init), steps[|steps| - 1]);
    }
  }

  /** While the master of a connection stands, every token the broker sends is resolved, at every moment
      of every synchronisation and whether or not its calls raise, in every run whose stale writes cover
      what the broker sends or is about to send. */
  lemma BrokerTokensResolve(c: Config, steps: seq<Step>)
    requires CoveredRun(c, steps) && SameMaster(After(c, steps))
    ensures Resolves(After(c, steps))
  {
    RunKeepsBrokerInv(c, steps);
  }

  /** The calls to the broker that are due, none of which raises. */
  function DueCalls(s: State): seq<Step> {
    if s.connection.Opening? then [SubscribeAll(false)]
    else if s.session !in s.syncs then []
    else
      match s.syncs[s.session].phase
      case Installed => [Work(s.session, Unsubscribe(false)), Work(s.session, Subscribe(false))]
      case Pruned => [Work(s.session, Subscribe(false))]
      case _ => []
  }

  lemma DueIsSent(c: Config, s: State)
    requires Ordered(s) && Standing(s)
    ensures var t := ApplyAll(c, s, DueCalls(s));
            SameMaster(t) && t.subs == s.subs && t.epoch == s.epoch && Due(s) <= t.broker <= s.broker + Due(s)
  {
    var w := s.session;
    if s.connection.Opening? {
      ApplyOne(c, s, SubscribeAll(false));
    } else if w in s.syncs && s.syncs[w].phase.Installed? {
      ApplyTwo(c, s, Work(w, Unsubscribe(false)), Work(w, Subscribe(false)));
      var u := Apply(c, s, Work(w, Unsubscribe(false)));
      assert u == Unsubscribed(s, w, s.syncs[w], false) && u.syncs[w] == s.syncs[w].(phase := Pruned);
      assert Apply(c, u, Work(w, Subscribe(false))) == Subscribed(u, w, u.syncs[w], false);
    } else if w in s.syncs && s.syncs[w].phase.Pruned? {
      ApplyOne(c, s, Work(w, Subscribe(false)));
      assert Apply(c, s, Work(w, Subscribe(false))) == Subscribed(s, w, s.syncs[w], false);
    }
  }

  /** The last claim of a run, with its hypotheses inside. */
  lemma RunResolves(c: Config, steps: seq<Step>)
    ensures CoveredRun(c, steps) && SameMaster(After(c, steps)) ==> Resolves(After(c, steps))
  {
    if CoveredRun(c, steps) && SameMaster(After(c, steps)) { BrokerTokensResolve(c, steps); }
  }

  /** A stale write hides no token, neither now nor once the calls that are due have gone through, if and
      only if it covers what the broker sends or is about to send. */
  lemma StaleWriteHidesNothingIff(c: Config, s: State, step: Step)
    requires BrokerInv(s) && Standing(s) && StaleWrite(s, step)
    ensures var t := Apply(c, s, step);
            Resolves(t) && Resolves(ApplyAll(c, t, DueCalls(t))) <==> Covers(s, step)
  {
    var t := Apply(c, s, step);
    var u := ApplyAll(c, t, DueCalls(t));
    OthersKeepOwn(c, s, step.worker, step.action);
    AdvanceKeepsOrdered(c, s, step.worker, step.action);
    DueIsSent(c, t);
    assert Due(t) == Due(s) && t.broker == s.broker;
    assert Resolves(t) <==> t.broker <= t.subs.Keys;
    assert Resolves(u) <==> u.broker <= t.subs.Keys;
  }

  // ---- the broker sends exactly what the store holds ----

  predicate PhaseEquals(y: Sync, broker: set<S.Key>) {
    match y.phase
    case Began => true
    case Wanted => true
    case Compared => broker == y.current.Keys
    case Installed => broker == y.current.Keys
    case Pruned => broker == y.current.Keys * y.desired.Keys
    case Extended => broker == y.desired.Keys
    case Failed => broker == y.current.Keys
  }

  /** The connection has no synchronisation of its own that read the store. */
  predicate Untouched(s: State) {
    s.session in s.syncs ==> Unread(s.syncs[s.session])
  }

  predicate BrokerEquals(s: State) {
    && (s.session in s.syncs ==> PhaseEquals(s.syncs[s.session], s.broker))
    && (Untouched(s) ==> s.broker + Due(s) == s.subs.Keys)
  }

  predicate ExactInv(s: State) {
    Ordered(s) && (Standing(s) ==> BrokerEquals(s))
  }

  /** A stale write leaves exactly what the broker sends or is about to send, unless the connection's own
      synchronisation has read the store and will write it again. */
  predicate Agrees(s: State, step: Step) {
    Standing(s) && StaleWrite(s, step) && Untouched(s) ==> WrittenKeys(s, step) == s.broker + Due(s)
  }

  /** The connection's call to subscribe does not raise when tokens have just been unsubscribed. */
  predicate Smooth(s: State, step: Step) {
    SameMaster(s) && step == Work(s.session, Subscribe(true)) && s.session in s.syncs && s.syncs[s.session].phase.Pruned? ==>
      Added(s.syncs[s.session]) == {} || Removed(s.syncs[s.session]) == {}
  }

  ghost predicate SmoothRun(c: Config, steps: seq<Step>) {
    forall i {:trigger steps[..i]} :: 0 <= i < |steps| ==>
      Agrees(After(c, steps[..i]), steps[i]) && Smooth(After(c, steps[..i]), steps[i])
  }

  lemma NothingRemoved(current: set<S.Key>, desired: set<S.Key>)
    requires current - desired == {}
    ensures current * desired == current
  {
    assert forall k :: k in current ==> k in current - desired || k in desired;
  }

  lemma PrunedEquals(current: set<S.Key>, desired: set<S.Key>)
    ensures current - (current - desired) == current * desired
  {
  }

  lemma ExtendedEquals(current: set<S.Key>, desired: set<S.Key>)
    ensures current * desired + (desired - current) == desired
  {
  }

  lemma OwnUnsubscribeKeepsEquals(s: State, raises: bool)
    requires SameMaster(s) && BrokerEquals(s) && s.session in s.syncs && s.syncs[s.session].phase.Installed?
    ensures BrokerEquals(Unsubscribed(s, s.session, s.syncs[s.session], raises))
  {
    var y := s.syncs[s.session];
    PrunedEquals(y.current.Keys, y.desired.Keys);
  }

  lemma OwnSubscribeKeepsEquals(s: State, raises: bool)
    requires SameMaster(s) && BrokerEquals(s) && s.session in s.syncs && s.syncs[s.session].phase.Pruned?
    requires Smooth(s, Work(s.session, Subscribe(raises)))
    ensures BrokerEquals(Subscribed(s, s.session, s.syncs[s.session], raises))
  {
    var y := s.syncs[s.session];
    ExtendedEquals(y.current.Keys, y.desired.Keys);
    if Removed(y) == {} { NothingRemoved(y.current.Keys, y.desired.Keys); }
  }

  lemma OwnStepKeepsEquals(c: Config, s: State, a: Action)
    requires Ordered(s) && SameMaster(s) && BrokerEquals(s) && s.session in s.syncs
    requires Smooth(s, Work(s.session, a))
    ensures BrokerEquals(Advance(c, s, s.session, s.syncs[s.session], a))
  {
    var y := s.syncs[s.session];
    assert y.epoch == s.epoch;
    if a.Unsubscribe? {
      if y.phase.Installed? { OwnUnsubscribeKeepsEquals(s, a.raises); }
    } else if a.Subscribe? {
      if y.phase.Pruned? { OwnSubscribeKeepsEquals(s, a.raises); }
    }
  }

  /** A step of a synchronisation that outlived its connection keeps store and broker alike if and only if
      it agrees. */
  lemma StaleStepKeepsExactIff(c: Config, s: State, w: nat, a: Action)
    requires ExactInv(s) && w in s.syncs && w != s.session
    ensures ExactInv(Apply(c, s, Work(w, a))) <==> Agrees(s, Work(w, a))
  {
    if !a.Begin? {
      AdvanceKeepsOrdered(c, s, w, a);
      OthersKeepOwn(c, s, w, a);
    }
  }

  lemma WorkKeepsExact(c: Config, s: State, w: nat, a: Action)
    requires ExactInv(s) && w in s.syncs && Agrees(s, Work(w, a)) && Smooth(s, Work(w, a)) && !a.Begin?
    ensures ExactInv(Apply(c, s, Work(w, a)))
  {
    if w != s.session {
      StaleStepKeepsExactIff(c, s, w, a);
    } else {
      AdvanceKeepsOrdered(c, s, w, a);
      AdvanceKeepsConnection(c, s, w, a);
      AdvanceKeepsMaster(c, s, w, a);
      if SameMaster(s) { OwnStepKeepsEquals(c, s, a); }
    }
  }

  lemma BeginKeepsExact(c: Config, s: State, w: nat)
    requires ExactInv(s)
    ensures ExactInv(WorkStep(c, s, w, Begin))
  {
  }

  lemma ConnectKeepsExact(s: State, step: Step)
    requires ExactInv(s)
    ensures ExactInv(ConnectStep(s, step))
  {
  }

  lemma StepKeepsExact(c: Config, s: State, step: Step)
    requires ExactInv(s) && Agrees(s, step) && Smooth(s, step)
    ensures ExactInv(Apply(c, s, step))
  {
    match step {
      case Refresh(_, _, _) =>
      case Invalidate =>
      case Work(w, a) =>
        if a.Begin? {
          BeginKeepsExact(c, s, w);
        } else if w in s.syncs {
          WorkKeepsExact(c, s, w, a);
        }
      case ReadTokens => ConnectKeepsExact(s, step);
      case SubscribeAll(_) => ConnectKeepsExact(s, step);
      case Close => ConnectKeepsExact(s, step);
    }
  }

  lemma {:induction false} RunKeepsExact(c: Config, steps: seq<Step>)
    requires SmoothRun(c, steps)
    ensures ExactInv(After(c, steps))
  {
    if steps != [] {
      var init := steps[..|steps| - 1];
      forall i | 0 <= i < |init| ensures Agrees(After(c, init[..i]), init[i]) && Smooth(After(c, init[..i]), init[i]) {
        assert init[..i] == steps[..i];
      }
      RunKeepsExact(c, init);
      assert Agrees(After(c, steps[..|steps| - 1]), steps[|steps| - 1]);
      assert Smooth(After(c, steps[..|steps| - 1]), steps[|steps| - 1]);
      StepKeepsExact(c, After(c, init), steps[|steps| - 1]);
    }
  }

  /** Between synchronisations the broker sends exactly what the store can resolve, unless a call to
      subscribe raised right after tokens were unsubscribed or a stale write disagreed. */
  lemma BrokerMatchesStore(c: Config, steps: seq<Step>)
    requires SmoothRun(c, steps)
    requires SameMaster(After(c, steps)) && After(c, steps).session !in After(c, steps).syncs
    ensures After(c, steps).broker == After(c, steps).subs.Keys
  {
    RunKeepsExact(c, steps);
  }

  /** When subscribe raises, rolling back leaves the store matching the broker if and only if nothing
      had been unsubscribed: otherwise the store claims tokens that the broker no longer sends. */
  lemma RollBackIsExactIffNothingRemoved(c: Config, s: State)
    requires ExactInv(s) && SameMaster(s) && s.session in s.syncs
    requires s.syncs[s.session].phase.Pruned? && Added(s.syncs[s.session]) != {}
    ensures var t := Apply(c, Apply(c, s, Work(s.session, Subscribe(true))), Work(s.session, RollBack));
            && s.session !in t.syncs && SameMaster(t) && t.subs == s.syncs[s.session].current
            && (t.broker == t.subs.Keys <==> Removed(s.syncs[s.session]) == {})
  {
    var y := s.syncs[s.session];
    assert y.epoch == s.epoch;
    if Removed(y) == {} {
      NothingRemoved(y.current.Keys, y.desired.Keys);
    } else {
      var k :| k in Removed(y);
      assert k in y.current && k !in s.broker;
    }
  }
}
