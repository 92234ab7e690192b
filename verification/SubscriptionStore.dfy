/**
 The subscription store and the threads that share it: the master refresh, its invalidation, the
 broker connections and their demand synchronisations
 (python-services/market-worker/worker.py, InstrumentStore, sync_demand_subscriptions, refresh_once).

 Each block under the store's lock, each read of the rows outside it and each call to the broker is
 one step. A broker call that raises sends nothing. Every connection has its own demand loop, and a
 loop may still be at work when later connections open.
 */
module SubscriptionStore {
  import opened Wrappers
  import S = Subscriptions

  type Rows = seq<S.Row>

  /** What builds subscriptions on a day; requests are the configured symbols and the demand. */
  type Builder = (int, Rows, seq<string>) -> S.Subs

  /** A version of the master with its row count and modification time; none while it is invalid. */
  type Epoch = Option<nat>

  datatype Phase = Began | Wanted | Compared | Installed | Pruned | Extended | Failed

  /** How often the master was replaced or invalidated so far, and how often one was activated. */
  datatype Era = Era(changes: nat, activations: nat)

  /** A synchronisation at work: how far it is, the epoch and era it began in, and what it read. */
  datatype Sync = Sync(phase: Phase, epoch: Epoch, era: Era, desired: S.Subs, current: S.Subs)

  /** A connection reads its tokens in one master and subscribes them. */
  datatype Connection = Closed | Opening(era: Era, tokens: set<S.Key>) | Open(era: Era)

  /** Synchronisations are kept by the number of their connection; `session` is the newest. `era`
      and `latest`, the master last activated, exist for the proofs. */
  datatype State = State(epoch: Epoch, rows: Rows, subs: S.Subs, syncs: map<nat, Sync>, connection: Connection,
                         session: nat, broker: set<S.Key>, era: Era, latest: Epoch)

  datatype Action =
    | Begin
    | ReadRows(today: int, demand: seq<string>)
    | ReadCurrent
    | InstallLookups
    | Unsubscribe(raises: bool)
    | Subscribe(raises: bool)
    | RollBack
    | Finish

  datatype Step =
    | Refresh(epoch: nat, rows: Rows, today: int)
    | Invalidate
    | Work(worker: nat, action: Action)
    | ReadTokens
    | SubscribeAll(raises: bool)
    | Close

  datatype Config = Config(symbols: seq<string>, build: Builder)

  const START := State(None, [], map[], map[], Closed, 0, {}, Era(0, 0), None)

  function RefreshStep(c: Config, s: State, epoch: nat, rows: Rows, today: int): State {
    if s.epoch == Some(epoch) then s
    else s.(epoch := Some(epoch), rows := rows, subs := c.build(today, rows, c.symbols),
            era := Era(s.era.changes + 1, s.era.activations + 1), latest := Some(epoch))
  }

  function InvalidateStep(s: State): State {
    s.(epoch := None, rows := [], subs := map[], era := s.era.(changes := s.era.changes + 1))
  }

  /** A demand loop starts once its connection is open; it may notice late that it was closed. */
  predicate MayBegin(s: State, w: nat) {
    1 <= w <= s.session && w !in s.syncs && !(w == s.session && s.connection.Opening?)
  }

  function Removed(y: Sync): set<S.Key> { y.current.Keys - y.desired.Keys }

  function Added(y: Sync): set<S.Key> { y.desired.Keys - y.current.Keys }

  function Leave(s: State, w: nat): State { s.(syncs := s.syncs - {w}) }

  function Move(s: State, w: nat, y: Sync): State { s.(syncs := s.syncs[w := y]) }

  /** Broker calls of a loop reach the broker while its own connection is open. */
  function Told(s: State, w: nat, broker: set<S.Key>): State {
    if s.connection.Open? && w == s.session then s.(broker := broker) else s
  }

  function Install(s: State, w: nat, y: Sync): State {
    if y.epoch != s.epoch then Leave(s, w)
    else Move(s.(subs := y.current + y.desired), w, y.(phase := Installed))
  }

  function Unsubscribed(s: State, w: nat, y: Sync, raises: bool): State {
    if Removed(y) != {} && raises then Move(s, w, y.(phase := Failed))
    else Told(Move(s, w, y.(phase := Pruned)), w, s.broker - Removed(y))
  }

  function Subscribed(s: State, w: nat, y: Sync, raises: bool): State {
    if Added(y) != {} && raises then Move(s, w, y.(phase := Failed))
    else Told(Move(s, w, y.(phase := Extended)), w, s.broker + Added(y))
  }

  function Settled(s: State, w: nat, y: Sync, subs: S.Subs): State {
    Leave(if y.epoch == s.epoch then s.(subs := subs) else s, w)
  }

  function Advance(c: Config, s: State, w: nat, y: Sync, a: Action): State {
    match (a, y.phase)
    case (ReadRows(today, demand), Began) =>
      Move(s, w, y.(phase := Wanted, desired := c.build(today, s.rows, c.symbols + demand)))
    case (ReadCurrent, Wanted) => Move(s, w, y.(phase := Compared, current := s.subs))
    case (InstallLookups, Compared) => Install(s, w, y)
    case (Unsubscribe(raises), Installed) => Unsubscribed(s, w, y, raises)
    case (Subscribe(raises), Pruned) => Subscribed(s, w, y, raises)
    case (RollBack, Failed) => Settled(s, w, y, y.current)
    case (Finish, Extended) => Settled(s, w, y, y.desired)
    case _ => s
  }

  function WorkStep(c: Config, s: State, w: nat, a: Action): State {
    if a.Begin? then
      if MayBegin(s, w) then Move(s, w, Sync(Began, s.epoch, s.era, map[], map[])) else s
    else if w in s.syncs then Advance(c, s, w, s.syncs[w], a)
    else s
  }

  function ConnectStep(s: State, step: Step): State {
    if step.ReadTokens? && s.connection.Closed? then
      s.(connection := Opening(s.era, s.subs.Keys), session := s.session + 1, broker := {})
    else if step.SubscribeAll? && s.connection.Opening? then
      if step.raises then s.(connection := Closed)
      else s.(broker := s.connection.tokens, connection := Open(s.connection.era))
    else if step.Close? then s.(connection := Closed, broker := {})
    else s
  }

  function Apply(c: Config, s: State, step: Step): State {
    match step
    case Refresh(epoch, rows, today) => RefreshStep(c, s, epoch, rows, today)
    case Invalidate => InvalidateStep(s)
    case Work(w, a) => WorkStep(c, s, w, a)
    case ReadTokens => ConnectStep(s, step)
    case SubscribeAll(_) => ConnectStep(s, step)
    case Close => ConnectStep(s, step)
  }

  function After(c: Config, steps: seq<Step>): State {
    if steps == [] then START else Apply(c, After(c, steps[..|steps| - 1]), steps[|steps| - 1])
  }

  /** The lookup under the lock; on_data makes it with the epoch of its connection. */
  function Found(s: State, key: S.Key, expected: Epoch): Option<S.Subscription> {
    if expected.Some? && expected != s.epoch then None
    else if key in s.subs then Some(s.subs[key])
    else None
  }

  // ---- a lookup under an epoch sees only that epoch ----

  ghost predicate BuildsFrom(build: Builder, from: (Rows, S.Subscription) -> bool) {
    forall today, rows, requests, k {:trigger k in build(today, rows, requests)} ::
      k in build(today, rows, requests) ==>
        S.KeyOf(build(today, rows, requests)[k]) == k && from(rows, build(today, rows, requests)[k])
  }

  predicate Within(rows: Rows, content: Rows) {
    forall r :: r in rows ==> r in content
  }

  /** What comes from some rows comes from more; a fixed index comes from none. */
  ghost predicate Monotone(from: (Rows, S.Subscription) -> bool) {
    forall rows, content, x {:trigger from(rows, x), Within(rows, content)} ::
      Within(rows, content) && from(rows, x) ==> from(content, x)
  }

  predicate AllFrom(from: (Rows, S.Subscription) -> bool, rows: Rows, subs: S.Subs) {
    forall k :: k in subs ==> S.KeyOf(subs[k]) == k && from(rows, subs[k])
  }

  lemma AllFromMore(from: (Rows, S.Subscription) -> bool, rows: Rows, content: Rows, subs: S.Subs)
    requires Monotone(from) && AllFrom(from, rows, subs) && Within(rows, content)
    ensures AllFrom(from, content, subs)
  {
  }

  /** It has yet to read the store. */
  predicate Unread(y: Sync) { y.phase.Began? || y.phase.Wanted? }

  /** A synchronisation that began in the latest master has yet to read the store. */
  predicate Awaited(s: State) {
    s.latest.Some? && exists w :: w in s.syncs && s.syncs[w].epoch == s.latest && Unread(s.syncs[w])
  }

  /** The rows loaded under an epoch are among those it stands for. */
  predicate Described(content: nat -> Rows, step: Step) {
    step.Refresh? ==> Within(step.rows, content(step.epoch))
  }

  /** No master comes back over another to a synchronisation that began in it. */
  predicate NoReturn(s: State, step: Step) {
    step.Refresh? && s.latest != Some(step.epoch) ==> forall w :: w in s.syncs ==> s.syncs[w].epoch != Some(step.epoch)
  }

  predicate Writes(step: Step) {
    step.Work? && (step.action.InstallLookups? || step.action.RollBack? || step.action.Finish?)
  }

  /** What a synchronisation leaves in the store if its epoch still stands. */
  function Written(y: Sync, a: Action): Option<S.Subs> {
    if a.InstallLookups? && y.phase.Compared? then Some(y.current + y.desired)
    else if a.RollBack? && y.phase.Failed? then Some(y.current)
    else if a.Finish? && y.phase.Extended? then Some(y.desired)
    else None
  }

  /** No synchronisation that began while the master was invalid, before the last activation, writes
      while it is invalid again and one that began in the latest master has yet to read the store. */
  predicate NoLeftover(s: State, step: Step) {
    (&& Writes(step) && step.worker in s.syncs && s.epoch.None?
     && s.syncs[step.worker].epoch.None? && s.syncs[step.worker].era.activations != s.era.activations)
    ==> !Awaited(s)
  }

  predicate Honest(content: nat -> Rows, s: State, step: Step) {
    Described(content, step) && NoReturn(s, step) && NoLeftover(s, step)
  }

  ghost predicate HonestRun(c: Config, content: nat -> Rows, steps: seq<Step>) {
    forall i {:trigger steps[..i]} :: 0 <= i < |steps| ==> Honest(content, After(c, steps[..i]), steps[i])
  }

  predicate ReadsFrom(from: (Rows, S.Subscription) -> bool, rows: Rows, y: Sync) {
    AllFrom(from, rows, y.desired) && AllFrom(from, rows, y.current)
  }

  predicate InStep(s: State) {
    && (s.epoch.Some? ==> s.latest == s.epoch)
    && forall w :: w in s.syncs ==>
      && s.syncs[w].era.changes <= s.era.changes && s.syncs[w].era.activations <= s.era.activations
      && (s.syncs[w].era.changes == s.era.changes ==> s.syncs[w].era == s.era && s.syncs[w].epoch == s.epoch)
      && (s.syncs[w].era.activations == s.era.activations ==>
            s.syncs[w].epoch == s.latest || (s.syncs[w].epoch.None? && s.epoch.None?))
  }

  /** What a synchronisation has read must come from the latest master. */
  predicate Bound(s: State, y: Sync) {
    s.latest.Some? && (y.epoch == s.latest || (Awaited(s) && y.era.activations == s.era.activations))
  }

  predicate EpochInv(content: nat -> Rows, from: (Rows, S.Subscription) -> bool, s: State) {
    && InStep(s)
    && (s.epoch.Some? ==> Within(s.rows, content(s.epoch.value)) && AllFrom(from, content(s.epoch.value), s.subs))
    && (s.epoch.None? ==> s.rows == [])
    && (Awaited(s) ==> AllFrom(from, content(s.latest.value), s.subs))
    && (forall w :: w in s.syncs && Bound(s, s.syncs[w]) ==> ReadsFrom(from, content(s.latest.value), s.syncs[w]))
  }

  lemma RefreshKeepsEpochInv(c: Config, content: nat -> Rows, from: (Rows, S.Subscription) -> bool, s: State, step: Step)
    requires BuildsFrom(c.build, from) && Monotone(from) && EpochInv(content, from, s)
    requires step.Refresh? && Honest(content, s, step)
    ensures EpochInv(content, from, Apply(c, s, step))
  {
    AllFromMore(from, step.rows, content(step.epoch), c.build(step.today, step.rows, c.symbols));
    var t := Apply(c, s, step);
    if s.epoch != Some(step.epoch) && s.latest == Some(step.epoch) {
      assert Awaited(t) == Awaited(s);
      forall w | w in t.syncs && Bound(t, t.syncs[w]) ensures Bound(s, s.syncs[w]) {
        assert t.syncs[w].era.activations != t.era.activations;
      }
    }
  }

  lemma InvalidateKeepsEpochInv(content: nat -> Rows, from: (Rows, S.Subscription) -> bool, s: State)
    requires EpochInv(content, from, s)
    ensures EpochInv(content, from, InvalidateStep(s))
  {
    var t := InvalidateStep(s);
    assert Awaited(t) == Awaited(s);
    forall w | w in t.syncs && Bound(t, t.syncs[w]) ensures Bound(s, s.syncs[w]) {
    }
  }

  /** Nothing of the master changed, and of the synchronisations at most one, which may have left. */
  predicate Moved(s: State, t: State, w: nat) {
    && t.epoch == s.epoch && t.rows == s.rows && t.era == s.era && t.latest == s.latest
    && (forall v :: v in t.syncs ==>
          && v in s.syncs && t.syncs[v].epoch == s.syncs[v].epoch && t.syncs[v].era == s.syncs[v].era
          && (Unread(t.syncs[v]) ==> Unread(s.syncs[v]))
          && (v != w ==> t.syncs[v] == s.syncs[v]))
  }

  lemma AdvanceMoves(c: Config, s: State, w: nat, a: Action)
    requires w in s.syncs && !a.Unsubscribe? && !a.Subscribe?
    ensures Moved(s, Advance(c, s, w, s.syncs[w], a), w)
  {
  }

  /** A call to the broker changes neither the store nor what the synchronisation has read. */
  predicate Called(s: State, t: State, w: nat) {
    && Moved(s, t, w) && t.subs == s.subs && t.connection == s.connection && t.session == s.session
    && w in s.syncs && t.syncs.Keys == s.syncs.Keys
    && t.syncs[w].desired == s.syncs[w].desired && t.syncs[w].current == s.syncs[w].current
  }

  lemma UnsubscribeCalls(s: State, w: nat, raises: bool)
    requires w in s.syncs
    ensures Called(s, Unsubscribed(s, w, s.syncs[w], raises), w)
  {
  }

  lemma SubscribeCalls(s: State, w: nat, raises: bool)
    requires w in s.syncs
    ensures Called(s, Subscribed(s, w, s.syncs[w], raises), w)
  {
  }

  lemma AdvanceCalls(c: Config, s: State, w: nat, a: Action)
    requires w in s.syncs && (a.Unsubscribe? || a.Subscribe?)
    ensures Called(s, Advance(c, s, w, s.syncs[w], a), w)
  {
    if a.Unsubscribe? { UnsubscribeCalls(s, w, a.raises); } else { SubscribeCalls(s, w, a.raises); }
  }

  lemma CallKeepsEpochInv(content: nat -> Rows, from: (Rows, S.Subscription) -> bool, s: State, t: State, w: nat)
    requires EpochInv(content, from, s) && Called(s, t, w)
    ensures EpochInv(content, from, t)
  {
    MovedKeepsEpochInv(content, from, s, t, w);
  }

  lemma MovedKeepsEpochInv(content: nat -> Rows, from: (Rows, S.Subscription) -> bool, s: State, t: State, w: nat)
    requires EpochInv(content, from, s) && w in s.syncs && Moved(s, t, w)
    requires w in t.syncs && Bound(s, s.syncs[w]) ==> ReadsFrom(from, content(s.latest.value), t.syncs[w])
    requires t.subs == s.subs || (Awaited(s) || s.epoch.Some? ==> AllFrom(from, content(s.latest.value), t.subs))
    ensures EpochInv(content, from, t)
  {
    if Awaited(t) {
      var v :| v in t.syncs && t.syncs[v].epoch == t.latest && Unread(t.syncs[v]);
      assert v in s.syncs && s.syncs[v].epoch == s.latest && Unread(s.syncs[v]);
    }
    forall v | v in t.syncs && Bound(t, t.syncs[v]) ensures Bound(s, s.syncs[v]) {
    }
  }

  lemma ReadKeepsEpochInv(c: Config, content: nat -> Rows, from: (Rows, S.Subscription) -> bool, s: State, w: nat, a: Action)
    requires BuildsFrom(c.build, from) && Monotone(from) && EpochInv(content, from, s)
    requires w in s.syncs && (a.ReadRows? || a.ReadCurrent?)
    ensures EpochInv(content, from, Advance(c, s, w, s.syncs[w], a))
  {
    var t, y := Advance(c, s, w, s.syncs[w], a), s.syncs[w];
    if a.ReadRows? {
      if s.latest.Some? && (s.epoch == s.latest || s.rows == []) {
        AllFromMore(from, s.rows, content(s.latest.value), c.build(a.today, s.rows, c.symbols + a.demand));
      }
    }
    assert y.epoch == s.latest && s.latest.Some? && Unread(y) ==> Awaited(s);
    AdvanceMoves(c, s, w, a);
    MovedKeepsEpochInv(content, from, s, t, w);
  }

  /** The guard of the lock is passed by a synchronisation that read the latest master, or by one that
      nobody minds. */
  lemma GuardedIsBound(content: nat -> Rows, s: State, w: nat, step: Step)
    requires InStep(s) && w in s.syncs && s.syncs[w].epoch == s.epoch
    requires NoLeftover(s, step) && Writes(step) && step.worker == w
    ensures Awaited(s) || s.epoch.Some? ==> Bound(s, s.syncs[w])
  {
  }

  lemma WriteTakes(c: Config, s: State, w: nat, a: Action)
    requires w in s.syncs && Writes(Work(w, a))
    ensures var t, written := Advance(c, s, w, s.syncs[w], a), Written(s.syncs[w], a);
            && t.subs == (if written.Some? && s.syncs[w].epoch == s.epoch then written.value else s.subs)
            && (w in t.syncs ==> t.syncs[w].current == s.syncs[w].current && t.syncs[w].desired == s.syncs[w].desired)
  {
  }

  lemma WrittenIsFrom(from: (Rows, S.Subscription) -> bool, rows: Rows, y: Sync, a: Action)
    requires ReadsFrom(from, rows, y) && Written(y, a).Some?
    ensures AllFrom(from, rows, Written(y, a).value)
  {
  }

  lemma WriteKeepsEpochInv(c: Config, content: nat -> Rows, from: (Rows, S.Subscription) -> bool, s: State, w: nat, a: Action)
    requires EpochInv(content, from, s) && w in s.syncs && Writes(Work(w, a)) && NoLeftover(s, Work(w, a))
    ensures EpochInv(content, from, Advance(c, s, w, s.syncs[w], a))
  {
    var t := Advance(c, s, w, s.syncs[w], a);
    AdvanceMoves(c, s, w, a);
    WriteTakes(c, s, w, a);
    if t.subs != s.subs {
      GuardedIsBound(content, s, w, Work(w, a));
      if Awaited(s) || s.epoch.Some? { WrittenIsFrom(from, content(s.latest.value), s.syncs[w], a); }
    }
    MovedKeepsEpochInv(content, from, s, t, w);
  }

  lemma BeginKeepsEpochInv(c: Config, content: nat -> Rows, from: (Rows, S.Subscription) -> bool, s: State, w: nat)
    requires EpochInv(content, from, s)
    ensures EpochInv(content, from, WorkStep(c, s, w, Begin))
  {
    if MayBegin(s, w) { JoinedKeepsEpochInv(content, from, s, w, Sync(Began, s.epoch, s.era, map[], map[])); }
  }

  lemma JoinedKeepsEpochInv(content: nat -> Rows, from: (Rows, S.Subscription) -> bool, s: State, w: nat, y: Sync)
    requires EpochInv(content, from, s) && w !in s.syncs
    requires y == Sync(Began, s.epoch, s.era, map[], map[])
    ensures EpochInv(content, from, Move(s, w, y))
  {
    var t := Move(s, w, y);
    if Awaited(t) && !Awaited(s) {
      var v :| v in t.syncs && t.syncs[v].epoch == t.latest && Unread(t.syncs[v]);
      assert v == w;
    }
    forall v | v in t.syncs && v != w && Bound(t, t.syncs[v])
      ensures ReadsFrom(from, content(t.latest.value), t.syncs[v])
    {
      assert Bound(s, s.syncs[v]);
    }
  }

  lemma StepKeepsEpochInv(c: Config, content: nat -> Rows, from: (Rows, S.Subscription) -> bool, s: State, step: Step)
    requires BuildsFrom(c.build, from) && Monotone(from) && EpochInv(content, from, s) && Honest(content, s, step)
    ensures EpochInv(content, from, Apply(c, s, step))
  {
    match step {
      case Refresh(_, _, _) => RefreshKeepsEpochInv(c, content, from, s, step);
      case Invalidate => InvalidateKeepsEpochInv(content, from, s);
      case Work(w, a) =>
        if a.Begin? {
          BeginKeepsEpochInv(c, content, from, s, w);
        } else if w in s.syncs {
          if Writes(step) {
            WriteKeepsEpochInv(c, content, from, s, w, a);
          } else if a.ReadRows? || a.ReadCurrent? {
            ReadKeepsEpochInv(c, content, from, s, w, a);
          } else {
            AdvanceCalls(c, s, w, a);
            CallKeepsEpochInv(content, from, s, Apply(c, s, step), w);
          }
        }
      case ReadTokens => ConnectKeepsEpochInv(content, from, s, step);
      case SubscribeAll(_) => ConnectKeepsEpochInv(content, from, s, step);
      case Close => ConnectKeepsEpochInv(content, from, s, step);
    }
  }

  lemma ConnectKeepsEpochInv(content: nat -> Rows, from: (Rows, S.Subscription) -> bool, s: State, step: Step)
    requires EpochInv(content, from, s)
    ensures EpochInv(content, from, ConnectStep(s, step))
  {
    var t := ConnectStep(s, step);
    assert t.syncs == s.syncs && Awaited(t) == Awaited(s);
    forall v | v in t.syncs && Bound(t, t.syncs[v]) ensures Bound(s, s.syncs[v]) {
    }
  }

  lemma {:induction false} RunKeepsEpochInv(c: Config, content: nat -> Rows, from: (Rows, S.Subscription) -> bool, steps: seq<Step>)
    requires BuildsFrom(c.build, from) && Monotone(from) && HonestRun(c, content, steps)
    ensures EpochInv(content, from, After(c, steps))
  {
    if steps != [] {
      var init := steps[..|steps| - 1];
      forall i | 0 <= i < |init| ensures Honest(content, After(c, init[..i]), init[i]) {
        assert init[..i] == steps[..i];
      }
      RunKeepsEpochInv(c, content, from, init);
      assert Honest(content, After(c, steps[..|steps| - 1]), steps[|steps| - 1]);
      StepKeepsEpochInv(c, content, from, After(c, init), steps[|steps| - 1]);
    }
  }

  /** In every interleaving of any number of synchronisations a lookup under an epoch returns only what
      was built from that epoch's rows, or a fixed index token, and returns it under its own key. */
  lemma LookupSeesOneEpoch(c: Config, content: nat -> Rows, from: (Rows, S.Subscription) -> bool, steps: seq<Step>,
                           key: S.Key, epoch: nat)
    requires BuildsFrom(c.build, from) && Monotone(from) && HonestRun(c, content, steps)
    ensures var found := Found(After(c, steps), key, Some(epoch));
            found.Some? ==> S.KeyOf(found.value) == key && from(content(epoch), found.value)
  {
    RunKeepsEpochInv(c, content, from, steps);
  }

  /** A write left over from an invalid master keeps the store in order if and only if no synchronisation
      of the latest master has yet to read it, or what is written comes from that master anyway. */
  lemma LeftoverWriteKeepsIff(c: Config, content: nat -> Rows, from: (Rows, S.Subscription) -> bool, s: State, w: nat, a: Action)
    requires EpochInv(content, from, s) && w in s.syncs && s.epoch.None? && s.syncs[w].epoch.None?
    requires Writes(Work(w, a)) && Written(s.syncs[w], a).Some?
    ensures EpochInv(content, from, Apply(c, s, Work(w, a))) <==>
              !Awaited(s) || AllFrom(from, content(s.latest.value), Written(s.syncs[w], a).value)
  {
    var t := Apply(c, s, Work(w, a));
    AdvanceMoves(c, s, w, a);
    WriteTakes(c, s, w, a);
    if Awaited(s) {
      OthersAreKept(c, s, w, a);
      var v :| v in s.syncs && s.syncs[v].epoch == s.latest && Unread(s.syncs[v]);
      assert v in t.syncs && t.syncs[v] == s.syncs[v];
    }
    if !Awaited(s) || AllFrom(from, content(s.latest.value), t.subs) {
      MovedKeepsEpochInv(content, from, s, t, w);
    }
  }

  lemma OthersAreKept(c: Config, s: State, w: nat, a: Action)
    requires w in s.syncs
    ensures forall v :: v in s.syncs && v != w ==>
              v in Advance(c, s, w, s.syncs[w], a).syncs && Advance(c, s, w, s.syncs[w], a).syncs[v] == s.syncs[v]
  {
  }

  predicate LookupsFrom(from: (Rows, S.Subscription) -> bool, rows: Rows, s: State, epoch: nat) {
    forall key :: key in s.subs && Found(s, key, Some(epoch)).Some? ==>
      S.KeyOf(s.subs[key]) == key && from(rows, s.subs[key])
  }

  /** A synchronisation that reads the store while its master is invalid and installs when it is back:
      every lookup under the master then comes from it if and only if every entry of the store that the
      synchronisation does not itself want does. */
  lemma AwaitingReadMixesIff(c: Config, content: nat -> Rows, from: (Rows, S.Subscription) -> bool, s: State, w: nat,
                             epoch: nat, rows: Rows, today: int)
    requires w in s.syncs && s.syncs[w].phase.Wanted? && s.syncs[w].epoch == Some(epoch)
    requires AllFrom(from, content(epoch), s.syncs[w].desired)
    ensures var t := Apply(c, Apply(c, Apply(c, s, Work(w, ReadCurrent)), Refresh(epoch, rows, today)), Work(w, InstallLookups));
            LookupsFrom(from, content(epoch), t, epoch) <==>
            (forall k :: k in s.subs && k !in s.syncs[w].desired ==> S.KeyOf(s.subs[k]) == k && from(content(epoch), s.subs[k]))
  {
    var y := s.syncs[w];
    var u := Apply(c, Apply(c, s, Work(w, ReadCurrent)), Refresh(epoch, rows, today));
    assert u.epoch == Some(epoch) && w in u.syncs && u.syncs[w] == y.(phase := Compared, current := s.subs);
    var t := Apply(c, u, Work(w, InstallLookups));
    assert t.epoch == Some(epoch) && t.subs == s.subs + y.desired;
    assert forall k :: k in s.subs && k !in y.desired ==> k in t.subs && t.subs[k] == s.subs[k];
  }

  function Building(n: S.Naming, fixed: S.Fixed): Builder {
    (today, rows, requests) => S.Build(n, fixed, today, rows, requests)
  }

  function FromRows(fixed: S.Fixed): (Rows, S.Subscription) -> bool {
    (rows, x) => S.From(fixed, rows, x)
  }

  /** The store's own way to build subscriptions meets what the lookup needs. */
  lemma BuildingIsSound(n: S.Naming, fixed: S.Fixed)
    ensures BuildsFrom(Building(n, fixed), FromRows(fixed)) && Monotone(FromRows(fixed))
  {
    forall today, rows, requests, k | k in S.Build(n, fixed, today, rows, requests)
      ensures S.KeyOf(S.Build(n, fixed, today, rows, requests)[k]) == k
      ensures S.From(fixed, rows, S.Build(n, fixed, today, rows, requests)[k])
    {
      S.BuildIsFromRows(n, fixed, today, rows, requests, k);
    }
    forall rows, content, x | Within(rows, content) && S.From(fixed, rows, x) ensures S.From(fixed, content, x) {
    }
  }

  // ---- masters that go one way ----

  function ActivationsOf(step: Step): seq<nat> { if step.Refresh? then [step.epoch] else [] }

  /** The masters activated, in order. */
  function Activations(steps: seq<Step>): seq<nat> {
    if steps == [] then [] else Activations(steps[..|steps| - 1]) + ActivationsOf(steps[|steps| - 1])
  }

  /** A master that was activated before is activated again only while it is the latest. */
  predicate OneWay(epochs: seq<nat>) {
    forall i, k :: 0 <= i < k < |epochs| && epochs[i] == epochs[k] ==> epochs[k - 1] == epochs[k]
  }

  predicate Remembered(epochs: seq<nat>, s: State) {
    && s.latest == (if epochs == [] then None else Some(epochs[|epochs| - 1]))
    && (s.epoch.Some? ==> s.epoch == s.latest)
    && (forall w :: w in s.syncs && s.syncs[w].epoch.Some? ==> s.syncs[w].epoch.value in epochs)
  }

  lemma AdvanceKeepsMaster(c: Config, s: State, w: nat, a: Action)
    requires w in s.syncs
    ensures Moved(s, Advance(c, s, w, s.syncs[w], a), w)
  {
    if a.Unsubscribe? || a.Subscribe? { AdvanceCalls(c, s, w, a); } else { AdvanceMoves(c, s, w, a); }
  }

  /** What a step does to the latest master and to the epochs that synchronisations began in. */
  lemma StepRemembers(c: Config, s: State, step: Step)
    requires s.epoch.Some? ==> s.epoch == s.latest
    ensures var t := Apply(c, s, step);
            && t.latest == (if step.Refresh? then Some(step.epoch) else s.latest)
            && (t.epoch.Some? ==> t.epoch == t.latest)
            && (forall w :: w in t.syncs ==> if w in s.syncs then t.syncs[w].epoch == s.syncs[w].epoch else t.syncs[w].epoch == s.epoch)
  {
    if step.Work? && !step.action.Begin? && step.worker in s.syncs {
      AdvanceKeepsMaster(c, s, step.worker, step.action);
    }
  }

  lemma {:induction false} RunRemembers(c: Config, steps: seq<Step>)
    ensures Remembered(Activations(steps), After(c, steps))
  {
    if steps != [] {
      RunRemembers(c, steps[..|steps| - 1]);
      StepRemembers(c, After(c, steps[..|steps| - 1]), steps[|steps| - 1]);
    }
  }

  lemma {:induction false} ActivationsJoined(steps: seq<Step>, more: seq<Step>)
    ensures Activations(steps + more) == Activations(steps) + Activations(more)
    decreases |more|
  {
    if more == [] {
      assert steps + more == steps;
    } else {
      assert (steps + more)[..|steps + more| - 1] == steps + more[..|more| - 1];
      ActivationsJoined(steps, more[..|more| - 1]);
    }
  }

  lemma {:induction false} ActivationAt(steps: seq<Step>, i: nat)
    requires i < |steps| && steps[i].Refresh?
    ensures Activations(steps[..i]) + [steps[i].epoch] <= Activations(steps)
  {
    if i < |steps| - 1 {
      var init := steps[..|steps| - 1];
      assert init[..i] == steps[..i] && init[i] == steps[i];
      ActivationAt(init, i);
    }
  }

  lemma OneWayComesBack(epochs: seq<nat>, before: seq<nat>, epoch: nat)
    requires OneWay(epochs) && before + [epoch] <= epochs && epoch in before
    ensures before[|before| - 1] == epoch
  {
    var k :| 0 <= k < |before| && before[k] == epoch;
    var joined := before + [epoch];
    assert joined[k] == epochs[k] && joined[|before|] == epochs[|before|] && joined[|before| - 1] == epochs[|before| - 1];
  }

  /** Where masters go one way, none comes back to a synchronisation that began in it. */
  lemma OneWayIsHonest(c: Config, content: nat -> Rows, steps: seq<Step>)
    requires OneWay(Activations(steps))
    requires forall i {:trigger steps[..i]} :: 0 <= i < |steps| ==>
               Described(content, steps[i]) && NoLeftover(After(c, steps[..i]), steps[i])
    ensures HonestRun(c, content, steps)
  {
    forall i | 0 <= i < |steps| ensures Honest(content, After(c, steps[..i]), steps[i]) {
      RunRemembers(c, steps[..i]);
      if steps[i].Refresh? {
        ActivationAt(steps, i);
        if steps[i].epoch in Activations(steps[..i]) {
          OneWayComesBack(Activations(steps), Activations(steps[..i]), steps[i].epoch);
        }
      }
    }
  }

  lemma AfterSnoc(c: Config, steps: seq<Step>, step: Step)
    ensures After(c, steps + [step]) == Apply(c, After(c, steps), step)
  {
    assert (steps + [step])[..|steps|] == steps;
  }

  function ApplyAll(c: Config, s: State, steps: seq<Step>): State
    decreases |steps|
  {
    if steps == [] then s else ApplyAll(c, Apply(c, s, steps[0]), steps[1..])
  }

  lemma ShiftOne(steps: seq<Step>, more: seq<Step>)
    requires more != []
    ensures steps + [more[0]] + more[1..] == steps + more
  {
  }

  lemma {:induction false} AfterThen(c: Config, steps: seq<Step>, more: seq<Step>)
    ensures After(c, steps + more) == ApplyAll(c, After(c, steps), more)
    decreases |more|
  {
    if more == [] {
      assert steps + more == steps;
    } else {
      AfterSnoc(c, steps, more[0]);
      AfterThen(c, steps + [more[0]], more[1..]);
      ShiftOne(steps, more);
    }
  }

  lemma ApplyOne(c: Config, s: State, x: Step)
    ensures ApplyAll(c, s, [x]) == Apply(c, s, x)
  {
    assert [x][1..] == [];
  }

  lemma ApplyTwo(c: Config, s: State, x: Step, y: Step)
    ensures ApplyAll(c, s, [x, y]) == Apply(c, Apply(c, s, x), y)
  {
    assert [x, y][1..] == [y];
    ApplyOne(c, Apply(c, s, x), y);
  }

  lemma ApplyThree(c: Config, s: State, x: Step, y: Step, z: Step)
    ensures ApplyAll(c, s, [x, y, z]) == Apply(c, Apply(c, Apply(c, s, x), y), z)
  {
    assert [x, y, z][1..] == [y, z];
    ApplyTwo(c, Apply(c, s, x), y, z);
  }

  lemma ApplyFour(c: Config, s: State, x: Step, y: Step, z: Step, u: Step)
    ensures ApplyAll(c, s, [x, y, z, u]) == Apply(c, Apply(c, Apply(c, Apply(c, s, x), y), z), u)
  {
    assert [x, y, z, u][1..] == [y, z, u];
    ApplyThree(c, Apply(c, s, x), y, z, u);
  }
}
