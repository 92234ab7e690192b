/**
 The hub that hands account revisions to event streams (backend/internal/accountchanges/hub.go).

 Every listener has a channel that holds one revision. The publisher holds the lock while it
 delivers, but receivers take from their channels at any moment, also between its three selects.
 */
module AccountHub {
  import opened Wrappers

  const MAX_LISTENERS := 1024
  const MAX_PER_USER := 4

  datatype Message = Message(user: string, revision: string)

  /** `received` and `since`, the number of messages there had been when the listener came, exist
      for the proofs. */
  datatype Channel = Channel(owner: string, since: nat, buffer: Option<string>, received: seq<string>)

  datatype Select = Offer | Drain | Resend

  /** What the publisher is doing: nothing, choosing the next listener, or at a select of one. */
  datatype Delivery =
    | Idle
    | Choosing(revision: string, todo: set<nat>)
    | At(revision: string, todo: set<nat>, c: nat, select: Select)

  type Listeners = map<string, set<nat>>

  datatype State = State(listeners: Listeners, count: int, channels: map<nat, Channel>, log: seq<Message>,
                         delivery: Delivery)

  datatype Op =
    | Listen(user: string, id: nat)
    | Remove(id: nat)
    | Arrive(message: Message, wellFormed: bool)
    | Advance(pick: nat)
    | Receive(id: nat)

  const START := State(map[], 0, map[], [], Idle)

  function Of(listeners: Listeners, user: string): set<nat> {
    if user in listeners then listeners[user] else {}
  }

  predicate Live(s: State, id: nat) {
    id in s.channels && id in Of(s.listeners, s.channels[id].owner)
  }

  function Put(s: State, id: nat, buffer: Option<string>): State
    requires id in s.channels
  {
    s.(channels := s.channels[id := s.channels[id].(buffer := buffer)])
  }

  predicate HasRoom(s: State, user: string) {
    s.count < MAX_LISTENERS && |Of(s.listeners, user)| < MAX_PER_USER
  }

  /** Channels are never reused, so a new listener has a new id. */
  function ListenStep(s: State, user: string, id: nat): State {
    if !s.delivery.Idle? || id in s.channels || !HasRoom(s, user) then s
    else s.(listeners := s.listeners[user := Of(s.listeners, user) + {id}],
            count := s.count + 1,
            channels := s.channels[id := Channel(user, |s.log|, None, [])])
  }

  function RemoveStep(s: State, id: nat): State {
    if !s.delivery.Idle? || !Live(s, id) then s
    else
      var user := s.channels[id].owner;
      var rest := s.listeners[user] - {id};
      s.(listeners := if rest == {} then s.listeners - {user} else s.listeners[user := rest], count := s.count - 1)
  }

  function ArriveStep(s: State, m: Message, wellFormed: bool): State {
    if !s.delivery.Idle? || !wellFormed then s
    else s.(log := s.log + [m], delivery := Choosing(m.revision, Of(s.listeners, m.user)))
  }

  function AdvanceStep(s: State, pick: nat): State {
    match s.delivery
    case Idle => s
    case Choosing(revision, todo) =>
      if todo == {} then s.(delivery := Idle)
      else if pick in todo then s.(delivery := At(revision, todo - {pick}, pick, Offer))
      else s
    case At(revision, todo, c, select) =>
      if c !in s.channels then s
      else if select.Drain? then Put(s, c, None).(delivery := At(revision, todo, c, Resend))
      else if s.channels[c].buffer.None? then Put(s, c, Some(revision)).(delivery := Choosing(revision, todo))
      else if select.Offer? then s.(delivery := At(revision, todo, c, Drain))
      else s.(delivery := Choosing(revision, todo))
  }

  function ReceiveStep(s: State, id: nat): State {
    if id !in s.channels || s.channels[id].buffer.None? then s
    else
      var ch := s.channels[id];
      s.(channels := s.channels[id := ch.(buffer := None, received := ch.received + [ch.buffer.value])])
  }

  function Step(s: State, op: Op): State {
    match op
    case Listen(user, id) => ListenStep(s, user, id)
    case Remove(id) => RemoveStep(s, id)
    case Arrive(m, wellFormed) => ArriveStep(s, m, wellFormed)
    case Advance(pick) => AdvanceStep(s, pick)
    case Receive(id) => ReceiveStep(s, id)
  }

  function After(ops: seq<Op>): State {
    if ops == [] then START else Step(After(ops[..|ops| - 1]), ops[|ops| - 1])
  }

  // ---- what a listener was sent, and what reached it ----

  /** The revisions published for a user after the first `since` messages. */
  function Sent(log: seq<Message>, owner: string, since: nat): seq<string> {
    if |log| <= since then []
    else
      var m := log[|log| - 1];
      Sent(log[..|log| - 1], owner, since) + if m.user == owner then [m.revision] else []
  }

  function SentTo(s: State, ch: Channel): seq<string> { Sent(s.log, ch.owner, ch.since) }

  /** What the receiver has taken, and what it will take next. */
  function Reached(ch: Channel): seq<string> {
    ch.received + if ch.buffer.Some? then [ch.buffer.value] else []
  }

  /** xs can be obtained from ys by leaving elements out. */
  predicate Subsequence(xs: seq<string>, ys: seq<string>) {
    || xs == []
    || (ys != [] && (Subsequence(xs, ys[..|ys| - 1])
                     || (xs[|xs| - 1] == ys[|ys| - 1] && Subsequence(xs[..|xs| - 1], ys[..|ys| - 1]))))
  }

  lemma SubsequenceSkips(xs: seq<string>, ys: seq<string>, y: string)
    requires Subsequence(xs, ys)
    ensures Subsequence(xs, ys + [y])
  {
    assert (ys + [y])[..|ys|] == ys;
  }

  lemma SubsequenceTakes(xs: seq<string>, ys: seq<string>, y: string)
    requires Subsequence(xs, ys)
    ensures Subsequence(xs + [y], ys + [y])
  {
    assert (ys + [y])[..|ys|] == ys && (xs + [y])[..|xs|] == xs;
  }

  lemma {:induction false} SubsequenceDrops(xs: seq<string>, ys: seq<string>)
    requires xs != [] && Subsequence(xs, ys)
    ensures Subsequence(xs[..|xs| - 1], ys)
  {
    var init := ys[..|ys| - 1];
    if Subsequence(xs, init) {
      SubsequenceDrops(xs, init);
      SubsequenceSkips(xs[..|xs| - 1], init, ys[|ys| - 1]);
    } else {
      SubsequenceSkips(xs[..|xs| - 1], init, ys[|ys| - 1]);
    }
    assert init + [ys[|ys| - 1]] == ys;
  }

  // ---- counting listeners ----

  ghost function Total(listeners: Listeners): nat
    decreases |listeners|
  {
    if listeners == map[] then 0
    else
      var user :| user in listeners;
      |listeners[user]| + Total(listeners - {user})
  }

  /** The total does not depend on which user is counted first. */
  lemma {:induction false} TotalWithout(listeners: Listeners, user: string)
    requires user in listeners
    ensures Total(listeners) == |listeners[user]| + Total(listeners - {user})
    decreases |listeners|
  {
    var first :| first in listeners && Total(listeners) == |listeners[first]| + Total(listeners - {first});
    if first != user {
      var rest := listeners - {first};
      TotalWithout(rest, user);
      assert rest - {user} == (listeners - {user}) - {first};
      TotalWithout(listeners - {user}, first);
    }
  }

  lemma TotalAfterPut(listeners: Listeners, user: string, ids: set<nat>)
    ensures Total(listeners[user := ids]) == Total(listeners) - |Of(listeners, user)| + |ids|
  {
    var put := listeners[user := ids];
    TotalWithout(put, user);
    assert put - {user} == listeners - {user};
    if user in listeners {
      TotalWithout(listeners, user);
    } else {
      assert listeners - {user} == listeners;
    }
  }

  /** The count is the sum of the per-user listeners and both limits hold. */
  ghost predicate Counted(s: State) {
    && s.count == Total(s.listeners) <= MAX_LISTENERS
    && (forall u :: u in s.listeners ==> 1 <= |s.listeners[u]| <= MAX_PER_USER)
    && (forall u, id :: u in s.listeners && id in s.listeners[u] ==> id in s.channels && s.channels[id].owner == u)
  }

  /** The registrations and the log are the same; only buffers and what was received may differ. */
  predicate SameRegistry(s: State, t: State) {
    && t.listeners == s.listeners && t.count == s.count && t.log == s.log && t.channels.Keys == s.channels.Keys
    && forall k :: k in s.channels ==>
         t.channels[k].owner == s.channels[k].owner && t.channels[k].since == s.channels[k].since
  }

  lemma SameRegistryKeepsCounted(s: State, t: State)
    requires Counted(s) && SameRegistry(s, t)
    ensures Counted(t)
  {
    forall u, id | u in t.listeners && id in t.listeners[u] ensures id in t.channels && t.channels[id].owner == u {
      assert u in s.listeners;
    }
  }

  lemma AdvanceKeepsRegistry(s: State, pick: nat)
    ensures SameRegistry(s, AdvanceStep(s, pick))
  {
  }

  lemma ReceiveKeepsRegistry(s: State, id: nat)
    ensures SameRegistry(s, ReceiveStep(s, id))
  {
  }

  lemma ListenKeepsCounted(s: State, user: string, id: nat)
    requires Counted(s)
    ensures Counted(ListenStep(s, user, id))
  {
    if s.delivery.Idle? && id !in s.channels && HasRoom(s, user) {
      TotalAfterPut(s.listeners, user, Of(s.listeners, user) + {id});
      assert id !in Of(s.listeners, user);
      assert |Of(s.listeners, user) + {id}| == |Of(s.listeners, user)| + 1;
      var t := ListenStep(s, user, id);
      forall u, k | u in t.listeners && k in t.listeners[u] ensures k in t.channels && t.channels[k].owner == u {
        if u != user || k != id { assert u in s.listeners; }
      }
    }
  }

  lemma RemoveKeepsCounted(s: State, id: nat)
    requires Counted(s)
    ensures Counted(RemoveStep(s, id))
  {
    if s.delivery.Idle? && Live(s, id) {
      var user := s.channels[id].owner;
      TotalAfterPut(s.listeners, user, s.listeners[user] - {id});
      TotalWithout(s.listeners, user);
      assert s.listeners[user] - {id} == {} ==> s.listeners[user] == {id};
    }
  }

  lemma StepKeepsCounted(s: State, op: Op)
    requires Counted(s)
    ensures Counted(Step(s, op))
  {
    match op {
      case Listen(user, id) => ListenKeepsCounted(s, user, id);
      case Remove(id) => RemoveKeepsCounted(s, id);
      case Arrive(m, wellFormed) =>
      case Advance(pick) =>
        AdvanceKeepsRegistry(s, pick);
        SameRegistryKeepsCounted(s, AdvanceStep(s, pick));
      case Receive(id) =>
        ReceiveKeepsRegistry(s, id);
        SameRegistryKeepsCounted(s, ReceiveStep(s, id));
    }
  }

  /** In every run the count is exact and neither limit is ever exceeded. */
  lemma {:induction false} CountIsExact(ops: seq<Op>)
    ensures Counted(After(ops))
  {
    if ops != [] {
      CountIsExact(ops[..|ops| - 1]);
      StepKeepsCounted(After(ops[..|ops| - 1]), ops[|ops| - 1]);
    }
  }

  /** Removing a listener twice is removing it once, and undoes its registration. */
  lemma RemoveIsIdempotent(s: State, user: string, id: nat)
    requires Counted(s)
    ensures RemoveStep(RemoveStep(s, id), id) == RemoveStep(s, id)
    ensures s.delivery.Idle? && id !in s.channels ==>
              RemoveStep(ListenStep(s, user, id), id).listeners == s.listeners
              && RemoveStep(ListenStep(s, user, id), id).count == s.count
  {
    var t := ListenStep(s, user, id);
    if s.delivery.Idle? && id !in s.channels {
      assert id !in Of(s.listeners, user);
      assert Of(s.listeners, user) + {id} - {id} == Of(s.listeners, user);
      assert RemoveStep(t, id).listeners == s.listeners;
    }
  }

  /** The listeners registered for a user. */
  function Mine(s: State, user: string): set<nat> {
    set k | k in s.channels && Live(s, k) && s.channels[k].owner == user
  }

  lemma MineIsOf(s: State, user: string)
    requires Counted(s)
    ensures Mine(s, user) == Of(s.listeners, user)
  {
  }

  lemma ListenAdds(s: State, user: string, id: nat)
    requires Counted(s) && s.delivery.Idle? && id !in s.channels && HasRoom(s, user)
    ensures var t := ListenStep(s, user, id);
            && t.channels == s.channels[id := Channel(user, |s.log|, None, [])] && t.delivery == s.delivery
            && t.log == s.log && Total(t.listeners) == Total(s.listeners) + 1
            && forall u :: Mine(t, u) == Mine(s, u) + if u == user then {id} else {}
  {
    var t := ListenStep(s, user, id);
    ListenKeepsCounted(s, user, id);
    forall u ensures Mine(t, u) == Mine(s, u) + if u == user then {id} else {} {
      MineIsOf(s, u);
      MineIsOf(t, u);
    }
  }

  /** In any run a new listener is added, with an empty channel, if and only if no delivery holds the lock,
      fewer than 1024 listen in all and fewer than 4 of them for the user; otherwise nothing changes. */
  lemma ListenIff(ops: seq<Op>, user: string, id: nat)
    ensures var s, t := After(ops), After(ops + [Listen(user, id)]);
            if s.delivery.Idle? && id !in s.channels && Total(s.listeners) < 1024 && |Mine(s, user)| < 4
            then && t.channels == s.channels[id := Channel(user, |s.log|, None, [])] && t.delivery == s.delivery
                 && t.log == s.log && Total(t.listeners) == Total(s.listeners) + 1
                 && forall u :: Mine(t, u) == Mine(s, u) + if u == user then {id} else {}
            else t == s
  {
    var s := After(ops);
    assert (ops + [Listen(user, id)])[..|ops|] == ops;
    CountIsExact(ops);
    MineIsOf(s, user);
    if s.delivery.Idle? && id !in s.channels && HasRoom(s, user) { ListenAdds(s, user, id); }
  }

  /** A well-formed message that arrives while none is being delivered goes to every listener of its user,
      and to no other; one that is not well formed changes nothing. */
  lemma ArrivalReaches(ops: seq<Op>, m: Message, wellFormed: bool)
    ensures var s, t := After(ops), After(ops + [Arrive(m, wellFormed)]);
            if s.delivery.Idle? && wellFormed
            then && t.log == s.log + [m] && t.channels == s.channels && t.listeners == s.listeners
                 && t.delivery.Choosing? && t.delivery.revision == m.revision
                 && t.delivery.todo == Mine(s, m.user)
            else t == s
  {
    assert (ops + [Arrive(m, wellFormed)])[..|ops|] == ops;
    CountIsExact(ops);
    MineIsOf(After(ops), m.user);
  }

  // ---- delivery ----

  /** The listener still has to be given the message being delivered. */
  predicate Pending(s: State, id: nat) {
    match s.delivery
    case Idle => false
    case Choosing(_, todo) => id in todo
    case At(_, todo, c, _) => id in todo || id == c
  }

  ghost predicate DeliveryOk(s: State) {
    && (!s.delivery.Idle? ==> s.log != [] && s.delivery.revision == s.log[|s.log| - 1].revision)
    && (forall id :: Pending(s, id) ==> Live(s, id) && s.channels[id].owner == s.log[|s.log| - 1].user
                                        && s.channels[id].since < |s.log|)
    && (s.delivery.At? ==> s.delivery.c in s.channels && s.delivery.c !in s.delivery.todo)
    && (s.delivery.At? && s.delivery.select.Resend? ==> s.channels[s.delivery.c].buffer.None?)
  }

  /** The last revision sent is the last that reached the channel. */
  predicate Fresh(sent: seq<string>, reached: seq<string>) {
    sent != [] ==> reached != [] && reached[|reached| - 1] == sent[|sent| - 1]
  }

  /** A pending channel lags by the message being delivered; any other live channel is fresh. */
  predicate ChannelSound(log: seq<Message>, ch: Channel, pending: bool, live: bool) {
    && ch.since <= |log|
    && if pending
       then log != [] && Subsequence(Reached(ch), Sent(log[..|log| - 1], ch.owner, ch.since))
       else Subsequence(Reached(ch), Sent(log, ch.owner, ch.since))
            && (live ==> Fresh(Sent(log, ch.owner, ch.since), Reached(ch)))
  }

  predicate ChannelOk(s: State, id: nat)
    requires id in s.channels
  {
    ChannelSound(s.log, s.channels[id], Pending(s, id), Live(s, id))
  }

  ghost predicate Inv(s: State) {
    && Counted(s)
    && DeliveryOk(s)
    && forall id :: id in s.channels ==> ChannelOk(s, id)
  }

  lemma ArriveKeepsInv(s: State, m: Message)
    requires Inv(s) && s.delivery.Idle?
    ensures Inv(ArriveStep(s, m, true))
  {
    var t := ArriveStep(s, m, true);
    assert t.log[..|s.log|] == s.log;
    forall id | id in t.channels ensures ChannelOk(t, id) {
      var ch := s.channels[id];
      assert ChannelOk(s, id);
      assert SentTo(t, ch) == SentTo(s, ch) + if m.user == ch.owner then [m.revision] else [];
      if m.user == ch.owner {
        SubsequenceSkips(Reached(ch), SentTo(s, ch), m.revision);
      } else {
        assert SentTo(t, ch) == SentTo(s, ch);
      }
    }
    forall id | Pending(t, id) ensures Live(t, id) && t.channels[id].owner == m.user && t.channels[id].since < |t.log| {
      assert ChannelOk(s, id);
    }
  }

  lemma SameRegistryKeepsInv(s: State, t: State)
    requires Counted(s) && DeliveryOk(s) && SameRegistry(s, t)
    requires forall k :: Pending(t, k) ==> Pending(s, k)
    requires !t.delivery.Idle? ==> !s.delivery.Idle? && t.delivery.revision == s.delivery.revision
    requires t.delivery.At? ==> t.delivery.c in t.channels && t.delivery.c !in t.delivery.todo
    requires t.delivery.At? && t.delivery.select.Resend? ==> t.channels[t.delivery.c].buffer.None?
    requires forall k :: k in t.channels ==> ChannelOk(t, k)
    ensures Inv(t)
  {
    SameRegistryKeepsCounted(s, t);
  }

  lemma TakeKeepsSound(log: seq<Message>, ch: Channel, pending: bool, live: bool)
    requires ch.buffer.Some? && ChannelSound(log, ch, pending, live)
    ensures ChannelSound(log, ch.(buffer := None, received := ch.received + [ch.buffer.value]), pending, live)
  {
    assert Reached(ch.(buffer := None, received := ch.received + [ch.buffer.value])) == Reached(ch);
  }

  lemma ReceiveKeepsInv(s: State, id: nat)
    requires Inv(s)
    ensures Inv(ReceiveStep(s, id))
  {
    if id in s.channels && s.channels[id].buffer.Some? {
      var t := ReceiveStep(s, id);
      assert t.delivery == s.delivery && SameRegistry(s, t);
      forall k | k in t.channels ensures ChannelOk(t, k) {
        assert ChannelOk(s, k);
        if k == id { TakeKeepsSound(s.log, s.channels[id], Pending(s, id), Live(s, id)); }
      }
      SameRegistryKeepsInv(s, t);
    }
  }

  lemma GiveKeepsChannel(s: State, t: State, k: nat)
    requires s.delivery.At? && DeliveryOk(s) && k in s.channels && ChannelOk(s, k)
    requires s.channels[s.delivery.c].buffer.None?
    requires t == Put(s, s.delivery.c, Some(s.delivery.revision)).(delivery := Choosing(s.delivery.revision, s.delivery.todo))
    ensures ChannelOk(t, k)
  {
    var c, revision := s.delivery.c, s.delivery.revision;
    assert Pending(s, c);
    if k == c {
      var sent := Sent(s.log[..|s.log| - 1], s.channels[c].owner, s.channels[c].since);
      SubsequenceTakes(Reached(s.channels[c]), sent, revision);
      assert Reached(t.channels[c]) == Reached(s.channels[c]) + [revision];
    } else {
      assert Pending(t, k) <==> Pending(s, k);
    }
  }

  lemma GiveKeepsInv(s: State)
    requires Inv(s) && s.delivery.At? && s.channels[s.delivery.c].buffer.None?
    ensures Inv(Put(s, s.delivery.c, Some(s.delivery.revision)).(delivery := Choosing(s.delivery.revision, s.delivery.todo)))
  {
    var t := Put(s, s.delivery.c, Some(s.delivery.revision)).(delivery := Choosing(s.delivery.revision, s.delivery.todo));
    forall k | k in t.channels ensures ChannelOk(t, k) {
      GiveKeepsChannel(s, t, k);
    }
    SameRegistryKeepsInv(s, t);
  }

  lemma DrainKeepsSound(log: seq<Message>, ch: Channel, live: bool)
    requires ChannelSound(log, ch, true, live)
    ensures ChannelSound(log, ch.(buffer := None), true, live)
  {
    if ch.buffer.Some? {
      SubsequenceDrops(Reached(ch), Sent(log[..|log| - 1], ch.owner, ch.since));
      assert Reached(ch)[..|Reached(ch)| - 1] == ch.received == Reached(ch.(buffer := None));
    }
  }

  lemma DrainKeepsInv(s: State)
    requires Inv(s) && s.delivery.At?
    ensures Inv(Put(s, s.delivery.c, None).(delivery := s.delivery.(select := Resend)))
  {
    var c := s.delivery.c;
    var t := Put(s, c, None).(delivery := s.delivery.(select := Resend));
    assert Pending(s, c);
    forall k | k in t.channels ensures ChannelOk(t, k) {
      assert ChannelOk(s, k);
      assert Pending(t, k) == Pending(s, k) && Live(t, k) == Live(s, k);
      if k == c { DrainKeepsSound(s.log, s.channels[c], Live(s, c)); }
    }
    SameRegistryKeepsInv(s, t);
  }

  lemma MoveKeepsInv(s: State, d: Delivery)
    requires Inv(s) && !s.delivery.Idle? && (!d.Idle? ==> d.revision == s.delivery.revision)
    requires forall id :: Pending(s.(delivery := d), id) <==> Pending(s, id)
    requires d.At? ==> d.c !in d.todo && !d.select.Resend?
    ensures Inv(s.(delivery := d))
  {
    var t := s.(delivery := d);
    forall k | k in t.channels ensures ChannelOk(t, k) {
      assert ChannelOk(s, k);
    }
    assert d.At? ==> Pending(t, d.c);
    SameRegistryKeepsInv(s, t);
  }

  lemma AdvanceKeepsInv(s: State, pick: nat)
    requires Inv(s)
    ensures Inv(AdvanceStep(s, pick))
  {
    match s.delivery {
      case Idle =>
      case Choosing(revision, todo) =>
        if todo == {} {
          MoveKeepsInv(s, Idle);
        } else if pick in todo {
          MoveKeepsInv(s, At(revision, todo - {pick}, pick, Offer));
        }
      case At(revision, todo, c, select) =>
        assert Pending(s, c);
        if select.Drain? {
          DrainKeepsInv(s);
        } else if s.channels[c].buffer.None? {
          GiveKeepsInv(s);
        } else {
          MoveKeepsInv(s, At(revision, todo, c, Drain));
        }
    }
  }

  lemma ListenKeepsInv(s: State, user: string, id: nat)
    requires Inv(s)
    ensures Inv(ListenStep(s, user, id))
  {
    ListenKeepsCounted(s, user, id);
    var t := ListenStep(s, user, id);
    forall k | k in t.channels ensures ChannelOk(t, k) {
      if k in s.channels { assert ChannelOk(s, k); }
    }
  }

  lemma RemoveKeepsInv(s: State, id: nat)
    requires Inv(s)
    ensures Inv(RemoveStep(s, id))
  {
    RemoveKeepsCounted(s, id);
    var t := RemoveStep(s, id);
    forall k | k in t.channels ensures ChannelOk(t, k) {
      assert ChannelOk(s, k);
    }
  }

  lemma {:induction false} RunKeepsInv(ops: seq<Op>)
    ensures Inv(After(ops))
  {
    if ops != [] {
      var s := After(ops[..|ops| - 1]);
      RunKeepsInv(ops[..|ops| - 1]);
      match ops[|ops| - 1] {
        case Listen(user, id) => ListenKeepsInv(s, user, id);
        case Remove(id) => RemoveKeepsInv(s, id);
        case Arrive(m, wellFormed) => if s.delivery.Idle? && wellFormed { ArriveKeepsInv(s, m); }
        case Advance(pick) => AdvanceKeepsInv(s, pick);
        case Receive(id) => ReceiveKeepsInv(s, id);
      }
    }
  }

  /** Whatever the interleaving, a receiver gets revisions published for its own user since it came,
      in order, each at most once. */
  lemma ReceivedAreSubsequence(ops: seq<Op>, id: nat)
    requires id in After(ops).channels
    ensures Subsequence(After(ops).channels[id].received, SentTo(After(ops), After(ops).channels[id]))
  {
    RunKeepsInv(ops);
    var s := After(ops);
    var ch := s.channels[id];
    assert ChannelOk(s, id);
    if Pending(s, id) {
      SubsequenceSkips(Reached(ch), Sent(s.log[..|s.log| - 1], ch.owner, ch.since), s.log[|s.log| - 1].revision);
    }
    if ch.buffer.Some? {
      SubsequenceDrops(Reached(ch), SentTo(s, ch));
      assert Reached(ch)[..|Reached(ch)| - 1] == ch.received;
    } else {
      assert Reached(ch) == ch.received;
    }
  }

  /** Outside a delivery the newest revision is waiting for the listener, or was the last it took. */
  lemma NewestWaitsOrWasTaken(ops: seq<Op>, id: nat)
    requires id in After(ops).channels && Live(After(ops), id) && !Pending(After(ops), id)
    requires SentTo(After(ops), After(ops).channels[id]) != []
    ensures var ch := After(ops).channels[id];
            var newest := SentTo(After(ops), ch)[|SentTo(After(ops), ch)| - 1];
            if ch.buffer.Some? then ch.buffer.value == newest
            else ch.received != [] && ch.received[|ch.received| - 1] == newest
  {
    RunKeepsInv(ops);
    assert ChannelOk(After(ops), id);
  }

  /** The default of the last select is never taken: the drained channel still has room. */
  lemma ResendNeverDrops(ops: seq<Op>, pick: nat)
    requires After(ops).delivery.At? && After(ops).delivery.select.Resend?
    ensures var (s, t) := (After(ops), AdvanceStep(After(ops), pick));
            s.delivery.c in t.channels && t.channels[s.delivery.c].buffer == Some(s.delivery.revision)
  {
    RunKeepsInv(ops);
    assert Pending(After(ops), After(ops).delivery.c);
  }

  /** How many selects a delivery may still take. */
  function Remaining(d: Delivery): nat {
    match d
    case Idle => 0
    case Choosing(_, todo) => 1 + 4 * |todo|
    case At(_, todo, _, select) => 1 + 4 * |todo| + if select.Offer? then 3 else if select.Drain? then 2 else 1
  }

  /** No receiver can hold the publisher up: every select brings the end of the delivery nearer, and
      receiving does not move it away. */
  lemma DeliveryEnds(ops: seq<Op>, pick: nat, id: nat)
    ensures var s := After(ops);
            && (!s.delivery.Idle? && (s.delivery.Choosing? && s.delivery.todo != {} ==> pick in s.delivery.todo) ==>
                  Remaining(AdvanceStep(s, pick).delivery) < Remaining(s.delivery))
            && ReceiveStep(s, id).delivery == s.delivery
  {
    RunKeepsInv(ops);
    var s := After(ops);
    if s.delivery.At? { assert Pending(s, s.delivery.c); }
  }

  // ---- the hub ----

  class Hub {
    var listeners: Listeners
    var count: int
    var channels: map<nat, Channel>
    var log: seq<Message>
    var delivery: Delivery

    ghost function Contents(): State reads this { State(listeners, count, channels, log, delivery) }

    ghost predicate Valid() reads this { Inv(Contents()) }

    constructor ()
      ensures Contents() == After([]) && Valid()
    {
      listeners, count, channels, log, delivery := map[], 0, map[], [], Idle;
      new;
      RunKeepsInv([]);
    }

    method Listen(user: string, id: nat) returns (ok: bool)
      requires Valid() && delivery.Idle? && id !in channels
      modifies this
      ensures Valid() && Contents() == ListenStep(old(Contents()), user, id)
      ensures ok <==> HasRoom(old(Contents()), user)
    {
      ListenKeepsInv(Contents(), user, id);
      var own := if user in listeners then listeners[user] else {};
      if count >= MAX_LISTENERS || |own| >= MAX_PER_USER { return false; }
      listeners := listeners[user := own + {id}];
      count := count + 1;
      channels := channels[id := Channel(user, |log|, None, [])];
      ok := true;
    }

    method Remove(id: nat)
      requires Valid() && delivery.Idle? && id in channels
      modifies this
      ensures Valid() && Contents() == RemoveStep(old(Contents()), id)
    {
      RemoveKeepsInv(Contents(), id);
      var user := channels[id].owner;
      if user in listeners && id in listeners[user] {
        listeners := listeners[user := listeners[user] - {id}];
        count := count - 1;
        if listeners[user] == {} { listeners := listeners - {user}; }
        assert listeners == RemoveStep(old(Contents()), id).listeners;
      }
    }

    method BeginDelivery(m: Message, wellFormed: bool)
      requires Valid() && delivery.Idle?
      modifies this
      ensures Valid() && Contents() == ArriveStep(old(Contents()), m, wellFormed)
    {
      if wellFormed {
        ArriveKeepsInv(Contents(), m);
        log := log + [m];
        delivery := Choosing(m.revision, if m.user in listeners then listeners[m.user] else {});
      }
    }

    /** One select of the delivery loop. */
    method Advance(pick: nat)
      requires Valid()
      modifies this
      ensures Valid() && Contents() == AdvanceStep(old(Contents()), pick)
    {
      AdvanceKeepsInv(Contents(), pick);
      match delivery {
        case Idle =>
        case Choosing(revision, todo) =>
          if todo == {} {
            delivery := Idle;
          } else if pick in todo {
            delivery := At(revision, todo - {pick}, pick, Offer);
          }
        case At(revision, todo, c, select) =>
          assert Pending(Contents(), c);
          var ch := channels[c];
          match select {
            case Offer =>
              if ch.buffer.None? {
                channels := channels[c := ch.(buffer := Some(revision))];
                delivery := Choosing(revision, todo);
              } else {
                delivery := At(revision, todo, c, Drain);
              }
            case Drain =>
              channels := channels[c := ch.(buffer := None)];
              delivery := At(revision, todo, c, Resend);
            case Resend =>
              channels := channels[c := ch.(buffer := Some(revision))];
              delivery := Choosing(revision, todo);
          }
      }
    }

    method Receive(id: nat) returns (revision: Option<string>)
      requires Valid() && id in channels
      modifies this
      ensures Valid() && Contents() == ReceiveStep(old(Contents()), id)
      ensures revision == old(channels)[id].buffer
    {
      ReceiveKeepsInv(Contents(), id);
      var ch := channels[id];
      revision := ch.buffer;
      if revision.Some? {
        channels := channels[id := ch.(buffer := None, received := ch.received + [revision.value])];
      }
    }
  }
}
