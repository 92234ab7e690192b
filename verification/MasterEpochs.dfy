/**
 The market worker's refresh over the importer's database: it reads the active version with the number
 of its live rows, and the rows themselves
 (python-services/market-worker/worker.py, InstrumentStore.refresh).
 */
module MasterEpochs {
  import opened Wrappers
  import A = MasterActivation
  import L = InstrumentLifecycle
  import M = InstrumentMaster
  import S = Subscriptions
  import opened SubscriptionStore

  /** The rows to begin with, before any master is staged, and the calls made on the database. */
  datatype History = History(env: L.Env, rows: A.Rows, ops: seq<L.Op>)

  /** A refresh reads the active version and its signature after so many calls, and its rows then or later. */
  datatype Read = Read(at: nat, version: string, rowsAt: nat)

  function Database(h: History, n: nat): M.Db
    requires n <= |h.ops|
  {
    L.After(h.env, M.Db(h.rows, map[]), h.ops, n)
  }

  predicate ReadsActive(h: History, r: Read) {
    r.at <= r.rowsAt <= |h.ops| && L.IsActive(Database(h, r.at), r.version)
  }

  /** The rows the signature describes. */
  function Live(h: History, r: Read): A.Rows
    requires ReadsActive(h, r)
  {
    L.LiveRows(Database(h, r.at).rows, r.version)
  }

  /** The rows the refresh loads. */
  function Loaded(h: History, r: Read): A.Rows
    requires ReadsActive(h, r)
  {
    L.LiveRows(Database(h, r.rowsAt).rows, r.version)
  }

  /** The signature of a master gives away its version and its number of live rows. */
  ghost predicate Signs(sign: (string, A.Rows) -> nat) {
    forall v, a, w, b {:trigger sign(v, a), sign(w, b)} :: sign(v, a) == sign(w, b) ==> v == w && |a| == |b|
  }

  /** Fewer instruments give fewer rows. */
  ghost predicate Selects(load: A.Rows -> Rows) {
    forall a, b {:trigger L.Submap(a, b)} :: L.Submap(a, b) ==> Within(load(a), load(b))
  }

  function SignatureOf(h: History, sign: (string, A.Rows) -> nat, r: Read): nat
    requires ReadsActive(h, r)
  {
    sign(r.version, Live(h, r))
  }

  /** Two reads of one signature described the same rows, and so did any read in between. */
  lemma SameSignatureSameRows(h: History, sign: (string, A.Rows) -> nat, a: Read, b: Read, c: Read)
    requires L.Named(h.ops) && Signs(sign) && ReadsActive(h, a) && ReadsActive(h, b) && ReadsActive(h, c)
    requires a.at <= b.at <= c.at && SignatureOf(h, sign, a) == SignatureOf(h, sign, c)
    ensures b.version == a.version == c.version && Live(h, b) == Live(h, a) == Live(h, c)
  {
    L.EpochNeverReturns(h.env, M.Db(h.rows, map[]), h.ops, a.at, b.at, c.at, a.version);
    L.SnapshotsStaySound(h.env, M.Db(h.rows, map[]), h.ops, b.at);
  }

  /** Each refresh of a run of the worker takes its epoch and rows from a read; reads follow each other. */
  ghost predicate Loads(h: History, sign: (string, A.Rows) -> nat, load: A.Rows -> Rows, steps: seq<Step>, seen: seq<Read>) {
    && |seen| == |steps|
    && (forall i :: 0 <= i < |steps| && steps[i].Refresh? ==>
          && ReadsActive(h, seen[i])
          && steps[i].epoch == SignatureOf(h, sign, seen[i]) && steps[i].rows == load(Loaded(h, seen[i])))
    && (forall i, j :: 0 <= i < j < |steps| && steps[i].Refresh? && steps[j].Refresh? ==> seen[i].at <= seen[j].at)
  }

  /** The step that made the n-th activation. */
  lemma {:induction false} ActivationStep(steps: seq<Step>, n: nat) returns (i: nat)
    requires n < |Activations(steps)|
    ensures i < |steps| && steps[i].Refresh? && steps[i].epoch == Activations(steps)[n] && |Activations(steps[..i])| == n
  {
    var init := steps[..|steps| - 1];
    if n < |Activations(init)| {
      i := ActivationStep(init, n);
      assert init[..i] == steps[..i];
    } else {
      i := |steps| - 1;
    }
  }

  lemma ActivationsInOrder(steps: seq<Step>, i: nat, j: nat)
    requires i < |steps| && j < |steps| && steps[i].Refresh? && |Activations(steps[..i])| < |Activations(steps[..j])|
    ensures i < j
  {
    if j <= i {
      assert steps[..i] == steps[..j] + steps[j..i];
      ActivationsJoined(steps[..j], steps[j..i]);
    }
  }

  lemma SameEpochBetween(h: History, sign: (string, A.Rows) -> nat, load: A.Rows -> Rows, steps: seq<Step>, seen: seq<Read>,
                         a: nat, b: nat, c: nat)
    requires L.Named(h.ops) && Signs(sign) && Loads(h, sign, load, steps, seen) && a < b < c < |steps|
    requires steps[a].Refresh? && steps[b].Refresh? && steps[c].Refresh? && steps[a].epoch == steps[c].epoch
    ensures steps[b].epoch == steps[c].epoch
  {
    SameSignatureSameRows(h, sign, seen[a], seen[b], seen[c]);
  }

  lemma ActivationSteps(steps: seq<Step>, n: nat, m: nat, k: nat) returns (a: nat, b: nat, c: nat)
    requires n < m < k < |Activations(steps)|
    ensures a < b < c < |steps| && steps[a].Refresh? && steps[b].Refresh? && steps[c].Refresh?
    ensures steps[a].epoch == Activations(steps)[n]
    ensures steps[b].epoch == Activations(steps)[m]
    ensures steps[c].epoch == Activations(steps)[k]
  {
    a := ActivationStep(steps, n);
    b := ActivationStep(steps, m);
    c := ActivationStep(steps, k);
    ActivationsInOrder(steps, a, b);
    ActivationsInOrder(steps, b, c);
  }

  /** The masters a worker reads from the database go one way. */
  lemma MastersGoOneWay(h: History, sign: (string, A.Rows) -> nat, load: A.Rows -> Rows, steps: seq<Step>, seen: seq<Read>)
    requires L.Named(h.ops) && Signs(sign) && Loads(h, sign, load, steps, seen)
    ensures OneWay(Activations(steps))
  {
    forall n, k | 0 <= n < k - 1 && k < |Activations(steps)| && Activations(steps)[n] == Activations(steps)[k]
      ensures Activations(steps)[k - 1] == Activations(steps)[k]
    {
      var a, b, c := ActivationSteps(steps, n, k - 1, k);
      SameEpochBetween(h, sign, load, steps, seen, a, b, c);
    }
  }

  /** The rows that an epoch of a run stands for. */
  ghost function Content(h: History, sign: (string, A.Rows) -> nat, load: A.Rows -> Rows, seen: seq<Read>, epoch: nat): Rows {
    if exists r :: r in seen && ReadsActive(h, r) && SignatureOf(h, sign, r) == epoch
    then
      var r :| r in seen && ReadsActive(h, r) && SignatureOf(h, sign, r) == epoch;
      load(Live(h, r))
    else []
  }

  /** One epoch always stands for the same rows. */
  lemma ContentIsLive(h: History, sign: (string, A.Rows) -> nat, load: A.Rows -> Rows, seen: seq<Read>, r: Read)
    requires L.Named(h.ops) && Signs(sign) && r in seen && ReadsActive(h, r)
    ensures Content(h, sign, load, seen, SignatureOf(h, sign, r)) == load(Live(h, r))
  {
    forall q | q in seen && ReadsActive(h, q) && SignatureOf(h, sign, q) == SignatureOf(h, sign, r) ensures Live(h, q) == Live(h, r) {
      if r.at <= q.at {
        SameSignatureSameRows(h, sign, r, r, q);
      } else {
        SameSignatureSameRows(h, sign, q, q, r);
      }
    }
  }

  lemma LoadedIsDescribed(h: History, sign: (string, A.Rows) -> nat, load: A.Rows -> Rows, seen: seq<Read>, r: Read)
    requires L.Named(h.ops) && Signs(sign) && Selects(load) && r in seen && ReadsActive(h, r)
    ensures Within(load(Loaded(h, r)), Content(h, sign, load, seen, SignatureOf(h, sign, r)))
  {
    ContentIsLive(h, sign, load, seen, r);
    L.LaterLiveRowsWereLive(h.env, h.rows, h.ops, r.at, r.rowsAt, r.version);
    assert L.Submap(Loaded(h, r), Live(h, r));
  }

  /** Over any history of the database: a lookup under the epoch of a refresh returns only what comes from
      the rows that were live when that refresh read its signature, or a fixed index token, under its own
      key, in every interleaving in which nothing left over from an invalid master is written before a
      synchronisation of the latest master reads the store. */
  lemma LookupSeesTheMasterRead(h: History, sign: (string, A.Rows) -> nat, load: A.Rows -> Rows, c: Config,
                                from: (Rows, S.Subscription) -> bool, steps: seq<Step>, seen: seq<Read>, key: S.Key, i: nat)
    requires L.Named(h.ops) && Signs(sign) && Selects(load) && Loads(h, sign, load, steps, seen)
    requires BuildsFrom(c.build, from) && Monotone(from) && i < |steps| && steps[i].Refresh?
    requires forall n {:trigger steps[..n]} :: 0 <= n < |steps| ==> NoLeftover(After(c, steps[..n]), steps[n])
    ensures var found := Found(After(c, steps), key, Some(steps[i].epoch));
            found.Some? ==> S.KeyOf(found.value) == key && from(load(Live(h, seen[i])), found.value)
  {
    var content := (e: nat) => Content(h, sign, load, seen, e);
    MastersGoOneWay(h, sign, load, steps, seen);
    forall n | 0 <= n < |steps| ensures Described(content, steps[n]) {
      if steps[n].Refresh? { LoadedIsDescribed(h, sign, load, seen, seen[n]); }
    }
    OneWayIsHonest(c, content, steps);
    LookupSeesOneEpoch(c, content, from, steps, key, steps[i].epoch);
    ContentIsLive(h, sign, load, seen, seen[i]);
  }
}
