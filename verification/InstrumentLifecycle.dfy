/**
 Whole runs of staging, activation and expiry over the instrument database
 (backend/internal/instrument/service/instrument_service.go:637-1041).
 */
module InstrumentLifecycle {
  import opened Wrappers
  import opened Instruments
  import opened InstrumentMaster
  import opened MasterActivation
  import Text

  /** `close` never reads the empty text as an expiry. */
  datatype Env = Env(formats: Formats, close: Calendar)

  /** A call made at a given time; `fault` means a database statement failed and rolled back. */
  datatype Op =
    | Stage(version: string, stream: Stream, opts: Options)
    | Activation(version: string, now: int, orm: Orm, fault: bool)
    | Expiry(asOf: int, fault: bool)

  function Apply(env: Env, db: Db, op: Op): Db {
    match op
    case Stage(version, stream, opts) =>
      (match StageStream(env.formats, env.close, db, version, stream, opts)
       case Success(next) => next
       case Failure(_) => db)
    case Activation(version, now, orm, fault) =>
      if fault then db else
        (match Activate(env.close, db, version, now, orm)
         case Success(next) => next
         case Failure(_) => db)
    case Expiry(asOf, fault) =>
      if fault then db else db.(rows := Expire(env.close, db.rows, asOf))
  }

  /** The database after the first `n` calls. */
  function After(env: Env, db: Db, ops: seq<Op>, n: nat): Db
    requires n <= |ops|
  {
    if n == 0 then db else Apply(env, After(env, db, ops, n - 1), ops[n - 1])
  }

  function Time(op: Op): Option<int> {
    match op
    case Stage(_, _, _) => None
    case Activation(_, now, _, _) => Some(now)
    case Expiry(asOf, _) => Some(asOf)
  }

  predicate NoEarlier(op: Op, t: int) {
    Time(op).Some? ==> Time(op).value >= t
  }

  predicate NonDecreasing(ops: seq<Op>) {
    forall i, j :: 0 <= i < j < |ops| && Time(ops[i]).Some? ==> NoEarlier(ops[j], Time(ops[i]).value)
  }

  predicate Named(ops: seq<Op>) {
    forall i :: 0 <= i < |ops| && ops[i].Stage? ==> ops[i].version != ""
  }

  // ---- soundness of every reachable database ----

  lemma StagedSnapshotIsWellStaged(env: Env, db: Db, version: string, stream: Stream, opts: Options)
    requires version != "" && StageStream(env.formats, env.close, db, version, stream, opts).Success?
    requires StageStream(env.formats, env.close, db, version, stream, opts).value.snapshots[version].status != Failed
    ensures WellStaged(version, StageStream(env.formats, env.close, db, version, stream, opts).value.snapshots[version])
  {
    var a := Accepted(Accept(env.formats, opts), Raws(stream.items));
    StagedIffClean(env.formats, env.close, db, version, stream, opts);
    var ms := Members(a, version);
    forall i | 0 <= i < |ms| ensures WellStagedMember(version, ms[i]) {
      assert Canonical(a[i].1);
    }
    assert forall i :: 0 <= i < |ms| ==> ms[i].Contract() == a[i].1.Contract();
  }

  lemma ApplyKeepsSnapshotsSound(env: Env, db: Db, op: Op)
    requires SoundSnapshots(db.snapshots) && (op.Stage? ==> op.version != "")
    ensures SoundSnapshots(Apply(env, db, op).snapshots)
  {
    match op {
      case Stage(version, stream, opts) =>
        var r := StageStream(env.formats, env.close, db, version, stream, opts);
        if r.Success? && r.value.snapshots[version].status != Failed {
          StagedSnapshotIsWellStaged(env, db, version, stream, opts);
        }
      case Activation(version, now, orm, fault) =>
        if !fault && Activate(env.close, db, version, now, orm).Success? {
          ActivationSwitches(env.close, db, version, now, orm);
        }
      case Expiry(_, _) =>
    }
  }

  lemma {:induction false} SnapshotsStaySound(env: Env, db: Db, ops: seq<Op>, n: nat)
    requires SoundSnapshots(db.snapshots) && Named(ops) && n <= |ops|
    ensures SoundSnapshots(After(env, db, ops, n).snapshots)
  {
    if n > 0 {
      SnapshotsStaySound(env, db, ops, n - 1);
      ApplyKeepsSnapshotsSound(env, After(env, db, ops, n - 1), ops[n - 1]);
    }
  }

  ghost predicate Serving(db: Db) {
    forall v :: v in db.snapshots && db.snapshots[v].status == Active ==>
      ServesMaster(db.rows, v, db.snapshots[v].members)
  }

  /** Between activations, every live row belongs to the one active master, and no index,
      999-token or foreign-segment row is tradable. */
  lemma ApplyKeepsServing(env: Env, db: Db, op: Op)
    requires SoundSnapshots(db.snapshots) && Serving(db) && (op.Stage? ==> op.version != "")
    ensures Serving(Apply(env, db, op))
  {
    match op {
      case Stage(version, stream, opts) =>
      case Activation(version, now, orm, fault) =>
        if !fault && Activate(env.close, db, version, now, orm).Success? {
          ActivationSwitches(env.close, db, version, now, orm);
          ActivationServesMaster(env.close, db, version, now, orm);
        }
      case Expiry(asOf, fault) =>
        var after := Apply(env, db, op);
        forall v | v in after.snapshots && after.snapshots[v].status == Active
          ensures ServesMaster(after.rows, v, after.snapshots[v].members)
        {
          assert ServesMaster(db.rows, v, db.snapshots[v].members);
        }
    }
  }

  lemma {:induction false} RunServesOneMaster(env: Env, rows: map<Key, Instrument>, ops: seq<Op>, n: nat)
    requires Named(ops) && n <= |ops|
    ensures var db := After(env, Db(rows, map[]), ops, n);
            SoundSnapshots(db.snapshots) && Serving(db)
  {
    SnapshotsStaySound(env, Db(rows, map[]), ops, n);
    if n > 0 {
      RunServesOneMaster(env, rows, ops, n - 1);
      ApplyKeepsServing(env, After(env, Db(rows, map[]), ops, n - 1), ops[n - 1]);
    }
  }

  // ---- a known derivative keeps its identity ----

  predicate KeepsIdentity(close: Calendar, before: map<Key, Instrument>, after: map<Key, Instrument>, k: Key) {
    k in before ==> k in after && (before[k].expiry != "" ==> SameDerivativeIdentity(close, before[k], after[k]))
  }

  lemma ActivationKeepsIdentity(close: Calendar, db: Db, version: string, now: int, orm: Orm, k: Key)
    requires SoundSnapshots(db.snapshots) && Activate(close, db, version, now, orm).Success? && k in db.rows
    ensures KeepsIdentity(close, db.rows, Activate(close, db, version, now, orm).value.rows, k)
  {
    var ms := db.snapshots[version].members;
    if HasMember(ms, k) {
      var i :| 0 <= i < |ms| && ms[i].Contract() == k;
      ActivatedMember(close, db, version, now, orm, i);
      LandedFlags(close, now, orm, ms[i]);
    } else {
      ActivatedNonMember(close, db, version, now, orm, k);
    }
  }

  lemma ApplyKeepsIdentity(env: Env, db: Db, op: Op, k: Key)
    requires SoundSnapshots(db.snapshots) && k in db.rows
    ensures KeepsIdentity(env.close, db.rows, Apply(env, db, op).rows, k)
  {
    IdentityIsEquivalence(env.close, db.rows[k], db.rows[k], db.rows[k]);
    if op.Activation? && !op.fault && Activate(env.close, db, op.version, op.now, op.orm).Success? {
      ActivationKeepsIdentity(env.close, db, op.version, op.now, op.orm, k);
    }
  }

  lemma KeepsIdentityAlong(close: Calendar, a: map<Key, Instrument>, b: map<Key, Instrument>, c: map<Key, Instrument>, k: Key)
    requires k in a && close("") == None && KeepsIdentity(close, a, b, k) && KeepsIdentity(close, b, c, k)
    ensures KeepsIdentity(close, a, c, k)
  {
    IdentityIsEquivalence(close, a[k], b[k], c[k]);
  }

  /** Rows are never dropped, and once a row carries an expiry its instrument type, expiry
      date and numeric strike are the same ever after. */
  lemma {:induction false} IdentityIsFrozen(env: Env, db: Db, ops: seq<Op>, i: nat, j: nat, k: Key)
    requires SoundSnapshots(db.snapshots) && Named(ops) && i <= j <= |ops| && env.close("") == None
    requires k in After(env, db, ops, i).rows
    ensures KeepsIdentity(env.close, After(env, db, ops, i).rows, After(env, db, ops, j).rows, k)
    decreases j
  {
    if i == j {
      var row := After(env, db, ops, i).rows[k];
      IdentityIsEquivalence(env.close, row, row, row);
    } else {
      IdentityIsFrozen(env, db, ops, i, j - 1, k);
      SnapshotsStaySound(env, db, ops, j - 1);
      var before := After(env, db, ops, j - 1);
      ApplyKeepsIdentity(env, before, ops[j - 1], k);
      KeepsIdentityAlong(env.close, After(env, db, ops, i).rows, before.rows, Apply(env, before, ops[j - 1]).rows, k);
    }
  }

  // ---- a closed contract never trades again ----

  /** The row closed at `t` and is not tradable. */
  predicate ClosedOut(env: Env, db: Db, k: Key, t: int) {
    && k in db.rows && !db.rows[k].isTradable
    && env.close(db.rows[k].expiry) == Some(t)
  }

  lemma ActivationClosesOut(env: Env, db: Db, version: string, now: int, orm: Orm, k: Key, t: int)
    requires SoundSnapshots(db.snapshots) && Activate(env.close, db, version, now, orm).Success?
    requires k in db.rows && env.close(db.rows[k].expiry) == Some(t) && now >= t && env.close("") == None
    ensures ClosedOut(env, Activate(env.close, db, version, now, orm).value, k, t)
  {
    var ms := db.snapshots[version].members;
    if HasMember(ms, k) {
      var i :| 0 <= i < |ms| && ms[i].Contract() == k;
      ActivatedMember(env.close, db, version, now, orm, i);
      LandedFlags(env.close, now, orm, ms[i]);
    } else {
      ActivatedNonMember(env.close, db, version, now, orm, k);
    }
  }

  ghost predicate TradesAgain(db: Db, version: string, orm: Orm, k: Key)
    requires version in db.snapshots
  {
    var ms := db.snapshots[version].members;
    exists i :: 0 <= i < |ms| && ms[i].Contract() == k && !Blocked(ms[i]) && (Supported(ms[i]) || k in orm.tradable)
  }

  /** An activation that read its clock before `t` and whose master trades the contract. */
  ghost predicate Reopens(env: Env, db: Db, op: Op, k: Key, t: int) {
    && op.Activation? && !op.fault && Activate(env.close, db, op.version, op.now, op.orm).Success? && op.now < t
    && TradesAgain(db, op.version, op.orm, k)
  }

  lemma MemberReopensIff(env: Env, db: Db, version: string, now: int, orm: Orm, i: nat, t: int)
    requires SoundSnapshots(db.snapshots) && Activate(env.close, db, version, now, orm).Success?
    requires i < |db.snapshots[version].members|
    requires ClosedOut(env, db, db.snapshots[version].members[i].Contract(), t) && now < t && env.close("") == None
    ensures var m := db.snapshots[version].members[i];
            !ClosedOut(env, Activate(env.close, db, version, now, orm).value, m.Contract(), t)
            <==> !Blocked(m) && (Supported(m) || m.Contract() in orm.tradable)
  {
    ActivatedMember(env.close, db, version, now, orm, i);
    LandedWhileOpen(env, db, now, orm, db.snapshots[version].members[i], t);
  }

  lemma LandedWhileOpen(env: Env, db: Db, now: int, orm: Orm, m: Instrument, t: int)
    requires ClosedOut(env, db, m.Contract(), t) && Admissible(env.close, db.rows, m) && now < t && env.close("") == None
    ensures var row := Landed(env.close, now, orm, m);
            && env.close(row.expiry) == Some(t)
            && (row.isTradable <==> !Blocked(m) && (Supported(m) || m.Contract() in orm.tradable))
  {
  }

  lemma ActivationReopensIff(env: Env, db: Db, version: string, now: int, orm: Orm, k: Key, t: int)
    requires SoundSnapshots(db.snapshots) && Activate(env.close, db, version, now, orm).Success?
    requires ClosedOut(env, db, k, t) && now < t && env.close("") == None
    ensures !ClosedOut(env, Activate(env.close, db, version, now, orm).value, k, t) <==> TradesAgain(db, version, orm, k)
  {
    var ms := db.snapshots[version].members;
    forall i | 0 <= i < |ms| && ms[i].Contract() == k
      ensures !ClosedOut(env, Activate(env.close, db, version, now, orm).value, k, t)
              <==> !Blocked(ms[i]) && (Supported(ms[i]) || k in orm.tradable)
    {
      MemberReopensIff(env, db, version, now, orm, i, t);
    }
    if !HasMember(ms, k) {
      ActivatedNonMember(env.close, db, version, now, orm, k);
    }
  }

  /** A closed contract becomes tradable in a call if and only if the call is an activation that read
      its clock before the close and whose master trades the contract. */
  lemma ReopensIff(env: Env, db: Db, op: Op, k: Key, t: int)
    requires SoundSnapshots(db.snapshots) && ClosedOut(env, db, k, t) && env.close("") == None
    ensures !ClosedOut(env, Apply(env, db, op), k, t) <==> Reopens(env, db, op, k, t)
  {
    if op.Activation? && !op.fault && Activate(env.close, db, op.version, op.now, op.orm).Success? {
      if op.now < t {
        ActivationReopensIff(env, db, op.version, op.now, op.orm, k, t);
      } else {
        ActivationClosesOut(env, db, op.version, op.now, op.orm, k, t);
      }
    }
  }

  lemma StepReopens(env: Env, db: Db, ops: seq<Op>, m: nat, k: Key, t: int)
    requires SoundSnapshots(db.snapshots) && Named(ops) && env.close("") == None && m < |ops|
    requires ClosedOut(env, After(env, db, ops, m), k, t) && !ClosedOut(env, After(env, db, ops, m + 1), k, t)
    ensures Reopens(env, After(env, db, ops, m), ops[m], k, t)
  {
    SnapshotsStaySound(env, db, ops, m);
    ReopensIff(env, After(env, db, ops, m), ops[m], k, t);
  }

  lemma {:induction false} ChangesSomewhere(holds: nat -> bool, i: nat, j: nat) returns (m: nat)
    requires i <= j && holds(i) && !holds(j)
    ensures i <= m < j && holds(m) && !holds(m + 1)
    decreases j
  {
    if holds(j - 1) { m := j - 1; } else { m := ChangesSomewhere(holds, i, j - 1); }
  }

  /** Whatever the clocks say, a contract that was closed and untradable and later is not was reopened
      by an activation in between that had read its clock before the close. */
  lemma TradableAgainOnlyIfReopened(env: Env, db: Db, ops: seq<Op>, i: nat, j: nat, k: Key, t: int) returns (m: nat)
    requires SoundSnapshots(db.snapshots) && Named(ops) && env.close("") == None && i <= j <= |ops|
    requires ClosedOut(env, After(env, db, ops, i), k, t) && !ClosedOut(env, After(env, db, ops, j), k, t)
    ensures i <= m < j && Reopens(env, After(env, db, ops, m), ops[m], k, t)
  {
    m := ChangesSomewhere((n: nat) => n <= |ops| && ClosedOut(env, After(env, db, ops, n), k, t), i, j);
    StepReopens(env, db, ops, m, k, t);
  }

  /** While clocks do not go back, a contract that was untradable after a call at or past its close is
      never tradable again. */
  lemma NeverTradableAgain(env: Env, db: Db, ops: seq<Op>, i: nat, j: nat, k: Key, t: int)
    requires SoundSnapshots(db.snapshots) && Named(ops) && NonDecreasing(ops) && env.close("") == None
    requires 0 < i <= j <= |ops| && Time(ops[i - 1]).Some? && Time(ops[i - 1]).value >= t
    requires ClosedOut(env, After(env, db, ops, i), k, t)
    ensures ClosedOut(env, After(env, db, ops, j), k, t)
  {
    assert forall m :: i <= m < j ==> NoEarlier(ops[m], Time(ops[i - 1]).value);
    if !ClosedOut(env, After(env, db, ops, j), k, t) {
      var m := TradableAgainOnlyIfReopened(env, db, ops, i, j, k, t);
    }
  }

  /** A call that carries out retirement: an activation that succeeds, or an expiry sweep. */
  predicate Retires(env: Env, db: Db, op: Op, k: Key) {
    match op
    case Stage(_, _, _) => false
    case Activation(version, now, orm, fault) => !fault && Activate(env.close, db, version, now, orm).Success?
    case Expiry(_, fault) => !fault && k in db.rows && db.rows[k].segment in {"NFO", "BFO"}
  }

  /** The first activation or sweep at or past its close retires a futures-and-options contract
      for good, even if it was tradable until then and whatever the object mapper does. */
  lemma RetiredAtCloseForEver(env: Env, db: Db, ops: seq<Op>, i: nat, j: nat, k: Key, t: int)
    requires SoundSnapshots(db.snapshots) && Named(ops) && NonDecreasing(ops) && env.close("") == None
    requires i < j <= |ops| && Time(ops[i]).Some? && Time(ops[i]).value >= t
    requires k in After(env, db, ops, i).rows && env.close(After(env, db, ops, i).rows[k].expiry) == Some(t)
    requires Retires(env, After(env, db, ops, i), ops[i], k)
    ensures ClosedOut(env, After(env, db, ops, j), k, t)
  {
    var here := After(env, db, ops, i);
    SnapshotsStaySound(env, db, ops, i);
    if ops[i].Activation? {
      ActivationClosesOut(env, here, ops[i].version, ops[i].now, ops[i].orm, k, t);
    } else {
      assert ops[i].Expiry?;
    }
    NeverTradableAgain(env, db, ops, i + 1, j, k, t);
  }

  // ---- a master that was replaced does not come back ----

  predicate IsActive(db: Db, v: string) { v in db.snapshots && db.snapshots[v].status == Active }

  predicate Spent(db: Db, v: string) { v in db.snapshots && db.snapshots[v].status in {Retired, Failed} }

  lemma ApplyKeepsSpent(env: Env, db: Db, op: Op, v: string)
    requires SoundSnapshots(db.snapshots) && (IsActive(db, v) || Spent(db, v))
    ensures var after := Apply(env, db, op);
            (IsActive(after, v) || Spent(after, v)) && (Spent(db, v) ==> Spent(after, v))
  {
  }

  lemma {:induction false} RetiredForEver(env: Env, db: Db, ops: seq<Op>, i: nat, j: nat, v: string)
    requires SoundSnapshots(db.snapshots) && Named(ops) && i <= j <= |ops|
    requires var here := After(env, db, ops, i); IsActive(here, v) || Spent(here, v)
    ensures var here, there := After(env, db, ops, i), After(env, db, ops, j);
            (IsActive(there, v) || Spent(there, v)) && (Spent(here, v) ==> Spent(there, v))
    decreases j
  {
    if i < j {
      RetiredForEver(env, db, ops, i, j - 1, v);
      SnapshotsStaySound(env, db, ops, j - 1);
      ApplyKeepsSpent(env, After(env, db, ops, j - 1), ops[j - 1], v);
    }
  }

  /** The rows of a version that a market worker loads. */
  function LiveRows(rows: Rows, v: string): Rows {
    map k | k in rows && rows[k].active && (rows[k].isTradable || rows[k].instrumentType in {"INDEX", "AMXIDX"})
            && rows[k].snapshotVersion == v :: rows[k]
  }

  predicate Submap(a: Rows, b: Rows) {
    forall k :: k in a ==> k in b && a[k] == b[k]
  }

  /** While a version stays active, its live rows only become fewer. */
  lemma ApplyShrinksLiveRows(env: Env, db: Db, op: Op, v: string)
    requires SoundSnapshots(db.snapshots) && IsActive(db, v) && IsActive(Apply(env, db, op), v)
    ensures Submap(LiveRows(Apply(env, db, op).rows, v), LiveRows(db.rows, v))
  {
    if op.Activation? && !op.fault && Activate(env.close, db, op.version, op.now, op.orm).Success? {
      ActivationSwitches(env.close, db, op.version, op.now, op.orm);
    }
  }

  lemma ActiveStepShrinks(env: Env, db: Db, ops: seq<Op>, n: nat, v: string)
    requires SoundSnapshots(db.snapshots) && Named(ops) && n < |ops|
    requires IsActive(After(env, db, ops, n), v) || Spent(After(env, db, ops, n), v)
    requires IsActive(After(env, db, ops, n + 1), v)
    ensures IsActive(After(env, db, ops, n), v)
    ensures Submap(LiveRows(After(env, db, ops, n + 1).rows, v), LiveRows(After(env, db, ops, n).rows, v))
  {
    SnapshotsStaySound(env, db, ops, n);
    ApplyKeepsSpent(env, After(env, db, ops, n), ops[n], v);
    ApplyShrinksLiveRows(env, After(env, db, ops, n), ops[n], v);
  }

  lemma {:induction false} LiveRowsShrink(env: Env, db: Db, ops: seq<Op>, i: nat, j: nat, v: string)
    requires SoundSnapshots(db.snapshots) && Named(ops) && i <= j <= |ops|
    requires IsActive(After(env, db, ops, i), v) && IsActive(After(env, db, ops, j), v)
    ensures Submap(LiveRows(After(env, db, ops, j).rows, v), LiveRows(After(env, db, ops, i).rows, v))
    decreases j
  {
    if i < j {
      RetiredForEver(env, db, ops, i, j - 1, v);
      ActiveStepShrinks(env, db, ops, j - 1, v);
      LiveRowsShrink(env, db, ops, i, j - 1, v);
    }
  }

  lemma EqualSubmap(a: Rows, b: Rows)
    requires Submap(a, b) && |a| == |b|
    ensures a == b
  {
    assert a.Keys <= b.Keys && |a.Keys| == |b.Keys|;
    SubsetOfSameSize(a.Keys, b.Keys);
  }

  lemma EqualBetween(a: Rows, b: Rows, c: Rows)
    requires Submap(c, b) && Submap(b, a) && |a| == |c|
    ensures a == b == c
  {
    EqualSubmap(c, a);
    assert b.Keys == a.Keys;
  }

  lemma SubsetOfSameSize(a: set<Key>, b: set<Key>)
    requires a <= b && |a| == |b|
    ensures a == b
  {
    assert b == a + (b - a);
  }

  /** A version and its number of live rows, as a market worker reads them, do not come back over
      another: if they are the same at two moments the version was active with the very same live rows
      at every moment in between. */
  lemma EpochNeverReturns(env: Env, db: Db, ops: seq<Op>, i: nat, j: nat, k: nat, v: string)
    requires SoundSnapshots(db.snapshots) && Named(ops) && i <= j <= k <= |ops|
    requires IsActive(After(env, db, ops, i), v) && IsActive(After(env, db, ops, k), v)
    requires |LiveRows(After(env, db, ops, i).rows, v)| == |LiveRows(After(env, db, ops, k).rows, v)|
    ensures IsActive(After(env, db, ops, j), v)
    ensures LiveRows(After(env, db, ops, j).rows, v) == LiveRows(After(env, db, ops, i).rows, v) == LiveRows(After(env, db, ops, k).rows, v)
  {
    RetiredForEver(env, db, ops, i, j, v);
    RetiredForEver(env, db, ops, j, k, v);
    LiveRowsShrink(env, db, ops, i, j, v);
    LiveRowsShrink(env, db, ops, j, k, v);
    EqualBetween(LiveRows(After(env, db, ops, i).rows, v), LiveRows(After(env, db, ops, j).rows, v),
                 LiveRows(After(env, db, ops, k).rows, v));
  }

  ghost predicate AnyActive(db: Db) {
    exists v :: IsActive(db, v)
  }

  lemma ApplyKeepsAnyActive(env: Env, db: Db, op: Op)
    requires SoundSnapshots(db.snapshots) && AnyActive(db)
    ensures AnyActive(Apply(env, db, op))
  {
    var v :| IsActive(db, v);
    if op.Activation? && !op.fault && Activate(env.close, db, op.version, op.now, op.orm).Success? {
      assert IsActive(Apply(env, db, op), op.version);
    } else {
      assert IsActive(Apply(env, db, op), v);
    }
  }

  lemma {:induction false} AnyActivePersists(env: Env, db: Db, ops: seq<Op>, i: nat, j: nat)
    requires SoundSnapshots(db.snapshots) && Named(ops) && i <= j <= |ops| && AnyActive(After(env, db, ops, i))
    ensures AnyActive(After(env, db, ops, j))
    decreases j
  {
    if i < j {
      AnyActivePersists(env, db, ops, i, j - 1);
      SnapshotsStaySound(env, db, ops, j - 1);
      ApplyKeepsAnyActive(env, After(env, db, ops, j - 1), ops[j - 1]);
    }
  }

  lemma ReplacedHasNoLiveRows(db: Db, v: string)
    requires Serving(db) && AnyActive(db) && !IsActive(db, v)
    ensures LiveRows(db.rows, v) == map[]
  {
    var w :| IsActive(db, w);
    assert ServesMaster(db.rows, w, db.snapshots[w].members);
  }

  /** The live rows of a version, read at any moment after it was active, were live then. */
  lemma LaterLiveRowsWereLive(env: Env, rows: Rows, ops: seq<Op>, i: nat, j: nat, v: string)
    requires Named(ops) && i <= j <= |ops| && IsActive(After(env, Db(rows, map[]), ops, i), v)
    ensures Submap(LiveRows(After(env, Db(rows, map[]), ops, j).rows, v), LiveRows(After(env, Db(rows, map[]), ops, i).rows, v))
  {
    var db := Db(rows, map[]);
    if IsActive(After(env, db, ops, j), v) {
      LiveRowsShrink(env, db, ops, i, j, v);
    } else {
      AnyActivePersists(env, db, ops, i, j);
      RunServesOneMaster(env, rows, ops, j);
      ReplacedHasNoLiveRows(After(env, db, ops, j), v);
    }
  }

  // ---- from a provider's record to a row ----

  function OneRecord(raw: Raw): Stream { Stream(true, [Decoded(raw)], true, false) }

  predicate StagedAs(db: Db, version: string, m: Instrument) {
    && SoundSnapshots(db.snapshots) && version in db.snapshots
    && var s := db.snapshots[version]; s.status == Staged && s.errors == [] && !s.partial && s.members == [m]
  }

  lemma OneIsStaged(env: Env, db: Db, raw: Raw, inst: Instrument, version: string)
    requires ParseScrip(env.formats, raw) == Some(inst) && ValidDerivative(env.close, raw, inst)
    requires SoundSnapshots(db.snapshots) && version != "" && version !in db.snapshots
    ensures var after := Apply(env, db, Stage(version, OneRecord(raw), Options(None, None)));
            StagedAs(after, version, Stamped(inst, version)) && after.rows == db.rows
            && after.snapshots.Keys == db.snapshots.Keys + {version}
  {
    var opts := Options(None, None);
    var accept := Accept(env.formats, opts);
    var a := Accepted(accept, [raw]);
    assert Accepted(accept, [raw][..0]) == [];
    assert a == [(raw, inst)];
    assert Raws(OneRecord(raw).items) == [raw];
    StagedIffClean(env.formats, env.close, db, version, OneRecord(raw), opts);
    ApplyKeepsSnapshotsSound(env, db, Stage(version, OneRecord(raw), opts));
    assert Members(a, version) == [Stamped(inst, version)];
  }

  lemma OneActivates(env: Env, db: Db, m: Instrument, version: string, now: int, orm: Orm)
    requires StagedAs(db, version, m) && |db.rows| <= 20 && Admissible(env.close, db.rows, m)
    ensures Activate(env.close, db, version, now, orm).Success?
  {
    PrepareOutcome(env.close, now, db.rows, [m]);
    FewTradable(db.rows);
    assert Review(db, version) == None;
  }

  lemma OneLands(env: Env, db: Db, m: Instrument, version: string, now: int, orm: Orm)
    requires StagedAs(db, version, m) && Activate(env.close, db, version, now, orm).Success?
    ensures var after := Activate(env.close, db, version, now, orm).value;
            m.Contract() in after.rows && after.rows[m.Contract()] == Landed(env.close, now, orm, m)
  {
    assert db.snapshots[version].members[0] == m;
    ActivatedMember(env.close, db, version, now, orm, 0);
  }

  lemma OnlyMember(m: Instrument, k: Key)
    requires HasMember([m], k)
    ensures k == m.Contract()
  {
  }

  lemma OneAddsOne(env: Env, db: Db, m: Instrument, version: string, now: int, orm: Orm)
    requires StagedAs(db, version, m) && Activate(env.close, db, version, now, orm).Success?
    ensures var after := Activate(env.close, db, version, now, orm).value;
            forall k :: k in after.rows <==> k in db.rows || k == m.Contract()
  {
    var after := Activate(env.close, db, version, now, orm).value;
    OneLands(env, db, m, version, now, orm);
    ActivationServesMaster(env.close, db, version, now, orm);
    forall k | k in after.rows ensures k in db.rows || k == m.Contract() {
      if k !in db.rows { OnlyMember(m, k); }
    }
  }

  lemma OneIsActivated(env: Env, db: Db, m: Instrument, version: string, now: int, orm: Orm)
    requires StagedAs(db, version, m) && |db.rows| <= 20 && Admissible(env.close, db.rows, m)
    ensures var after := Apply(env, db, Activation(version, now, orm, false));
            && SoundSnapshots(after.snapshots) && after.snapshots.Keys == db.snapshots.Keys
            && m.Contract() in after.rows && after.rows[m.Contract()] == Landed(env.close, now, orm, m)
            && (forall k :: k in after.rows <==> k in db.rows || k == m.Contract())
  {
    OneActivates(env, db, m, version, now, orm);
    OneLands(env, db, m, version, now, orm);
    OneAddsOne(env, db, m, version, now, orm);
    ActivationSwitches(env.close, db, version, now, orm);
  }

  lemma FewTradable(rows: Rows)
    ensures |TradableKeys(rows)| <= |rows|
  {
    SubsetSize(TradableKeys(rows), rows.Keys);
  }

  lemma SubsetSize(a: set<Key>, b: set<Key>)
    requires a <= b
    ensures |a| <= |b|
  {
    assert b == a + (b - a);
  }

  lemma AfterTwo(env: Env, db: Db, ops: seq<Op>)
    requires |ops| >= 2
    ensures After(env, db, ops, 2) == Apply(env, Apply(env, db, ops[0]), ops[1])
  {
    assert After(env, db, ops, 1) == Apply(env, db, ops[0]);
  }

  lemma AfterThree(env: Env, db: Db, ops: seq<Op>)
    requires |ops| >= 3
    ensures After(env, db, ops, 3) == Apply(env, Apply(env, Apply(env, db, ops[0]), ops[1]), ops[2])
  {
    AfterTwo(env, db, ops);
  }

  lemma AfterFive(env: Env, db: Db, ops: seq<Op>)
    requires |ops| == 5
    ensures After(env, db, ops, 5) == Apply(env, Apply(env, After(env, db, ops, 3), ops[3]), ops[4])
  {
    assert After(env, db, ops, 4) == Apply(env, After(env, db, ops, 3), ops[3]);
  }

  // ---- a bond from the provider's stream to a tradable row ----

  /** A provider record of a government bond listed on NSE. */
  predicate BondRecord(raw: Raw) {
    var symbol, name := Text.Normal(raw.symbol), Text.Trim(raw.name);
    && Text.Normal(raw.segment) == "NSE" && Text.Normal(raw.instrumentType) == "GS" && Text.Trim(raw.expiry) == ""
    && Text.Trim(raw.token) != "" && !Text.HasPrefix(Text.Trim(raw.token), "999")
    && symbol != "" && !Text.HasSuffix(symbol, "-EQ") && !IsIndexUnderlying(if name == "" then symbol else Text.Upper(name))
  }

  lemma BondParses(f: Formats, raw: Raw)
    requires BondRecord(raw)
    ensures ParseScrip(f, raw).Some?
    ensures var bond := ParseScrip(f, raw).value;
            && bond.Contract() == Key(Text.Normal(raw.symbol), "NSE") && bond.segment == "NSE" && bond.instrumentType == "GS"
            && bond.expiry == "" && !Text.HasPrefix(bond.token, "999")
  {
  }

  function BondRun(raw: Raw, version: string, now: int, orm: Orm): seq<Op> {
    [Stage(version, OneRecord(raw), Options(None, None)), Activation(version, now, orm, false)]
  }

  /** From an empty database: staging and activating a master of one bond record succeeds, and leaves a
      tradable row that the trading policy does not support if and only if its flag took the default. */
  lemma BondRunBecomesTradable(env: Env, raw: Raw, version: string, now: int, orm: Orm)
    requires BondRecord(raw) && version != ""
    ensures var k, db := Key(Text.Normal(raw.symbol), "NSE"), After(env, Db(map[], map[]), BondRun(raw, version, now, orm), 2);
            k in db.rows && !Supported(db.rows[k]) && (db.rows[k].isTradable <==> k in orm.tradable)
  {
    var empty := Db(map[], map[]);
    BondParses(env.formats, raw);
    var bond := ParseScrip(env.formats, raw).value;
    OneIsStaged(env, empty, raw, bond, version);
    var staged := Apply(env, empty, Stage(version, OneRecord(raw), Options(None, None)));
    OneIsActivated(env, staged, Stamped(bond, version), version, now, orm);
    BondIsNeitherSupportedNorBlocked(Stamped(bond, version));
    BondIsNeitherSupportedNorBlocked(Landed(env.close, now, orm, Stamped(bond, version)));
    AfterTwo(env, empty, BondRun(raw, version, now, orm));
  }

  const GOLD_BOND := Raw("754", "G", "", "", "", 1, "GS", "NSE", "")

  /** One such record. */
  lemma GoldBondBecomesTradable(env: Env, now: int)
    ensures var k := Key("G", "NSE");
            var db := After(env, Db(map[], map[]), BondRun(GOLD_BOND, "1", now, Orm({}, {k})), 2);
            k in db.rows && db.rows[k].isTradable && !Supported(db.rows[k])
  {
    SolidKind("NSE");
    SolidKind("GS");
    SolidKind("G");
    Text.TrimSolid("754");
    assert BondRecord(GOLD_BOND);
    BondRunBecomesTradable(env, GOLD_BOND, "1", now, Orm({}, {Key("G", "NSE")}));
  }

  // ---- a closed contract that an activation with an early clock reopens ----

  /** A provider record of a listed future or option that closes at `t`. */
  predicate ClosesAt(env: Env, raw: Raw, inst: Instrument, t: int) {
    && ParseScrip(env.formats, raw) == Some(inst) && raw.lotSize > 0
    && inst.segment == "NFO" && inst.instrumentType in {"OPTIDX", "OPTSTK", "FUTIDX", "FUTSTK"}
    && !Text.HasPrefix(inst.token, "999") && inst.expiry != "" && env.close(inst.expiry) == Some(t)
  }

  /** The master is activated before the close, a sweep retires the contract at its close, and the next
      master is activated by a call that had read its clock before. */
  function EarlyClockRun(raw: Raw, t: int, v: string, w: string, early: int, late: int, orm: Orm): seq<Op> {
    [Stage(v, OneRecord(raw), Options(None, None)), Activation(v, early, orm, false), Expiry(late, false),
     Stage(w, OneRecord(raw), Options(None, None)), Activation(w, early, orm, false)]
  }

  lemma ListedLandsTradable(env: Env, now: int, orm: Orm, raw: Raw, inst: Instrument, version: string, t: int)
    requires ClosesAt(env, raw, inst, t) && now < t
    ensures var row := Landed(env.close, now, orm, Stamped(inst, version)); row.isTradable && row.active
  {
    var m := Stamped(inst, version);
    ListedIsSupported(m);
    ListedIsBlockedByToken(m);
  }

  lemma FirstIsActivated(env: Env, db: Db, m: Instrument, v: string, early: int, orm: Orm)
    requires StagedAs(db, v, m) && db.rows == map[] && db.snapshots.Keys == {v} && Admissible(env.close, db.rows, m)
    ensures var after := Apply(env, db, Activation(v, early, orm, false));
            && SoundSnapshots(after.snapshots) && after.snapshots.Keys == {v}
            && after.rows == map[m.Contract() := Landed(env.close, early, orm, m)]
  {
    OneIsActivated(env, db, m, v, early, orm);
  }

  lemma FirstMasterServes(env: Env, raw: Raw, inst: Instrument, t: int, v: string, early: int, orm: Orm)
    requires ClosesAt(env, raw, inst, t) && v != ""
    ensures var db := Apply(env, Apply(env, Db(map[], map[]), Stage(v, OneRecord(raw), Options(None, None))),
                            Activation(v, early, orm, false));
            && SoundSnapshots(db.snapshots) && db.snapshots.Keys == {v}
            && db.rows == map[inst.Contract() := Landed(env.close, early, orm, Stamped(inst, v))]
  {
    var empty := Db(map[], map[]);
    OneIsStaged(env, empty, raw, inst, v);
    FirstIsActivated(env, Apply(env, empty, Stage(v, OneRecord(raw), Options(None, None))), Stamped(inst, v), v, early, orm);
  }

  lemma SweepCloses(env: Env, db: Db, row: Instrument, k: Key, t: int, late: int)
    requires db.rows == map[k := row] && row.isTradable && row.segment == "NFO" && row.expiry != ""
    requires env.close(row.expiry) == Some(t) && t <= late
    ensures var after := Apply(env, db, Expiry(late, false));
            after.snapshots == db.snapshots && ClosedOut(env, after, k, t) && after.rows == map[k := Withdrawn(row)]
  {
  }

  lemma FirstMasterCloses(env: Env, raw: Raw, inst: Instrument, t: int, v: string, early: int, late: int, orm: Orm)
    requires ClosesAt(env, raw, inst, t) && early < t <= late && v != ""
    ensures var k := inst.Contract();
            var db := Apply(env, Apply(env, Apply(env, Db(map[], map[]), Stage(v, OneRecord(raw), Options(None, None))),
                                       Activation(v, early, orm, false)), Expiry(late, false));
            && SoundSnapshots(db.snapshots) && db.snapshots.Keys == {v} && ClosedOut(env, db, k, t)
            && db.rows == map[k := Withdrawn(Landed(env.close, early, orm, Stamped(inst, v)))]
  {
    FirstMasterServes(env, raw, inst, t, v, early, orm);
    ListedLandsTradable(env, early, orm, raw, inst, v, t);
    var active := Apply(env, Apply(env, Db(map[], map[]), Stage(v, OneRecord(raw), Options(None, None))), Activation(v, early, orm, false));
    SweepCloses(env, active, Landed(env.close, early, orm, Stamped(inst, v)), inst.Contract(), t, late);
  }

  lemma SecondMasterReopens(env: Env, db: Db, raw: Raw, inst: Instrument, t: int, v: string, w: string, early: int, orm: Orm)
    requires ClosesAt(env, raw, inst, t) && early < t && w != "" && v != w
    requires SoundSnapshots(db.snapshots) && db.snapshots.Keys == {v}
    requires db.rows == map[inst.Contract() := Withdrawn(Landed(env.close, early, orm, Stamped(inst, v)))]
    ensures var after := Apply(env, Apply(env, db, Stage(w, OneRecord(raw), Options(None, None))), Activation(w, early, orm, false));
            inst.Contract() in after.rows && after.rows[inst.Contract()].isTradable
  {
    OneIsStaged(env, db, raw, inst, w);
    var staged := Apply(env, db, Stage(w, OneRecord(raw), Options(None, None)));
    SameRecordIsAdmissible(env, db.rows, raw, inst, t, early, orm, v, w);
    OneIsActivated(env, staged, Stamped(inst, w), w, early, orm);
    ListedLandsTradable(env, early, orm, raw, inst, w, t);
  }

  lemma SameRecordIsAdmissible(env: Env, rows: Rows, raw: Raw, inst: Instrument, t: int, early: int, orm: Orm, v: string, w: string)
    requires ClosesAt(env, raw, inst, t)
    requires rows == map[inst.Contract() := Withdrawn(Landed(env.close, early, orm, Stamped(inst, v)))]
    ensures Admissible(env.close, rows, Stamped(inst, w)) && |rows| == 1
  {
    IdentityIsEquivalence(env.close, inst, inst, inst);
  }

  /** From an empty database, two masters of one record: closed out by the sweep, tradable in the end. */
  lemma EarlyClockReopens(env: Env, raw: Raw, inst: Instrument, t: int, v: string, w: string, early: int, late: int, orm: Orm)
    requires ClosesAt(env, raw, inst, t) && early < t <= late && v != "" && w != "" && v != w
    ensures var ops, k := EarlyClockRun(raw, t, v, w, early, late, orm), inst.Contract();
            && ClosedOut(env, After(env, Db(map[], map[]), ops, 3), k, t)
            && var db := After(env, Db(map[], map[]), ops, 5); k in db.rows && db.rows[k].isTradable
  {
    var ops := EarlyClockRun(raw, t, v, w, early, late, orm);
    AfterThree(env, Db(map[], map[]), ops);
    AfterFive(env, Db(map[], map[]), ops);
    FirstMasterCloses(env, raw, inst, t, v, early, late, orm);
    SecondMasterReopens(env, After(env, Db(map[], map[]), ops, 3), raw, inst, t, v, w, early, orm);
  }

  const INDEX_FUTURE := Raw("54", "NF", "X", "28NOV2024", "", 75, "FUTIDX", "NFO", "")

  /** One such record. */
  lemma IndexFutureTradesAgain(env: Env, t: int, orm: Orm)
    requires env.close("28NOV2024") == Some(t)
    ensures var k, ops := Key("NF", "NFO"), EarlyClockRun(INDEX_FUTURE, t, "1", "2", t - 1, t, orm);
            && ClosedOut(env, After(env, Db(map[], map[]), ops, 3), k, t)
            && var db := After(env, Db(map[], map[]), ops, 5); k in db.rows && db.rows[k].isTradable
  {
    IndexFutureCloses(env, t);
    EarlyClockReopens(env, INDEX_FUTURE, ParseScrip(env.formats, INDEX_FUTURE).value, t, "1", "2", t - 1, t, orm);
  }

  /** How the importer reads the texts of such a record. */
  predicate FutureTexts(raw: Raw) {
    && Text.Trim(raw.token) == "54" && Text.Normal(raw.segment) == "NFO" && Text.Normal(raw.symbol) == "NF"
    && Text.Normal(raw.instrumentType) == "FUTIDX" && Text.Trim(raw.expiry) == "28NOV2024"
  }

  lemma FutureParses(f: Formats, raw: Raw)
    requires FutureTexts(raw)
    ensures ParseScrip(f, raw).Some?
    ensures var inst := ParseScrip(f, raw).value;
            && inst.symbol == "NF" && inst.segment == "NFO" && inst.token == "54" && inst.instrumentType == "FUTIDX"
            && inst.expiry == "28NOV2024"
  {
  }

  lemma KindOfFuture()
    ensures Text.Normal("FUTIDX") == "FUTIDX"
  {
    SolidKind("FUTIDX");
  }

  lemma SegmentOfFuture()
    ensures Text.Normal("NFO") == "NFO" && Text.Normal("NF") == "NF"
  {
    SolidKind("NFO");
    SolidKind("NF");
  }

  lemma TokenOfFuture()
    ensures Text.Trim("54") == "54" && Text.Trim("28NOV2024") == "28NOV2024"
  {
    Text.TrimSolid("54");
    Text.TrimSolid("28NOV2024");
  }

  lemma IndexFutureTexts()
    ensures FutureTexts(INDEX_FUTURE)
  {
    KindOfFuture();
    SegmentOfFuture();
    TokenOfFuture();
  }

  lemma IndexFutureCloses(env: Env, t: int)
    requires env.close("28NOV2024") == Some(t)
    ensures ParseScrip(env.formats, INDEX_FUTURE).Some?
    ensures var inst := ParseScrip(env.formats, INDEX_FUTURE).value;
            ClosesAt(env, INDEX_FUTURE, inst, t) && inst.Contract() == Key("NF", "NFO")
  {
    IndexFutureTexts();
    FutureParses(env.formats, INDEX_FUTURE);
  }
}
