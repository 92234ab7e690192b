/**
 Activating a staged master and retiring expired contracts
 (backend/internal/instrument/service/instrument_service.go:842-941, 1000-1041).
 */
module MasterActivation {
  import opened Wrappers
  import opened Instruments
  import opened InstrumentMaster
  import Text

  datatype ActivateError =
    | UnknownVersion | NotValidated | MembersUnavailable | Shrank | UnreadableExpiry | IdentityChanged | StoreFailed

  /** Columns whose declared default is true: an inserted false may be stored as true. The sets
      name the contracts for which the object mapper did so. */
  datatype Orm = Orm(active: set<Key>, tradable: set<Key>)

  type Rows = map<Key, Instrument>

  // ---- trading policy ----

  predicate IsDerivativeKind(kind: string) {
    Text.Contains(kind, "FUT") || Text.Contains(kind, "OPT")
  }

  predicate Supported(inst: Instrument) {
    var segment := if Text.Normal(inst.segment) == "" then Text.Normal(inst.exchange) else Text.Normal(inst.segment);
    var kind := Text.Normal(inst.instrumentType);
    && kind != "INDEX" && kind != "AMXIDX" && !Text.HasPrefix(inst.token, "999")
    && if IsDerivativeKind(kind) then segment == "NFO"
       else segment == "NSE" && (kind == "" || kind == "EQ" || kind == "EQUITY")
  }

  /** Rows that the closing policy statement of an activation makes untradable. */
  predicate Blocked(inst: Instrument) {
    || inst.instrumentType == "INDEX" || inst.instrumentType == "AMXIDX"
    || Text.HasPrefix(inst.token, "999")
    || (inst.segment != "NSE" && inst.segment != "NFO")
  }

  lemma SolidKind(kind: string)
    requires kind != "" && forall i :: 0 <= i < |kind| ==> 'A' <= kind[i] <= 'Z'
    ensures Text.Normal(kind) == kind
  {
    Text.TrimSolid(kind);
    Text.UpperIsFixed(kind);
  }

  lemma DerivativeKinds(kind: string)
    requires kind in {"OPTIDX", "OPTSTK", "FUTIDX", "FUTSTK"}
    ensures IsDerivativeKind(kind)
  {
    assert kind[0..][..3] == (if kind[0] == 'O' then "OPT" else "FUT");
  }

  lemma EquityIsNoDerivative(kind: string)
    requires kind == "EQUITY"
    ensures !IsDerivativeKind(kind)
  {
    assert forall i :: 0 <= i <= |kind| - 3 ==> kind[i..][..3][0] == kind[i];
  }

  /** The segments and kinds the importer lists as tradable. */
  predicate ListedKind(inst: Instrument) {
    || (inst.segment == "NSE" && inst.instrumentType == "EQUITY")
    || (inst.segment == "NFO" && inst.instrumentType in {"OPTIDX", "OPTSTK", "FUTIDX", "FUTSTK"})
  }

  lemma TradableIsListed(f: Formats, raw: Raw)
    requires ParseScrip(f, raw).Some? && ParseScrip(f, raw).value.isTradable
    ensures ListedKind(ParseScrip(f, raw).value)
  {
  }

  lemma EquityIsSupported(inst: Instrument)
    requires inst.segment == "NSE" && inst.instrumentType == "EQUITY"
    requires Text.Normal(inst.segment) == inst.segment && Text.Normal(inst.instrumentType) == inst.instrumentType
    ensures Supported(inst) <==> !Text.HasPrefix(inst.token, "999")
  {
    EquityIsNoDerivative(inst.instrumentType);
  }

  lemma DerivativeIsSupported(inst: Instrument)
    requires inst.segment == "NFO" && inst.instrumentType !in {"INDEX", "AMXIDX"} && IsDerivativeKind(inst.instrumentType)
    requires Text.Normal(inst.segment) == inst.segment && Text.Normal(inst.instrumentType) == inst.instrumentType
    ensures Supported(inst) <==> !Text.HasPrefix(inst.token, "999")
  {
  }

  lemma ListedIsSupported(inst: Instrument)
    requires ListedKind(inst)
    ensures Supported(inst) <==> !Text.HasPrefix(inst.token, "999")
  {
    SolidKind(inst.segment);
    SolidKind(inst.instrumentType);
    if inst.segment == "NSE" {
      EquityIsSupported(inst);
    } else {
      DerivativeKinds(inst.instrumentType);
      DerivativeIsSupported(inst);
    }
  }

  lemma ListedIsBlockedByToken(inst: Instrument)
    requires ListedKind(inst)
    ensures Blocked(inst) <==> Text.HasPrefix(inst.token, "999")
  {
  }

  /** What the importer lists as tradable the trading policy supports and no statement blocks,
      but for the tokens that begin with 999. */
  lemma ImporterAgreesWithPolicy(f: Formats, raw: Raw, inst: Instrument)
    requires ParseScrip(f, raw) == Some(inst) && inst.isTradable
    ensures Supported(inst) <==> !Text.HasPrefix(inst.token, "999")
    ensures Blocked(inst) <==> Text.HasPrefix(inst.token, "999")
  {
    TradableIsListed(f, raw);
    ListedIsSupported(inst);
    ListedIsBlockedByToken(inst);
  }

  predicate Expired(close: Calendar, now: int, inst: Instrument) {
    inst.expiry != "" && close(inst.expiry).Some? && now >= close(inst.expiry).value
  }

  function Withdrawn(inst: Instrument): Instrument {
    inst.(active := false, isTradable := false)
  }

  // ---- the statements of an activation, in order ----

  predicate Conflicts(close: Calendar, prior: Rows, m: Instrument) {
    var k := m.Contract();
    k in prior && prior[k].expiry != "" && !SameDerivativeIdentity(close, prior[k], m)
  }

  function PrepareOne(close: Calendar, now: int, prior: Rows, m: Instrument): Result<Instrument, ActivateError> {
    if m.expiry != "" && close(m.expiry).None? then Failure(UnreadableExpiry)
    else if Conflicts(close, prior, m) then Failure(IdentityChanged)
    else Success(Flagged(close, now, m))
  }

  function Flagged(close: Calendar, now: int, m: Instrument): Instrument {
    if Expired(close, now, m) then Withdrawn(m) else m.(active := true, isTradable := Supported(m))
  }

  function FlagAll(close: Calendar, now: int, ms: seq<Instrument>): (r: seq<Instrument>)
    ensures |r| == |ms|
    ensures forall i :: 0 <= i < |ms| ==> r[i] == Flagged(close, now, ms[i])
  {
    if ms == [] then [] else FlagAll(close, now, ms[..|ms| - 1]) + [Flagged(close, now, ms[|ms| - 1])]
  }

  function Prepare(close: Calendar, now: int, prior: Rows, ms: seq<Instrument>): (r: Result<seq<Instrument>, ActivateError>)
    ensures r.Success? ==> |r.value| == |ms|
  {
    if ms == [] then Success([])
    else
      match Prepare(close, now, prior, ms[..|ms| - 1])
      case Failure(e) => Failure(e)
      case Success(done) =>
        match PrepareOne(close, now, prior, ms[|ms| - 1])
        case Failure(e) => Failure(e)
        case Success(m) => Success(done + [m])
  }

  function RetireAll(rows: Rows): Rows {
    map k | k in rows :: Withdrawn(rows[k])
  }

  function Stored(orm: Orm, m: Instrument): Instrument {
    m.(active := m.active || m.Contract() in orm.active, isTradable := m.isTradable || m.Contract() in orm.tradable)
  }

  function Upsert(rows: Rows, orm: Orm, ms: seq<Instrument>): Rows {
    if ms == [] then rows
    else
      var last := ms[|ms| - 1];
      Upsert(rows, orm, ms[..|ms| - 1])[last.Contract() := Stored(orm, last)]
  }

  function RetireOne(close: Calendar, now: int, rows: Rows, m: Instrument): Rows {
    if Expired(close, now, m) && m.Contract() in rows
    then rows[m.Contract() := Withdrawn(rows[m.Contract()])]
    else rows
  }

  function RetireExpired(close: Calendar, now: int, rows: Rows, ms: seq<Instrument>): Rows {
    if ms == [] then rows
    else RetireOne(close, now, RetireExpired(close, now, rows, ms[..|ms| - 1]), ms[|ms| - 1])
  }

  function Enforced(inst: Instrument): Instrument {
    if Blocked(inst) then inst.(isTradable := false) else inst
  }

  function EnforcePolicy(rows: Rows): Rows {
    map k | k in rows :: Enforced(rows[k])
  }

  function SwitchTo(snapshots: map<string, Snapshot>, version: string, now: int): map<string, Snapshot> {
    map v | v in snapshots ::
      if v == version then snapshots[v].(status := Active, activatedAt := Some(now))
      else if snapshots[v].status == Active then snapshots[v].(status := Retired)
      else snapshots[v]
  }

  function TradableKeys(rows: Rows): set<Key> {
    set k | k in rows && rows[k].active && rows[k].isTradable
  }

  /** More than a fifth of an established master missing needs an operator. */
  predicate ShrankTooMuch(rows: Rows, count: nat) {
    |TradableKeys(rows)| > 20 && count * 100 < |TradableKeys(rows)| * 80
  }

  function ActivatedRows(close: Calendar, rows: Rows, now: int, orm: Orm, prepared: seq<Instrument>): Rows {
    EnforcePolicy(RetireExpired(close, now, Upsert(RetireAll(rows), orm, prepared), prepared))
  }

  /** What stands in the way of activating a version before its members are looked at. */
  function Review(db: Db, version: string): Option<ActivateError> {
    if version !in db.snapshots then Some(UnknownVersion)
    else
      var s := db.snapshots[version];
      if s.status != Staged || s.errors != [] || s.partial then Some(NotValidated)
      else if s.members == [] then Some(MembersUnavailable)
      else if ShrankTooMuch(db.rows, |s.members|) then Some(Shrank)
      else None
  }

  function Activate(close: Calendar, db: Db, version: string, now: int, orm: Orm): Result<Db, ActivateError> {
    match Review(db, version)
    case Some(e) => Failure(e)
    case None =>
      match Prepare(close, now, db.rows, db.snapshots[version].members)
      case Failure(e) => Failure(e)
      case Success(prepared) =>
        Success(Db(ActivatedRows(close, db.rows, now, orm, prepared), SwitchTo(db.snapshots, version, now)))
  }

  // ---- expiry ----

  /** Only futures-and-options rows still tradable are swept. */
  predicate Sweepable(close: Calendar, asOf: int, inst: Instrument) {
    && inst.isTradable && inst.expiry != "" && (inst.segment == "NFO" || inst.segment == "BFO")
    && close(inst.expiry).Some? && asOf >= close(inst.expiry).value
  }

  function Expire(close: Calendar, rows: Rows, asOf: int): Rows {
    map k | k in rows :: if Sweepable(close, asOf, rows[k]) then Withdrawn(rows[k]) else rows[k]
  }

  // ---- what an activation leaves behind ----

  predicate DistinctContracts(ms: seq<Instrument>) {
    forall i, j :: 0 <= i < j < |ms| ==> ms[i].Contract() != ms[j].Contract()
  }

  ghost predicate HasMember(ms: seq<Instrument>, k: Key) {
    exists i :: 0 <= i < |ms| && ms[i].Contract() == k
  }

  /** No unreadable expiry, and no change of a known derivative's identity. */
  predicate Admissible(close: Calendar, prior: Rows, m: Instrument) {
    (m.expiry != "" ==> close(m.expiry).Some?) && !Conflicts(close, prior, m)
  }

  predicate Activatable(close: Calendar, prior: Rows, ms: seq<Instrument>) {
    forall i :: 0 <= i < |ms| ==> Admissible(close, prior, ms[i])
  }

  /** The row a member ends up as: its own contract data, live until its close, tradable when
      the trading policy supports it or the mapper turned its flag and no policy blocks it. */
  function Landed(close: Calendar, now: int, orm: Orm, m: Instrument): Instrument {
    var live := !Expired(close, now, m);
    m.(active := live,
       isTradable := live && !Blocked(m) && (Supported(m) || m.Contract() in orm.tradable))
  }

  lemma PrepareOneOutcome(close: Calendar, now: int, prior: Rows, m: Instrument)
    ensures PrepareOne(close, now, prior, m).Success? <==> Admissible(close, prior, m)
    ensures PrepareOne(close, now, prior, m).Success? ==> PrepareOne(close, now, prior, m).value == Flagged(close, now, m)
  {
  }

  lemma {:induction false} PrepareOutcome(close: Calendar, now: int, prior: Rows, ms: seq<Instrument>)
    ensures Prepare(close, now, prior, ms).Success? <==> Activatable(close, prior, ms)
    ensures Prepare(close, now, prior, ms).Success? ==> Prepare(close, now, prior, ms).value == FlagAll(close, now, ms)
  {
    if ms != [] {
      var init, last := ms[..|ms| - 1], ms[|ms| - 1];
      PrepareOutcome(close, now, prior, init);
      PrepareOneOutcome(close, now, prior, last);
      ActivatableSnoc(close, prior, ms);
    }
  }

  lemma ActivatableSnoc(close: Calendar, prior: Rows, ms: seq<Instrument>)
    requires ms != []
    ensures Activatable(close, prior, ms) <==>
              Activatable(close, prior, ms[..|ms| - 1]) && Admissible(close, prior, ms[|ms| - 1])
  {
    assert forall i :: 0 <= i < |ms| - 1 ==> ms[..|ms| - 1][i] == ms[i];
  }

  lemma HasMemberSnoc(ms: seq<Instrument>, k: Key)
    requires ms != []
    ensures HasMember(ms, k) <==> HasMember(ms[..|ms| - 1], k) || k == ms[|ms| - 1].Contract()
  {
    if HasMember(ms[..|ms| - 1], k) {
      var i :| 0 <= i < |ms| - 1 && ms[..|ms| - 1][i].Contract() == k;
      assert ms[i].Contract() == k;
    }
  }

  lemma {:induction false} UpsertOutcome(rows: Rows, orm: Orm, ms: seq<Instrument>, k: Key)
    requires DistinctContracts(ms)
    ensures k in Upsert(rows, orm, ms) <==> k in rows || HasMember(ms, k)
    ensures k in rows && !HasMember(ms, k) ==> Upsert(rows, orm, ms)[k] == rows[k]
    ensures forall i :: 0 <= i < |ms| && ms[i].Contract() == k ==> Upsert(rows, orm, ms)[k] == Stored(orm, ms[i])
  {
    if ms != [] {
      var init := ms[..|ms| - 1];
      UpsertOutcome(rows, orm, init, k);
      HasMemberSnoc(ms, k);
      assert forall i :: 0 <= i < |init| ==> init[i] == ms[i];
    }
  }

  ghost predicate ExpiredMember(close: Calendar, now: int, ms: seq<Instrument>, k: Key) {
    exists i :: 0 <= i < |ms| && ms[i].Contract() == k && Expired(close, now, ms[i])
  }

  lemma ExpiredMemberSnoc(close: Calendar, now: int, ms: seq<Instrument>, k: Key)
    requires ms != []
    ensures var last := ms[|ms| - 1];
            ExpiredMember(close, now, ms, k) <==>
              ExpiredMember(close, now, ms[..|ms| - 1], k) || (last.Contract() == k && Expired(close, now, last))
  {
    if ExpiredMember(close, now, ms[..|ms| - 1], k) {
      var i :| 0 <= i < |ms| - 1 && ms[..|ms| - 1][i].Contract() == k && Expired(close, now, ms[..|ms| - 1][i]);
      assert ms[i].Contract() == k && Expired(close, now, ms[i]);
    }
  }

  lemma {:induction false} RetireExpiredOutcome(close: Calendar, now: int, rows: Rows, ms: seq<Instrument>, k: Key)
    ensures k in RetireExpired(close, now, rows, ms) <==> k in rows
    ensures k in rows ==>
              RetireExpired(close, now, rows, ms)[k] ==
              if ExpiredMember(close, now, ms, k) then Withdrawn(rows[k]) else rows[k]
  {
    if ms != [] {
      RetireExpiredOutcome(close, now, rows, ms[..|ms| - 1], k);
      ExpiredMemberSnoc(close, now, ms, k);
    }
  }

  lemma FlaggedKeepsData(close: Calendar, now: int, m: Instrument)
    ensures var f := Flagged(close, now, m);
            f.Contract() == m.Contract() && f.expiry == m.expiry && Expired(close, now, f) == Expired(close, now, m)
  {
  }

  lemma FlaggedAt(close: Calendar, now: int, ms: seq<Instrument>, i: nat)
    requires i < |ms|
    ensures FlagAll(close, now, ms)[i].Contract() == ms[i].Contract()
    ensures Expired(close, now, FlagAll(close, now, ms)[i]) == Expired(close, now, ms[i])
  {
    FlaggedKeepsData(close, now, ms[i]);
  }

  lemma FlaggedContracts(close: Calendar, now: int, ms: seq<Instrument>, k: Key)
    ensures HasMember(FlagAll(close, now, ms), k) <==> HasMember(ms, k)
  {
    var fs := FlagAll(close, now, ms);
    forall i | 0 <= i < |ms| ensures fs[i].Contract() == ms[i].Contract() {
      FlaggedAt(close, now, ms, i);
    }
    if HasMember(ms, k) {
      var i :| 0 <= i < |ms| && ms[i].Contract() == k;
      assert fs[i].Contract() == k;
    }
  }

  lemma FlaggedExpiries(close: Calendar, now: int, ms: seq<Instrument>, k: Key)
    ensures ExpiredMember(close, now, FlagAll(close, now, ms), k) <==> ExpiredMember(close, now, ms, k)
  {
    var fs := FlagAll(close, now, ms);
    if ExpiredMember(close, now, ms, k) {
      var i :| 0 <= i < |ms| && ms[i].Contract() == k && Expired(close, now, ms[i]);
      FlaggedAt(close, now, ms, i);
      assert fs[i].Contract() == k && Expired(close, now, fs[i]);
    }
    if ExpiredMember(close, now, fs, k) {
      var i :| 0 <= i < |fs| && fs[i].Contract() == k && Expired(close, now, fs[i]);
      FlaggedAt(close, now, ms, i);
      assert ms[i].Contract() == k && Expired(close, now, ms[i]);
    }
  }

  lemma FlaggedMembers(close: Calendar, now: int, ms: seq<Instrument>, k: Key)
    ensures HasMember(FlagAll(close, now, ms), k) <==> HasMember(ms, k)
    ensures ExpiredMember(close, now, FlagAll(close, now, ms), k) <==> ExpiredMember(close, now, ms, k)
  {
    FlaggedContracts(close, now, ms, k);
    FlaggedExpiries(close, now, ms, k);
  }

  lemma FlaggedDistinct(close: Calendar, now: int, ms: seq<Instrument>)
    requires DistinctContracts(ms)
    ensures DistinctContracts(FlagAll(close, now, ms))
  {
    var fs := FlagAll(close, now, ms);
    forall i | 0 <= i < |ms| ensures fs[i].Contract() == ms[i].Contract() {
      FlaggedKeepsData(close, now, ms[i]);
    }
  }

  lemma LandedAfterAllStatements(close: Calendar, now: int, orm: Orm, m: Instrument)
    ensures var stored := Stored(orm, Flagged(close, now, m));
            Enforced(if Expired(close, now, m) then Withdrawn(stored) else stored) == Landed(close, now, orm, m)
  {
  }

  lemma UniqueMemberExpiry(close: Calendar, now: int, ms: seq<Instrument>, i: nat)
    requires DistinctContracts(ms) && i < |ms|
    ensures HasMember(ms, ms[i].Contract())
    ensures ExpiredMember(close, now, ms, ms[i].Contract()) <==> Expired(close, now, ms[i])
  {
    if ExpiredMember(close, now, ms, ms[i].Contract()) {
      var j :| 0 <= j < |ms| && ms[j].Contract() == ms[i].Contract() && Expired(close, now, ms[j]);
      assert j == i;
    }
  }

  /** A member's row is exactly where it landed, whatever the mapper did to its flags. */
  lemma MemberOutcome(close: Calendar, rows: Rows, now: int, orm: Orm, ms: seq<Instrument>, i: nat)
    requires DistinctContracts(ms) && i < |ms|
    ensures var after, k := ActivatedRows(close, rows, now, orm, FlagAll(close, now, ms)), ms[i].Contract();
            k in after && after[k] == Landed(close, now, orm, ms[i])
  {
    var fs, k := FlagAll(close, now, ms), ms[i].Contract();
    FlaggedKeepsData(close, now, ms[i]);
    FlaggedDistinct(close, now, ms);
    FlaggedMembers(close, now, ms, k);
    UniqueMemberExpiry(close, now, ms, i);
    var stored := Upsert(RetireAll(rows), orm, fs);
    UpsertOutcome(RetireAll(rows), orm, fs, k);
    assert stored[k] == Stored(orm, fs[i]);
    RetireExpiredOutcome(close, now, stored, fs, k);
    LandedAfterAllStatements(close, now, orm, ms[i]);
  }

  /** Every other row is retired and otherwise untouched; no row appears from nowhere. */
  lemma NonMemberOutcome(close: Calendar, rows: Rows, now: int, orm: Orm, ms: seq<Instrument>, k: Key)
    requires DistinctContracts(ms) && !HasMember(ms, k)
    ensures var after := ActivatedRows(close, rows, now, orm, FlagAll(close, now, ms));
            (k in after <==> k in rows) && (k in rows ==> after[k] == Withdrawn(rows[k]))
  {
    var fs := FlagAll(close, now, ms);
    FlaggedDistinct(close, now, ms);
    FlaggedMembers(close, now, ms, k);
    UpsertOutcome(RetireAll(rows), orm, fs, k);
    RetireExpiredOutcome(close, now, Upsert(RetireAll(rows), orm, fs), fs, k);
  }

  // ---- stored snapshots ----

  predicate WellStagedMember(version: string, m: Instrument) {
    && m.snapshotVersion == version && m.lotSize > 0
    && m.symbol != "" && m.token != "" && m.segment in {"NSE", "NFO", "BSE"}
  }

  predicate WellStaged(version: string, s: Snapshot) {
    && version != "" && s.version == version
    && s.total == |s.members| > 0 && s.errors == []
    && DistinctContracts(s.members)
    && (forall i :: 0 <= i < |s.members| ==> WellStagedMember(version, s.members[i]))
    && (s.status == Active ==> s.activatedAt.Some? && !s.partial)
  }

  /** At most one master is active and every stored master that is not failed is well staged. */
  predicate SoundSnapshots(snapshots: map<string, Snapshot>) {
    && (forall v :: v in snapshots && snapshots[v].status != Failed ==> WellStaged(v, snapshots[v]))
    && (forall v, w :: v in snapshots && w in snapshots && snapshots[v].status == Active && snapshots[w].status == Active
          ==> v == w)
  }

  /** What an activation promises about rows: live rows are members of the version. */
  ghost predicate ServesMaster(rows: Rows, version: string, ms: seq<Instrument>) {
    forall k :: k in rows ==>
      && (rows[k].isTradable ==> rows[k].active && !Blocked(rows[k]))
      && (rows[k].active ==> HasMember(ms, k) && rows[k].snapshotVersion == version)
  }

  /** One member of a successful activation was admissible and its row is where it landed. */
  lemma ActivatedMember(close: Calendar, db: Db, version: string, now: int, orm: Orm, i: nat)
    requires SoundSnapshots(db.snapshots) && Activate(close, db, version, now, orm).Success?
    requires i < |db.snapshots[version].members|
    ensures var after, m := Activate(close, db, version, now, orm).value.rows, db.snapshots[version].members[i];
            && Admissible(close, db.rows, m) && WellStagedMember(version, m)
            && m.Contract() in after && after[m.Contract()] == Landed(close, now, orm, m)
  {
    var ms := db.snapshots[version].members;
    PrepareOutcome(close, now, db.rows, ms);
    assert WellStaged(version, db.snapshots[version]);
    MemberOutcome(close, db.rows, now, orm, ms, i);
  }

  /** A contract that is not a member is only retired. */
  lemma ActivatedNonMember(close: Calendar, db: Db, version: string, now: int, orm: Orm, k: Key)
    requires SoundSnapshots(db.snapshots) && Activate(close, db, version, now, orm).Success?
    requires !HasMember(db.snapshots[version].members, k)
    ensures var after := Activate(close, db, version, now, orm).value.rows;
            (k in after <==> k in db.rows) && (k in db.rows ==> after[k] == Withdrawn(db.rows[k]))
  {
    var ms := db.snapshots[version].members;
    PrepareOutcome(close, now, db.rows, ms);
    assert WellStaged(version, db.snapshots[version]);
    NonMemberOutcome(close, db.rows, now, orm, ms, k);
  }

  lemma LandedFlags(close: Calendar, now: int, orm: Orm, m: Instrument)
    ensures var row := Landed(close, now, orm, m);
            && row.active == !Expired(close, now, m)
            && (row.isTradable ==> row.active && !Blocked(row))
            && row.snapshotVersion == m.snapshotVersion
            && row.Contract() == m.Contract() && row.expiry == m.expiry && row.strike == m.strike
            && row.instrumentType == m.instrumentType
  {
  }

  /** The active rows are exactly the version's unexpired members; tradable implies active,
      and no index, 999-token or foreign-segment row is tradable, for every choice the object
      mapper makes. */
  lemma ActivationServesMaster(close: Calendar, db: Db, version: string, now: int, orm: Orm)
    requires SoundSnapshots(db.snapshots) && Activate(close, db, version, now, orm).Success?
    ensures var after, ms := Activate(close, db, version, now, orm).value, db.snapshots[version].members;
            && ServesMaster(after.rows, version, ms)
            && (forall i :: 0 <= i < |ms| ==>
                  && ms[i].Contract() in after.rows
                  && after.rows[ms[i].Contract()].active == !Expired(close, now, ms[i]))
            && (forall k :: k in db.rows ==> k in after.rows)
            && (forall k :: k in after.rows ==> k in db.rows || HasMember(ms, k))
  {
    var ms := db.snapshots[version].members;
    var after := Activate(close, db, version, now, orm).value;
    forall i | 0 <= i < |ms|
      ensures ms[i].Contract() in after.rows
      ensures after.rows[ms[i].Contract()].active == !Expired(close, now, ms[i])
    {
      ActivatedMember(close, db, version, now, orm, i);
      LandedFlags(close, now, orm, ms[i]);
    }
    forall k | k in after.rows
      ensures k in db.rows || HasMember(ms, k)
      ensures after.rows[k].isTradable ==> after.rows[k].active && !Blocked(after.rows[k])
      ensures after.rows[k].active ==> HasMember(ms, k) && after.rows[k].snapshotVersion == version
    {
      if HasMember(ms, k) {
        var i :| 0 <= i < |ms| && ms[i].Contract() == k;
        ActivatedMember(close, db, version, now, orm, i);
        LandedFlags(close, now, orm, ms[i]);
      } else {
        ActivatedNonMember(close, db, version, now, orm, k);
      }
    }
    forall k | k in db.rows ensures k in after.rows {
      if !HasMember(ms, k) { ActivatedNonMember(close, db, version, now, orm, k); }
    }
  }

  /** Exactly one snapshot is active afterwards, and the others change only by retiring. */
  lemma ActivationSwitches(close: Calendar, db: Db, version: string, now: int, orm: Orm)
    requires SoundSnapshots(db.snapshots) && Activate(close, db, version, now, orm).Success?
    ensures var after := Activate(close, db, version, now, orm).value.snapshots;
            && SoundSnapshots(after) && after.Keys == db.snapshots.Keys
            && (forall v :: v in after ==> (after[v].status == Active <==> v == version))
            && (forall v :: v in after ==> after[v].members == db.snapshots[v].members)
  {
    assert WellStaged(version, db.snapshots[version]);
  }

  /** A member whose stored flag the mapper could not turn against the trading policy. */
  predicate Agrees(close: Calendar, now: int, orm: Orm, m: Instrument) {
    || Expired(close, now, m)
    || (if Supported(m) then !Blocked(m) else Blocked(m) || m.Contract() !in orm.tradable)
  }

  predicate FollowsPolicy(close: Calendar, now: int, rows: Rows, m: Instrument) {
    && m.Contract() in rows
    && (rows[m.Contract()].isTradable <==> !Expired(close, now, m) && Supported(m))
  }

  lemma LandedFollowsPolicy(close: Calendar, now: int, orm: Orm, m: Instrument)
    ensures (Landed(close, now, orm, m).isTradable <==> !Expired(close, now, m) && Supported(m))
            <==> Agrees(close, now, orm, m)
  {
  }

  /** The tradable rows are exactly the unexpired members the trading policy supports if and
      only if the mapper flipped no unexpired member that the policy neither supports nor blocks. */
  lemma TradableIffSupported(close: Calendar, db: Db, version: string, now: int, orm: Orm)
    requires SoundSnapshots(db.snapshots) && Activate(close, db, version, now, orm).Success?
    ensures var after, ms := Activate(close, db, version, now, orm).value.rows, db.snapshots[version].members;
            (forall i :: 0 <= i < |ms| ==> FollowsPolicy(close, now, after, ms[i]))
            <==> (forall i :: 0 <= i < |ms| ==> Agrees(close, now, orm, ms[i]))
  {
    var ms := db.snapshots[version].members;
    var after := Activate(close, db, version, now, orm).value.rows;
    forall i | 0 <= i < |ms|
      ensures FollowsPolicy(close, now, after, ms[i]) <==> Agrees(close, now, orm, ms[i])
    {
      ActivatedMember(close, db, version, now, orm, i);
      LandedFollowsPolicy(close, now, orm, ms[i]);
    }
  }

  /** A government bond is not supported for trading, and no policy statement blocks it. */
  lemma BondIsNeitherSupportedNorBlocked(bond: Instrument)
    requires bond.instrumentType == "GS" && bond.segment == "NSE" && !Text.HasPrefix(bond.token, "999")
    ensures !Supported(bond) && !Blocked(bond)
  {
    SolidKind(bond.instrumentType);
    assert |bond.instrumentType| == 2 && |"FUT"| == 3 && |"OPT"| == 3;
    assert !IsDerivativeKind(bond.instrumentType);
    assert |"EQUITY"| == 6 && "EQ"[0] == 'E';
  }

  /** In a successful activation a government bond becomes tradable if and only if its false flag is
      stored as the column's default. */
  lemma BondTradableIffDefaulted(close: Calendar, db: Db, version: string, now: int, orm: Orm, i: nat)
    requires SoundSnapshots(db.snapshots) && Activate(close, db, version, now, orm).Success?
    requires i < |db.snapshots[version].members|
    requires var bond := db.snapshots[version].members[i];
             bond.instrumentType == "GS" && bond.segment == "NSE" && bond.expiry == "" && !Text.HasPrefix(bond.token, "999")
    ensures var after, bond := Activate(close, db, version, now, orm).value.rows, db.snapshots[version].members[i];
            && bond.Contract() in after && !Supported(after[bond.Contract()])
            && (after[bond.Contract()].isTradable <==> bond.Contract() in orm.tradable)
  {
    var bond := db.snapshots[version].members[i];
    ActivatedMember(close, db, version, now, orm, i);
    BondIsNeitherSupportedNorBlocked(bond);
    BondIsNeitherSupportedNorBlocked(Landed(close, now, orm, bond));
  }

  // ---- when an activation succeeds, and how it fails ----

  /** The version is stored, validated and complete, and has members. */
  predicate Complete(db: Db, version: string) {
    && version in db.snapshots && db.snapshots[version].status == Staged && db.snapshots[version].errors == []
    && !db.snapshots[version].partial && db.snapshots[version].members != []
  }

  /** The rows that trade now. */
  function Trading(rows: Rows): set<Key> {
    set k | k in rows && rows[k].active && rows[k].isTradable
  }

  /** At least four fifths of an established master must be there again. */
  predicate BigEnough(rows: Rows, members: nat) {
    |Trading(rows)| <= 20 || 100 * members >= 80 * |Trading(rows)|
  }

  predicate HasReadableExpiry(close: Calendar, m: Instrument) {
    m.expiry != "" ==> close(m.expiry).Some?
  }

  /** A stored derivative's type, expiry and strike stay what they were. */
  predicate KeepsStored(close: Calendar, rows: Rows, m: Instrument) {
    Key(m.symbol, m.segment) in rows && rows[Key(m.symbol, m.segment)].expiry != "" ==>
      SameDerivativeIdentity(close, rows[Key(m.symbol, m.segment)], m)
  }

  /** An activation succeeds if and only if the version is stored, staged, free of errors, complete and not
      empty, every expiry is readable, every stored derivative keeps its identity, and the master has not
      shrunk by more than a fifth. */
  lemma ActivatesIff(close: Calendar, db: Db, version: string, now: int, orm: Orm)
    ensures Activate(close, db, version, now, orm).Success? <==>
              && Complete(db, version)
              && BigEnough(db.rows, |db.snapshots[version].members|)
              && (forall i :: 0 <= i < |db.snapshots[version].members| ==>
                    && HasReadableExpiry(close, db.snapshots[version].members[i])
                    && KeepsStored(close, db.rows, db.snapshots[version].members[i]))
  {
    if Complete(db, version) {
      var ms := db.snapshots[version].members;
      PrepareOutcome(close, now, db.rows, ms);
      assert TradableKeys(db.rows) == Trading(db.rows);
      assert forall i :: 0 <= i < |ms| ==>
               (Admissible(close, db.rows, ms[i]) <==> HasReadableExpiry(close, ms[i]) && KeepsStored(close, db.rows, ms[i]));
    }
  }

  /** Preparation stops at the first member that is not admissible, with its error. */
  lemma {:induction false} PrepareFails(close: Calendar, now: int, prior: Rows, ms: seq<Instrument>, i: nat)
    requires i < |ms| && !Admissible(close, prior, ms[i]) && forall j :: 0 <= j < i ==> Admissible(close, prior, ms[j])
    ensures Prepare(close, now, prior, ms)
            == Failure(if ms[i].expiry != "" && close(ms[i].expiry).None? then UnreadableExpiry else IdentityChanged)
  {
    var init := ms[..|ms| - 1];
    if i < |init| {
      PrepareFails(close, now, prior, init, i);
    } else {
      PrepareOutcome(close, now, prior, init);
      assert Activatable(close, prior, init);
    }
  }

  /** What each refusal means, in the order in which the checks are made. */
  lemma ActivationErrors(close: Calendar, db: Db, version: string, now: int, orm: Orm)
    ensures var r := Activate(close, db, version, now, orm);
            && (version !in db.snapshots ==> r == Failure(UnknownVersion))
            && (version in db.snapshots ==>
                  var s := db.snapshots[version];
                  && (s.status != Staged || s.errors != [] || s.partial ==> r == Failure(NotValidated))
                  && (s.status == Staged && s.errors == [] && !s.partial && s.members == [] ==> r == Failure(MembersUnavailable)))
            && (Complete(db, version) && !BigEnough(db.rows, |db.snapshots[version].members|) ==> r == Failure(Shrank))
  {
    assert TradableKeys(db.rows) == Trading(db.rows);
  }

  /** A big enough master fails with the error of its first member that cannot be admitted. */
  lemma ActivationMemberErrors(close: Calendar, db: Db, version: string, now: int, orm: Orm, i: nat)
    requires Complete(db, version) && BigEnough(db.rows, |db.snapshots[version].members|)
    requires i < |db.snapshots[version].members|
    requires forall j :: 0 <= j < i ==>
               && HasReadableExpiry(close, db.snapshots[version].members[j])
               && KeepsStored(close, db.rows, db.snapshots[version].members[j])
    ensures var r, m := Activate(close, db, version, now, orm), db.snapshots[version].members[i];
            && (!HasReadableExpiry(close, m) ==> r == Failure(UnreadableExpiry))
            && (HasReadableExpiry(close, m) && !KeepsStored(close, db.rows, m) ==> r == Failure(IdentityChanged))
  {
    var ms := db.snapshots[version].members;
    assert TradableKeys(db.rows) == Trading(db.rows);
    assert forall j :: 0 <= j < |ms| ==>
             (Admissible(close, db.rows, ms[j]) <==> HasReadableExpiry(close, ms[j]) && KeepsStored(close, db.rows, ms[j]));
    if !Admissible(close, db.rows, ms[i]) { PrepareFails(close, now, db.rows, ms, i); }
  }

  /** A master at least as large as what trades now is never refused for its size. */
  lemma LargeMasterIsNotTooSmall(close: Calendar, db: Db, version: string, now: int, orm: Orm)
    requires version in db.snapshots && |db.snapshots[version].members| >= |Trading(db.rows)|
    ensures Activate(close, db, version, now, orm) != Failure(Shrank)
  {
    var ms := db.snapshots[version].members;
    assert TradableKeys(db.rows) == Trading(db.rows);
    if !Activatable(close, db.rows, ms) {
      var i := FirstInadmissible(close, db.rows, ms);
      PrepareFails(close, now, db.rows, ms, i);
    } else {
      PrepareOutcome(close, now, db.rows, ms);
    }
  }

  lemma {:induction false} FirstInadmissible(close: Calendar, prior: Rows, ms: seq<Instrument>) returns (i: nat)
    requires !Activatable(close, prior, ms)
    ensures i < |ms| && !Admissible(close, prior, ms[i]) && forall j :: 0 <= j < i ==> Admissible(close, prior, ms[j])
  {
    var init := ms[..|ms| - 1];
    if Activatable(close, prior, init) {
      i := |init|;
      assert forall j :: 0 <= j < i ==> ms[j] == init[j];
    } else {
      i := FirstInadmissible(close, prior, init);
    }
  }

  // ---- the fields that decide whether a row trades ----

  /** After a successful activation a member trades if and only if it has not expired, is no index and no
      999 token, its segment is NSE or NFO, and it is a future or option of the NFO, an equity of the NSE,
      or its flag took the column's default. */
  lemma TradableOnFields(close: Calendar, db: Db, version: string, now: int, orm: Orm, i: nat)
    requires SoundSnapshots(db.snapshots) && Activate(close, db, version, now, orm).Success?
    requires i < |db.snapshots[version].members|
    ensures var m := db.snapshots[version].members[i];
            var kind, segment, k := Text.Normal(m.instrumentType), Text.Normal(m.segment), Key(m.symbol, m.segment);
            var derivative := Text.Contains(kind, "FUT") || Text.Contains(kind, "OPT");
            var after := Activate(close, db, version, now, orm).value.rows;
            && k in after
            && (after[k].isTradable <==>
                  && (m.expiry != "" && close(m.expiry).Some? ==> now < close(m.expiry).value)
                  && m.instrumentType != "INDEX" && m.instrumentType != "AMXIDX" && !Text.HasPrefix(m.token, "999")
                  && (m.segment == "NSE" || m.segment == "NFO")
                  && (|| k in orm.tradable
                      || (&& kind != "INDEX" && kind != "AMXIDX"
                          && if derivative then segment == "NFO"
                             else segment == "NSE" && (kind == "" || kind == "EQ" || kind == "EQUITY"))))
  {
    var m := db.snapshots[version].members[i];
    ActivatedMember(close, db, version, now, orm, i);
    if m.segment == "NSE" || m.segment == "NFO" {
      SolidKind(m.segment);
    }
  }

  /** A sweep withdraws a row if and only if it trades, belongs to NFO or BFO and its close has come; every
      other row stays as it was. */
  lemma SweptOnFields(close: Calendar, rows: Rows, asOf: int, k: Key)
    requires k in rows
    ensures var r, after := rows[k], Expire(close, rows, asOf);
            && k in after && after.Keys == rows.Keys
            && after[k] == (if r.isTradable && (r.segment == "NFO" || r.segment == "BFO") && r.expiry != ""
                               && close(r.expiry).Some? && close(r.expiry).value <= asOf
                            then r.(active := false, isTradable := false) else r)
  {
  }
}
