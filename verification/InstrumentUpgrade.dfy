/**
 Repair of duplicate contract rows before the unique contract index is created
 (backend/internal/model/instrument_upgrade.go).

 A table maps row ids to rows; the repair is one set-valued statement over it.
 */
module InstrumentUpgrade {
  import opened Wrappers
  import opened Instruments
  import opened InstrumentMaster
  import MasterActivation
  import InstrumentService
  import InstrumentLifecycle

  /** A stored row; absent text columns read as "". */
  datatype Row = Row(inst: Instrument, updatedAt: Option<int>)

  type Table = map<nat, Row>

  datatype Archived = Archived(survivor: nat, contract: Key, wasKept: bool, canonicalVerified: bool, payload: Row)

  type Archive = map<nat, Archived>

  /** The members of the one activated master, with its version. */
  datatype Master = Master(version: string, members: seq<Instrument>)

  const NO_MASTER := Master("", [])

  const QUARANTINE := "legacy-duplicate-quarantine"

  // ---- duplicate groups and their ranking ----

  function Group(t: Table, k: Key): set<nat> {
    set id | id in t && t[id].inst.Contract() == k
  }

  function Contracts(t: Table): set<Key> {
    set id | id in t :: t[id].inst.Contract()
  }

  predicate Duplicated(t: Table, k: Key) {
    exists a, b :: a in t && b in t && a != b && t[a].inst.Contract() == k && t[b].inst.Contract() == k
  }

  function DuplicateIds(t: Table): set<nat> {
    set id | id in t && Duplicated(t, t[id].inst.Contract())
  }

  function DuplicateKeys(t: Table): set<Key> {
    set k | k in Contracts(t) && Duplicated(t, k)
  }

  predicate UniqueContracts(t: Table) {
    forall a, b :: a in t && b in t && t[a].inst.Contract() == t[b].inst.Contract() ==> a == b
  }

  predicate Matches(m: Instrument, row: Instrument) {
    && m.Contract() == row.Contract() && m.token == row.token && m.instrumentType == row.instrumentType
    && m.expiry == row.expiry && m.strike == row.strike && m.optionType == row.optionType
    && m.lotSize == row.lotSize && m.tickSize == row.tickSize
    && m.underlying == row.underlying && m.underlyingSymbol == row.underlyingSymbol
  }

  /** The row is the active master's own record of its contract. */
  predicate Verified(master: Master, row: Row) {
    row.inst.snapshotVersion == master.version && exists m :: m in master.members && Matches(m, row.inst)
  }

  /** Verified rows first, then the latest update with undated rows last, then the highest id. */
  predicate Outranks(t: Table, master: Master, a: nat, b: nat)
    requires a in t && b in t
  {
    var va, vb := Verified(master, t[a]), Verified(master, t[b]);
    var ua, ub := t[a].updatedAt, t[b].updatedAt;
    if va != vb then va
    else if ua != ub then ua.Some? && (ub.None? || ua.value > ub.value)
    else a > b
  }

  predicate IsBest(t: Table, master: Master, ids: set<nat>, best: nat)
    requires ids <= t.Keys
  {
    best in ids && forall id :: id in ids && id != best ==> Outranks(t, master, best, id)
  }

  /** The ranking is a strict total order on rows. */
  lemma OutranksIsStrictOrder(t: Table, master: Master, a: nat, b: nat, c: nat)
    requires a in t && b in t && c in t
    ensures !Outranks(t, master, a, a)
    ensures a != b ==> (Outranks(t, master, a, b) <==> !Outranks(t, master, b, a))
    ensures Outranks(t, master, a, b) && Outranks(t, master, b, c) ==> Outranks(t, master, a, c)
  {
  }

  lemma {:induction false} BestExists(t: Table, master: Master, ids: set<nat>) returns (best: nat)
    requires ids <= t.Keys && ids != {}
    ensures IsBest(t, master, ids, best)
  {
    var x :| x in ids;
    if ids == {x} {
      best := x;
    } else {
      assert ids - {x} != {};
      var rest := BestExists(t, master, ids - {x});
      best := if Outranks(t, master, x, rest) then x else rest;
      forall id | id in ids && id != best ensures Outranks(t, master, best, id) {
        OutranksIsStrictOrder(t, master, x, rest, id);
        assert id == x || id == rest || id in ids - {x};
      }
    }
  }

  function Survivor(t: Table, master: Master, k: Key): (best: nat)
    requires k in Contracts(t)
    ensures IsBest(t, master, Group(t, k), best)
  {
    assert exists best :: IsBest(t, master, Group(t, k), best) by {
      var id :| id in t && t[id].inst.Contract() == k;
      assert id in Group(t, k);
      var best := BestExists(t, master, Group(t, k));
    }
    BestIsUnique(t, master, Group(t, k));
    var best :| IsBest(t, master, Group(t, k), best);
    best
  }

  lemma BestIsUnique(t: Table, master: Master, ids: set<nat>)
    requires ids <= t.Keys
    ensures forall a, b :: IsBest(t, master, ids, a) && IsBest(t, master, ids, b) ==> a == b
  {
    forall a, b | IsBest(t, master, ids, a) && IsBest(t, master, ids, b) ensures a == b {
      OutranksIsStrictOrder(t, master, a, b, a);
    }
  }

  predicate GroupVerified(t: Table, master: Master, k: Key) {
    exists id :: id in t && t[id].inst.Contract() == k && Verified(master, t[id])
  }

  // ---- the repair statement ----

  function Quarantined(row: Row): Row {
    row.(inst := row.inst.(
      active := false, isTradable := false,
      snapshotVersion := if row.inst.snapshotVersion == "" then QUARANTINE else row.inst.snapshotVersion))
  }

  predicate Kept(t: Table, master: Master, id: nat)
    requires id in t
  {
    id in DuplicateIds(t) ==> id == Survivor(t, master, t[id].inst.Contract())
  }

  function ArchiveOf(t: Table, master: Master): Archive {
    map id | id in DuplicateIds(t) ::
      var k := t[id].inst.Contract();
      Archived(Survivor(t, master, k), k, id == Survivor(t, master, k), GroupVerified(t, master, k), t[id])
  }

  function RepairedRow(t: Table, master: Master, id: nat): Row
    requires id in t
  {
    if id in DuplicateIds(t) && !GroupVerified(t, master, t[id].inst.Contract()) then Quarantined(t[id]) else t[id]
  }

  function Repaired(t: Table, master: Master): Table {
    map id | id in t && Kept(t, master, id) :: RepairedRow(t, master, id)
  }

  function RemovedIds(t: Table, master: Master): set<nat> {
    set id | id in t && !Kept(t, master, id)
  }

  function QuarantinedIds(t: Table, master: Master): set<nat> {
    set id | id in DuplicateIds(t) && Kept(t, master, id) && !GroupVerified(t, master, t[id].inst.Contract())
  }

  // ---- the repair is canonical ----

  lemma SurvivorIsKept(t: Table, master: Master, k: Key)
    requires k in Contracts(t)
    ensures var s := Survivor(t, master, k);
            s in t && t[s].inst.Contract() == k && Kept(t, master, s)
  {
    assert Survivor(t, master, k) in Group(t, k);
  }

  /** Exactly the best-ranked row of every group remains, so contracts are unique afterwards
      and no contract is lost. */
  lemma RepairIsUniqueAndComplete(t: Table, master: Master)
    ensures var r := Repaired(t, master);
            && UniqueContracts(r) && Contracts(r) == Contracts(t)
            && (forall id :: id in r ==> id in t && IsBest(t, master, Group(t, t[id].inst.Contract()), id))
  {
    var r := Repaired(t, master);
    forall id | id in r ensures IsBest(t, master, Group(t, t[id].inst.Contract()), id) {
      var k := t[id].inst.Contract();
      assert id in Group(t, k) && k in Contracts(t);
      if id !in DuplicateIds(t) {
        assert Group(t, k) == {id};
      }
    }
    forall k ensures k in Contracts(t) <==> k in Contracts(r) {
      if k in Contracts(t) {
        SurvivorIsKept(t, master, k);
        var s := Survivor(t, master, k);
        assert s in r && r[s].inst.Contract() == k;
      }
    }
    forall a, b | a in r && b in r && r[a].inst.Contract() == r[b].inst.Contract() ensures a == b {
      var k := t[a].inst.Contract();
      assert IsBest(t, master, Group(t, k), a) && IsBest(t, master, Group(t, k), b);
      assert a in Group(t, k) && b in Group(t, k);
    }
  }

  /** Rows of contracts stored once are untouched and not archived. */
  lemma RepairKeepsSingletons(t: Table, master: Master, id: nat)
    requires id in t && !Duplicated(t, t[id].inst.Contract())
    ensures id in Repaired(t, master) && Repaired(t, master)[id] == t[id] && id !in ArchiveOf(t, master)
  {
    assert id !in DuplicateIds(t);
  }

  /** A repaired group's survivor keeps its row exactly when it is the active master's own
      record; otherwise it is neither active nor tradable. */
  lemma SurvivorActiveIffVerified(t: Table, master: Master, k: Key)
    requires k in Contracts(t) && Duplicated(t, k)
    ensures var s, r := Survivor(t, master, k), Repaired(t, master);
            && s in r
            && (Verified(master, t[s]) <==> GroupVerified(t, master, k))
            && r[s] == (if Verified(master, t[s]) then t[s] else Quarantined(t[s]))
  {
    SurvivorIsKept(t, master, k);
    var s := Survivor(t, master, k);
    assert s in DuplicateIds(t);
    if GroupVerified(t, master, k) {
      var id :| id in t && t[id].inst.Contract() == k && Verified(master, t[id]);
      assert id in Group(t, k);
    }
  }

  /** The master's own record of a contract: the version and every listed column agree. */
  ghost predicate OwnRecord(master: Master, row: Row) {
    && row.inst.snapshotVersion == master.version
    && exists m :: m in master.members
         && m.symbol == row.inst.symbol && m.segment == row.inst.segment && m.token == row.inst.token
         && m.instrumentType == row.inst.instrumentType && m.expiry == row.inst.expiry && m.strike == row.inst.strike
         && m.optionType == row.inst.optionType && m.lotSize == row.inst.lotSize && m.tickSize == row.inst.tickSize
         && m.underlying == row.inst.underlying && m.underlyingSymbol == row.inst.underlyingSymbol
  }

  lemma VerifiedIsOwn(master: Master, row: Row)
    ensures Verified(master, row) <==> OwnRecord(master, row)
  {
    forall m | m in master.members ensures Matches(m, row.inst) ==> m.symbol == row.inst.symbol && m.segment == row.inst.segment {
      assert Matches(m, row.inst) ==> m.Contract().symbol == row.inst.Contract().symbol;
    }
  }

  /** What becomes of a duplicated contract: one row stays, untouched if it is the master's own record and
      otherwise neither active nor tradable, with no other column changed but a missing version. */
  lemma SurvivorOnFields(t: Table, master: Master, k: Key)
    requires k in Contracts(t) && Duplicated(t, k)
    ensures var s, r := Survivor(t, master, k), Repaired(t, master);
            && s in t && s in r && t[s].inst.symbol == k.symbol && t[s].inst.segment == k.segment
            && (OwnRecord(master, t[s]) ==> r[s] == t[s])
            && (!OwnRecord(master, t[s]) ==>
                  && !r[s].inst.active && !r[s].inst.isTradable && r[s].updatedAt == t[s].updatedAt
                  && r[s].inst == t[s].inst.(active := false, isTradable := false, snapshotVersion := r[s].inst.snapshotVersion)
                  && (t[s].inst.snapshotVersion != "" ==> r[s].inst.snapshotVersion == t[s].inst.snapshotVersion)
                  && (t[s].inst.snapshotVersion == "" ==> r[s].inst.snapshotVersion == "legacy-duplicate-quarantine"))
  {
    SurvivorIsKept(t, master, k);
    SurvivorActiveIffVerified(t, master, k);
    VerifiedIsOwn(master, t[Survivor(t, master, k)]);
  }

  /** Which row stays: one of the master's own if there is any, and of those the last updated, undated rows
      last, and then the one with the highest id. */
  lemma SurvivorIsNewest(t: Table, master: Master, k: Key, id: nat)
    requires k in Contracts(t) && id in t && t[id].inst.Contract() == k && id != Survivor(t, master, k)
    ensures var s := Survivor(t, master, k);
            && s in t
            && (OwnRecord(master, t[id]) ==> OwnRecord(master, t[s]))
            && ((OwnRecord(master, t[id]) <==> OwnRecord(master, t[s])) ==>
                  && (t[id].updatedAt.Some? ==> t[s].updatedAt.Some? && t[s].updatedAt.value >= t[id].updatedAt.value)
                  && (t[s].updatedAt == t[id].updatedAt ==> s > id))
  {
    var s := Survivor(t, master, k);
    assert id in Group(t, k) && s in Group(t, k);
    assert Outranks(t, master, s, id);
    VerifiedIsOwn(master, t[s]);
    VerifiedIsOwn(master, t[id]);
  }

  /** What is archived: every row of a duplicated contract, as it was, with its contract, the row that stays
      for it, whether this is that row, and whether one of them is the master's own. */
  lemma ArchivedOnFields(t: Table, master: Master, id: nat)
    ensures var archive, r := ArchiveOf(t, master), Repaired(t, master);
            && (id in archive <==> id in t && Duplicated(t, t[id].inst.Contract()))
            && (id in archive ==>
                  var a := archive[id];
                  && a.payload == t[id] && a.contract == Key(t[id].inst.symbol, t[id].inst.segment)
                  && a.survivor in r && r[a.survivor].inst.Contract() == a.contract && (a.wasKept <==> id in r)
                  && (a.canonicalVerified <==> OwnRecord(master, t[a.survivor])))
  {
    if id in DuplicateIds(t) {
      var k := t[id].inst.Contract();
      SurvivorIsKept(t, master, k);
      SurvivorActiveIffVerified(t, master, k);
      VerifiedIsOwn(master, t[Survivor(t, master, k)]);
    }
  }

  // ---- the repair is lossless ----

  /** Untouched rows together with archived payloads. */
  function Rebuild(rows: Table, archive: Archive): Table {
    (rows - archive.Keys) + (map id | id in archive :: archive[id].payload)
  }

  lemma RebuiltRow(t: Table, master: Master, id: nat)
    ensures var back := Rebuild(Repaired(t, master), ArchiveOf(t, master));
            (id in back <==> id in t) && (id in t ==> back[id] == t[id])
  {
    var r, a := Repaired(t, master), ArchiveOf(t, master);
    assert a.Keys == DuplicateIds(t);
    if id in t && id !in a {
      assert Kept(t, master, id) && id in r && RepairedRow(t, master, id) == t[id];
    }
  }

  lemma SameTable(a: Table, b: Table)
    requires forall id :: (id in a <==> id in b) && (id in a ==> a[id] == b[id])
    ensures a == b
  {
  }

  /** The original table is the untouched rows together with the archived payloads. */
  lemma RepairIsLossless(t: Table, master: Master)
    ensures Rebuild(Repaired(t, master), ArchiveOf(t, master)) == t
  {
    var back := Rebuild(Repaired(t, master), ArchiveOf(t, master));
    forall id ensures (id in back <==> id in t) && (id in t ==> back[id] == t[id]) {
      RebuiltRow(t, master, id);
    }
    SameTable(back, t);
  }

  function Survivors(t: Table, master: Master, ks: set<Key>): set<nat>
    requires ks <= Contracts(t)
  {
    set k | k in ks :: Survivor(t, master, k)
  }

  lemma {:induction false} SurvivorCount(t: Table, master: Master, ks: set<Key>)
    requires ks <= Contracts(t)
    ensures |Survivors(t, master, ks)| == |ks|
  {
    var image := Survivors(t, master, ks);
    if ks == {} {
      assert image == {};
    } else {
      var x :| x in ks;
      var rest := Survivors(t, master, ks - {x});
      SurvivorCount(t, master, ks - {x});
      forall k | k in ks ensures t[Survivor(t, master, k)].inst.Contract() == k {
        SurvivorIsKept(t, master, k);
      }
      assert image == rest + {Survivor(t, master, x)};
      assert Survivor(t, master, x) !in rest;
    }
  }

  lemma DuplicatesSplit(t: Table, master: Master)
    ensures DuplicateKeys(t) <= Contracts(t)
    ensures DuplicateIds(t) == RemovedIds(t, master) + Survivors(t, master, DuplicateKeys(t))
    ensures RemovedIds(t, master) !! Survivors(t, master, DuplicateKeys(t))
  {
    var ks := DuplicateKeys(t);
    forall k | k in ks
      ensures Survivor(t, master, k) in DuplicateIds(t) && t[Survivor(t, master, k)].inst.Contract() == k
    {
      SurvivorIsKept(t, master, k);
    }
    forall id | id in DuplicateIds(t) && Kept(t, master, id) ensures id in Survivors(t, master, ks) {
      var k := t[id].inst.Contract();
      assert k in ks && id == Survivor(t, master, k);
    }
  }

  lemma ArchivedIds(t: Table, master: Master)
    ensures ArchiveOf(t, master).Keys == DuplicateIds(t)
  {
  }

  lemma UnionSize(whole: set<nat>, a: set<nat>, b: set<nat>)
    requires whole == a + b && a !! b
    ensures |whole| == |a| + |b|
  {
  }

  /** Archived rows are the removed ones plus one survivor per duplicated contract. */
  lemma RepairCounts(t: Table, master: Master)
    ensures |ArchiveOf(t, master).Keys| == |RemovedIds(t, master)| + |DuplicateKeys(t)|
  {
    ArchivedIds(t, master);
    DuplicatesSplit(t, master);
    SurvivorCount(t, master, DuplicateKeys(t));
    UnionSize(DuplicateIds(t), RemovedIds(t, master), Survivors(t, master, DuplicateKeys(t)));
  }

  /** The quarantined rows are the survivors of the groups the master does not verify. */
  lemma QuarantinedIffUnverified(t: Table, master: Master, id: nat)
    requires id in t
    ensures id in QuarantinedIds(t, master) <==>
              var k := t[id].inst.Contract();
              Duplicated(t, k) && !GroupVerified(t, master, k) && Survivor(t, master, k) == id
  {
  }

  /** A table without duplicates is left alone, so repairing twice is repairing once. */
  lemma RepairOfUniqueChangesNothing(t: Table, master: Master)
    requires UniqueContracts(t)
    ensures Repaired(t, master) == t && ArchiveOf(t, master) == map[]
    ensures CountsOf(t, master) == Counts(0, 0, 0)
  {
    assert DuplicateIds(t) == {};
    assert ArchiveOf(t, master).Keys == {};
    assert RemovedIds(t, master) == {} == QuarantinedIds(t, master);
  }

  datatype Counts = Counts(archived: nat, removed: nat, quarantined: nat)

  function CountsOf(t: Table, master: Master): Counts {
    Counts(|DuplicateIds(t)|, |RemovedIds(t, master)|, |QuarantinedIds(t, master)|)
  }

  // ---- the master the repair trusts ----

  predicate WellFormedMember(version: string, m: Instrument) {
    m.symbol != "" && m.segment != "" && m.token != "" && m.lotSize > 0 && m.snapshotVersion == version
  }

  predicate DistinctTexts(ms: seq<Instrument>) {
    forall i, j :: 0 <= i < j < |ms| ==>
      InstrumentService.PriorKey(ms[i].Contract()) != InstrumentService.PriorKey(ms[j].Contract())
  }

  predicate Trusted(s: Snapshot) {
    && s.version != "" && s.activatedAt.Some? && !s.partial && s.errors == []
    && s.members != [] && s.total == |s.members|
    && DistinctTexts(s.members)
    && forall i :: 0 <= i < |s.members| ==> WellFormedMember(s.version, s.members[i])
  }

  /** The master of exactly one trusted active snapshot; anything else verifies no row. */
  function MasterOf(active: seq<Snapshot>): Master {
    if |active| == 1 && Trusted(active[0]) then Master(active[0].version, active[0].members) else NO_MASTER
  }

  method CanonicalUpgradeMembers(active: seq<Snapshot>) returns (master: Master)
    ensures master == MasterOf(active)
  {
    if |active| != 1 { return NO_MASTER; }
    var s := active[0];
    if s.version == "" || s.activatedAt.None? || s.partial || s.errors != [] || s.members == []
       || s.total != |s.members|
    {
      return NO_MASTER;
    }
    var seen: set<string> := {};
    for i := 0 to |s.members|
      invariant seen == set j | 0 <= j < i :: InstrumentService.PriorKey(s.members[j].Contract())
      invariant DistinctTexts(s.members[..i])
      invariant forall j :: 0 <= j < i ==> WellFormedMember(s.version, s.members[j])
    {
      var m := s.members[i];
      var key := m.symbol + "|" + m.segment;
      if key in seen || m.symbol == "" || m.segment == "" || m.token == "" || m.lotSize <= 0
         || m.snapshotVersion != s.version
      {
        assert !Trusted(s);
        return NO_MASTER;
      }
      seen := seen + {key};
    }
    assert s.members[..|s.members|] == s.members;
    master := Master(s.version, s.members);
  }

  /** The one active snapshot is trusted if and only if it has a version and an activation time, is complete
      and free of errors, counts its members, and each member names its symbol, segment, token, lot and
      version, no two of them the same joined contract. */
  lemma TrustedOnFields(active: seq<Snapshot>)
    ensures var trusted :=
              && |active| == 1
              && var s := active[0];
                 && s.version != "" && s.activatedAt.Some? && !s.partial && s.errors == [] && s.members != [] && s.total == |s.members|
                 && (forall i :: 0 <= i < |s.members| ==>
                       var m := s.members[i];
                       m.symbol != "" && m.segment != "" && m.token != "" && m.lotSize > 0 && m.snapshotVersion == s.version)
                 && (forall i, j :: 0 <= i < j < |s.members| ==>
                       s.members[i].symbol + "|" + s.members[i].segment != s.members[j].symbol + "|" + s.members[j].segment);
            MasterOf(active) == if trusted then Master(active[0].version, active[0].members) else Master("", [])
  {
    if |active| == 1 {
      var s := active[0];
      assert (forall i :: 0 <= i < |s.members| ==> WellFormedMember(s.version, s.members[i])) <==>
             (forall i :: 0 <= i < |s.members| ==>
                       var m := s.members[i];
                       m.symbol != "" && m.segment != "" && m.token != "" && m.lotSize > 0 && m.snapshotVersion == s.version);
      assert DistinctTexts(s.members) <==>
                 (forall i, j :: 0 <= i < j < |s.members| ==>
                       s.members[i].symbol + "|" + s.members[i].segment != s.members[j].symbol + "|" + s.members[j].segment);
    }
  }

  /** Whatever run of staging, activation and expiry came before, the active snapshot is one
      the repair trusts. */
  lemma ActivatedMasterIsTrusted(env: InstrumentLifecycle.Env, rows: map<Key, Instrument>,
                                 ops: seq<InstrumentLifecycle.Op>, n: nat, v: string)
    requires InstrumentLifecycle.Named(ops) && n <= |ops|
    requires var snapshots := InstrumentLifecycle.After(env, Db(rows, map[]), ops, n).snapshots;
             v in snapshots && snapshots[v].status == Active
    ensures var s := InstrumentLifecycle.After(env, Db(rows, map[]), ops, n).snapshots[v];
            MasterOf([s]) == Master(v, s.members)
  {
    InstrumentLifecycle.SnapshotsStaySound(env, Db(rows, map[]), ops, n);
    var s := InstrumentLifecycle.After(env, Db(rows, map[]), ops, n).snapshots[v];
    assert MasterActivation.WellStaged(v, s);
    forall i | 0 <= i < |s.members|
      ensures WellFormedMember(v, s.members[i]) && '|' !in s.members[i].segment
    {
      assert MasterActivation.WellStagedMember(v, s.members[i]);
      InstrumentService.PlainSegment(s.members[i].segment);
    }
    forall i, j | 0 <= i < j < |s.members|
      ensures InstrumentService.PriorKey(s.members[i].Contract()) != InstrumentService.PriorKey(s.members[j].Contract())
    {
      InstrumentService.PriorKeyIsInjective(s.members[i].Contract(), s.members[j].Contract());
    }
  }

  // ---- the upgrade transaction ----

  datatype UpgradeError = Referenced | ArchiveConflict

  datatype Outcome = Outcome(table: Table, archive: Archive, counts: Counts)

  function RunUpgrade(t: Table, archive: Archive, master: Master, referenced: bool): Result<Outcome, UpgradeError> {
    if UniqueContracts(t) then Success(Outcome(t, archive, Counts(0, 0, 0)))
    else if referenced then Failure(Referenced)
    else if DuplicateIds(t) * archive.Keys != {} then Failure(ArchiveConflict)
    else Success(Outcome(Repaired(t, master), archive + ArchiveOf(t, master), CountsOf(t, master)))
  }

  /** The upgrade fails exactly when duplicates meet a foreign reference or an already archived
      id. Otherwise its rows admit the unique index, every contract survives, and the original
      table can be rebuilt from what it newly archived. */
  lemma UpgradeOutcome(t: Table, archive: Archive, master: Master, referenced: bool)
    ensures var r := RunUpgrade(t, archive, master, referenced);
            && (r.Failure? <==> !UniqueContracts(t) && (referenced || DuplicateIds(t) * archive.Keys != {}))
            && (r.Success? ==>
                  && UniqueContracts(r.value.table) && Contracts(r.value.table) == Contracts(t)
                  && r.value.table == Repaired(t, master) && r.value.counts == CountsOf(t, master)
                  && r.value.archive == archive + ArchiveOf(t, master)
                  && Rebuild(r.value.table, ArchiveOf(t, master)) == t)
  {
    if UniqueContracts(t) {
      RepairOfUniqueChangesNothing(t, master);
    } else {
      RepairIsUniqueAndComplete(t, master);
    }
    RepairIsLossless(t, master);
  }

  method UpgradeStatements(t: Table, archive: Archive, master: Master, referenced: bool)
    returns (r: Result<Outcome, UpgradeError>)
    ensures r == RunUpgrade(t, archive, master, referenced)
    ensures r.Success? ==> UniqueContracts(r.value.table)
  {
    UpgradeOutcome(t, archive, master, referenced);
    var duplicates := !UniqueContracts(t);
    if !duplicates { return Success(Outcome(t, archive, Counts(0, 0, 0))); }
    if referenced { return Failure(Referenced); }
    if DuplicateIds(t) * archive.Keys != {} { return Failure(ArchiveConflict); }
    r := Success(Outcome(Repaired(t, master), archive + ArchiveOf(t, master), CountsOf(t, master)));
  }

  class ContractIndex {
    var instruments: Table
    var archive: Archive
    var valid: bool

    /** Once the index is valid, contracts are unique. */
    predicate Valid()
      reads this
    {
      valid ==> UniqueContracts(instruments)
    }

    /** The upgrade when the index is not yet valid. */
    method CreateIndex(master: Master, referenced: bool) returns (r: Result<Counts, UpgradeError>)
      requires !valid
      modifies this
      ensures Valid() && valid == r.Success?
      ensures RunUpgrade(old(instruments), old(archive), master, referenced)
              == if valid then Success(Outcome(instruments, archive, r.value)) else Failure(r.error)
      ensures !valid ==> instruments == old(instruments) && archive == old(archive)
    {
      var outcome := UpgradeStatements(instruments, archive, master, referenced);
      if outcome.Failure? { return Failure(outcome.error); }
      instruments, archive, valid := outcome.value.table, outcome.value.archive, true;
      r := Success(outcome.value.counts);
    }

    method Upgrade(active: seq<Snapshot>, referenced: bool) returns (r: Result<Counts, UpgradeError>)
      requires Valid()
      modifies this
      ensures Valid() && valid == r.Success?
      ensures old(valid) ==> unchanged(this) && r == Success(Counts(0, 0, 0))
      ensures !old(valid) ==>
                RunUpgrade(old(instruments), old(archive), MasterOf(active), referenced)
                == if valid then Success(Outcome(instruments, archive, r.value)) else Failure(r.error)
      ensures !valid ==> instruments == old(instruments) && archive == old(archive)
    {
      var master := CanonicalUpgradeMembers(active);
      if valid {
        r := Success(Counts(0, 0, 0));
      } else {
        r := CreateIndex(master, referenced);
      }
    }
  }
}
