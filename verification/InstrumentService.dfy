/**
 The instrument service as an object that updates its tables in place, proved against the
 database functions (backend/internal/instrument/service/instrument_service.go).
 */
module InstrumentService {
  import opened Wrappers
  import opened Instruments
  import opened InstrumentMaster
  import opened MasterActivation
  import opened InstrumentLifecycle
  import Text

  datatype Stats = Stats(processed: nat, upserted: nat, skipped: nat)

  /** The key under which a stream's contracts and tokens are remembered. */
  function SeenKey(k: Key): string { k.segment + ":" + k.symbol }

  function SeenKeys(ks: set<Key>): set<string> { set k | k in ks :: SeenKey(k) }

  predicate PlainKeys(ks: set<Key>) { forall k :: k in ks ==> ':' !in k.segment }

  lemma SeenIffKnown(ks: set<Key>, k: Key)
    requires PlainKeys(ks) && ':' !in k.segment
    ensures SeenKey(k) in SeenKeys(ks) <==> k in ks
  {
    forall q | q in ks ensures SeenKey(q) == SeenKey(k) <==> q == k {
      Text.JoinLeftIsInjective(q.segment, q.symbol, k.segment, k.symbol, ':');
    }
  }

  /** The key under which prior rows are looked up. */
  function PriorKey(k: Key): string { k.symbol + "|" + k.segment }

  predicate TableKeys(rows: Rows) {
    forall k :: k in rows ==> rows[k].Contract() == k && '|' !in k.segment
  }

  lemma StageNext(accept: Acceptance, close: Calendar, version: string, items: seq<Item>, i: nat)
    requires i < |items| && Readable(items[..i]) && items[i].Decoded?
    ensures Readable(items[..i + 1])
    ensures StageAll(accept, close, version, Raws(items[..i + 1])) ==
            StageItem(accept, close, version, StageAll(accept, close, version, Raws(items[..i])), items[i].raw)
  {
    assert items[..i + 1] == items[..i] + [items[i]];
    assert Raws(items[..i + 1])[..i] == Raws(items[..i]);
  }

  lemma SeenKeysGrow(ks: set<Key>, k: Key)
    requires PlainKeys(ks) && ':' !in k.segment
    ensures SeenKeys(ks + {k}) == SeenKeys(ks) + {SeenKey(k)} && PlainKeys(ks + {k})
    ensures SeenKey(k) in SeenKeys(ks) <==> k in ks
  {
    SeenIffKnown(ks, k);
    forall s ensures s in SeenKeys(ks + {k}) <==> s in SeenKeys(ks) + {SeenKey(k)} {
      if s in SeenKeys(ks) + {SeenKey(k)} {
        if s == SeenKey(k) { assert k in ks + {k}; } else { var q :| q in ks && SeenKey(q) == s; assert q in ks + {k}; }
      }
    }
  }

  /** The checks one accepted record goes through; the remembered keys are joined texts. */
  method Admit(close: Calendar, raw: Raw, inst: Instrument, seenContracts: set<string>, seenTokens: set<string>,
               errors: seq<string>, ghost version: string, ghost s: Staging)
    returns (kept: bool, contracts: set<string>, tokens: set<string>, reported: seq<string>)
    requires Canonical(inst) && PlainKeys(s.contracts) && PlainKeys(s.tokens)
    requires seenContracts == SeenKeys(s.contracts) && seenTokens == SeenKeys(s.tokens) && errors == s.errors
    ensures var t := StageAccepted(close, version, s, raw, inst);
            && contracts == SeenKeys(t.contracts) && tokens == SeenKeys(t.tokens) && reported == t.errors
            && PlainKeys(t.contracts) && PlainKeys(t.tokens) && t.processed == s.processed
            && t.members == s.members + (if kept then [Stamped(inst, version)] else [])
            && t.skipped == s.skipped + (if kept then 0 else 1)
  {
    SeenKeysGrow(s.contracts, inst.Contract());
    SeenKeysGrow(s.tokens, inst.TokenKey());
    kept, contracts, tokens, reported := false, seenContracts, seenTokens, errors;
    var contractKey := inst.segment + ":" + inst.symbol;
    if contractKey in seenContracts {
      reported := reported + ["duplicate contract"];
      return;
    }
    contracts := contracts + {contractKey};
    var tokenKey := inst.segment + ":" + inst.token;
    if tokenKey in seenTokens {
      if |reported| < 100 { reported := reported + ["duplicate token"]; }
      return;
    }
    tokens := tokens + {tokenKey};
    if inst.segment == "NFO" {
      if raw.lotSize <= 0 {
        if |reported| < 100 { reported := reported + ["invalid lot size"]; }
        return;
      }
      if close(inst.expiry).None? {
        if |reported| < 100 { reported := reported + ["invalid expiry format"]; }
        return;
      }
    }
    kept := true;
  }

  /** Reads the stream record by record, flushing kept members in batches. */
  method ReadMembers(accept: Acceptance, close: Calendar, version: string, items: seq<Item>, size: int)
    returns (readable: bool, members: seq<Instrument>, errors: seq<string>, stats: Stats)
    requires forall raw :: accept(raw).Some? ==> Canonical(accept(raw).value)
    ensures readable <==> Readable(items)
    ensures readable ==>
              var s := StageAll(accept, close, version, Raws(items));
              members == s.members && errors == s.errors && stats == Stats(s.processed, |s.members|, s.skipped)
  {
    readable, members, errors, stats := true, [], [], Stats(0, 0, 0);
    var batch: seq<Instrument> := [];
    var seenContracts: set<string>, seenTokens: set<string> := {}, {};
    ghost var s := EMPTY_STAGING;
    var i := 0;
    while i < |items|
      invariant i <= |items| && readable && Readable(items[..i])
      invariant s == StageAll(accept, close, version, Raws(items[..i]))
      invariant members + batch == s.members && errors == s.errors
      invariant stats == Stats(s.processed, |members|, s.skipped)
      invariant PlainKeys(s.contracts) && PlainKeys(s.tokens)
      invariant seenContracts == SeenKeys(s.contracts) && seenTokens == SeenKeys(s.tokens)
    {
      if items[i].Broken? {
        readable := false;
        return;
      }
      var raw := items[i].raw;
      StageNext(accept, close, version, items, i);
      i, stats := i + 1, stats.(processed := stats.processed + 1);
      ghost var before := s.(processed := s.processed + 1);
      s := StageItem(accept, close, version, s, raw);
      var accepted := accept(raw);
      if accepted.None? {
        stats := stats.(skipped := stats.skipped + 1);
        continue;
      }
      var kept;
      kept, seenContracts, seenTokens, errors :=
        Admit(close, raw, accepted.value, seenContracts, seenTokens, errors, version, before);
      if !kept {
        stats := stats.(skipped := stats.skipped + 1);
        continue;
      }
      batch := batch + [Stamped(accepted.value, version)];
      if |batch| >= size {
        members, batch := members + batch, [];
        stats := stats.(upserted := |members|);
      }
    }
    assert items[..i] == items;
    members := members + batch;
    stats := stats.(upserted := |members|);
  }

  // ---- the loops of an activation ----

  ghost predicate IndexedBy(prior: map<string, Instrument>, rows: Rows, done: set<Key>) {
    && (forall k :: k in done && k in rows ==> PriorKey(k) in prior && prior[PriorKey(k)] == rows[k])
    && (forall s :: s in prior ==> exists k :: k in done && PriorKey(k) == s)
  }

  lemma PriorKeyIsInjective(a: Key, b: Key)
    requires '|' !in a.segment && '|' !in b.segment
    ensures PriorKey(a) == PriorKey(b) <==> a == b
  {
    Text.JoinIsInjective(a.symbol, a.segment, b.symbol, b.segment, '|');
  }

  /** Looking a contract up by its joined text finds exactly its own row. */
  lemma PriorLookup(prior: map<string, Instrument>, rows: Rows, k: Key)
    requires TableKeys(rows) && IndexedBy(prior, rows, rows.Keys) && '|' !in k.segment
    ensures PriorKey(k) in prior <==> k in rows
    ensures k in rows ==> prior[PriorKey(k)] == rows[k]
  {
    if PriorKey(k) in prior {
      var q :| q in rows.Keys && PriorKey(q) == PriorKey(k);
      PriorKeyIsInjective(q, k);
    }
  }

  method IndexPrior(rows: Rows) returns (prior: map<string, Instrument>)
    requires TableKeys(rows)
    ensures IndexedBy(prior, rows, rows.Keys)
  {
    prior := map[];
    var todo := rows.Keys;
    while todo != {}
      invariant todo <= rows.Keys
      invariant IndexedBy(prior, rows, rows.Keys - todo)
    {
      var k :| k in todo;
      var row := rows[k];
      forall q | q in rows.Keys - todo ensures PriorKey(q) == PriorKey(k) <==> q == k {
        PriorKeyIsInjective(q, k);
      }
      ghost var before := prior;
      prior := prior[row.symbol + "|" + row.segment := row];
      todo := todo - {k};
      forall s | s in prior ensures exists q :: q in rows.Keys - todo && PriorKey(q) == s {
        if s in before {
          var q :| q in rows.Keys - todo - {k} && PriorKey(q) == s;
          assert q in rows.Keys - todo;
        } else {
          assert k in rows.Keys - todo && PriorKey(k) == s;
        }
      }
    }
    assert rows.Keys - todo == rows.Keys;
  }

  /** The checks and flags one member goes through, with prior rows found by joined text. */
  method PrepareMember(close: Calendar, now: int, prior: map<string, Instrument>, inst: Instrument, ghost rows: Rows)
    returns (r: Result<Instrument, ActivateError>)
    requires TableKeys(rows) && IndexedBy(prior, rows, rows.Keys) && '|' !in inst.segment
    ensures r == PrepareOne(close, now, rows, inst)
  {
    PriorLookup(prior, rows, inst.Contract());
    var flagged := inst.(active := true, isTradable := Supported(inst));
    if inst.expiry != "" {
      var expiry := close(inst.expiry);
      if expiry.None? { return Failure(UnreadableExpiry); }
      if now >= expiry.value {
        flagged := flagged.(active := false, isTradable := false);
      }
    }
    var key := inst.symbol + "|" + inst.segment;
    if key in prior && prior[key].expiry != "" && !SameDerivativeIdentity(close, prior[key], inst) {
      return Failure(IdentityChanged);
    }
    r := Success(flagged);
  }

  method PrepareMembers(close: Calendar, now: int, rows: Rows, prior: map<string, Instrument>, ms: seq<Instrument>)
    returns (r: Result<seq<Instrument>, ActivateError>)
    requires TableKeys(rows) && IndexedBy(prior, rows, rows.Keys)
    requires forall i :: 0 <= i < |ms| ==> '|' !in ms[i].segment
    ensures r == Prepare(close, now, rows, ms)
  {
    var prepared := [];
    var i := 0;
    while i < |ms|
      invariant i <= |ms|
      invariant Prepare(close, now, rows, ms[..i]) == Success(prepared)
    {
      var one := PrepareMember(close, now, prior, ms[i], rows);
      PrepareNext(close, now, rows, ms, i, prepared, one);
      if one.Failure? {
        PrepareStops(close, now, rows, ms, i + 1);
        return Failure(one.error);
      }
      prepared, i := prepared + [one.value], i + 1;
    }
    assert ms[..i] == ms;
    r := Success(prepared);
  }

  lemma PrepareNext(close: Calendar, now: int, rows: Rows, ms: seq<Instrument>, i: nat,
                    prepared: seq<Instrument>, one: Result<Instrument, ActivateError>)
    requires i < |ms| && Prepare(close, now, rows, ms[..i]) == Success(prepared)
    requires one == PrepareOne(close, now, rows, ms[i])
    ensures Prepare(close, now, rows, ms[..i + 1]) ==
            if one.Success? then Success(prepared + [one.value]) else Failure(one.error)
  {
    assert ms[..i + 1][..i] == ms[..i];
  }

  lemma {:induction false} PrepareStops(close: Calendar, now: int, rows: Rows, ms: seq<Instrument>, n: nat)
    requires n <= |ms| && Prepare(close, now, rows, ms[..n]).Failure?
    ensures Prepare(close, now, rows, ms) == Prepare(close, now, rows, ms[..n])
    decreases |ms| - n
  {
    if n == |ms| {
      assert ms[..n] == ms;
    } else {
      assert ms[..n + 1][..n] == ms[..n];
      PrepareStops(close, now, rows, ms, n + 1);
    }
  }

  method UpsertMembers(rows: Rows, orm: Orm, ms: seq<Instrument>) returns (table: Rows)
    ensures table == Upsert(rows, orm, ms)
  {
    table := rows;
    for i := 0 to |ms|
      invariant table == Upsert(rows, orm, ms[..i])
    {
      assert ms[..i + 1][..i] == ms[..i];
      table := table[ms[i].Contract() := Stored(orm, ms[i])];
    }
    assert ms[..|ms|] == ms;
  }

  method RetireMembers(close: Calendar, now: int, rows: Rows, ms: seq<Instrument>) returns (table: Rows)
    ensures table == RetireExpired(close, now, rows, ms)
  {
    table := rows;
    for i := 0 to |ms|
      invariant table == RetireExpired(close, now, rows, ms[..i])
    {
      assert ms[..i + 1][..i] == ms[..i];
      if ms[i].expiry != "" {
        var expiry := close(ms[i].expiry);
        var k := ms[i].Contract();
        if expiry.Some? && now >= expiry.value && k in table {
          table := table[k := Withdrawn(table[k])];
        }
      }
    }
    assert ms[..|ms|] == ms;
  }

  /** The statements of the transaction in order: retire, insert, retire expired, enforce policy. */
  method RunStatements(close: Calendar, now: int, rows: Rows, orm: Orm, prepared: seq<Instrument>)
    returns (table: Rows)
    ensures table == ActivatedRows(close, rows, now, orm, prepared)
  {
    table := UpsertMembers(RetireAll(rows), orm, prepared);
    table := RetireMembers(close, now, table, prepared);
    table := EnforcePolicy(table);
  }

  lemma PlainSegment(segment: string)
    requires segment in {"NSE", "NFO", "BSE"}
    ensures '|' !in segment
  {
  }

  lemma ActivationKeepsValid(close: Calendar, db: Db, version: string, now: int, orm: Orm)
    requires TableKeys(db.rows) && SoundSnapshots(db.snapshots)
    requires Activate(close, db, version, now, orm).Success?
    ensures TableKeys(Activate(close, db, version, now, orm).value.rows)
    ensures SoundSnapshots(Activate(close, db, version, now, orm).value.snapshots)
  {
    ActivationSwitches(close, db, version, now, orm);
    var ms := db.snapshots[version].members;
    var after := Activate(close, db, version, now, orm).value.rows;
    forall k | k in after ensures after[k].Contract() == k && '|' !in k.segment {
      if HasMember(ms, k) {
        var i :| 0 <= i < |ms| && ms[i].Contract() == k;
        ActivatedMember(close, db, version, now, orm, i);
        PlainSegment(k.segment);
        LandedFlags(close, now, orm, ms[i]);
      } else {
        ActivatedNonMember(close, db, version, now, orm, k);
      }
    }
  }

  class Service {
    var instruments: Rows
    var snapshots: map<string, Snapshot>
    const env: Env

    constructor (env: Env, rows: Rows)
      requires TableKeys(rows)
      ensures Valid() && instruments == rows && snapshots == map[] && this.env == env
    {
      this.env, instruments, snapshots := env, rows, map[];
    }

    function Contents(): Db
      reads this
    {
      Db(instruments, snapshots)
    }

    predicate Valid()
      reads this
    {
      TableKeys(instruments) && SoundSnapshots(snapshots)
    }

    method StageSnapshot(version: string, generated: string, stream: Stream, opts: Options, batchSize: int)
      returns (r: Result<Snapshot, StageError>, stats: Stats)
      requires Valid() && generated != ""
      modifies this`snapshots
      ensures Valid()
      ensures r.Success? ==>
                && stats.processed == |stream.items| == stats.upserted + stats.skipped
                && stats.upserted == |r.value.members| == r.value.total
      ensures var v := Version(version, generated);
              match StageStream(env.formats, env.close, old(Contents()), v, stream, opts)
              case Success(next) => Contents() == next && r == Success(next.snapshots[v])
              case Failure(e) => Contents() == old(Contents()) && r == Failure(e)
    {
      var v := if version == "" then generated else version;
      ApplyKeepsSnapshotsSound(env, Contents(), Stage(v, stream, opts));
      if Readable(stream.items) {
        StagingKeepsAccepted(Accept(env.formats, opts), env.close, v, Raws(stream.items));
      }
      stats := Stats(0, 0, 0);
      if !stream.opens { return Failure(NotAnArray), stats; }
      var readable, members, errors;
      readable, members, errors, stats :=
        ReadMembers(Accept(env.formats, opts), env.close, v, stream.items, if batchSize > 0 then batchSize else 500);
      if !readable { return Failure(BrokenItem), stats; }
      if !stream.closes { return Failure(IncompleteArray), stats; }
      if stream.trailing { return Failure(TrailingData), stats; }
      if v in snapshots { return Failure(VersionTaken), stats; }
      var status := if members == [] || errors != [] then Failed else Staged;
      var snapshot := Snapshot(v, members, IsPartial(opts), stats.upserted, errors, status, None);
      snapshots := snapshots[v := snapshot];
      r := Success(snapshot);
    }

    method ReviewSnapshot(version: string) returns (objection: Option<ActivateError>)
      ensures objection == Review(Contents(), version)
    {
      if version !in snapshots { return Some(UnknownVersion); }
      var snapshot := snapshots[version];
      if snapshot.status != Staged || snapshot.errors != [] || snapshot.partial { return Some(NotValidated); }
      if snapshot.members == [] { return Some(MembersUnavailable); }
      var oldCount := |TradableKeys(instruments)|;
      if oldCount > 20 && |snapshot.members| * 100 < oldCount * 80 { return Some(Shrank); }
      objection := None;
    }

    /** All or nothing: any error, and any failing statement, leaves both tables as they were. */
    method ActivateSnapshot(version: string, now: int, orm: Orm, fault: bool)
      returns (r: Result<Snapshot, ActivateError>)
      requires Valid()
      modifies this
      ensures Valid()
      ensures r.Failure? ==> Contents() == old(Contents())
      ensures fault ==> r.Failure?
      ensures !fault ==>
                match Activate(env.close, old(Contents()), version, now, orm)
                case Success(next) => Contents() == next && r == Success(next.snapshots[version])
                case Failure(e) => r == Failure(e)
    {
      var objection := ReviewSnapshot(version);
      if objection.Some? { return Failure(objection.value); }
      var snapshot := snapshots[version];
      assert WellStaged(version, snapshot);
      var prior := IndexPrior(instruments);
      forall i | 0 <= i < |snapshot.members| ensures '|' !in snapshot.members[i].segment {
        assert WellStagedMember(version, snapshot.members[i]);
        PlainSegment(snapshot.members[i].segment);
      }
      var prepared := PrepareMembers(env.close, now, instruments, prior, snapshot.members);
      if prepared.Failure? { return Failure(prepared.error); }
      var table := RunStatements(env.close, now, instruments, orm, prepared.value);
      if fault { return Failure(StoreFailed); }
      ActivationKeepsValid(env.close, Contents(), version, now, orm);
      instruments, snapshots := table, SwitchTo(snapshots, version, now);
      r := Success(snapshots[version]);
    }

    /** Sweeps the distinct expiry texts of tradable futures-and-options rows, then retires
        the rows whose text names a passed close. */
    method ExpireInstruments(asOf: int) returns (affected: nat)
      requires Valid()
      modifies this`instruments
      ensures Valid() && instruments == Expire(env.close, old(instruments), asOf)
      ensures affected == |set k | k in old(instruments) && Sweepable(env.close, asOf, old(instruments)[k])|
    {
      var expiries := set k | k in instruments && instruments[k].isTradable && instruments[k].expiry != ""
                              && instruments[k].segment in {"NFO", "BFO"} :: instruments[k].expiry;
      var todo, expired := expiries, {};
      while todo != {}
        invariant todo <= expiries
        invariant forall e :: e in expired <==>
                    e in expiries - todo && env.close(e).Some? && asOf >= env.close(e).value
      {
        var e :| e in todo;
        var expiry := env.close(e);
        if expiry.Some? && asOf >= expiry.value { expired := expired + {e}; }
        todo := todo - {e};
      }
      var hit := set k | k in instruments && instruments[k].isTradable
                         && instruments[k].segment in {"NFO", "BFO"} && instruments[k].expiry in expired;
      assert hit == set k | k in instruments && Sweepable(env.close, asOf, instruments[k]);
      affected := |hit|;
      instruments := map k | k in instruments :: if k in hit then Withdrawn(instruments[k]) else instruments[k];
    }
  }
}
