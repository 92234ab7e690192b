/**
 Closing-window observations archived by a recorder and flushers that may fail at any point
 (python-services/market-worker/settlement_store.py).

 Each block held under the lock, the database transaction, and a failure are one step each;
 any number of flushes may be in progress. Local times are Asia/Kolkata microseconds since
 1970-01-01T00:00 local time.
 */
module SettlementArchive {
  import opened Wrappers
  import Text

  const SECOND := 1000000
  const DAY := 86400 * SECOND

  /** 3 August 2026, the day the derivatives close moves to 15:40. */
  const NEW_CLOSE_DAY := 20668

  datatype Key = Key(symbol: string, day: int, mode: string)

  datatype Observation = Observation(key: Key, source: string, price: int, at: int)

  datatype Reading = Reading(symbol: string, price: int, source: string, mode: string, at: int, segment: string)

  // ---- which readings are accepted ----

  function LocalDay(at: int): int { at / DAY }

  /** Monday is 0; 1 January 1970 was a Thursday. */
  function Weekday(day: int): int { (day + 3) % 7 }

  function CloseOf(segment: string, at: int): int {
    var minute := if Text.Upper(segment) == "NFO" && LocalDay(at) >= NEW_CLOSE_DAY then 40 else 30;
    LocalDay(at) * DAY + (15 * 3600 + minute * 60) * SECOND
  }

  predicate AllowedSource(mode: string, source: string) {
    || (mode == "live" && source == "angelone_live")
    || (mode == "synthetic" && source in {"synthetic_gbm", "synthetic", "fno_engine", "simulated_deriv"})
  }

  predicate Admissible(configured: bool, r: Reading) {
    && configured && AllowedSource(r.mode, r.source) && r.price > 0 && Weekday(LocalDay(r.at)) < 5
    && CloseOf(r.segment, r.at) - 60 * SECOND <= r.at <= CloseOf(r.segment, r.at)
  }

  function Observe(r: Reading): Observation {
    Observation(Key(r.symbol, LocalDay(r.at), Text.Upper(r.mode)), r.source, r.price, r.at)
  }

  // ---- the state machine ----

  type Rows = map<Key, Observation>

  /** A flush in progress: it holds the rows it read, and then has committed them. */
  datatype Flush = Taken(rows: Rows) | Committed(rows: Rows)

  datatype State = State(pending: Rows, archive: Rows, flushes: map<nat, Flush>)

  predicate Supersedes(o: Observation, rows: Rows) {
    o.key in rows ==> rows[o.key].at < o.at
  }

  function Merge(rows: Rows, o: Observation): Rows {
    if Supersedes(o, rows) then rows[o.key := o] else rows
  }

  /** The conditional upsert of all rows in one transaction. */
  function Upsert(archive: Rows, rows: Rows): Rows {
    map k | k in archive.Keys + rows.Keys ::
      if k !in rows then archive[k]
      else if k !in archive || archive[k].at < rows[k].at then rows[k]
      else archive[k]
  }

  /** Drop the pending rows that are still the ones committed. */
  function Clear(pending: Rows, rows: Rows): Rows {
    map k | k in pending && !(k in rows && rows[k] == pending[k]) :: pending[k]
  }

  datatype Event =
    | Record(reading: Reading)
    | Take(worker: nat)
    | Commit(worker: nat)
    | Fail(worker: nat)
    | Finish(worker: nat)

  function Step(configured: bool, s: State, e: Event): State {
    match e
    case Record(r) => if Admissible(configured, r) then s.(pending := Merge(s.pending, Observe(r))) else s
    case Take(w) =>
      if w in s.flushes || s.pending == map[] then s else s.(flushes := s.flushes[w := Taken(s.pending)])
    case Commit(w) =>
      if w in s.flushes && s.flushes[w].Taken?
      then s.(archive := Upsert(s.archive, s.flushes[w].rows), flushes := s.flushes[w := Committed(s.flushes[w].rows)])
      else s
    case Fail(w) =>
      // The connection raises before or after the commit; pending rows are kept for a retry.
      s.(flushes := s.flushes - {w})
    case Finish(w) =>
      if w in s.flushes && s.flushes[w].Committed?
      then s.(pending := Clear(s.pending, s.flushes[w].rows), flushes := s.flushes - {w})
      else s
  }

  predicate Keyed(rows: Rows) {
    forall k :: k in rows ==> rows[k].key == k
  }

  function After(configured: bool, archive: Rows, events: seq<Event>): State {
    if events == [] then State(map[], archive, map[])
    else Step(configured, After(configured, archive, events[..|events| - 1]), events[|events| - 1])
  }

  // ---- what has been accepted so far, stated on the events alone ----

  function Accepted(configured: bool, events: seq<Event>): seq<Observation> {
    if events == [] then []
    else
      var e := events[|events| - 1];
      Accepted(configured, events[..|events| - 1])
      + if e.Record? && Admissible(configured, e.reading) then [Observe(e.reading)] else []
  }

  /** The observation was archived at the start or is one of those accepted. */
  predicate Seen(archive: Rows, os: seq<Observation>, o: Observation) {
    (o.key in archive && archive[o.key] == o) || o in os
  }

  /** Per key, the first of the latest observations seen. */
  function Newest(archive: Rows, os: seq<Observation>): Rows {
    if os == [] then archive else Merge(Newest(archive, os[..|os| - 1]), os[|os| - 1])
  }

  /** Newest is the latest of everything seen: nothing seen is later, and it was itself seen. */
  lemma {:induction false} NewestIsLatest(archive: Rows, os: seq<Observation>, k: Key)
    requires Keyed(archive)
    ensures k in Newest(archive, os) ==>
              Newest(archive, os)[k].key == k && Seen(archive, os, Newest(archive, os)[k])
    ensures forall o :: Seen(archive, os, o) && o.key == k ==>
              k in Newest(archive, os) && o.at <= Newest(archive, os)[k].at
  {
    if os != [] {
      var init := os[..|os| - 1];
      NewestIsLatest(archive, init, k);
      assert os == init + [os[|os| - 1]];
    }
  }

  // ---- which readings are kept, on their fields ----

  /** The close in local microseconds: 15:30, or 15:40 for derivatives from 3 August 2026 on. */
  ghost predicate IsClose(segment: string, day: int, close: int) {
    close == day * 86400000000 + if Text.Upper(segment) == "NFO" && day >= 20668 then 56400000000 else 55800000000
  }

  /** A configured recorder, a source that belongs to its mode, a price, no Saturday or Sunday, and a time
      from the last sixty seconds up to the close. */
  ghost predicate IsKept(configured: bool, r: Reading, day: int, close: int) {
    && configured && r.price > 0 && (day + 3) % 7 != 5 && (day + 3) % 7 != 6
    && (|| (r.mode == "live" && r.source == "angelone_live")
        || (r.mode == "synthetic" && r.source in {"synthetic_gbm", "synthetic", "fno_engine", "simulated_deriv"}))
    && close - 60000000 <= r.at <= close
  }

  lemma AdmissibleOnFields(configured: bool, r: Reading, day: int, close: int)
    requires day == r.at / 86400000000 && IsClose(r.segment, day, close)
    ensures Admissible(configured, r) <==> IsKept(configured, r, day, close)
    ensures Observe(r) == Observation(Key(r.symbol, day, Text.Upper(r.mode)), r.source, r.price, r.at)
  {
    assert LocalDay(r.at) == day;
    assert CloseOf(r.segment, r.at) == close;
    assert 0 <= (day + 3) % 7 < 7;
  }

  /** A reading is accepted if and only if the fields say so; it then waits, unless one of its symbol, day and
      mode that is at least as late already does. Any other reading changes nothing. */
  lemma KeptIff(configured: bool, archive: Rows, events: seq<Event>, r: Reading, day: int, close: int)
    requires day == r.at / 86400000000 && IsClose(r.segment, day, close)
    ensures var all, before := events + [Record(r)], After(configured, archive, events);
            var after := After(configured, archive, all);
            var o := Observation(Key(r.symbol, day, Text.Upper(r.mode)), r.source, r.price, r.at);
            var later := o.key !in before.pending || before.pending[o.key].at < r.at;
            && (IsKept(configured, r, day, close) ==>
                  && Accepted(configured, all) == Accepted(configured, events) + [o]
                  && after == before.(pending := if later then before.pending[o.key := o] else before.pending))
            && (!IsKept(configured, r, day, close) ==> Accepted(configured, all) == Accepted(configured, events) && after == before)
  {
    var all := events + [Record(r)];
    assert all[..|events|] == events && all[|events|] == Record(r);
    AdmissibleOnFields(configured, r, day, close);
  }

  // ---- nothing accepted is lost ----

  /** A waiting row of a key is the newest, or an older one, or it ties with a newest that is archived. */
  predicate NotNewer(newest: Rows, archive: Rows, o: Observation) {
    && o.key in newest
    && o.at <= newest[o.key].at
    && (o.at == newest[o.key].at ==>
          o == newest[o.key] || (o.key in archive && archive[o.key] == newest[o.key]))
  }

  predicate RowsNotNewer(newest: Rows, archive: Rows, rows: Rows) {
    forall k :: k in rows ==> rows[k].key == k && NotNewer(newest, archive, rows[k])
  }

  predicate Archives(archive: Rows, rows: Rows) {
    forall k :: k in rows ==> k in archive && archive[k].at >= rows[k].at
  }

  predicate Behind(newest: Rows, archive: Rows) {
    forall k :: k in archive ==>
      archive[k].key == k && k in newest && (archive[k] == newest[k] || archive[k].at < newest[k].at)
  }

  /** The newest accepted observation of every key is waiting or archived. */
  predicate Preserved(newest: Rows, s: State) {
    forall k :: k in newest ==>
      (k in s.pending && s.pending[k] == newest[k]) || (k in s.archive && s.archive[k] == newest[k])
  }

  predicate Inv(newest: Rows, s: State) {
    && Keyed(newest)
    && Behind(newest, s.archive)
    && RowsNotNewer(newest, s.archive, s.pending)
    && Preserved(newest, s)
    && (forall w :: w in s.flushes ==> RowsNotNewer(newest, s.archive, s.flushes[w].rows))
    && (forall w :: w in s.flushes && s.flushes[w].Committed? ==> Archives(s.archive, s.flushes[w].rows))
  }

  predicate NeverOlder(before: Rows, after: Rows) {
    forall k :: k in before ==> k in after && after[k].at >= before[k].at
  }

  lemma MergeKeepsRows(newest: Rows, archive: Rows, rows: Rows, o: Observation)
    requires Keyed(newest) && RowsNotNewer(newest, archive, rows)
    ensures RowsNotNewer(Merge(newest, o), archive, rows)
  {
  }

  lemma RecordKeepsInv(newest: Rows, s: State, o: Observation)
    requires Inv(newest, s)
    ensures Inv(Merge(newest, o), s.(pending := Merge(s.pending, o)))
  {
    var t := s.(pending := Merge(s.pending, o));
    var later := Merge(newest, o);
    MergeKeepsRows(newest, s.archive, s.pending, o);
    forall w | w in t.flushes ensures RowsNotNewer(later, t.archive, t.flushes[w].rows) {
      MergeKeepsRows(newest, s.archive, s.flushes[w].rows, o);
    }
    assert Supersedes(o, s.pending) ==> NotNewer(later, t.archive, o);
    assert RowsNotNewer(later, t.archive, t.pending);
  }

  lemma UpsertKeepsRows(newest: Rows, archive: Rows, rows: Rows, other: Rows)
    requires Behind(newest, archive) && RowsNotNewer(newest, archive, rows)
    requires RowsNotNewer(newest, archive, other)
    ensures RowsNotNewer(newest, Upsert(archive, rows), other)
  {
  }

  lemma CommitKeepsInv(newest: Rows, s: State, w: nat)
    requires Inv(newest, s) && w in s.flushes
    ensures Inv(newest, s.(archive := Upsert(s.archive, s.flushes[w].rows),
                           flushes := s.flushes[w := Committed(s.flushes[w].rows)]))
  {
    var rows := s.flushes[w].rows;
    var t := s.(archive := Upsert(s.archive, rows), flushes := s.flushes[w := Committed(rows)]);
    assert Behind(newest, t.archive);
    UpsertKeepsRows(newest, s.archive, rows, s.pending);
    UpsertKeepsRows(newest, s.archive, rows, rows);
    forall v | v in t.flushes ensures RowsNotNewer(newest, t.archive, t.flushes[v].rows) {
      if v != w { UpsertKeepsRows(newest, s.archive, rows, s.flushes[v].rows); }
    }
    forall v | v in t.flushes && t.flushes[v].Committed? ensures Archives(t.archive, t.flushes[v].rows) {
      if v != w { assert Archives(s.archive, s.flushes[v].rows); }
    }
    assert Preserved(newest, t);
  }

  lemma FinishKeepsInv(newest: Rows, s: State, w: nat)
    requires Inv(newest, s) && w in s.flushes && s.flushes[w].Committed?
    ensures Inv(newest, s.(pending := Clear(s.pending, s.flushes[w].rows), flushes := s.flushes - {w}))
  {
    var t := s.(pending := Clear(s.pending, s.flushes[w].rows), flushes := s.flushes - {w});
    assert Archives(s.archive, s.flushes[w].rows);
    assert Preserved(newest, t);
  }

  lemma StepKeepsInv(configured: bool, newest: Rows, s: State, e: Event)
    requires Inv(newest, s)
    ensures var later := if e.Record? && Admissible(configured, e.reading)
                         then Merge(newest, Observe(e.reading)) else newest;
            Inv(later, Step(configured, s, e))
    ensures NeverOlder(s.archive, Step(configured, s, e).archive)
  {
    match e {
      case Record(r) => if Admissible(configured, r) { RecordKeepsInv(newest, s, Observe(r)); }
      case Take(w) =>
      case Commit(w) => if w in s.flushes && s.flushes[w].Taken? { CommitKeepsInv(newest, s, w); }
      case Fail(w) =>
      case Finish(w) => if w in s.flushes && s.flushes[w].Committed? { FinishKeepsInv(newest, s, w); }
    }
  }

  lemma NewestAfter(configured: bool, archive: Rows, events: seq<Event>)
    requires events != []
    ensures var e := events[|events| - 1];
            var before := Newest(archive, Accepted(configured, events[..|events| - 1]));
            Newest(archive, Accepted(configured, events))
            == if e.Record? && Admissible(configured, e.reading) then Merge(before, Observe(e.reading)) else before
  {
    var os, e := Accepted(configured, events[..|events| - 1]), events[|events| - 1];
    if e.Record? && Admissible(configured, e.reading) {
      assert (os + [Observe(e.reading)])[..|os|] == os;
    } else {
      assert os + [] == os;
    }
  }

  lemma {:induction false} RunKeepsInv(configured: bool, archive: Rows, events: seq<Event>)
    requires Keyed(archive)
    ensures Inv(Newest(archive, Accepted(configured, events)), After(configured, archive, events))
  {
    if events != [] {
      var init := events[..|events| - 1];
      RunKeepsInv(configured, archive, init);
      StepKeepsInv(configured, Newest(archive, Accepted(configured, init)), After(configured, archive, init), events[|events| - 1]);
      NewestAfter(configured, archive, events);
    }
  }

  /** In every interleaving of records with flushes that fail before or after committing: an
      accepted observation is waiting or archived, unless a later one of its key, or one of the
      same time, is; and that one was itself accepted, or there at the start. */
  lemma NothingIsLost(configured: bool, archive: Rows, events: seq<Event>, o: Observation)
    requires Keyed(archive) && Seen(archive, Accepted(configured, events), o)
    ensures var s := After(configured, archive, events);
            exists kept {:trigger Seen(archive, Accepted(configured, events), kept)} ::
              && Seen(archive, Accepted(configured, events), kept) && kept.key == o.key && kept.at >= o.at
              && ((o.key in s.pending && s.pending[o.key] == kept) || (o.key in s.archive && s.archive[o.key] == kept))
  {
    RunKeepsInv(configured, archive, events);
    NewestIsLatest(archive, Accepted(configured, events), o.key);
    assert Seen(archive, Accepted(configured, events), Newest(archive, Accepted(configured, events))[o.key]);
  }

  /** The archived time of a key never decreases along a run. */
  lemma {:induction false} ArchiveNeverGoesBack(configured: bool, archive: Rows, events: seq<Event>, i: nat)
    requires Keyed(archive) && i <= |events|
    ensures NeverOlder(After(configured, archive, events[..i]).archive, After(configured, archive, events).archive)
    decreases |events|
  {
    if i == |events| {
      assert events[..i] == events;
    } else {
      var init := events[..|events| - 1];
      assert init[..i] == events[..i];
      ArchiveNeverGoesBack(configured, archive, init, i);
      RunKeepsInv(configured, archive, init);
      StepKeepsInv(configured, Newest(archive, Accepted(configured, init)), After(configured, archive, init), events[|events| - 1]);
    }
  }

  predicate AllSeen(archive: Rows, os: seq<Observation>, rows: Rows) {
    forall k :: k in rows ==> Seen(archive, os, rows[k])
  }

  predicate StateSeen(archive: Rows, os: seq<Observation>, s: State) {
    && AllSeen(archive, os, s.pending) && AllSeen(archive, os, s.archive)
    && forall w :: w in s.flushes ==> AllSeen(archive, os, s.flushes[w].rows)
  }

  lemma StateSeenGrows(archive: Rows, os: seq<Observation>, more: seq<Observation>, s: State)
    requires StateSeen(archive, os, s)
    ensures StateSeen(archive, os + more, s)
  {
    forall w | w in s.flushes ensures AllSeen(archive, os + more, s.flushes[w].rows) {
      assert AllSeen(archive, os, s.flushes[w].rows);
    }
  }

  /** Nothing is invented: every row that waits, is in flight or is archived was accepted. */
  lemma {:induction false} NothingIsInvented(configured: bool, archive: Rows, events: seq<Event>)
    requires Keyed(archive)
    ensures StateSeen(archive, Accepted(configured, events), After(configured, archive, events))
  {
    if events != [] {
      var init, e := events[..|events| - 1], events[|events| - 1];
      var before := After(configured, archive, init);
      var more := if e.Record? && Admissible(configured, e.reading) then [Observe(e.reading)] else [];
      NothingIsInvented(configured, archive, init);
      StateSeenGrows(archive, Accepted(configured, init), more, before);
      StepInventsNothing(configured, archive, Accepted(configured, init) + more, before, e);
    }
  }

  lemma StepInventsNothing(configured: bool, archive: Rows, os: seq<Observation>, s: State, e: Event)
    requires StateSeen(archive, os, s)
    requires e.Record? && Admissible(configured, e.reading) ==> Observe(e.reading) in os
    ensures StateSeen(archive, os, Step(configured, s, e))
  {
    if e.Commit? && e.worker in s.flushes {
      assert AllSeen(archive, os, s.flushes[e.worker].rows);
    }
  }

  /** Once every flush has finished without failing and nothing waits, the archive is up to date. */
  lemma QuietArchiveIsNewest(configured: bool, archive: Rows, events: seq<Event>)
    requires Keyed(archive) && After(configured, archive, events).pending == map[]
    ensures After(configured, archive, events).archive == Newest(archive, Accepted(configured, events))
  {
    RunKeepsInv(configured, archive, events);
  }

  // ---- the recorder ----

  /** The rows in some order, each once. */
  predicate Lists(rows: seq<Observation>, m: Rows) {
    && (forall i :: 0 <= i < |rows| ==> rows[i].key in m && m[rows[i].key] == rows[i])
    && (forall i, j :: 0 <= i < j < |rows| ==> rows[i].key != rows[j].key)
    && (forall k :: k in m ==> m[k] in rows)
  }

  /** The statements of one transaction, row after row. */
  function MergeAll(table: Rows, rows: seq<Observation>): Rows {
    if rows == [] then table else Merge(MergeAll(table, rows[..|rows| - 1]), rows[|rows| - 1])
  }

  lemma {:induction false} MergeAllAt(table: Rows, rows: seq<Observation>, k: Key)
    requires forall i, j :: 0 <= i < j < |rows| ==> rows[i].key != rows[j].key
    ensures (forall i :: 0 <= i < |rows| ==> rows[i].key != k) ==>
              (k in MergeAll(table, rows) <==> k in table) && (k in table ==> MergeAll(table, rows)[k] == table[k])
    ensures forall i :: 0 <= i < |rows| && rows[i].key == k ==>
              && k in MergeAll(table, rows)
              && MergeAll(table, rows)[k] == if Supersedes(rows[i], table) then rows[i] else table[k]
  {
    if rows != [] { MergeAllAt(table, rows[..|rows| - 1], k); }
  }

  /** The rows upserted one by one amount to one upsert of them all. */
  lemma MergeAllIsUpsert(table: Rows, rows: seq<Observation>, m: Rows)
    requires Lists(rows, m) && Keyed(m)
    ensures MergeAll(table, rows) == Upsert(table, m)
  {
    forall k ensures k in MergeAll(table, rows) <==> k in Upsert(table, m)
             ensures k in Upsert(table, m) ==> MergeAll(table, rows)[k] == Upsert(table, m)[k]
    {
      MergeAllAt(table, rows, k);
      if k in m {
        var i :| 0 <= i < |rows| && rows[i] == m[k];
        assert rows[i].key == k;
      }
    }
  }

  /** The transaction: one conditional insert per row. */
  method ExecuteMany(archive: Rows, rows: seq<Observation>, ghost m: Rows) returns (table: Rows)
    requires Lists(rows, m) && Keyed(m)
    ensures table == Upsert(archive, m)
  {
    table := archive;
    for i := 0 to |rows|
      invariant table == MergeAll(archive, rows[..i])
    {
      var row := rows[i];
      if row.key !in table || table[row.key].at < row.at {
        table := table[row.key := row];
      }
      assert rows[..i + 1][..i] == rows[..i];
    }
    assert rows[..|rows|] == rows;
    MergeAllIsUpsert(archive, rows, m);
  }

  /** Forget the committed rows, keeping those replaced by a later observation meanwhile. */
  method DeleteCommitted(waiting: Rows, rows: seq<Observation>, ghost m: Rows) returns (pending: Rows)
    requires Lists(rows, m) && Keyed(m)
    ensures pending == Clear(waiting, m)
  {
    pending := waiting;
    for i := 0 to |rows|
      invariant forall k :: k in pending ==> k in waiting && pending[k] == waiting[k]
      invariant forall k :: k in waiting && k !in pending ==> k in m && m[k] == waiting[k]
      invariant forall j :: 0 <= j < i && rows[j].key in pending ==> pending[rows[j].key] != rows[j]
    {
      var key := rows[i].key;
      if key in pending && pending[key] == rows[i] {
        pending := pending - {key};
      }
    }
  }

  class SettlementRecorder {
    const configured: bool
    var pending: Rows
    var table: Rows
    var flushes: map<nat, Flush>

    ghost predicate Valid() reads this {
      Keyed(pending) && Keyed(table) && forall w :: w in flushes ==> Keyed(flushes[w].rows)
    }

    ghost function Contents(): State reads this { State(pending, table, flushes) }

    constructor (configured: bool, archive: Rows)
      requires Keyed(archive)
      ensures this.configured == configured && Valid() && Contents() == After(configured, archive, [])
    {
      this.configured := configured;
      pending, table, flushes := map[], archive, map[];
    }

    method Record(r: Reading)
      requires Valid()
      modifies this
      ensures Valid() && Contents() == Step(configured, old(Contents()), Event.Record(r))
    {
      var allowed := AllowedSource(r.mode, r.source);
      var minute := if Text.Upper(r.segment) == "NFO" && LocalDay(r.at) >= NEW_CLOSE_DAY then 40 else 30;
      var close := LocalDay(r.at) * DAY + (15 * 3600 + minute * 60) * SECOND;
      if !configured || !allowed || r.price <= 0 || Weekday(LocalDay(r.at)) >= 5
         || !(close - 60 * SECOND <= r.at <= close) {
        return;
      }
      var key := Key(r.symbol, LocalDay(r.at), Text.Upper(r.mode));
      if key !in pending || pending[key].at < r.at {
        pending := pending[key := Observation(key, r.source, r.price, r.at)];
      }
    }

    method BeginFlush(w: nat)
      requires Valid()
      modifies this
      ensures Valid() && Contents() == Step(configured, old(Contents()), Take(w))
    {
      if w !in flushes && pending != map[] {
        flushes := flushes[w := Taken(pending)];
      }
    }

    method CommitFlush(w: nat, rows: seq<Observation>)
      requires Valid() && w in flushes && flushes[w].Taken? && Lists(rows, flushes[w].rows)
      modifies this
      ensures Valid() && Contents() == Step(configured, old(Contents()), Commit(w))
    {
      table := ExecuteMany(table, rows, flushes[w].rows);
      flushes := flushes[w := Committed(flushes[w].rows)];
    }

    method FailFlush(w: nat)
      requires Valid()
      modifies this
      ensures Valid() && Contents() == Step(configured, old(Contents()), Fail(w))
    {
      flushes := flushes - {w};
    }

    method FinishFlush(w: nat, rows: seq<Observation>)
      requires Valid() && w in flushes && flushes[w].Committed? && Lists(rows, flushes[w].rows)
      modifies this
      ensures Valid() && Contents() == Step(configured, old(Contents()), Finish(w))
    {
      pending := DeleteCommitted(pending, rows, flushes[w].rows);
      flushes := flushes - {w};
    }
  }
}
