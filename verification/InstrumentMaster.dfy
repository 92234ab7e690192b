/**
 Staging, activation and expiry of the instrument master as functions on the database
 (backend/internal/instrument/service/instrument_service.go).

 A database transaction is one atomic step; a table is a map. `close` is the calendar
 lookup behind ParseExpiryDate. Number formatting of prices is a parameter.
 */
module InstrumentMaster {
  import opened Wrappers
  import opened Instruments
  import Text

  // ---- database ----

  datatype Status = Staged | Active | Retired | Failed

  datatype Snapshot = Snapshot(
    version: string, members: seq<Instrument>, partial: bool, total: int,
    errors: seq<string>, status: Status, activatedAt: Option<int>)

  datatype Db = Db(rows: map<Key, Instrument>, snapshots: map<string, Snapshot>)

  // ---- one scrip record ----

  /** A provider record; `lotSize` is the decoded integer, not positive when malformed. */
  datatype Raw = Raw(token: string, symbol: string, name: string, expiry: string, strike: string,
                     lotSize: int, instrumentType: string, segment: string, tickSize: string)

  /** `price(text, paise)` is the two-decimal text of a positive number, divided by 100 when
      `paise`; `tick(text)` the rupee tick size. */
  datatype Formats = Formats(price: (string, bool) -> Option<string>, tick: string -> string)

  predicate IsIndexUnderlying(name: string) {
    name in {"NIFTY", "BANKNIFTY", "FINNIFTY", "MIDCPNIFTY"}
  }

  function StrikeText(f: Formats, raw: string, segment: string): string {
    if raw in {"", "-1", "-1.000000"} then ""
    else
      match f.price(raw, segment == "NFO")
      case Some(text) => Text.TrimSuffix(text, ".00")
      case None => ""
  }

  function OptionType(raw: Raw, symbol: string): string {
    var given := Text.Normal(raw.instrumentType);
    if given == "CE" || given == "PE" then given
    else if Text.HasSuffix(symbol, "CE") then "CE"
    else if Text.HasSuffix(symbol, "PE") then "PE"
    else ""
  }

  function LotSize(lot: int, underlying: string): (r: int)
    ensures r > 0
  {
    if lot > 0 then lot
    else if underlying == "NIFTY" || underlying == "FINNIFTY" then 25
    else if underlying == "BANKNIFTY" then 15
    else if underlying == "MIDCPNIFTY" then 50
    else if underlying == "SENSEX" then 10
    else 1
  }

  function Kind(rawType: string, segment: string, symbol: string, underlying: string, optionType: string): string {
    if segment == "NSE" then
      if rawType == "AMXIDX" || IsIndexUnderlying(underlying) then "INDEX"
      else if rawType == "" || rawType == "EQ" || Text.HasSuffix(symbol, "-EQ") then "EQUITY"
      else rawType
    else if segment == "BSE" then
      if rawType == "AMXIDX" || underlying == "SENSEX" then "INDEX"
      else if rawType == "" || rawType == "EQ" then "EQUITY"
      else rawType
    else if segment == "NFO" && rawType == "" then
      if optionType != "" then (if IsIndexUnderlying(underlying) then "OPTIDX" else "OPTSTK")
      else (if IsIndexUnderlying(underlying) then "FUTIDX" else "FUTSTK")
    else rawType
  }

  predicate ListedTradable(kind: string, segment: string, symbol: string, underlying: string) {
    && kind != "INDEX" && kind != "AMXIDX" && underlying != "SENSEX" && symbol != "SENSEX"
    && ((segment == "NSE" && kind == "EQUITY")
        || (segment == "NFO" && kind in {"OPTIDX", "OPTSTK", "FUTIDX", "FUTSTK"}))
  }

  predicate AcceptedSegment(raw: Raw) {
    var segment := Text.Normal(raw.segment);
    || segment == "NSE" || segment == "NFO"
    || (segment == "BSE" && (Text.Trim(raw.token) == "99919000" || Text.Upper(raw.symbol) == "SENSEX"
                             || Text.Upper(raw.name) == "SENSEX"))
  }

  /** What every accepted record satisfies. */
  predicate Canonical(inst: Instrument) {
    && inst.segment in {"NSE", "NFO", "BSE"}
    && inst.symbol != "" && inst.token != "" && inst.lotSize > 0 && inst.active
    && (inst.isTradable ==> inst.segment != "BSE" && inst.instrumentType != "INDEX")
  }

  function ParseScrip(f: Formats, raw: Raw): (r: Option<Instrument>)
    ensures r.Some? ==> Canonical(r.value)
  {
    var token, segment := Text.Trim(raw.token), Text.Normal(raw.segment);
    var symbol := Text.Normal(raw.symbol);
    if token == "" || segment == "" || !AcceptedSegment(raw) || symbol == "" then None
    else
      var name := Text.Trim(raw.name);
      var underlying := if name == "" then Text.TrimSuffix(symbol, "-EQ") else Text.Upper(name);
      var optionType := OptionType(raw, symbol);
      var kind := Kind(Text.Normal(raw.instrumentType), segment, symbol, underlying, optionType);
      Some(Instrument(symbol, segment, segment, token, name, kind, Text.Trim(raw.expiry),
                      StrikeText(f, raw.strike, segment), optionType, LotSize(raw.lotSize, underlying),
                      f.tick(raw.tickSize), underlying, underlying, true,
                      ListedTradable(kind, segment, symbol, underlying), ""))
  }

  // ---- staging ----

  datatype Options = Options(segments: Option<set<string>>, underlyings: Option<set<string>>)

  predicate Targeted(opts: Options, inst: Instrument) {
    && (opts.segments.Some? ==> inst.segment in opts.segments.value)
    && (opts.underlyings.Some? ==>
          inst.underlying in opts.underlyings.value || inst.symbol in opts.underlyings.value)
  }

  predicate IsPartial(opts: Options) {
    || opts.underlyings.Some?
    || (opts.segments.Some? && !("NSE" in opts.segments.value && "NFO" in opts.segments.value))
  }

  /** The acceptance rule of one run: a record parses and is targeted. */
  type Acceptance = Raw -> Option<Instrument>

  function Accept(f: Formats, opts: Options): (accept: Acceptance)
    ensures forall raw :: accept(raw).Some? ==> Canonical(accept(raw).value) && Targeted(opts, accept(raw).value)
  {
    (raw: Raw) =>
      match ParseScrip(f, raw)
      case Some(inst) => if Targeted(opts, inst) then Some(inst) else None
      case None => None
  }

  predicate ValidDerivative(close: Calendar, raw: Raw, inst: Instrument) {
    inst.segment == "NFO" ==> raw.lotSize > 0 && close(inst.expiry).Some?
  }

  datatype Staging = Staging(
    members: seq<Instrument>, contracts: set<Key>, tokens: set<Key>,
    errors: seq<string>, processed: nat, skipped: nat)

  const EMPTY_STAGING := Staging([], {}, {}, [], 0, 0)

  /** Violations past the hundredth are not recorded. */
  function Capped(errors: seq<string>, message: string): seq<string> {
    if |errors| < 100 then errors + [message] else errors
  }

  function StageAccepted(close: Calendar, version: string, s: Staging, raw: Raw, inst: Instrument): Staging {
    if inst.Contract() in s.contracts then
      s.(errors := s.errors + ["duplicate contract"], skipped := s.skipped + 1)
    else
      var s := s.(contracts := s.contracts + {inst.Contract()});
      if inst.TokenKey() in s.tokens then
        s.(errors := Capped(s.errors, "duplicate token"), skipped := s.skipped + 1)
      else
        var s := s.(tokens := s.tokens + {inst.TokenKey()});
        if inst.segment == "NFO" && raw.lotSize <= 0 then
          s.(errors := Capped(s.errors, "invalid lot size"), skipped := s.skipped + 1)
        else if inst.segment == "NFO" && close(inst.expiry).None? then
          s.(errors := Capped(s.errors, "invalid expiry format"), skipped := s.skipped + 1)
        else
          s.(members := s.members + [Stamped(inst, version)])
  }

  function StageItem(accept: Acceptance, close: Calendar, version: string, s: Staging, raw: Raw): Staging {
    var s := s.(processed := s.processed + 1);
    match accept(raw)
    case None => s.(skipped := s.skipped + 1)
    case Some(inst) => StageAccepted(close, version, s, raw, inst)
  }

  function Stamped(inst: Instrument, version: string): Instrument {
    inst.(snapshotVersion := version, active := true)
  }

  function StageAll(accept: Acceptance, close: Calendar, version: string, items: seq<Raw>): Staging {
    if items == [] then EMPTY_STAGING
    else
      StageItem(accept, close, version, StageAll(accept, close, version, items[..|items| - 1]), items[|items| - 1])
  }

  datatype Item = Decoded(raw: Raw) | Broken

  /** The JSON stream: whether the array opens, its items, whether it closes and what follows. */
  datatype Stream = Stream(opens: bool, items: seq<Item>, closes: bool, trailing: bool)

  datatype StageError = NotAnArray | BrokenItem | IncompleteArray | TrailingData | VersionTaken

  predicate Readable(items: seq<Item>) {
    forall i :: 0 <= i < |items| ==> items[i].Decoded?
  }

  function Raws(items: seq<Item>): seq<Raw>
    requires Readable(items)
  {
    seq(|items|, i requires 0 <= i < |items| => items[i].raw)
  }

  function SnapshotOf(s: Staging, opts: Options, version: string): Snapshot {
    Snapshot(version, s.members, IsPartial(opts), |s.members|, s.errors,
             if s.members == [] || s.errors != [] then Failed else Staged, None)
  }

  /** A missing version is replaced by `generated`, the time-stamped one. */
  function Version(version: string, generated: string): string {
    if version == "" then generated else version
  }

  function StageStream(f: Formats, close: Calendar, db: Db, version: string, stream: Stream, opts: Options)
    : Result<Db, StageError>
  {
    if !stream.opens then Failure(NotAnArray)
    else if !Readable(stream.items) then Failure(BrokenItem)
    else if !stream.closes then Failure(IncompleteArray)
    else if stream.trailing then Failure(TrailingData)
    else if version in db.snapshots then Failure(VersionTaken)
    else
      var staging := StageAll(Accept(f, opts), close, version, Raws(stream.items));
      Success(db.(snapshots := db.snapshots[version := SnapshotOf(staging, opts, version)]))
  }

  // ---- what staging keeps ----

  function Accepted(accept: Acceptance, items: seq<Raw>): (r: seq<(Raw, Instrument)>)
    ensures forall i :: 0 <= i < |r| ==> accept(r[i].0) == Some(r[i].1)
  {
    if items == [] then []
    else
      var rest, last := Accepted(accept, items[..|items| - 1]), items[|items| - 1];
      match accept(last)
      case Some(inst) => rest + [(last, inst)]
      case None => rest
  }

  /** A master is clean when contract keys and token keys are pairwise distinct and every
      derivative carries a lot size and a readable expiry. */
  predicate Clean(close: Calendar, accepted: seq<(Raw, Instrument)>) {
    && (forall i, j :: 0 <= i < j < |accepted| ==> accepted[i].1.Contract() != accepted[j].1.Contract())
    && (forall i, j :: 0 <= i < j < |accepted| ==> accepted[i].1.TokenKey() != accepted[j].1.TokenKey())
    && (forall i :: 0 <= i < |accepted| ==> ValidDerivative(close, accepted[i].0, accepted[i].1))
  }

  function Members(accepted: seq<(Raw, Instrument)>, version: string): seq<Instrument> {
    seq(|accepted|, i requires 0 <= i < |accepted| => Stamped(accepted[i].1, version))
  }

  function ContractKeys(a: seq<(Raw, Instrument)>): set<Key> {
    set i | 0 <= i < |a| :: a[i].1.Contract()
  }

  function TokenKeys(a: seq<(Raw, Instrument)>): set<Key> {
    set i | 0 <= i < |a| :: a[i].1.TokenKey()
  }

  lemma Snoc(close: Calendar, version: string, a: seq<(Raw, Instrument)>, raw: Raw, inst: Instrument)
    ensures var b := a + [(raw, inst)];
            && Members(b, version) == Members(a, version) + [Stamped(inst, version)]
            && ContractKeys(b) == ContractKeys(a) + {inst.Contract()}
            && TokenKeys(b) == TokenKeys(a) + {inst.TokenKey()}
            && (Clean(close, b) <==> Clean(close, a) && inst.Contract() !in ContractKeys(a)
                                     && inst.TokenKey() !in TokenKeys(a) && ValidDerivative(close, raw, inst))
  {
    var b := a + [(raw, inst)];
    assert b[|a|] == (raw, inst) && forall i :: 0 <= i < |a| ==> b[i] == a[i];
    assert ContractKeys(b) == ContractKeys(a) + {inst.Contract()} by {
      forall k | k in ContractKeys(a) + {inst.Contract()} ensures k in ContractKeys(b) {
        if k != inst.Contract() {
          var i :| 0 <= i < |a| && a[i].1.Contract() == k;
          assert b[i].1.Contract() == k;
        } else {
          assert b[|a|].1.Contract() == k;
        }
      }
    }
    assert TokenKeys(b) == TokenKeys(a) + {inst.TokenKey()} by {
      forall k | k in TokenKeys(a) + {inst.TokenKey()} ensures k in TokenKeys(b) {
        if k != inst.TokenKey() {
          var i :| 0 <= i < |a| && a[i].1.TokenKey() == k;
          assert b[i].1.TokenKey() == k;
        } else {
          assert b[|a|].1.TokenKey() == k;
        }
      }
    }
  }

  ghost predicate Tracks(close: Calendar, version: string, s: Staging, a: seq<(Raw, Instrument)>, count: nat) {
    && s.processed == count == |s.members| + s.skipped
    && (s.errors == [] <==> Clean(close, a))
    && (s.errors == [] ==>
          s.members == Members(a, version) && s.contracts == ContractKeys(a) && s.tokens == TokenKeys(a))
  }

  lemma TracksStep(close: Calendar, version: string, s: Staging, a: seq<(Raw, Instrument)>, raw: Raw, inst: Instrument, count: nat)
    requires Tracks(close, version, s, a, count)
    ensures Tracks(close, version, StageAccepted(close, version, s.(processed := s.processed + 1), raw, inst),
                   a + [(raw, inst)], count + 1)
  {
    Snoc(close, version, a, raw, inst);
  }

  /** Once an error is recorded none is ever forgotten; until then every accepted contract
      has been kept, in order. */
  lemma {:induction false} StagingKeepsAccepted(accept: Acceptance, close: Calendar, version: string, items: seq<Raw>)
    ensures Tracks(close, version, StageAll(accept, close, version, items), Accepted(accept, items), |items|)
  {
    if items != [] {
      var init, last := items[..|items| - 1], items[|items| - 1];
      StagingKeepsAccepted(accept, close, version, init);
      var s, a := StageAll(accept, close, version, init), Accepted(accept, init);
      var accepted := accept(last);
      if accepted.Some? {
        TracksStep(close, version, s, a, last, accepted.value, |init|);
      }
    }
  }

  /** A stream is staged for activation exactly when it is well formed under an unused
      version and its accepted contracts are non-empty and clean; then the snapshot holds
      every accepted contract in order. Otherwise it is stored as failed. */
  lemma StagedIffClean(f: Formats, close: Calendar, db: Db, version: string, stream: Stream, opts: Options)
    requires Readable(stream.items) && StageStream(f, close, db, version, stream, opts).Success?
    ensures var a := Accepted(Accept(f, opts), Raws(stream.items));
            var snapshot := StageStream(f, close, db, version, stream, opts).value.snapshots[version];
            && snapshot.status == (if a != [] && Clean(close, a) then Staged else Failed)
            && (snapshot.status == Staged ==>
                  snapshot.members == Members(a, version) && snapshot.total == |a|)
  {
    var a := Accepted(Accept(f, opts), Raws(stream.items));
    StagingKeepsAccepted(Accept(f, opts), close, version, Raws(stream.items));
    assert |Members(a, version)| == |a|;
  }
}
