/**
 What the importer makes of a provider record, field by field, and what a stream is staged as
 (backend/internal/instrument/service/instrument_service.go:454-607, 637-832).
 */
module ScripRules {
  import opened Wrappers
  import opened Instruments
  import opened InstrumentMaster
  import Text

  // ---- which records are accepted ----

  /** NSE and NFO are accepted; of the BSE only SENSEX is, by token, symbol or name. */
  lemma AcceptedIff(f: Formats, raw: Raw)
    ensures var token, segment := Text.Trim(raw.token), Text.Normal(raw.segment);
            ParseScrip(f, raw).Some? <==>
              && token != "" && Text.Normal(raw.symbol) != ""
              && (|| segment == "NSE" || segment == "NFO"
                  || (segment == "BSE" && (token == "99919000" || Text.Upper(raw.symbol) == "SENSEX" || Text.Upper(raw.name) == "SENSEX")))
  {
  }

  // ---- what an accepted record becomes ----

  /** `s` without the ending, if it has it. */
  predicate Without(s: string, ending: string, r: string) {
    if Text.HasSuffix(s, ending) then s == r + ending else r == s
  }

  /** Texts are trimmed; symbol and segment are upper-cased; the underlying is the name, or else the symbol
      without its -EQ ending. */
  predicate TextsRead(raw: Raw, inst: Instrument) {
    && inst.token == Text.Trim(raw.token) && inst.symbol == Text.Normal(raw.symbol)
    && inst.segment == Text.Normal(raw.segment) && inst.exchange == inst.segment
    && inst.name == Text.Trim(raw.name) && inst.expiry == Text.Trim(raw.expiry)
    && inst.underlyingSymbol == inst.underlying
    && (if inst.name != "" then inst.underlying == Text.Upper(inst.name) else Without(inst.symbol, "-EQ", inst.underlying))
    && inst.active && inst.snapshotVersion == ""
  }

  /** The given type says call or put, or else the end of the symbol does, or it is no option. */
  predicate OptionRead(raw: Raw, inst: Instrument) {
    var kind := Text.Normal(raw.instrumentType);
    if kind == "CE" || (kind != "PE" && Text.HasSuffix(inst.symbol, "CE")) then inst.optionType == "CE"
    else if kind == "PE" || Text.HasSuffix(inst.symbol, "PE") then inst.optionType == "PE"
    else inst.optionType == ""
  }

  /** The price text of the raw strike without trailing ".00", read as hundredths for NFO and only there. */
  predicate StrikeRead(f: Formats, raw: Raw, inst: Instrument) {
    if raw.strike == "" || raw.strike == "-1" || raw.strike == "-1.000000" then inst.strike == ""
    else
      match f.price(raw.strike, inst.segment == "NFO")
      case None => inst.strike == ""
      case Some(text) => Without(text, ".00", inst.strike)
  }

  /** The given lot, or the one of the underlying. */
  predicate LotRead(f: Formats, raw: Raw, inst: Instrument) {
    && inst.tickSize == f.tick(raw.tickSize)
    && (raw.lotSize > 0 ==> inst.lotSize == raw.lotSize)
    && (raw.lotSize <= 0 ==>
          && (inst.underlying == "NIFTY" || inst.underlying == "FINNIFTY" ==> inst.lotSize == 25)
          && (inst.underlying == "BANKNIFTY" ==> inst.lotSize == 15)
          && (inst.underlying == "MIDCPNIFTY" ==> inst.lotSize == 50)
          && (inst.underlying == "SENSEX" ==> inst.lotSize == 10)
          && (inst.underlying !in {"NIFTY", "FINNIFTY", "BANKNIFTY", "MIDCPNIFTY", "SENSEX"} ==> inst.lotSize == 1))
  }

  predicate OfIndex(inst: Instrument) { inst.underlying in {"NIFTY", "BANKNIFTY", "FINNIFTY", "MIDCPNIFTY"} }

  /** Indexes and equities of the cash segments, and derivatives that come without a type; any other type
      is kept. */
  predicate KindRead(raw: Raw, inst: Instrument) {
    var given, kind := Text.Normal(raw.instrumentType), inst.instrumentType;
    && (inst.segment == "NSE" ==>
          if given == "AMXIDX" || OfIndex(inst) then kind == "INDEX"
          else if given == "" || given == "EQ" || Text.HasSuffix(inst.symbol, "-EQ") then kind == "EQUITY"
          else kind == given)
    && (inst.segment == "BSE" ==>
          if given == "AMXIDX" || inst.underlying == "SENSEX" then kind == "INDEX"
          else if given == "" || given == "EQ" then kind == "EQUITY"
          else kind == given)
    && (inst.segment == "NFO" && given != "" ==> kind == given)
    && (inst.segment == "NFO" && given == "" ==>
          if inst.optionType == "" then kind == (if OfIndex(inst) then "FUTIDX" else "FUTSTK")
          else kind == (if OfIndex(inst) then "OPTIDX" else "OPTSTK"))
  }

  /** Equities of the NSE and the four derivative kinds of the NFO, but for SENSEX. */
  predicate TradableRead(inst: Instrument) {
    inst.isTradable <==>
      && inst.underlying != "SENSEX" && inst.symbol != "SENSEX"
      && (|| (inst.segment == "NSE" && inst.instrumentType == "EQUITY")
          || (inst.segment == "NFO" && inst.instrumentType in {"OPTIDX", "OPTSTK", "FUTIDX", "FUTSTK"}))
  }

  predicate Reads(f: Formats, raw: Raw, inst: Instrument) {
    TextsRead(raw, inst) && OptionRead(raw, inst) && StrikeRead(f, raw, inst) && LotRead(f, raw, inst)
    && KindRead(raw, inst) && TradableRead(inst)
  }

  lemma TrimmedSuffix(s: string, ending: string)
    ensures Without(s, ending, Text.TrimSuffix(s, ending))
  {
    if Text.HasSuffix(s, ending) {
      assert s == s[..|s| - |ending|] + s[|s| - |ending|..];
    }
  }

  lemma TextsAreRead(f: Formats, raw: Raw)
    requires ParseScrip(f, raw).Some?
    ensures TextsRead(raw, ParseScrip(f, raw).value)
  {
    TrimmedSuffix(Text.Normal(raw.symbol), "-EQ");
  }

  lemma OptionIsRead(f: Formats, raw: Raw)
    requires ParseScrip(f, raw).Some?
    ensures OptionRead(raw, ParseScrip(f, raw).value)
  {
  }

  lemma StrikeIsRead(f: Formats, raw: Raw)
    requires ParseScrip(f, raw).Some?
    ensures StrikeRead(f, raw, ParseScrip(f, raw).value)
  {
    var price := f.price(raw.strike, Text.Normal(raw.segment) == "NFO");
    if price.Some? { TrimmedSuffix(price.value, ".00"); }
  }

  lemma LotIsRead(f: Formats, raw: Raw)
    requires ParseScrip(f, raw).Some?
    ensures LotRead(f, raw, ParseScrip(f, raw).value)
  {
  }

  lemma KindIsRead(f: Formats, raw: Raw)
    requires ParseScrip(f, raw).Some?
    ensures KindRead(raw, ParseScrip(f, raw).value)
  {
  }

  lemma TradableIsRead(f: Formats, raw: Raw)
    requires ParseScrip(f, raw).Some?
    ensures TradableRead(ParseScrip(f, raw).value)
  {
  }

  /** Every field of an accepted record is the one that the rules name. */
  lemma RecordIsRead(f: Formats, raw: Raw)
    requires ParseScrip(f, raw).Some?
    ensures Reads(f, raw, ParseScrip(f, raw).value)
  {
    TextsAreRead(f, raw);
    OptionIsRead(f, raw);
    StrikeIsRead(f, raw);
    LotIsRead(f, raw);
    KindIsRead(f, raw);
    TradableIsRead(f, raw);
  }

  lemma WithoutIsUnique(s: string, ending: string, a: string, b: string)
    requires Without(s, ending, a) && Without(s, ending, b)
    ensures a == b
  {
    if Text.HasSuffix(s, ending) {
      assert a == (a + ending)[..|a|] && b == (b + ending)[..|b|];
    }
  }

  lemma KindIsDetermined(raw: Raw, a: Instrument, b: Instrument)
    requires KindRead(raw, a) && KindRead(raw, b) && a.segment == b.segment && a.segment in {"NSE", "BSE", "NFO"}
    requires a.symbol == b.symbol && a.underlying == b.underlying && a.optionType == b.optionType
    ensures a.instrumentType == b.instrumentType
  {
  }

  /** The rules leave nothing open. */
  lemma RulesDetermineRecord(f: Formats, raw: Raw, a: Instrument, b: Instrument)
    requires Reads(f, raw, a) && Reads(f, raw, b) && a.segment in {"NSE", "BSE", "NFO"}
    ensures a == b
  {
    if a.name == "" { WithoutIsUnique(a.symbol, "-EQ", a.underlying, b.underlying); }
    var price := f.price(raw.strike, a.segment == "NFO");
    if raw.strike !in {"", "-1", "-1.000000"} && price.Some? { WithoutIsUnique(price.value, ".00", a.strike, b.strike); }
    KindIsDetermined(raw, a, b);
    assert a.strike == b.strike && a.lotSize == b.lotSize;
  }

  // ---- what a stream is staged as ----

  /** A run limited to segments or underlyings takes only those. */
  predicate Targets(opts: Options, inst: Instrument) {
    && (opts.segments.Some? ==> inst.segment in opts.segments.value)
    && (opts.underlyings.Some? ==> inst.underlying in opts.underlyings.value || inst.symbol in opts.underlyings.value)
  }

  /** Each stream is refused for the first thing wrong with it, and a refused stream stores nothing. */
  lemma StagingErrors(f: Formats, close: Calendar, db: Db, version: string, stream: Stream, opts: Options)
    ensures var r := StageStream(f, close, db, version, stream, opts);
            var whole := forall i :: 0 <= i < |stream.items| ==> stream.items[i].Decoded?;
            && (!stream.opens ==> r == Failure(NotAnArray))
            && (stream.opens && !whole ==> r == Failure(BrokenItem))
            && (stream.opens && whole && !stream.closes ==> r == Failure(IncompleteArray))
            && (stream.opens && whole && stream.closes && stream.trailing ==> r == Failure(TrailingData))
            && (stream.opens && whole && stream.closes && !stream.trailing ==>
                  if version in db.snapshots then r == Failure(VersionTaken)
                  else && r.Success? && r.value.rows == db.rows
                       && r.value.snapshots.Keys == db.snapshots.Keys + {version}
                       && forall v :: v in db.snapshots ==> r.value.snapshots[v] == db.snapshots[v])
  {
  }

  lemma {:induction false} AcceptedAreItems(accept: Acceptance, items: seq<Raw>)
    ensures forall i :: 0 <= i < |Accepted(accept, items)| ==> Accepted(accept, items)[i].0 in items
    ensures forall raw :: raw in items && accept(raw).Some? ==> (raw, accept(raw).value) in Accepted(accept, items)
  {
    if items != [] {
      AcceptedAreItems(accept, items[..|items| - 1]);
    }
  }

  /** A stored master is STAGED if and only if it has records, no two of them share symbol and segment or
      token and segment, and every derivative has a lot size and a readable expiry. */
  lemma StagedOnFields(f: Formats, close: Calendar, db: Db, version: string, stream: Stream, opts: Options)
    requires Readable(stream.items) && StageStream(f, close, db, version, stream, opts).Success?
    ensures var a := Accepted(Accept(f, opts), Raws(stream.items));
            var s := StageStream(f, close, db, version, stream, opts).value.snapshots[version];
            && (s.partial <==> opts.underlyings.Some?
                               || (opts.segments.Some? && !("NSE" in opts.segments.value && "NFO" in opts.segments.value)))
            && s.status == (if && a != []
                               && (forall i, j :: 0 <= i < j < |a| ==>
                                     && !(a[i].1.symbol == a[j].1.symbol && a[i].1.segment == a[j].1.segment)
                                     && !(a[i].1.token == a[j].1.token && a[i].1.segment == a[j].1.segment))
                               && (forall i :: 0 <= i < |a| && a[i].1.segment == "NFO" ==>
                                     a[i].0.lotSize > 0 && close(a[i].1.expiry).Some?)
                            then Staged else Failed)
  {
    var a := Accepted(Accept(f, opts), Raws(stream.items));
    StagedIffClean(f, close, db, version, stream, opts);
    if Clean(close, a) {
      forall i, j | 0 <= i < j < |a|
        ensures !(a[i].1.symbol == a[j].1.symbol && a[i].1.segment == a[j].1.segment)
        ensures !(a[i].1.token == a[j].1.token && a[i].1.segment == a[j].1.segment)
      {
        assert a[i].1.Contract() != a[j].1.Contract() && a[i].1.TokenKey() != a[j].1.TokenKey();
      }
      forall i | 0 <= i < |a| && a[i].1.segment == "NFO" ensures a[i].0.lotSize > 0 && close(a[i].1.expiry).Some? {
        assert ValidDerivative(close, a[i].0, a[i].1);
      }
    }
  }

  /** Every member of a staged master is a targeted record of the stream read by the rules, and every
      record that is accepted and targeted is a member. */
  lemma StagedMembersAreRead(f: Formats, close: Calendar, db: Db, version: string, stream: Stream, opts: Options)
    requires Readable(stream.items) && StageStream(f, close, db, version, stream, opts).Success?
    requires StageStream(f, close, db, version, stream, opts).value.snapshots[version].status == Staged
    ensures var ms := StageStream(f, close, db, version, stream, opts).value.snapshots[version].members;
            && (forall m :: m in ms ==>
                  m.snapshotVersion == version && Targets(opts, m)
                  && exists raw :: raw in Raws(stream.items) && Reads(f, raw, m.(snapshotVersion := "")))
            && (forall raw, inst :: raw in Raws(stream.items) && ParseScrip(f, raw) == Some(inst) && Targets(opts, inst) ==>
                  inst.(snapshotVersion := version) in ms)
  {
    var accept, raws := Accept(f, opts), Raws(stream.items);
    var a := Accepted(accept, raws);
    var ms := StageStream(f, close, db, version, stream, opts).value.snapshots[version].members;
    StagedIffClean(f, close, db, version, stream, opts);
    AcceptedAreItems(accept, raws);
    forall m | m in ms
      ensures m.snapshotVersion == version && Targets(opts, m)
      ensures exists raw :: raw in raws && Reads(f, raw, m.(snapshotVersion := ""))
    {
      var i :| 0 <= i < |ms| && ms[i] == m;
      MemberIsRead(f, opts, a[i].0, a[i].1, version);
      assert a[i].0 in raws;
    }
    forall raw, inst | raw in raws && ParseScrip(f, raw) == Some(inst) && Targets(opts, inst)
      ensures inst.(snapshotVersion := version) in ms
    {
      RecordIsRead(f, raw);
      assert accept(raw) == Some(inst);
      var i :| 0 <= i < |a| && a[i] == (raw, inst);
      assert ms[i] == Stamped(inst, version);
    }
  }

  lemma MemberIsRead(f: Formats, opts: Options, raw: Raw, inst: Instrument, version: string)
    requires Accept(f, opts)(raw) == Some(inst)
    ensures var m := Stamped(inst, version);
            m.snapshotVersion == version && Targets(opts, m) && Reads(f, raw, m.(snapshotVersion := ""))
  {
    RecordIsRead(f, raw);
    assert Stamped(inst, version).(snapshotVersion := "") == inst;
  }
}
