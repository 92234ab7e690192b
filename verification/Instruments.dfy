/**
 The canonical instrument record and the identity of a derivative contract
 (backend/internal/instrument/service/derivative_identity.go).

 Expiry parsing is a calendar lookup: every member that needs it takes the partial
 function `close`, which gives a parseable expiry text its closing instant.
 */
module Instruments {
  import opened Wrappers
  import Text

  /** A contract is identified by its symbol within an exchange segment. */
  datatype Key = Key(symbol: string, segment: string)

  datatype Instrument = Instrument(
    symbol: string, segment: string, exchange: string, token: string, name: string,
    instrumentType: string, expiry: string, strike: string, optionType: string,
    lotSize: int, tickSize: string, underlying: string, underlyingSymbol: string,
    active: bool, isTradable: bool, snapshotVersion: string)
  {
    function Contract(): Key { Key(symbol, segment) }

    function TokenKey(): Key { Key(token, segment) }
  }

  type Calendar = string -> Option<int>

  // ---- numeric value of a stored strike ----

  predicate IsDigit(c: char) { '0' <= c <= '9' }

  predicate AllDigits(s: string) { forall i :: 0 <= i < |s| ==> IsDigit(s[i]) }

  function Digit(c: char): real
    requires IsDigit(c)
  {
    (c as int - '0' as int) as real
  }

  function Whole(s: string): real
    requires AllDigits(s)
  {
    if s == "" then 0.0 else Whole(s[..|s| - 1]) * 10.0 + Digit(s[|s| - 1])
  }

  function Fraction(s: string): real
    requires AllDigits(s)
  {
    if s == "" then 0.0 else (Digit(s[0]) + Fraction(s[1..])) / 10.0
  }

  function IndexOf(s: string, c: char): (i: nat)
    ensures i <= |s| && c !in s[..i] && (i < |s| ==> s[i] == c)
  {
    if s == "" || s[0] == c then 0 else 1 + IndexOf(s[1..], c)
  }

  function Unsigned(s: string): Option<real> {
    var dot := IndexOf(s, '.');
    if dot == |s| then
      if s != "" && AllDigits(s) then Some(Whole(s)) else None
    else
      var whole, fraction := s[..dot], s[dot + 1..];
      if AllDigits(whole) && AllDigits(fraction) && (whole != "" || fraction != "")
      then Some(Whole(whole) + Fraction(fraction)) else None
  }

  function IdentityDecimal(raw: string): Option<real> {
    var clean := Text.Trim(raw);
    if clean == "" || (clean[0] != '+' && clean[0] != '-') then Unsigned(clean)
    else
      match Unsigned(clean[1..])
      case None => None
      case Some(v) => Some(if clean[0] == '-' then -v else v)
  }

  // ---- contract identity ----

  predicate IsFuture(instrumentType: string) {
    instrumentType == "FUTIDX" || instrumentType == "FUTSTK"
  }

  predicate NoStrike(raw: string) {
    Text.Trim(raw) == "" || IdentityDecimal(raw) == Some(-1.0)
  }

  predicate SameExpiry(close: Calendar, prior: string, next: string) {
    prior == next || (close(prior).Some? && close(prior) == close(next))
  }

  predicate SameStrike(future: bool, prior: string, next: string) {
    if prior == next then true
    else if future && NoStrike(prior) && NoStrike(next) then true
    else
      match (IdentityDecimal(prior), IdentityDecimal(next))
      case (Some(x), Some(y)) => x > 0.0 && y > 0.0 && x == y
      case _ => false
  }

  predicate SameDerivativeIdentity(close: Calendar, prior: Instrument, next: Instrument) {
    && prior.instrumentType == next.instrumentType
    && SameExpiry(close, prior.expiry, next.expiry)
    && SameStrike(IsFuture(next.instrumentType), prior.strike, next.strike)
  }

  // ---- the class a contract belongs to, independent of storage formatting ----

  datatype ExpiryForm = At(instant: int) | ExpiryText(text: string)
  datatype StrikeForm = Absent | Rupees(value: real) | StrikeText(text: string)
  datatype IdentityClass = IdentityClass(kind: string, expiry: ExpiryForm, strike: StrikeForm)

  function ExpiryClass(close: Calendar, text: string): ExpiryForm {
    match close(text) case Some(t) => At(t) case None => ExpiryText(text)
  }

  function StrikeClass(future: bool, text: string): StrikeForm {
    if future && NoStrike(text) then Absent
    else
      match IdentityDecimal(text)
      case Some(v) => if v > 0.0 then Rupees(v) else StrikeText(text)
      case None => StrikeText(text)
  }

  function ClassOf(close: Calendar, inst: Instrument): IdentityClass {
    IdentityClass(inst.instrumentType, ExpiryClass(close, inst.expiry),
                  StrikeClass(IsFuture(inst.instrumentType), inst.strike))
  }

  lemma TrimmedBlankHasNoValue(raw: string)
    requires Text.Trim(raw) == ""
    ensures IdentityDecimal(raw) == None
  {
    assert Unsigned("") == None;
  }

  lemma SameStrikeIffSameClass(future: bool, a: string, b: string)
    ensures SameStrike(future, a, b) <==> StrikeClass(future, a) == StrikeClass(future, b)
  {
    if Text.Trim(a) == "" { TrimmedBlankHasNoValue(a); }
    if Text.Trim(b) == "" { TrimmedBlankHasNoValue(b); }
  }

  /** Two contracts have the same identity exactly when they fall into the same class,
      so identity is reflexive, symmetric and transitive. */
  lemma SameIdentityIffSameClass(close: Calendar, a: Instrument, b: Instrument)
    ensures SameDerivativeIdentity(close, a, b) <==> ClassOf(close, a) == ClassOf(close, b)
  {
    if a.instrumentType == b.instrumentType {
      SameStrikeIffSameClass(IsFuture(b.instrumentType), a.strike, b.strike);
    }
  }

  lemma IdentityIsEquivalence(close: Calendar, a: Instrument, b: Instrument, c: Instrument)
    ensures SameDerivativeIdentity(close, a, a)
    ensures SameDerivativeIdentity(close, a, b) ==> SameDerivativeIdentity(close, b, a)
    ensures SameDerivativeIdentity(close, a, b) && SameDerivativeIdentity(close, b, c)
            ==> SameDerivativeIdentity(close, a, c)
  {
    SameIdentityIffSameClass(close, a, a);
    SameIdentityIffSameClass(close, a, b);
    SameIdentityIffSameClass(close, b, a);
    SameIdentityIffSameClass(close, b, c);
    SameIdentityIffSameClass(close, a, c);
  }

  // ---- storage formatting never changes a strike ----

  predicate AllZeros(s: string) { forall i :: 0 <= i < |s| ==> s[i] == '0' }

  lemma {:induction false} TrailingZeros(fraction: string, zeros: string)
    requires AllDigits(fraction) && AllZeros(zeros)
    ensures AllDigits(fraction + zeros)
    ensures Fraction(fraction + zeros) == Fraction(fraction)
    decreases |fraction| + |zeros|
  {
    if fraction != "" {
      assert (fraction + zeros)[1..] == fraction[1..] + zeros;
      TrailingZeros(fraction[1..], zeros);
    } else if zeros != "" {
      assert fraction + zeros == zeros && "" + zeros[1..] == zeros[1..];
      TrailingZeros("", zeros[1..]);
    } else {
      assert fraction + zeros == fraction;
    }
  }

  lemma {:induction false} FirstIndex(s: string, c: char, n: nat)
    requires n <= |s| && c !in s[..n] && (n < |s| ==> s[n] == c)
    ensures IndexOf(s, c) == n
  {
    if n > 0 {
      assert s[..n][0] == s[0] && s[1..][..n - 1] == s[..n][1..];
      FirstIndex(s[1..], c, n - 1);
    }
  }

  lemma UnsignedDigits(whole: string, fraction: string)
    requires AllDigits(whole) && AllDigits(fraction) && whole != ""
    ensures Unsigned(whole) == Some(Whole(whole))
    ensures Unsigned(whole + "." + fraction) == Some(Whole(whole) + Fraction(fraction))
  {
    var text := whole + "." + fraction;
    assert text[..|whole|] == whole && text[|whole| + 1..] == fraction;
    FirstIndex(whole, '.', |whole|);
    FirstIndex(text, '.', |whole|);
  }

  lemma DecimalOfDigits(whole: string, fraction: string)
    requires AllDigits(whole) && AllDigits(fraction) && whole != ""
    ensures IdentityDecimal(whole) == Some(Whole(whole))
    ensures IdentityDecimal(whole + "." + fraction) == Some(Whole(whole) + Fraction(fraction))
  {
    UnsignedDigits(whole, fraction);
    var text := whole + "." + fraction;
    assert IsDigit(whole[0]) && IsDigit(whole[|whole| - 1]) && text[0] == whole[0];
    assert text[|text| - 1] == '.' || IsDigit(text[|text| - 1]);
    Text.TrimSolid(text);
    Text.TrimSolid(whole);
    assert whole[0] != '+' && whole[0] != '-';
  }

  /** Padding a strike with decimals ("24500", "24500.", "24500.00") keeps the contract. */
  lemma StrikeFormattingKeepsIdentity(close: Calendar, inst: Instrument, whole: string, fraction: string, zeros: string)
    requires AllDigits(whole) && AllDigits(fraction) && whole != "" && AllZeros(zeros)
    requires Whole(whole) + Fraction(fraction) > 0.0
    ensures SameDerivativeIdentity(close, inst.(strike := whole + "." + fraction),
                                          inst.(strike := whole + "." + (fraction + zeros)))
    ensures fraction == "" ==>
              SameDerivativeIdentity(close, inst.(strike := whole), inst.(strike := whole + "." + zeros))
  {
    TrailingZeros(fraction, zeros);
    DecimalOfDigits(whole, fraction);
    DecimalOfDigits(whole, fraction + zeros);
    if fraction == "" {
      assert fraction + zeros == zeros;
    }
  }
}
