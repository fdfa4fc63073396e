/** Trade messages of the exchange (src/binance_trade_parser.cpp). */
module Binance {
  import opened Ascii
  import opened Options
  import opened Json
  import opened JsonNumbers
  import opened MarketEvents
  import opened CodecTheorems
  import opened SkipAndCount
  import opened Capture
  import opened CaptureTheorems
  import M = JsonNumbersMet

  // ---- std::from_chars for a double ----

  /** What std::from_chars finds at the beginning of a text; it looks no further than that. */
  datatype Found = Unconvertible | Decimal(text: string) | Infinite(negative: bool) | NotANumber

  /** Digits with at most one point among or around them. */
  function MantissaLen(t: string): (n: nat)
    ensures n <= |t|
  {
    var n := DigitsLen(t);
    if n < |t| && t[n] == '.' then
      var f := DigitsLen(t[n + 1..]);
      if n + f > 0 then n + 1 + f else 0
    else n
  }

  function ExponentLen(t: string): (n: nat)
    ensures n <= |t|
  {
    if t == [] || (t[0] != 'e' && t[0] != 'E') then 0
    else
      var u := t[1..];
      var sign := SignLen(u);
      var n := DigitsLen(u[sign..]);
      if n > 0 then 1 + sign + n else 0
  }

  function DecimalLen(t: string): (n: nat)
    ensures n <= |t|
  {
    var m := MantissaLen(t);
    if m == 0 then 0 else m + ExponentLen(t[m..])
  }

  predicate BeginsWithWord(t: string, word: string) {
    |word| <= |t| && forall i :: 0 <= i < |word| ==> Lower(t[i]) == word[i]
  }

  function Convert(t: string): Found {
    var u := Unsigned(t);
    var n := DecimalLen(u);
    if n > 0 then Decimal(t[..|t| - |u| + n])
    else if BeginsWithWord(u, "inf") then Infinite(|u| < |t|)
    else if BeginsWithWord(u, "nan") then NotANumber
    else Unconvertible
  }

  // ---- the parser ----

  /** The number a token denotes is negative or zero. */
  predicate AtMostZero(t: DoubleToken) {
    var u := Unsigned(t);
    |u| < |t| || forall i :: 0 <= i < MantissaLen(u) ==> u[i] == '0' || u[i] == '.'
  }

  /**
    The double that a price text denotes, if it is accepted as a price.  A decimal out of range
    is an error of the conversion.  Not being at most zero, infinity and NaN pass.
  */
  function PriceFrom(t: string): Option<Price> {
    match Convert(t)
    case Unconvertible => None
    case Decimal(d) =>
      if !DOUBLES.inRange(d) || AtMostZero(DOUBLES.round(d)) then None else Some(Finite(DOUBLES.round(d)))
    case Infinite(negative) => if negative then None else Some(NonFinite)
    case NotANumber => Some(NonFinite)
  }

  function ParseTradeData(data: map<string, Value>): Decoded {
    if "e" !in data || data["e"] != JString("trade") then
      Rejected("not a trade event (\"e\" != \"trade\")")
    else if "s" !in data || !data["s"].JString? || data["s"].s == "" then
      Rejected("missing or empty symbol (\"s\")")
    else if "p" !in data || !data["p"].JString? then
      Rejected("missing or non-string price (\"p\")")
    else if "T" !in data || !data["T"].JInt? then
      Rejected("missing or non-integer trade time (\"T\")")
    else
      var price := PriceFrom(data["p"].s);
      if price.None? then Rejected("price (\"p\") is not valid or not positive")
      else
        Accepted(MarketEvent(
          data["s"].s,
          price.value,
          FromMillis(Wrap(data["T"].i)),
          if "t" in data && data["t"].JInt? then Some(AsUnsigned(data["t"].i)) else None,
          ""))
  }

  function ParseEnvelope(envelope: Value): Decoded {
    if !envelope.JObject? || "data" !in envelope.members || !envelope.members["data"].JObject? then
      Rejected("missing or malformed \"data\" object")
    else ParseTradeData(envelope.members["data"].members)
  }

  /** An exception of the JSON parser other than parse_error is not caught. */
  datatype Outcome = Thrown | Returned(decoded: Decoded)

  function ParseTradeMessage(raw: string): Outcome {
    match Read(raw)
    case OutOfRange => Thrown
    case NotJson => Returned(Rejected("invalid JSON"))
    case ParsedAs(envelope) => Returned(ParseEnvelope(envelope))
  }

  /** next() of the live source names itself as the source. */
  function Sourced(e: MarketEvent): MarketEvent { e.(source := "live:binance") }

  // ---- what is accepted ----

  /**
    Every accepted event has a symbol and a price that is not at most zero.  Its time is the
    field T if and only if that fits, and is whole milliseconds if and only if T lost a
    multiple of 15625 times 2^64.
  */
  lemma AcceptedTrade(data: map<string, Value>)
    ensures ParseTradeData(data).Accepted? ==>
      var e, i := ParseTradeData(data).event, data["T"].i;
      && e.symbol != ""
      && (e.price.Finite? ==> !AtMostZero(e.price.token))
      && (MillisFit(i) <==> e.time == i * NS_PER_MS)
      && (MillisFit(i) ==> WholeMillis(e))
      && (WholeMillis(e) <==> Overflows(i) % 15625 == 0)
      && (Survives(e) <==> e.price.Finite? && WholeMillis(e))
      && (e.price.Finite? <==> Convert(data["p"].s).Decimal?)
  {
    if ParseTradeData(data).Accepted? { StoredTime(data["T"].i); }
  }

  /**
    A trade the parser accepts, recorded and replayed (or published and consumed), comes back
    as it was, if and only if its price text was a decimal and its T lost a multiple of 15625
    times 2^64, above all none.  A trade whose price text is "inf" or "nan" is accepted and
    then lost.
  */
  lemma TradeThroughCodec(data: map<string, Value>)
    ensures ParseTradeData(data).Accepted? ==>
      var e, i := Sourced(ParseTradeData(data).event), data["T"].i;
      && (Classify(Print(e)) == Good(e) <==> Convert(data["p"].s).Decimal? && Overflows(i) % 15625 == 0)
      && (MillisFit(i) ==> Overflows(i) == 0)
      && (!Convert(data["p"].s).Decimal? ==> Classify(Print(e)) == Malformed)
  {
    AcceptedTrade(data);
    if ParseTradeData(data).Accepted? {
      StoredTime(data["T"].i);
      RecordedLine(Sourced(ParseTradeData(data).event));
    }
  }

  /** The trade object of a message, if it has one. */
  function TradeObject(raw: string): Option<map<string, Value>> {
    var envelope := Read(raw);
    if envelope.ParsedAs? && envelope.value.JObject? && "data" in envelope.value.members
       && envelope.value.members["data"].JObject?
    then Some(envelope.value.members["data"].members) else None
  }

  lemma TradeIn(raw: string, e: MarketEvent)
    ensures ParseTradeMessage(raw) == Returned(Accepted(e))
       <==> TradeObject(raw).Some? && ParseTradeData(TradeObject(raw).value) == Accepted(e)
  {}

  /** The same for a whole message as it was received, by what its trade object holds. */
  lemma MessageThroughCodec(raw: string, e: MarketEvent)
    ensures ParseTradeMessage(raw) == Returned(Accepted(e)) ==>
      && TradeObject(raw).Some?
      && var data := TradeObject(raw).value;
      && "p" in data && data["p"].JString? && "T" in data && data["T"].JInt?
      && (Classify(Print(Sourced(e))) == Good(Sourced(e))
          <==> Convert(data["p"].s).Decimal? && Overflows(data["T"].i) % 15625 == 0)
      && (!Convert(data["p"].s).Decimal? ==> Classify(Print(Sourced(e))) == Malformed)
      && e.symbol != "" && e.source == ""
  {
    if ParseTradeMessage(raw) == Returned(Accepted(e)) {
      TradeIn(raw, e);
      AcceptedTrade(TradeObject(raw).value);
      TradeThroughCodec(TradeObject(raw).value);
    }
  }

  /** Such trades exist: a price text that starts with these letters is accepted, whatever follows. */
  lemma NonFinitePriceAccepted(rest: string)
    ensures PriceFrom("inf" + rest) == Some(NonFinite)
    ensures PriceFrom("NaN" + rest) == Some(NonFinite)
    ensures PriceFrom("-inf" + rest) == None
  {
    var a, b := "inf" + rest, "NaN" + rest;
    assert Unsigned("-inf" + rest) == a;
    assert a[0] == 'i' && a[1] == 'n' && a[2] == 'f';
    assert b[0] == 'N' && b[1] == 'a' && b[2] == 'N';
    NoDecimal(a);
    NoDecimal(b);
  }

  lemma NoDecimal(t: string)
    requires t != [] && !IsDigit(t[0]) && t[0] != '.'
    ensures DecimalLen(t) == 0
  {}

  // ---- the rest of the price text is not looked at ----

  predicate ExtendsDecimal(c: char) { IsDigit(c) || c == '.' || c == 'e' || c == 'E' }

  lemma MantissaBefore(t: string, junk: string)
    requires junk != [] && !IsDigit(junk[0]) && junk[0] != '.'
    ensures MantissaLen(t + junk) == MantissaLen(t)
  {
    M.DigitsLenBefore(t, junk);
    var n := DigitsLen(t);
    if n < |t| {
      assert (t + junk)[n + 1..] == t[n + 1..] + junk;
      M.DigitsLenBefore(t[n + 1..], junk);
    }
  }

  lemma ExponentBefore(t: string, junk: string)
    requires junk != [] && !ExtendsDecimal(junk[0]) && ExponentLen(t) == |t|
    ensures ExponentLen(t + junk) == |t|
  {
    if t != [] {
      var u := t[1..];
      var sign := SignLen(u);
      assert (t + junk)[1..] == u + junk;
      assert (u + junk)[sign..] == u[sign..] + junk;
      M.DigitsLenBefore(u[sign..], junk);
    }
  }

  lemma DecimalBefore(t: string, junk: string)
    requires junk != [] && !ExtendsDecimal(junk[0]) && t != [] && DecimalLen(t) == |t|
    ensures DecimalLen(t + junk) == |t|
  {
    MantissaBefore(t, junk);
    var m := MantissaLen(t);
    assert (t + junk)[m..] == t[m..] + junk;
    ExponentBefore(t[m..], junk);
  }

  /**
    A price text is accepted or rejected by its decimal prefix alone: for every text that is
    a decimal, appending anything that does not continue it changes nothing.
  */
  lemma TrailingTextIgnored(t: string, junk: string)
    requires junk != [] && !ExtendsDecimal(junk[0])
    requires Unsigned(t) != [] && DecimalLen(Unsigned(t)) == |Unsigned(t)|
    ensures Convert(t) == Decimal(t)
    ensures PriceFrom(t + junk) == PriceFrom(t)
  {
    assert Unsigned(t + junk) == Unsigned(t) + junk;
    DecimalBefore(Unsigned(t), junk);
    assert (t + junk)[..|t|] == t && t[..|t|] == t;
  }
}
