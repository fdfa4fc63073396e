/** The capture format of one event (include/tickforge/market_event_json.hpp, src/market_event_json.cpp). */
module MarketEvents {
  import opened Options
  import opened Json
  import opened JsonNumbers
  import opened JsonRoundTrip

  const TWO64: int := 0x1_0000_0000_0000_0000
  const NS_PER_MS: int := 1_000_000
  const MAX_MILLIS: int := 9_223_372_036_854  // what fits 64 bits in nanoseconds

  type Int64 = x: int | MIN_INT64 <= x <= MAX_INT64 witness 0
  type UInt64 = x: int | 0 <= x <= MAX_UINT64 witness 0

  function ZeroText(): (t: string)
    ensures ValidNumber(t) && !IsIntegral(t)
  {
    assert "0.0"[1..] == ".0" && ".0"[1..] == "0" && "0"[1..] == "";
    assert DigitsLen("0.0") == 1 && DigitsLen("0") == 1;
    assert !IsDigit("0.0"[1]);
    "0.0"
  }

  /** How the JSON library writes a finite double: always with a point or an exponent. */
  type DoubleToken = t: string | ValidNumber(t) && !IsIntegral(t) witness ZeroText()

  /**
    Number texts and doubles: which texts a finite double is near to, which of these
    std::from_chars does not call out of range (it does so when they are too near to zero
    also), and how the JSON library prints the nearest double.
  */
  datatype Conversion = Conversion(fits: string -> bool, inRange: string -> bool, round: string -> DoubleToken)

  /** A printed double denotes itself, and however it is cut short it denotes a finite one. */
  predicate Canonical(c: Conversion, t: DoubleToken) { c.round(t) == t && BeginningsFit(c.fits, t) }

  ghost predicate Lawful(c: Conversion) { forall t: string :: Canonical(c, c.round(t)) }

  type Doubles = c: Conversion | Lawful(c)
    witness Conversion((t: string) => true, (t: string) => true, (t: string) => ZeroText())

  /** The conversion of the platform.  Nothing but its laws is known of it. */
  const DOUBLES: Doubles

  type PrintedDouble = t: DoubleToken | Canonical(DOUBLES, t) witness DOUBLES.round("")

  /** A double, given by its printed form; infinities and NaN have none. */
  datatype Price = Finite(token: PrintedDouble) | NonFinite

  /** Parsing as the JSON library does it: a number out of range raises an exception. */
  function Read(t: string): Text { ReadText(DOUBLES.fits, t) }

  /** `time` counts nanoseconds, the resolution of the system clock.  ingest_time is never stored. */
  datatype MarketEvent = MarketEvent(
    symbol: string,
    price: Price,
    time: Int64,
    sequence: Option<UInt64>,
    source: string)

  datatype Decoded = Accepted(event: MarketEvent) | Rejected(reason: string)

  // ---- 64-bit arithmetic ----

  /** duration_cast to milliseconds: division truncated toward zero. */
  function ToMillis(time: Int64): Int64 {
    var t: int := time;
    if t < 0 then -((-t) / NS_PER_MS) else t / NS_PER_MS
  }

  /** The low 64 bits as a signed number. */
  function Wrap(x: int): Int64 {
    var u := x % TWO64;
    if u > MAX_INT64 then u - TWO64 else u
  }

  /** Milliseconds to nanoseconds in 64 bits.  Where C++ leaves an overflow undefined, it wraps here. */
  function FromMillis(ms: Int64): Int64 { Wrap(ms * NS_PER_MS) }

  /** An integer read back as std::uint64_t. */
  function AsUnsigned(i: int): UInt64 { i % TWO64 }

  // ---- encoding ----

  /** The stored object.  A price that is not finite is written as null. */
  function Encode(e: MarketEvent): map<string, Value> {
    var m := map["symbol" := JString(e.symbol)]
                ["price" := PriceMember(e)]
                ["event_time_ms" := JInt(ToMillis(e.time))];
    var n := if e.sequence.Some? then m["provider_sequence" := JInt(e.sequence.value)] else m;
    n["source" := JString(e.source)]
  }

  function PriceMember(e: MarketEvent): Value { if e.price.Finite? then JFloat(e.price.token) else JNull }

  function FirstMembers(e: MarketEvent): seq<(string, Value)> {
    [("event_time_ms", JInt(ToMillis(e.time)))] + [("price", PriceMember(e))]
  }

  function NumberMembers(e: MarketEvent): seq<(string, Value)> {
    if e.sequence.Some? then FirstMembers(e) + [("provider_sequence", JInt(e.sequence.value))] else FirstMembers(e)
  }

  /** The same object as it is printed: keys in ascending order. */
  function Members(e: MarketEvent): seq<(string, Value)> {
    NumberMembers(e) + [("source", JString(e.source))] + [("symbol", JString(e.symbol))]
  }

  function Print(e: MarketEvent): string { PrintObject(Members(e)) }

  // ---- decoding ----

  lemma IntTextValid(i: int)
    ensures ValidNumber(IntText(i)) && IsIntegral(IntText(i))
  {
    var n: nat := if i < 0 then -i else i;
    NatTextDigits(n);
    assert Unsigned(IntText(i)) == NatText(n);
    DigitsLenAll(NatText(n), []);
    assert NatText(n) + [] == NatText(n);
    assert NatText(n)[|NatText(n)|..] == [];
  }

  /** get<double>() of a number. */
  function PriceOf(v: Value): Price
    requires v.JInt? || v.JFloat?
  {
    Finite(DOUBLES.round(if v.JInt? then IntText(v.i) else v.token))
  }

  function Decode(v: Value): Decoded {
    if !v.JObject? then Rejected("not a JSON object")
    else
      var m := v.members;
      if "symbol" !in m || !m["symbol"].JString? || m["symbol"].s == "" then
        Rejected("missing or empty \"symbol\"")
      else if "price" !in m || !(m["price"].JInt? || m["price"].JFloat?) then
        Rejected("missing or non-numeric \"price\"")
      else if "event_time_ms" !in m || !m["event_time_ms"].JInt? then
        Rejected("missing or non-integer \"event_time_ms\"")
      else
        Accepted(MarketEvent(
          m["symbol"].s,
          PriceOf(m["price"]),
          FromMillis(Wrap(m["event_time_ms"].i)),
          if "provider_sequence" in m && m["provider_sequence"].JInt? then
            Some(AsUnsigned(m["provider_sequence"].i))
          else None,
          if "source" in m && m["source"].JString? then m["source"].s else ""))
  }

  // ---- the printed text denotes the encoded object ----

  predicate Less(a: string, b: string) {
    if b == "" then false
    else if a == "" then true
    else a[0] < b[0] || (a[0] == b[0] && Less(a[1..], b[1..]))
  }

  lemma {:induction false} AsMapSnoc(ms: seq<(string, Value)>, k: string, v: Value, acc: map<string, Value>)
    ensures AsMap(ms + [(k, v)], acc) == AsMap(ms, acc)[k := v]
    decreases |ms|
  {
    if ms == [] {
      assert (ms + [(k, v)])[1..] == [];
    } else {
      assert (ms + [(k, v)])[1..] == ms[1..] + [(k, v)];
      AsMapSnoc(ms[1..], k, v, acc[ms[0].0 := ms[0].1]);
    }
  }

  lemma NumberMembersMap(e: MarketEvent)
    ensures AsMap(NumberMembers(e))
         == var m := map["event_time_ms" := JInt(ToMillis(e.time))]["price" := PriceMember(e)];
            if e.sequence.Some? then m["provider_sequence" := JInt(e.sequence.value)] else m
  {
    var first := [("event_time_ms", JInt(ToMillis(e.time)))];
    assert first[1..] == [];
    assert AsMap(first) == map["event_time_ms" := JInt(ToMillis(e.time))];
    AsMapSnoc(first, "price", PriceMember(e), map[]);
    if e.sequence.Some? { AsMapSnoc(FirstMembers(e), "provider_sequence", JInt(e.sequence.value), map[]); }
  }

  /** The printed members, each key once, make up the stored object. */
  lemma MembersAreTheObject(e: MarketEvent)
    ensures AsMap(Members(e)) == Encode(e)
    ensures |Members(e)| > 0 && PrintableMembers(Members(e))
  {
    NumberMembersMap(e);
    var source := NumberMembers(e) + [("source", JString(e.source))];
    AsMapSnoc(NumberMembers(e), "source", JString(e.source), map[]);
    AsMapSnoc(source, "symbol", JString(e.symbol), map[]);
  }

  /** The keys are printed in strictly ascending order. */
  lemma MembersAscend(e: MarketEvent)
    ensures forall i :: 0 <= i < |Members(e)| - 1 ==> Less(Members(e)[i].0, Members(e)[i + 1].0)
  {
    KeysAscend();
  }

  lemma KeysAscend()
    ensures Less("event_time_ms", "price") && Less("price", "provider_sequence") && Less("price", "source")
    ensures Less("provider_sequence", "source") && Less("source", "symbol")
  {
    assert "price"[1..][0] == 'r' && "provider_sequence"[1..][0] == 'r';
    assert "price"[1..][1..][0] == 'i' && "provider_sequence"[1..][1..][0] == 'o';
    assert "source"[1..][0] == 'o' && "symbol"[1..][0] == 'y';
  }
}
