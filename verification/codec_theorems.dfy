/** What writing an event and reading it back does to it. */
module CodecTheorems {
  import opened Json
  import opened JsonNumbers
  import opened JsonNumbersMet
  import opened JsonRoundTrip
  import opened MarketEvents

  predicate WholeMillis(e: MarketEvent) { e.time % NS_PER_MS == 0 }

  /** Just the events that come back as they were. */
  predicate Survives(e: MarketEvent) { e.symbol != "" && e.price.Finite? && WholeMillis(e) }

  /** The event with what lies below the millisecond cut off, toward zero. */
  function Truncated(e: MarketEvent): MarketEvent { e.(time := FromMillis(ToMillis(e.time))) }

  lemma WrapInRange(x: Int64)
    ensures Wrap(x) == x
  {}

  /** Truncation toward zero: at most a millisecond is lost, never the sign, and nothing overflows. */
  lemma MillisAndBack(t: Int64)
    ensures var ms := ToMillis(t);
      && -MAX_MILLIS <= ms <= MAX_MILLIS
      && FromMillis(ms) == ms * NS_PER_MS
      && (t >= 0 ==> 0 <= t - ms * NS_PER_MS < NS_PER_MS)
      && (t < 0 ==> -NS_PER_MS < t - ms * NS_PER_MS <= 0)
    ensures FromMillis(ToMillis(t)) == t <==> t % NS_PER_MS == 0
  {
    WrapInRange(ToMillis(t) * NS_PER_MS);
  }

  lemma OneMoreFits(fits: string -> bool, ms: seq<(string, Value)>, k: string, v: Value)
    requires MembersFit(fits, ms) && ScalarFits(fits, v)
    ensures MembersFit(fits, ms + [(k, v)])
  {}

  /** However a printed event is cut, its numbers are in range. */
  lemma NumbersFit(e: MarketEvent)
    ensures MembersFit(DOUBLES.fits, Members(e))
  {
    var fits, first, numbers := DOUBLES.fits, FirstMembers(e), NumberMembers(e);
    assert ScalarFits(fits, PriceMember(e)) by { if e.price.Finite? { assert Canonical(DOUBLES, e.price.token); } }
    OneMoreFits(fits, [("event_time_ms", JInt(ToMillis(e.time)))], "price", PriceMember(e));
    if e.sequence.Some? { OneMoreFits(fits, first, "provider_sequence", JInt(e.sequence.value)); }
    OneMoreFits(fits, numbers, "source", JString(e.source));
    OneMoreFits(fits, numbers + [("source", JString(e.source))], "symbol", JString(e.symbol));
  }

  lemma PrintedParses(e: MarketEvent)
    ensures Read(Print(e)) == ParsedAs(JObject(Encode(e)))
  {
    MembersAreTheObject(e);
    ObjectParses(Members(e));
    NumbersFit(e);
    assert Print(e) + [] == Print(e);
    ObjectMet(DOUBLES.fits, Members(e), Print(e), []);
  }

  /** The five members an encoded event has, or four. */
  ghost predicate HoldsMembers(m: map<string, Value>, e: MarketEvent) {
    && "symbol" in m && m["symbol"] == JString(e.symbol)
    && "price" in m && m["price"] == PriceMember(e)
    && "event_time_ms" in m && m["event_time_ms"] == JInt(ToMillis(e.time))
    && "source" in m && m["source"] == JString(e.source)
    && ("provider_sequence" in m <==> e.sequence.Some?)
    && (e.sequence.Some? ==> m["provider_sequence"] == JInt(e.sequence.value))
  }

  lemma EncodeHolds(e: MarketEvent)
    ensures HoldsMembers(Encode(e), e)
  {}

  lemma DecodeHeld(m: map<string, Value>, e: MarketEvent)
    requires HoldsMembers(m, e)
    ensures Decode(JObject(m))
         == if e.symbol == "" then Rejected("missing or empty \"symbol\"")
            else if !e.price.Finite? then Rejected("missing or non-numeric \"price\"")
            else Accepted(Truncated(e))
  {
    WrapInRange(ToMillis(e.time));
    if e.price.Finite? { assert Canonical(DOUBLES, e.price.token); }
  }

  /** What comes back of any event: nothing without a symbol or a finite price, else the truncated event. */
  lemma DecodeEncode(e: MarketEvent)
    ensures Decode(JObject(Encode(e)))
         == if e.symbol == "" then Rejected("missing or empty \"symbol\"")
            else if !e.price.Finite? then Rejected("missing or non-numeric \"price\"")
            else Accepted(Truncated(e))
  {
    EncodeHolds(e);
    DecodeHeld(Encode(e), e);
  }

  /** An event survives the trip through the text unchanged if and only if it meets the three conditions. */
  lemma RoundTripExactly(e: MarketEvent)
    ensures Read(Print(e)).ParsedAs?
    ensures Decode(Read(Print(e)).value) == Accepted(e) <==> Survives(e)
  {
    PrintedParses(e);
    DecodeEncode(e);
    MillisAndBack(e.time);
  }

  // ---- times that do not fit ----

  // BEZOUT_A * 2^58 + BEZOUT_B * 15625 == 1
  const BEZOUT_A: int := -4146
  const BEZOUT_B: int := 76480200929599801

  /** How many times 2^64 is lost when i milliseconds are counted in nanoseconds; not 0 when that does not fit. */
  function Overflows(i: int): int { (Wrap(i) * NS_PER_MS - MIN_INT64) / TWO64 }

  predicate MillisFit(i: int) { -MAX_MILLIS <= i <= MAX_MILLIS }

  lemma WrapLoses(x: int)
    ensures Wrap(x) == x - (x - MIN_INT64) / TWO64 * TWO64
  {}

  lemma LostMultiple(q: int, k: int)
    requires q * TWO64 == NS_PER_MS * k
    ensures q % 15625 == 0
  {
    assert q == 15625 * (BEZOUT_A * k + BEZOUT_B * q);
  }

  lemma MultipleLost(q: int, m: int)
    requires q == 15625 * m
    ensures (q * TWO64) % NS_PER_MS == 0
  {
    assert q * TWO64 == NS_PER_MS * (m * (TWO64 / 64));
  }

  /** 2^64 and 10^6 share the factor 64 only. */
  lemma LostMillis(q: int)
    ensures (q * TWO64) % NS_PER_MS == 0 <==> q % 15625 == 0
  {
    if q % 15625 == 0 {
      MultipleLost(q, q / 15625);
    } else if (q * TWO64) % NS_PER_MS == 0 {
      LostMultiple(q, q * TWO64 / NS_PER_MS);
    }
  }

  lemma SameRemainder(w: int, q: int)
    ensures (w * NS_PER_MS - q * TWO64) % NS_PER_MS == 0 <==> (q * TWO64) % NS_PER_MS == 0
  {
    if (q * TWO64) % NS_PER_MS == 0 {
      assert w * NS_PER_MS - q * TWO64 == NS_PER_MS * (w - q * TWO64 / NS_PER_MS);
    }
    if (w * NS_PER_MS - q * TWO64) % NS_PER_MS == 0 {
      assert q * TWO64 == NS_PER_MS * (w - (w * NS_PER_MS - q * TWO64) / NS_PER_MS);
    }
  }

  lemma StoredTimeFits(i: int)
    ensures MillisFit(i) <==> FromMillis(Wrap(i)) == i * NS_PER_MS
    ensures MillisFit(i) ==> Overflows(i) == 0
  {
    if MillisFit(i) {
      WrapInRange(i);
      WrapInRange(i * NS_PER_MS);
    } else {
      assert i * NS_PER_MS < MIN_INT64 || i * NS_PER_MS > MAX_INT64;
    }
  }

  /** The time read from i milliseconds is that time just if it fits, and is whole milliseconds just if so much was lost. */
  lemma StoredTime(i: int)
    ensures var t := FromMillis(Wrap(i));
      && (MillisFit(i) <==> t == i * NS_PER_MS)
      && (MillisFit(i) ==> Overflows(i) == 0)
      && (t % NS_PER_MS == 0 <==> Overflows(i) % 15625 == 0)
  {
    StoredTimeFits(i);
    WrapLoses(Wrap(i) * NS_PER_MS);
    LostMillis(Overflows(i));
    SameRemainder(Wrap(i), Overflows(i));
  }

  lemma AcceptedTime(v: Value, e: MarketEvent)
    requires Decode(v) == Accepted(e)
    ensures e.symbol != "" && e.price.Finite?
    ensures e.time == FromMillis(Wrap(v.members["event_time_ms"].i))
  {}

  /**
    Whatever an accepted object looked like (more keys, optional fields of another type, a
    negative sequence), what was read from it is a fixed point of writing and reading if and
    only if its stored time lost a multiple of 15625 times 2^64, above all none.  The event's
    time is the stored time if and only if that fits.
  */
  lemma Normalisation(v: Value, e: MarketEvent)
    requires Decode(v) == Accepted(e)
    ensures var i := v.members["event_time_ms"].i;
      && (Decode(JObject(Encode(e))) == Accepted(e) <==> Overflows(i) % 15625 == 0)
      && (WholeMillis(e) <==> Overflows(i) % 15625 == 0)
      && (MillisFit(i) <==> e.time == i * NS_PER_MS)
      && (MillisFit(i) ==> Overflows(i) == 0)
  {
    DecodeEncode(e);
    MillisAndBack(e.time);
    AcceptedTime(v, e);
    StoredTime(v.members["event_time_ms"].i);
  }

  /** For example: one millisecond beyond the bound the time wraps, and what is read no longer survives. */
  lemma TimeBeyondTheBound()
    ensures var v := JObject(map["symbol" := JString("S"), "price" := JInt(1), "event_time_ms" := JInt(MAX_MILLIS + 1)]);
      && Decode(v).Accepted?
      && Decode(v).event.time < 0
      && Decode(JObject(Encode(Decode(v).event))) != Decode(v)
  {
    var v := JObject(map["symbol" := JString("S"), "price" := JInt(1), "event_time_ms" := JInt(MAX_MILLIS + 1)]);
    WrapInRange(MAX_MILLIS + 1);
    assert FromMillis(MAX_MILLIS + 1) == (MAX_MILLIS + 1) * NS_PER_MS - TWO64;
    Normalisation(v, Decode(v).event);
  }
}
