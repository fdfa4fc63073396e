/** What can be relied on when a capture is replayed, also after a crash or an edit. */
module CaptureTheorems {
  import opened Json
  import opened JsonNumbers
  import opened JsonPrefix
  import opened MarketEvents
  import opened CodecTheorems
  import opened LineFiles
  import opened SkipAndCount
  import opened Sessions
  import opened Capture
  import A = JsonAppend
  import M = JsonNumbersMet
  import R = JsonRoundTrip

  // ---- a printed event is one line ----

  lemma {:induction false} EscapeLineFree(s: string)
    ensures LineFree(EscapeAll(s))
    decreases |s|
  {
    if s != [] { EscapeLineFree(s[1..]); }
  }

  lemma ScalarLineFree(v: Value)
    requires Printable(v)
    ensures LineFree(PrintScalar(v))
  {
    match v {
      case JNull =>
      case JInt(i) => IntTextValid(i); R.NumberChars(IntText(i));
      case JFloat(t) => R.NumberChars(t);
      case JString(s) => EscapeLineFree(s);
    }
  }

  lemma MemberLineFree(k: string, v: Value)
    requires Printable(v)
    ensures LineFree(PrintMember(k, v))
  {
    EscapeLineFree(k);
    ScalarLineFree(v);
  }

  lemma {:induction false} MembersLineFree(ms: seq<(string, Value)>)
    requires |ms| > 0 && PrintableMembers(ms)
    ensures LineFree(PrintMembers(ms))
    decreases |ms|
  {
    MemberLineFree(ms[0].0, ms[0].1);
    if |ms| > 1 { MembersLineFree(ms[1..]); }
  }

  /** Whatever its strings contain, an event is printed without a raw newline. */
  lemma PrintedIsOneLine(e: MarketEvent)
    ensures LineFree(Print(e)) && |Print(e)| > 0 && Print(e)[0] == '{'
  {
    MembersAreTheObject(e);
    MembersLineFree(Members(e));
  }

  // ---- record, then replay ----

  /** What the replay makes of one recorded event. */
  function ReadBack(e: MarketEvent): Verdict<MarketEvent> {
    if e.symbol != "" && e.price.Finite? then Good(Truncated(e)) else Malformed
  }

  lemma RecordedLine(e: MarketEvent)
    ensures Classify(Print(e)) == ReadBack(e)
    ensures ReadBack(e) == Good(e) <==> Survives(e)
  {
    PrintedIsOneLine(e);
    PrintedParses(e);
    DecodeEncode(e);
    MillisAndBack(e.time);
  }

  lemma EventIsRead(e: MarketEvent)
    ensures ReadAs(Print, Classify, ReadBack, e)
  {
    RecordedLine(e);
    PrintedIsOneLine(e);
  }

  predicate AllSurvive(es: seq<MarketEvent>) { forall i :: 0 <= i < |es| ==> Survives(es[i]) }

  /** What is read back of a list is the list itself if and only if every event survives. */
  lemma SurvivorsComeBack(es: seq<MarketEvent>)
    ensures Delivered(ReadBack, es) == es <==> AllSurvive(es)
    ensures AllSurvive(es) ==> MalformedCount(ReadBack, es) == 0
  {
    forall i | 0 <= i < |es| ensures ReadBack(es[i]) == Good(es[i]) <==> Survives(es[i]) { RecordedLine(es[i]); }
    AllCameBack(ReadBack, es);
    if AllSurvive(es) { NoneMalformed(ReadBack, es); }
  }

  lemma RecordedLines(es: seq<MarketEvent>)
    ensures Lines(Recorded(es)) == Texts(Print, es)
    ensures ToTheEnd(Classify, Texts(Print, es))
  {
    TextsLineFree(es);
    LinesOfWholeFile(Texts(Print, es));
    forall i | 0 <= i < |es| ensures !Classify(Texts(Print, es)[i]).Throws? {
      TextsPrefix(Print, es, i);
      RecordedLine(es[i]);
    }
  }

  lemma {:induction false} TextsLineFree(es: seq<MarketEvent>)
    ensures forall i :: 0 <= i < |Texts(Print, es)| ==> LineFree(Texts(Print, es)[i])
    decreases |es|
  {
    if es != [] {
      TextsLineFree(es[..|es| - 1]);
      PrintedIsOneLine(es[|es| - 1]);
    }
  }

  /**
    A recording is replayed to its end, event by event: one with a symbol and a finite price
    comes back cut to whole milliseconds, another counts as a malformed line.  The replay gives
    the recorded list itself if and only if every event survives.
  */
  lemma RecordReplay(es: seq<MarketEvent>)
    ensures ToTheEnd(Classify, Lines(Recorded(es)))
    ensures Delivered(Classify, Lines(Recorded(es))) == Delivered(ReadBack, es)
    ensures MalformedCount(Classify, Lines(Recorded(es))) == MalformedCount(ReadBack, es)
    ensures Delivered(Classify, Lines(Recorded(es))) == es <==> AllSurvive(es)
  {
    RecordedLines(es);
    forall i | 0 <= i < |es| ensures Classify(Print(es[i])) == ReadBack(es[i]) { RecordedLine(es[i]); }
    TextsReadBack(Print, Classify, ReadBack, es);
    SurvivorsComeBack(es);
  }

  /** The lines put in between, which hold no event. */
  predicate NoiseOnly(items: seq<Item<MarketEvent>>) {
    forall i :: 0 <= i < |items| ==> (items[i].Noise? ==> LineFree(items[i].line) && !Classify(items[i].line).Good?)
  }

  predicate NoneThrows(items: seq<Item<MarketEvent>>) {
    forall i :: 0 <= i < |items| ==> (items[i].Noise? ==> !Classify(items[i].line).Throws?)
  }

  /** The items up to the first line with a number out of range. */
  function Reachable(items: seq<Item<MarketEvent>>): seq<Item<MarketEvent>> {
    BeforeThrow(ItemVerdict(Print, Classify), items)
  }

  lemma ItemWorth(item: Item<MarketEvent>)
    ensures ItemVerdict(Print, Classify)(item) == if item.Written? then ReadBack(item.event) else Classify(item.line)
  {
    if item.Written? { RecordedLine(item.event); }
    ItemIsWorth(Print, Classify, ReadBack, item);
  }

  lemma NoThrowingItem(items: seq<Item<MarketEvent>>)
    ensures ToTheEnd(ItemVerdict(Print, Classify), items) <==> NoneThrows(items)
  {
    forall i | 0 <= i < |items|
      ensures ItemVerdict(Print, Classify)(items[i]).Throws? <==> items[i].Noise? && Classify(items[i].line).Throws?
    {
      ItemWorth(items[i]);
    }
  }

  lemma GoodItem(item: Item<MarketEvent>)
    requires item.Noise? ==> LineFree(item.line) && !Classify(item.line).Good? && !Classify(item.line).Throws?
    ensures ItemOk(Print, Classify, ReadBack, item)
  {
    if item.Written? { EventIsRead(item.event); }
  }

  lemma ReachableItems(items: seq<Item<MarketEvent>>)
    requires NoiseOnly(items)
    ensures Reachable(items) <= items
    ensures forall i :: 0 <= i < |Reachable(items)| ==> ItemOk(Print, Classify, ReadBack, Reachable(items)[i])
    ensures Reachable(items) == items <==> NoneThrows(items)
  {
    var r := Reachable(items);
    BeforeThrowWhole(ItemVerdict(Print, Classify), items);
    NoThrowingItem(items);
    NoThrowingItem(r);
    forall i | 0 <= i < |r| ensures ItemOk(Print, Classify, ReadBack, r[i]) {
      assert r[i] == items[i];
      GoodItem(r[i]);
    }
  }

  /**
    Blank lines and lines that hold no event, inserted anywhere, change nothing of what is
    replayed; they add to the malformed count the number of those that are not blank.  The
    replay gets to the end if and only if none of them holds a number out of range; else all
    this is true of what comes before the first such line, where the replay ends.
  */
  lemma NoiseIsSkipped(items: seq<Item<MarketEvent>>)
    requires NoiseOnly(items)
    ensures var lines, r := Lines(Joined(ItemLines(Print, items))), Reachable(items);
      && r <= items
      && (ToTheEnd(Classify, lines) <==> NoneThrows(items)) && (r == items <==> NoneThrows(items))
      && Delivered(Classify, BeforeThrow(Classify, lines)) == Delivered(ReadBack, EventsOf(r))
      && MalformedCount(Classify, BeforeThrow(Classify, lines)) == NoisyLines(r) + MalformedCount(ReadBack, EventsOf(r))
  {
    var lines, r := ItemLines(Print, items), Reachable(items);
    ReachableItems(items);
    ItemsDelivered(Print, Classify, ReadBack, r);
    ItemsAreLines(items);
    LinesOfWholeFile(lines);
    BeforeThrowItems(Print, Classify, items);
    BeforeThrowWhole(Classify, lines);
    ItemLinesLength(Print, r);
  }

  lemma {:induction false} ItemsAreLines(items: seq<Item<MarketEvent>>)
    requires NoiseOnly(items)
    ensures forall i :: 0 <= i < |ItemLines(Print, items)| ==> LineFree(ItemLines(Print, items)[i])
    decreases |items|
  {
    if items != [] {
      ItemsAreLines(items[..|items| - 1]);
      var last := items[|items| - 1];
      if last.Written? { PrintedIsOneLine(last.event); }
    }
  }

  /** Between events that survive, the events themselves come back and only the noise is counted. */
  lemma NoiseAmongSurvivors(items: seq<Item<MarketEvent>>)
    requires NoiseOnly(items) && AllSurvive(EventsOf(items))
    ensures var lines, r := Lines(Joined(ItemLines(Print, items))), Reachable(items);
      && Delivered(Classify, BeforeThrow(Classify, lines)) == EventsOf(r) <= EventsOf(items)
      && MalformedCount(Classify, BeforeThrow(Classify, lines)) == NoisyLines(r)
      && (NoneThrows(items) ==> r == items && BeforeThrow(Classify, lines) == lines)
  {
    NoiseIsSkipped(items);
    SurvivingPrefix(items, Reachable(items));
    BeforeThrowWhole(Classify, Lines(Joined(ItemLines(Print, items))));
  }

  lemma SurvivingPrefix(items: seq<Item<MarketEvent>>, r: seq<Item<MarketEvent>>)
    requires r <= items && AllSurvive(EventsOf(items))
    ensures Delivered(ReadBack, EventsOf(r)) == EventsOf(r) <= EventsOf(items)
    ensures MalformedCount(ReadBack, EventsOf(r)) == 0
  {
    EventsOfPrefix(items, |r|);
    assert items[..|r|] == r;
    SurvivorsComeBack(EventsOf(r));
  }

  lemma {:induction false} EventsOfPrefix(items: seq<Item<MarketEvent>>, n: nat)
    requires n <= |items|
    ensures EventsOf(items[..n]) <= EventsOf(items)
    decreases |items|
  {
    if n < |items| {
      EventsOfPrefix(items[..|items| - 1], n);
      assert items[..|items| - 1][..n] == items[..n];
    } else {
      assert items[..n] == items;
    }
  }

  lemma NumberIsMet(t: string)
    requires ValidNumber(t)
    ensures SkipSpace(t) == t && MetValue(t) == if IsDouble(t) then [t] else []
  {
    R.NumberChars(t);
    R.SkipNothing(t);
    StartsNumber(t);
    assert TokenAt(t) == t by {
      M.TokenOfNumber(t, []);
      assert t + [] == t;
    }
  }

  lemma StartsNumber(t: string)
    requires t != [] && (t[0] == '-' || IsDigit(t[0]))
    ensures MetValue(t) == MetNumber(t)
  {
    var c := t[0];
    assert c != '{' && c != '[' && c != '\"' && c != 't' && c != 'f' && c != 'n';
  }

  lemma NumberIsText(t: string)
    requires ValidNumber(t)
    ensures ParseText(t) == NumberValue(t) && NumberValue(t).Some? && !NumberValue(t).value.JObject?
  {
    R.NumberChars(t);
    R.NumberParses(t, NumberValue(t).value, []);
    assert t + [] == t;
    R.SkipNothing(t);
  }

  /** A line that is a number and nothing else is malformed, but a number out of range raises an exception. */
  lemma LoneNumber(t: string)
    requires ValidNumber(t)
    ensures Classify(t) == if IsDouble(t) && !DOUBLES.fits(t) then Throws else Malformed
  {
    R.NumberChars(t);
    NumberIsMet(t);
    NumberIsText(t);
    var numbers := MetValue(SkipSpace(t));
    assert AllFit(DOUBLES.fits, numbers) <==> !IsDouble(t) || DOUBLES.fits(t) by {
      if IsDouble(t) { assert numbers[0] == t; }
    }
  }

  // ---- a capture cut short ----

  /** The numbers of a beginning of a printed event are in range, also with something stray after it. */
  lemma BeginningFits(e: MarketEvent, p: string, x: string)
    requires p <= Print(e) && p != [] && M.Follows(DOUBLES.fits, x)
    ensures AllFit(DOUBLES.fits, MetValue(p + x)) && SkipSpace(p + x) == p + x
  {
    MembersAreTheObject(e);
    NumbersFit(e);
    M.ObjectMet(DOUBLES.fits, Members(e), p, x);
  }

  lemma TornText(t: string, v: Value, p: string)
    requires t != [] && t[0] == '{' && ParseValue(t) == Got(v, []) && p <= t && 0 < |p| < |t|
    requires AllFit(DOUBLES.fits, MetValue(p)) && SkipSpace(p) == p
    ensures ParseValue(p).Fail? && Classify(p) == Malformed
  {
    ValuePrefix(t, p);
  }

  /** No proper beginning of a printed event is a text the parser accepts. */
  lemma TornObject(e: MarketEvent)
    ensures TornIsMalformed(Print, Classify, e)
  {
    MembersAreTheObject(e);
    R.ObjectParses(Members(e));
    PrintedIsOneLine(e);
    var t, v := Print(e), JObject(AsMap(Members(e)));
    forall p | p <= t && 0 < |p| < |t| ensures Classify(p) == Malformed {
      assert p + [] == p;
      BeginningFits(e, p, []);
      TornText(t, v, p);
    }
  }

  /** What can be left over by a cut, once or several times. */
  predicate LeftOver(x: string) { A.Stray(x) && AllFit(DOUBLES.fits, MetValue(x)) }

  lemma FirstKey(e: MarketEvent)
    ensures Members(e)[0].0 == "event_time_ms"
  {}

  lemma BeginningIsStray(e: MarketEvent, p: string)
    requires IsBeginning(Print, e, p)
    ensures A.Stray(p)
  {
    MembersAreTheObject(e);
    FirstKey(e);
    A.BeginningIsStray(Members(e), p);
  }

  lemma BeginningIsLeftOver(e: MarketEvent, p: string)
    requires IsBeginning(Print, e, p)
    ensures LeftOver(p)
  {
    BeginningIsStray(e, p);
    assert AllFit(DOUBLES.fits, MetValue(p)) by {
      assert p + [] == p;
      BeginningFits(e, p, []);
    }
  }

  lemma GluedIsStray(e: MarketEvent, p: string, x: string)
    requires IsBeginning(Print, e, p) && A.Stray(x)
    ensures p + x != [] && ParseText(p + x).None? && A.Stray(p + x)
  {
    MembersAreTheObject(e);
    FirstKey(e);
    A.AppendedIsRejected(Members(e), p, x);
  }

  lemma StrayIsSpoiled(t: string)
    requires t != [] && ParseText(t).None? && A.Stray(t)
    requires AllFit(DOUBLES.fits, MetValue(t)) && SkipSpace(t) == t
    ensures Spoiled(Classify, LeftOver, t)
  {}

  lemma GluedIsLeftOver(e: MarketEvent, p: string, x: string)
    requires IsBeginning(Print, e, p) && LeftOver(x)
    ensures Spoiled(Classify, LeftOver, p + x)
  {
    GluedIsStray(e, p, x);
    BeginningFits(e, p, x);
    StrayIsSpoiled(p + x);
  }

  /** Events and what reading makes of their texts meet what the theory of sessions asks for. */
  lemma EventsFit()
    ensures Fit(Print, Classify, ReadBack, LeftOver)
  {
    forall e: MarketEvent ensures ReadAs(Print, Classify, ReadBack, e) && TornIsMalformed(Print, Classify, e) {
      EventIsRead(e);
      TornObject(e);
    }
    forall e: MarketEvent, p: string | IsBeginning(Print, e, p) ensures LeftOver(p) { BeginningIsLeftOver(e, p); }
    forall e: MarketEvent, p: string, x: string | IsBeginning(Print, e, p) && LeftOver(x)
      ensures Spoiled(Classify, LeftOver, p + x)
    {
      GluedIsLeftOver(e, p, x);
    }
  }

  /**
    A capture written in any number of sessions, each of which opens it for appending and is
    cut short after any character: it is replayed to its end.  What comes back is what comes
    back of the events that are alone on their line, and of the last if only its newline is
    missing; every line of glued objects, and a last one that is not whole, is one malformed
    line.
  */
  lemma SessionsReplay(ss: seq<Session<MarketEvent>>)
    ensures var o, lines := Total(Print, ss), Lines(File(Print, ss));
      && ToTheEnd(Classify, lines)
      && Delivered(Classify, lines) == Delivered(ReadBack, Readable(o))
      && MalformedCount(Classify, lines) == MalformedCount(ReadBack, Readable(o)) + BadLines(o)
      && (Delivered(Classify, lines) == Readable(o) <==> AllSurvive(Readable(o)))
      && (AllSurvive(Readable(o)) ==> MalformedCount(Classify, lines) == BadLines(o) <= |ss|)
  {
    EventsFit();
    SessionsRead(Print, Classify, ReadBack, LeftOver, ss);
    SurvivorsComeBack(Readable(Total(Print, ss)));
    LossIsBounded(Print, ss);
  }

  /**
    A crash loses at most the end: whatever character a recording is cut after, the replay
    gives just what comes back of the events whose objects were completely written, the first
    part of the full replay, and one more malformed line if and only if the cut is inside an
    object.
  */
  lemma CrashSafe(es: seq<MarketEvent>, k: nat)
    ensures k <= |Recorded(es)| ==>
      var file, n := Recorded(es)[..k], Kept(Print, es, k);
      && n <= |es|
      && ToTheEnd(Classify, Lines(file))
      && Delivered(Classify, Lines(file)) == Delivered(ReadBack, es[..n]) <= Delivered(ReadBack, es)
      && MalformedCount(Classify, Lines(file)) == MalformedCount(ReadBack, es[..n]) + Torn(Print, es, k)
  {
    if k <= |Recorded(es)| {
      OneSession(Print, es, k);
      SessionsReplay([Session(es, k)]);
      StoppedEarlier(ReadBack, es, Kept(Print, es, k));
    }
  }

  /** Of events that survive it gives the first ones themselves, and at most one malformed line. */
  lemma CrashAmongSurvivors(es: seq<MarketEvent>, k: nat)
    requires AllSurvive(es)
    ensures k <= |Recorded(es)| ==>
      && Kept(Print, es, k) <= |es|
      && Delivered(Classify, Lines(Recorded(es)[..k])) == es[..Kept(Print, es, k)]
      && MalformedCount(Classify, Lines(Recorded(es)[..k])) == Torn(Print, es, k) <= 1
  {
    if k <= |Recorded(es)| {
      CrashSafe(es, k);
      SurvivorsComeBack(es[..Kept(Print, es, k)]);
    }
  }

  /**
    A capture that was cut short and is then opened again for appending: if the cut was
    right after a newline (or left nothing), no further event is lost.  If it was anywhere
    else, even just before a newline, the first event recorded after the restart is lost
    with the unfinished one, in one malformed line.
  */
  lemma AppendAfterCrash(es: seq<MarketEvent>, k: nat, fs: seq<MarketEvent>)
    requires fs != []
    ensures k <= |Recorded(es)| ==>
      var c, clean := Complete(Texts(Print, es), k), Partial(Texts(Print, es), k) == [];
      var file, more := Recorded(es)[..k] + Recorded(fs), if clean then fs else fs[1..];
      && c <= |es|
      && ToTheEnd(Classify, Lines(file))
      && Delivered(Classify, Lines(file)) == Delivered(ReadBack, es[..c]) + Delivered(ReadBack, more)
      && MalformedCount(Classify, Lines(file))
         == MalformedCount(ReadBack, es[..c]) + MalformedCount(ReadBack, more) + (if clean then 0 else 1)
  {
    if k <= |Recorded(es)| {
      var c, clean := Complete(Texts(Print, es), k), Partial(Texts(Print, es), k) == [];
      TwoSessions(Print, es, k, fs);
      SessionsReplay([Session(es, k), Session(fs, |Recorded(fs)|)]);
      Split(ReadBack, es[..c], if clean then fs else fs[1..]);
    }
  }

  /** Of events that survive, exactly the unfinished one and the first new one are missing. */
  lemma AppendAmongSurvivors(es: seq<MarketEvent>, k: nat, fs: seq<MarketEvent>)
    requires fs != [] && AllSurvive(es) && AllSurvive(fs)
    ensures k <= |Recorded(es)| ==>
      var c, clean := Complete(Texts(Print, es), k), Partial(Texts(Print, es), k) == [];
      var file := Recorded(es)[..k] + Recorded(fs);
      && c <= |es|
      && Delivered(Classify, Lines(file)) == es[..c] + (if clean then fs else fs[1..])
      && MalformedCount(Classify, Lines(file)) == (if clean then 0 else 1)
  {
    if k <= |Recorded(es)| {
      TwoSessions(Print, es, k, fs);
      SurvivingParts(es, Complete(Texts(Print, es), k), fs);
      SessionsReplay([Session(es, k), Session(fs, |Recorded(fs)|)]);
    }
  }

  lemma SurvivingParts(es: seq<MarketEvent>, c: nat, fs: seq<MarketEvent>)
    requires AllSurvive(es) && AllSurvive(fs) && c <= |es| && fs != []
    ensures AllSurvive(es[..c] + fs) && AllSurvive(es[..c] + fs[1..])
  {}

  // ---- the objects together ----

  /** Recording with one object and replaying with the other. */
  method RecordAndReplay(es: seq<MarketEvent>) returns (events: seq<MarketEvent>, malformed: nat, threw: bool)
    ensures events == Delivered(ReadBack, es) && malformed == MalformedCount(ReadBack, es)
    ensures events == es <==> AllSurvive(es)
    ensures !threw
  {
    var recorder := new EventRecorder("");
    recorder.RecordAll(es);
    assert recorder.out == Recorded(es);
    var replay := new ReplaySource(recorder.out);
    RecordReplay(es);
    BeforeThrowWhole(Classify, Lines(recorder.out));
    events, threw := replay.ReplayAll([]);
    malformed := replay.linesMalformed;
  }
}
