/** Recording events to a file and replaying it (src/event_recorder.cpp, src/replay_source.cpp). */
module Capture {
  import opened Options
  import opened MarketEvents
  import opened LineFiles
  import opened SkipAndCount

  /** What a text is worth.  Of the exceptions that the parser raises only parse_error is caught. */
  function Worth(text: string): Verdict<MarketEvent> {
    match Read(text)
    case OutOfRange => Throws
    case NotJson => Malformed
    case ParsedAs(v) =>
      var d := Decode(v);
      if d.Accepted? then Good(d.event) else Malformed
  }

  /** What a line is worth: nothing if it is blank. */
  function Classify(line: string): Verdict<MarketEvent> { if line == [] then Ignored else Worth(line) }

  /** Parse and decode, as next() does. */
  method ReadEvent(t: string) returns (v: Verdict<MarketEvent>)
    ensures v == Worth(t)
  {
    var text := Read(t);
    if text.OutOfRange? { return Throws; }
    if text.NotJson? { return Malformed; }
    var d := Decode(text.value);
    if d.Rejected? { return Malformed; }
    return Good(d.event);
  }

  /** What the recorder writes: one printed object per line. */
  function Recorded(es: seq<MarketEvent>): string { Joined(Texts(Print, es)) }

  lemma RecordedSnoc(before: string, es: seq<MarketEvent>, i: nat)
    requires i < |es|
    ensures before + Recorded(es[..i]) + (Print(es[i]) + "\n") == before + Recorded(es[..i + 1])
  {
    assert es[..i + 1] == es[..i] + [es[i]];
    TextsSnoc(Print, es[..i], es[i]);
    JoinedSnoc(before, Texts(Print, es[..i]), Print(es[i]));
  }

  class EventRecorder {
    var out: string

    /** The file is opened for appending to what it holds. */
    constructor (existing: string)
      ensures out == existing
    {
      out := existing;
    }

    method Record(e: MarketEvent)
      modifies this
      ensures out == old(out) + (Print(e) + "\n")
    {
      out := out + (Print(e) + "\n");
    }

    method RecordAll(es: seq<MarketEvent>)
      modifies this
      ensures out == old(out) + Recorded(es)
    {
      assert Texts(Print, es[..0]) == [];
      assert old(out) + Joined([]) == old(out);
      for i := 0 to |es|
        invariant out == old(out) + Recorded(es[..i])
      {
        RecordedSnoc(old(out), es, i);
        Record(es[i]);
      }
      assert es[..|es|] == es;
    }
  }

  class ReplaySource {
    var input: string             // what has not been read yet
    var stopRequested: bool
    var linesMalformed: nat
    ghost const content: string   // the whole file
    ghost var consumed: seq<string>

    ghost predicate Valid()
      reads this
    {
      && Lines(content) == consumed + Lines(input)
      && linesMalformed == MalformedCount(Classify, consumed)
    }

    constructor (content: string)
      ensures Valid() && this.content == content && consumed == [] && !stopRequested
    {
      this.content, input, consumed := content, content, [];
      stopRequested, linesMalformed := false, 0;
    }

    method Stop()
      requires Valid()
      modifies this`stopRequested
      ensures Valid() && stopRequested
    {
      stopRequested := true;
    }

    /** One turn of the loop: a line is skipped if blank, counted if malformed, else an event. */
    method ReadLine() returns (v: Verdict<MarketEvent>)
      requires Valid() && input != []
      modifies this`input, this`linesMalformed, this`consumed
      ensures Valid()
      ensures consumed == old(consumed) + [old(input)[..LineLen(old(input))]] && input == AfterLine(old(input))
      ensures v == Classify(consumed[|consumed| - 1])
      ensures Delivered(Classify, consumed) == Delivered(Classify, old(consumed)) + Event(v)
      ensures ToTheEnd(Classify, consumed) <==> ToTheEnd(Classify, old(consumed)) && !v.Throws?
    {
      var line := input[..LineLen(input)];
      TakeLine(Classify, consumed, input, line);
      ToTheEndSnoc(Classify, consumed, line);
      input, consumed := AfterLine(input), consumed + [line];
      if line == [] { return Ignored; }
      v := ReadEvent(line);
      if v.Malformed? { linesMalformed := linesMalformed + 1; }
    }

    /**
      next().  `stopAfter` says after how many tests of the stop flag another thread sets it,
      if one does.  The lines it reads are skipped, malformed ones counted, up to the first
      good one, or to one that raises an exception.
    */
    method Next(stopAfter: Option<nat>) returns (event: Option<MarketEvent>, threw: bool)
      requires Valid() && ToTheEnd(Classify, consumed)
      modifies this`input, this`stopRequested, this`linesMalformed, this`consumed
      ensures Valid()
      ensures old(consumed) <= consumed
      ensures Delivered(Classify, consumed)
           == Delivered(Classify, old(consumed)) + (if event.Some? then [event.value] else [])
      ensures event.Some? ==> |consumed| > 0 && Classify(consumed[|consumed| - 1]) == Good(event.value)
      ensures event.None? && !threw ==> stopRequested || input == []
      ensures if threw then event.None? && LastThrows(Classify, consumed) else ToTheEnd(Classify, consumed)
      ensures old(stopRequested) || stopAfter == Some(0) ==> event.None? && !threw && consumed == old(consumed)
      ensures stopAfter.None? ==> stopRequested == old(stopRequested)
      ensures old(stopRequested) ==> stopRequested
      ensures stopAfter.Some? ==> |consumed| - |old(consumed)| <= stopAfter.value
      ensures event.Some? ==> |input| < |old(input)|
    {
      var tests := 0;
      if stopAfter == Some(0) { stopRequested := true; }
      while !stopRequested && input != []
        invariant Valid() && old(consumed) <= consumed && ToTheEnd(Classify, consumed)
        invariant Delivered(Classify, consumed) == Delivered(Classify, old(consumed))
        invariant old(stopRequested) || stopAfter == Some(0) ==> stopRequested && consumed == old(consumed)
        invariant stopAfter.None? ==> stopRequested == old(stopRequested)
        invariant old(stopRequested) ==> stopRequested
        invariant tests == |consumed| - |old(consumed)| && |input| <= |old(input)|
        invariant stopAfter.Some? ==> tests <= stopAfter.value && (tests == stopAfter.value ==> stopRequested)
        decreases |input|
      {
        tests := tests + 1;
        ghost var before := consumed;
        var v := ReadLine();
        if v.Throws? {
          ThrowsLast(Classify, before, consumed[|consumed| - 1]);
          return None, true;
        }
        if v.Good? { return Some(v.event), false; }
        if stopAfter == Some(tests) { stopRequested := true; }
      }
      return None, false;
    }

    /**
      The ingest loop around next(), with the stop flag set at any moment or never.  What it
      gets is what the lines it read hold.  Without a stop that is all up to the first line
      that raises an exception, and the whole file if and only if there is none.
    */
    method ReplayAll(stops: seq<Option<nat>>) returns (events: seq<MarketEvent>, threw: bool)
      requires Valid() && consumed == [] && !stopRequested
      modifies this`input, this`stopRequested, this`linesMalformed, this`consumed
      ensures Valid()
      ensures events == Delivered(Classify, consumed)
      ensures events <= Delivered(Classify, BeforeThrow(Classify, Lines(content)))
      ensures |consumed| == |events| + linesMalformed + IgnoredCount(Classify, consumed) + (if threw then 1 else 0)
      ensures (forall i :: 0 <= i < |stops| ==> stops[i] == None) ==>
        var read := BeforeThrow(Classify, Lines(content));
        && !stopRequested
        && events == Delivered(Classify, read) && linesMalformed == MalformedCount(Classify, read)
        && (threw <==> !ToTheEnd(Classify, Lines(content)))
    {
      events, threw := [], false;
      var calls := 0;
      while !threw
        invariant Valid() && events == Delivered(Classify, consumed)
        invariant if threw then LastThrows(Classify, consumed) else ToTheEnd(Classify, consumed)
        invariant (forall i :: 0 <= i < |stops| ==> stops[i] == None) ==> !stopRequested
        decreases !threw, |input|
      {
        var e, t := Next(if calls < |stops| then stops[calls] else None);
        threw := t;
        calls := calls + 1;
        if e.None? { break; }
        events := events + [e.value];
      }
      TakenSoFar(Classify, consumed, Lines(input), threw);
      if input == [] { assert consumed + Lines(input) == consumed; }
    }
  }
}
