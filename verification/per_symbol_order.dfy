/**
  From the producer through the partitions to the consumer.  Assumed of the broker and the
  client library: an accepted message is appended once, in the order of acceptance, to the
  partition of its key, and every partition is read from its start.
*/
module PerSymbolOrder {
  import opened MarketEvents
  import opened CodecTheorems
  import opened SkipAndCount
  import opened PartitionedLog
  import opened Capture
  import opened Kafka
  import opened CaptureTheorems

  /** What happens at one poll of the consumer: nothing comes, or the next message of a partition. */
  datatype Choice = Nothing(failed: bool) | From(partition: nat)

  function Order(choices: seq<Choice>): seq<nat> {
    if choices == [] then []
    else
      var last := choices[|choices| - 1];
      Order(choices[..|choices| - 1]) + (if last.From? then [last.partition] else [])
  }

  function PollOf(log: seq<Message>, p: nat, offset: nat): Poll {
    if offset < |log| then Record(log[offset].payload, p, offset) else Timeout
  }

  /**
    What the polls return.  `ms` is everything ever accepted: a partition that had nothing
    yet at the time of a poll is a choice of Nothing there.
  */
  function Script(part: string -> nat, ms: seq<Message>, choices: seq<Choice>): seq<Poll> {
    if choices == [] then []
    else
      var front, last := choices[..|choices| - 1], choices[|choices| - 1];
      Script(part, ms, front)
      + [match last
         case Nothing(failed) => if failed then Failure else Timeout
         case From(p) => PollOf(InPartition(KeyOf, part, p, ms), p, Polled(p, Order(front)))]
  }

  function EventOf(r: ConsumedRecord): MarketEvent { r.event }
  function SymbolOf(e: MarketEvent): string { e.symbol }
  function ReadMessage(m: Message): Verdict<MarketEvent> { Worth(m.payload) }

  /** The events that next() hands out, in order. */
  function ConsumedEvents(polls: seq<Poll>): seq<MarketEvent> { Mapped(EventOf, Delivered(ClassifyPoll, polls)) }

  // ---- the polls give the consumed messages ----

  lemma {:induction false} MappedSplit<E, M>(f: E -> M, a: seq<E>, b: seq<E>)
    requires |b| <= 1
    ensures Mapped(f, a + b) == Mapped(f, a) + Mapped(f, b)
  {
    if b == [] { assert a + b == a; } else { assert (a + b)[..|a|] == a && b[..0] == []; }
  }

  lemma OnePoll(polls: seq<Poll>, p: Poll)
    ensures ConsumedEvents(polls + [p])
         == ConsumedEvents(polls) + (if p.Record? then Event(Worth(p.payload)) else [])
  {
    Snoc(ClassifyPoll, polls, p);
    MappedSplit(EventOf, Delivered(ClassifyPoll, polls), Event(ClassifyPoll(p)));
    assert Delivered(ClassifyPoll, polls + [p])[..0] == [];
  }

  lemma OneMessage(ms: seq<Message>, more: seq<Message>)
    requires |more| <= 1
    ensures Delivered(ReadMessage, ms + more)
         == Delivered(ReadMessage, ms) + (if more == [] then [] else Event(Worth(more[0].payload)))
  {
    if more == [] { assert ms + more == ms; } else { Snoc(ReadMessage, ms, more[0]); assert more == [more[0]]; }
  }

  lemma {:induction false} ScriptDelivers(part: string -> nat, ms: seq<Message>, choices: seq<Choice>)
    ensures ConsumedEvents(Script(part, ms, choices))
         == Delivered(ReadMessage, Consumed(KeyOf, part, ms, Order(choices)))
    decreases |choices|
  {
    if choices != [] {
      var front, last := choices[..|choices| - 1], choices[|choices| - 1];
      ScriptDelivers(part, ms, front);
      if last.Nothing? {
        OnePoll(Script(part, ms, front), if last.failed then Failure else Timeout);
        assert Order(front) + [] == Order(front);
      } else {
        var log, n := InPartition(KeyOf, part, last.partition, ms), Polled(last.partition, Order(front));
        assert (Order(front) + [last.partition])[..|Order(front)|] == Order(front);
        PollGivesMessage(Script(part, ms, front), Consumed(KeyOf, part, ms, Order(front)), log, last.partition, n);
      }
    }
  }

  lemma PollGivesMessage(polls: seq<Poll>, got: seq<Message>, log: seq<Message>, p: nat, n: nat)
    requires ConsumedEvents(polls) == Delivered(ReadMessage, got)
    ensures ConsumedEvents(polls + [PollOf(log, p, n)]) == Delivered(ReadMessage, got + At(log, n))
  {
    OnePoll(polls, PollOf(log, p, n));
    OneMessage(got, At(log, n));
  }

  // ---- reading and selecting commute ----

  lemma {:induction false} SelectRead<M, E>(keyM: M -> string, keyE: E -> string, read: M -> Verdict<E>, k: string, ms: seq<M>)
    requires forall m :: m in ms && read(m).Good? ==> keyE(read(m).event) == keyM(m)
    ensures WithKey(keyE, k, Delivered(read, ms)) == Delivered(read, WithKey(keyM, k, ms))
    decreases |ms|
  {
    if ms != [] {
      var front, last := ms[..|ms| - 1], ms[|ms| - 1];
      assert last in ms;
      SelectRead(keyM, keyE, read, k, front);
      WithKeySplit(keyE, k, Delivered(read, front), Event(read(last)));
      if read(last).Good? { OneOfOtherKey(keyE, k, read(last).event); }
      var mine := WithKey(keyM, k, front);
      if keyM(last) == k { Snoc(read, mine, last); } else { assert mine + [] == mine; }
      assert Delivered(read, mine) + [] == Delivered(read, mine);
    }
  }

  lemma {:induction false} SelectMapped<E, M>(f: E -> M, keyE: E -> string, keyM: M -> string, k: string, es: seq<E>)
    requires forall e :: e in es ==> keyM(f(e)) == keyE(e)
    ensures WithKey(keyM, k, Mapped(f, es)) == Mapped(f, WithKey(keyE, k, es))
    decreases |es|
  {
    if es != [] {
      var front, last := es[..|es| - 1], es[|es| - 1];
      assert last in es;
      SelectMapped(f, keyE, keyM, k, front);
      WithKeySplit(keyM, k, Mapped(f, front), [f(last)]);
      OneOfOtherKey(keyM, k, f(last));
      MappedSplit(f, WithKey(keyE, k, front), if keyE(last) == k then [last] else []);
    }
  }

  lemma {:induction false} ReadMapped<E, M>(f: E -> M, read: M -> Verdict<E>, back: E -> Verdict<E>, es: seq<E>)
    requires forall e :: e in es ==> read(f(e)) == back(e)
    ensures Delivered(read, Mapped(f, es)) == Delivered(back, es)
    decreases |es|
  {
    if es != [] {
      var front, last := es[..|es| - 1], es[|es| - 1];
      assert last in es;
      ReadMapped(f, read, back, front);
      Snoc(read, Mapped(f, front), f(last));
    }
  }

  lemma {:induction false} MappedFrom<E, M>(f: E -> M, es: seq<E>, m: M) returns (e: E)
    requires m in Mapped(f, es)
    ensures e in es && m == f(e)
    decreases |es|
  {
    var front, last := es[..|es| - 1], es[|es| - 1];
    if m == f(last) { e := last; } else { e := MappedFrom(f, front, m); }
  }

  // ---- the theorem ----

  lemma ReadsBack(e: MarketEvent)
    ensures ReadMessage(MessageOf(e)) == ReadBack(e)
    ensures ReadBack(e).Good? ==> ReadBack(e).event.symbol == e.symbol
    ensures Survives(e) ==> ReadBack(e) == Good(e)
  {
    RecordedLine(e);
    PrintedIsOneLine(e);
  }

  lemma GenuineMessage(es: seq<MarketEvent>, m: Message)
    ensures m in Mapped(MessageOf, es) && ReadMessage(m).Good? ==> SymbolOf(ReadMessage(m).event) == KeyOf(m)
  {
    if m in Mapped(MessageOf, es) {
      var e := MappedFrom(MessageOf, es, m);
      ReadsBack(e);
    }
  }

  /** Reading what is selected of the produced messages: what comes back of the selected events. */
  lemma SelectedReadBack(es: seq<MarketEvent>, symbol: string)
    ensures Delivered(ReadMessage, WithKey(KeyOf, symbol, Mapped(MessageOf, es)))
         == Delivered(ReadBack, WithKey(SymbolOf, symbol, es))
  {
    SelectMapped(MessageOf, SymbolOf, KeyOf, symbol, es);
    forall e: MarketEvent ensures ReadMessage(MessageOf(e)) == ReadBack(e) { ReadsBack(e); }
    ReadMapped(MessageOf, ReadMessage, ReadBack, WithKey(SymbolOf, symbol, es));
  }

  lemma ConsumedSelected(part: string -> nat, es: seq<MarketEvent>, choices: seq<Choice>, symbol: string)
    ensures var ms := Mapped(MessageOf, es);
      WithKey(SymbolOf, symbol, ConsumedEvents(Script(part, ms, choices)))
      == Delivered(ReadMessage, WithKey(KeyOf, symbol, Consumed(KeyOf, part, ms, Order(choices))))
  {
    var ms := Mapped(MessageOf, es);
    var got := Consumed(KeyOf, part, ms, Order(choices));
    ScriptDelivers(part, ms, choices);
    ConsumedFrom(KeyOf, part, ms, Order(choices));
    forall m | m in got ensures ReadMessage(m).Good? ==> SymbolOf(ReadMessage(m).event) == KeyOf(m) {
      GenuineMessage(es, m);
    }
    SelectRead(KeyOf, SymbolOf, ReadMessage, symbol, got);
  }

  /**
    Whatever the partitioning function and the order of the polls, what is consumed of a
    symbol is, in order, the first part of what comes back of its accepted publishes; and all
    of it once its partition has been read to the end.
  */
  lemma ConsumedPerSymbol(part: string -> nat, es: seq<MarketEvent>, choices: seq<Choice>, symbol: string)
    ensures var ms := Mapped(MessageOf, es);
      var got := WithKey(SymbolOf, symbol, ConsumedEvents(Script(part, ms, choices)));
      var sent := Delivered(ReadBack, WithKey(SymbolOf, symbol, es));
      && got <= sent
      && (Polled(part(symbol), Order(choices)) >= |InPartition(KeyOf, part, part(symbol), ms)| ==> got == sent)
  {
    var ms, order := Mapped(MessageOf, es), Order(choices);
    ConsumedSelected(part, es, choices, symbol);
    SelectedReadBack(es, symbol);
    OrderPerKey(KeyOf, part, ms, order, symbol);
    AllOfKey(KeyOf, part, ms, order, symbol);
    PrefixDelivered(ReadMessage, WithKey(KeyOf, symbol, Consumed(KeyOf, part, ms, order)), WithKey(KeyOf, symbol, ms));
  }

  /** For events that survive the codec it is the accepted publishes themselves. */
  lemma UnchangedPerSymbol(part: string -> nat, es: seq<MarketEvent>, choices: seq<Choice>, symbol: string)
    requires forall e :: e in es ==> Survives(e)
    ensures WithKey(SymbolOf, symbol, ConsumedEvents(Script(part, Mapped(MessageOf, es), choices)))
         <= WithKey(SymbolOf, symbol, es)
  {
    ConsumedPerSymbol(part, es, choices, symbol);
    var mine := WithKey(SymbolOf, symbol, es);
    SelectedFrom(SymbolOf, symbol, es);
    forall i | 0 <= i < |mine| ensures Survives(mine[i]) { assert mine[i] in mine; }
    SurvivorsComeBack(mine);
  }

  lemma {:induction false} SelectedFrom<M>(key: M -> string, k: string, ms: seq<M>)
    ensures forall m :: m in WithKey(key, k, ms) ==> m in ms
    decreases |ms|
  {
    if ms != [] { SelectedFrom(key, k, ms[..|ms| - 1]); }
  }
}
