/** Publishing to and consuming from Kafka (src/kafka_event_producer.cpp, src/kafka_event_consumer.cpp). */
module Kafka {
  import opened Options
  import opened MarketEvents
  import opened SkipAndCount
  import opened PartitionedLog
  import C = Capture

  datatype Message = Message(key: string, payload: string)

  function KeyOf(m: Message): string { m.key }

  function MessageOf(e: MarketEvent): Message { Message(e.symbol, Print(e)) }

  function Count(reports: seq<bool>, outcome: bool): nat {
    if reports == [] then 0
    else Count(reports[..|reports| - 1], outcome) + (if reports[|reports| - 1] == outcome then 1 else 0)
  }

  class KafkaEventProducer {
    var produced: seq<Message>   // what the client library has accepted, in order
    var deliverySuccesses: nat
    var deliveryFailures: nat

    constructor ()
      ensures produced == [] && deliverySuccesses == 0 && deliveryFailures == 0
    {
      produced, deliverySuccesses, deliveryFailures := [], 0, 0;
    }

    /** The delivery reports (true: stored) that a poll of the client serves. */
    method ServeReports(reports: seq<bool>)
      modifies this`deliverySuccesses, this`deliveryFailures
      ensures deliverySuccesses == old(deliverySuccesses) + Count(reports, true)
      ensures deliveryFailures == old(deliveryFailures) + Count(reports, false)
    {
      for i := 0 to |reports|
        invariant deliverySuccesses == old(deliverySuccesses) + Count(reports[..i], true)
        invariant deliveryFailures == old(deliveryFailures) + Count(reports[..i], false)
      {
        assert reports[..i + 1][..i] == reports[..i];
        if !reports[i] {
          deliveryFailures := deliveryFailures + 1;
        } else {
          deliverySuccesses := deliverySuccesses + 1;
        }
      }
      assert reports[..|reports|] == reports;
    }

    /** `accepts` is what the client library answers; `reports` is what its poll serves. */
    method Publish(e: MarketEvent, accepts: bool, reports: seq<bool>) returns (ok: bool)
      modifies this
      ensures ok == accepts
      ensures produced == old(produced) + (if ok then [MessageOf(e)] else [])
      ensures deliverySuccesses == old(deliverySuccesses) + Count(reports, true)
      ensures deliveryFailures == old(deliveryFailures) + Count(reports, false)
    {
      var payload := Print(e);
      if accepts {
        produced := produced + [Message(e.symbol, payload)];
      }
      ServeReports(reports);
      return accepts;
    }

    /** The publish loop of the pipeline, with the answers it got. */
    method PublishAll(attempts: seq<(MarketEvent, bool)>)
      modifies this
      ensures produced == old(produced) + Mapped(MessageOf, AcceptedOf(attempts))
    {
      for i := 0 to |attempts|
        invariant produced == old(produced) + Mapped(MessageOf, AcceptedOf(attempts[..i]))
      {
        AcceptedSnoc(MessageOf, old(produced), attempts, i);
        var ok := Publish(attempts[i].0, attempts[i].1, []);
      }
      assert attempts[..|attempts|] == attempts;
    }
  }

  // ---- consuming ----

  datatype Poll = Timeout | Failure | Record(payload: string, partition: nat, offset: nat)

  datatype ConsumedRecord = ConsumedRecord(event: MarketEvent, partition: nat, offset: nat)

  /** A message is read as a line is, but an empty one is malformed. */
  function ClassifyPoll(p: Poll): Verdict<ConsumedRecord> {
    if !p.Record? then Ignored
    else
      match C.Worth(p.payload)
      case Good(event) => Good(ConsumedRecord(event, p.partition, p.offset))
      case Throws => Throws
      case _ => Malformed
  }

  class KafkaEventConsumer {
    var pending: seq<Poll>       // what polls will return until another thread calls stop()
    var stopRequested: bool
    var messagesConsumed: nat
    var messagesMalformed: nat
    ghost const script: seq<Poll>
    ghost var polled: seq<Poll>

    ghost predicate Valid()
      reads this
    {
      && script == polled + pending
      && messagesConsumed == |Delivered(ClassifyPoll, polled)|
      && messagesMalformed == MalformedCount(ClassifyPoll, polled)
    }

    constructor (script: seq<Poll>)
      ensures Valid() && this.script == script && polled == [] && !stopRequested
    {
      this.script, pending, polled := script, script, [];
      stopRequested, messagesConsumed, messagesMalformed := false, 0, 0;
    }

    method Stop()
      requires Valid()
      modifies this`stopRequested
      ensures Valid() && stopRequested
    {
      stopRequested := true;
    }

    /** One turn of the loop: a poll, and what becomes of it. */
    method PollOnce() returns (v: Verdict<ConsumedRecord>)
      requires Valid() && pending != []
      modifies this`pending, this`messagesConsumed, this`messagesMalformed, this`polled
      ensures Valid()
      ensures polled == old(polled) + [old(pending)[0]] && pending == old(pending)[1..]
      ensures v == ClassifyPoll(old(pending)[0])
      ensures Delivered(ClassifyPoll, polled) == Delivered(ClassifyPoll, old(polled)) + Event(v)
      ensures ToTheEnd(ClassifyPoll, polled) <==> ToTheEnd(ClassifyPoll, old(polled)) && !v.Throws?
      ensures v.Good? ==>
        var r := old(pending)[0];
        r.Record? && v.event.partition == r.partition && v.event.offset == r.offset
    {
      var msg := pending[0];
      TakeInput(ClassifyPoll, polled, pending, msg);
      ToTheEndSnoc(ClassifyPoll, polled, msg);
      pending, polled := pending[1..], polled + [msg];
      if !msg.Record? { return Ignored; }
      var event := C.ReadEvent(msg.payload);
      if event.Throws? { return Throws; }
      if !event.Good? {
        messagesMalformed := messagesMalformed + 1;
        return Malformed;
      }
      messagesConsumed := messagesConsumed + 1;
      return Good(ConsumedRecord(event.event, msg.partition, msg.offset));
    }

    /**
      next().  It returns the record of the next good message, having skipped what timed out
      or failed and counted what was malformed; nothing only once it has been stopped.  A
      message with a number out of range ends it with an exception.
    */
    method Next() returns (out: Option<ConsumedRecord>, threw: bool)
      requires Valid() && ToTheEnd(ClassifyPoll, polled)
      modifies this`pending, this`stopRequested, this`messagesConsumed, this`messagesMalformed, this`polled
      ensures Valid() && old(polled) <= polled
      ensures Delivered(ClassifyPoll, polled)
           == Delivered(ClassifyPoll, old(polled)) + (if out.Some? then [out.value] else [])
      ensures if threw then out.None? && LastThrows(ClassifyPoll, polled) else ToTheEnd(ClassifyPoll, polled)
      ensures |polled| == messagesConsumed + messagesMalformed + IgnoredCount(ClassifyPoll, polled) + (if threw then 1 else 0)
      ensures out.None? && !threw ==> stopRequested
      ensures old(stopRequested) ==> out.None? && !threw && polled == old(polled) && stopRequested
      ensures !old(stopRequested) && out.None? && !threw ==> pending == []
      ensures out.Some? ==> |pending| < |old(pending)| && !stopRequested
    {
      while !stopRequested
        invariant Valid() && old(polled) <= polled && |pending| <= |old(pending)| && ToTheEnd(ClassifyPoll, polled)
        invariant Delivered(ClassifyPoll, polled) == Delivered(ClassifyPoll, old(polled))
        invariant old(stopRequested) ==> polled == old(polled) && stopRequested
        invariant !old(stopRequested) && stopRequested ==> pending == []
        decreases |pending|, !stopRequested
      {
        if pending == [] {
          stopRequested := true;  // by the other thread
        } else {
          ghost var before, msg := polled, pending[0];
          var v := PollOnce();
          if v.Throws? {
            ThrowsLast(ClassifyPoll, before, msg);
            TakenSoFar(ClassifyPoll, polled, pending, true);
            return None, true;
          }
          if v.Good? {
            TakenSoFar(ClassifyPoll, polled, pending, false);
            return Some(v.event), false;
          }
        }
      }
      TakenSoFar(ClassifyPoll, polled, pending, false);
      return None, false;
    }

    /** All calls of next() until it returns false or raises an exception. */
    method ConsumeAll() returns (records: seq<ConsumedRecord>, threw: bool)
      requires Valid() && polled == [] && !stopRequested
      modifies this`pending, this`stopRequested, this`messagesConsumed, this`messagesMalformed, this`polled
      ensures Valid() && (!threw ==> stopRequested)
      ensures threw <==> !ToTheEnd(ClassifyPoll, script)
      ensures var read := BeforeThrow(ClassifyPoll, script);
        && records == Delivered(ClassifyPoll, read) && messagesConsumed == |records|
        && messagesMalformed == MalformedCount(ClassifyPoll, read)
    {
      records, threw := [], false;
      while !threw
        invariant Valid() && records == Delivered(ClassifyPoll, polled)
        invariant if threw then LastThrows(ClassifyPoll, polled) else ToTheEnd(ClassifyPoll, polled) && !stopRequested
        decreases !threw, |pending|
      {
        var out, t := Next();
        threw := t;
        if out.None? { break; }
        records := records + [out.value];
      }
      TakenSoFar(ClassifyPoll, polled, pending, threw);
    }
  }
}
