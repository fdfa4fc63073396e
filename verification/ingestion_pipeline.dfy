/**
  The pipeline as an object (src/ingestion_pipeline.cpp), with a publisher and an optional
  recorder that keep what they are given.  Its methods are the source's loops, with the other
  thread's turns in between as parameters; PipelineObjects below runs every interleaving of
  module Pipeline on the same object.
*/
module IngestionPipelines {
  import opened BoundedQueues
  import I = PipelineInvariants

  lemma OneMoreEvent<E>(before: seq<E>, events: seq<E>, i: nat)
    requires i < |events|
    ensures before + events[..i] + [events[i]] == before + events[..i + 1]
  {}

  class Publisher<E> {
    const answer: nat -> bool     // what the n-th call returns
    var attempts: seq<(E, bool)>  // the calls of publish(), with their results
    var flushedAt: seq<nat>       // |attempts| at each call of flush()

    constructor (answer: nat -> bool)
      ensures this.answer == answer && attempts == [] && flushedAt == []
    {
      this.answer, attempts, flushedAt := answer, [], [];
    }

    method Publish(e: E) returns (ok: bool)
      modifies this`attempts
      ensures ok == answer(|old(attempts)|) && attempts == old(attempts) + [(e, ok)]
    {
      ok := answer(|attempts|);
      attempts := attempts + [(e, ok)];
    }

    method Flush()
      modifies this`flushedAt
      ensures flushedAt == old(flushedAt) + [|attempts|]
    {
      flushedAt := flushedAt + [|attempts|];
    }
  }

  class Recorder<E> {
    var recorded: seq<E>

    constructor ()
      ensures recorded == []
    {
      recorded := [];
    }

    method Record(e: E)
      modifies this
      ensures recorded == old(recorded) + [e]
    {
      recorded := recorded + [e];
    }
  }

  class IngestionPipeline<E> {
    const queue: BoundedQueue<E>
    const publisher: Publisher<E>
    const recorder: Recorder?<E>
    var started: bool
    var stopped: bool
    var sourceStopped: bool
    var ingestFinished: bool
    var eventsReceived: nat
    var eventsPublished: nat
    var publishFailures: nat

    /** Between two turns of the publish loop. */
    ghost predicate Valid()
      reads this, queue, publisher
    {
      && queue.Valid()
      && I.Events(publisher.attempts) == queue.delivered
      && eventsPublished == I.Successes(publisher.attempts)
      && eventsPublished + publishFailures == |publisher.attempts|
    }

    constructor (capacity: nat, publisher: Publisher<E>, recorder: Recorder?<E>)
      requires publisher.attempts == []
      ensures Valid() && fresh(queue) && this.publisher == publisher && this.recorder == recorder
      ensures queue.Snapshot() == Core(capacity, [], 0, false) && queue.accepted == []
      ensures !started && !stopped && !sourceStopped && !ingestFinished
      ensures eventsReceived == 0 && eventsPublished == 0 && publishFailures == 0
    {
      queue := new BoundedQueue(capacity);
      this.publisher, this.recorder := publisher, recorder;
      started, stopped, sourceStopped, ingestFinished := false, false, false, false;
      eventsReceived, eventsPublished, publishFailures := 0, 0, 0;
    }

    method Start()
      modifies this`started
      ensures started
    {
      started := true;
    }

    method RequestStop()
      modifies this`sourceStopped
      ensures sourceStopped == (old(sourceStopped) || started)
    {
      if started { sourceStopped := true; }
    }

    // The pieces that the loops are made of.

    method CountReceived()
      modifies this`eventsReceived
      ensures eventsReceived == old(eventsReceived) + 1
    {
      eventsReceived := eventsReceived + 1;
    }

    method RecordIfAsked(e: E)
      modifies recorder
      ensures recorder != null ==> recorder.recorded == old(recorder.recorded) + [e]
    {
      if recorder != null { recorder.Record(e); }
    }

    method FinishIngest()
      modifies this`ingestFinished
      ensures ingestFinished
    {
      ingestFinished := true;
    }

    method CountOutcome(ok: bool)
      modifies this`eventsPublished, this`publishFailures
      ensures eventsPublished == old(eventsPublished) + (if ok then 1 else 0)
      ensures publishFailures == old(publishFailures) + (if ok then 0 else 1)
    {
      if ok {
        eventsPublished := eventsPublished + 1;
      } else {
        publishFailures := publishFailures + 1;
      }
    }

    method FinishStop()
      modifies this`stopped
      ensures stopped
    {
      stopped := true;
    }

    /** One turn of the loop of runPublish(): a failed publish is counted and changes nothing else. */
    method PublishOne() returns (r: PopResult<E>)
      requires Valid()
      modifies this`eventsPublished, this`publishFailures, queue, publisher`attempts
      ensures Valid() && queue.accepted == old(queue.accepted) && queue.shut == old(queue.shut)
      ensures r == PopOutcome(old(queue.Snapshot())) && queue.Snapshot() == AfterPop(old(queue.Snapshot()))
    {
      r := queue.Pop();
      if r.PopTook? {
        ghost var before := publisher.attempts;
        var ok := publisher.Publish(r.item);
        I.EventsAppend(before, r.item, ok);
        CountOutcome(ok);
      }
    }

    /** The publish thread makes up to k turns while another thread is about to push. */
    method PublishSome(k: nat)
      requires Valid()
      modifies this`eventsPublished, this`publishFailures, queue, publisher`attempts
      ensures Valid() && queue.accepted == old(queue.accepted) && queue.shut == old(queue.shut)
      ensures |queue.items| == if k < |old(queue.items)| then |old(queue.items)| - k else 0
    {
      var n := 0;
      while n < k && queue.items != []
        invariant n <= k && n <= |old(queue.items)| && |queue.items| == |old(queue.items)| - n
        invariant Valid() && queue.accepted == old(queue.accepted) && queue.shut == old(queue.shut)
      {
        var r := PublishOne();
        n := n + 1;
      }
    }

    /** push(), as its caller sees it: it waits until the publish thread has made room. */
    method PushWaiting(e: E, turns: seq<nat>) returns (ok: bool)
      requires Valid() && (queue.shut || queue.capacity > 0)
      modifies this`eventsPublished, this`publishFailures, queue, publisher`attempts
      ensures Valid() && queue.shut == old(queue.shut) && ok == !queue.shut
      ensures queue.accepted == old(queue.accepted) + (if ok then [e] else [])
    {
      var r := queue.Push(e);
      var k := 0;
      while r.PushBlocks?
        invariant Valid() && queue.shut == old(queue.shut) && (r.PushRefused? <==> queue.shut)
        invariant queue.accepted == old(queue.accepted) + (if r.PushAccepted? then [e] else [])
        invariant r.PushBlocks? ==> k <= |turns|
        decreases |turns| + 1 - k
      {
        PublishSome(if k < |turns| then turns[k] else |queue.items|);
        k := k + 1;
        r := queue.Push(e);
      }
      return r.PushAccepted?;
    }

    /**
      runIngest(), for a source that delivers the given events and then ends.  `turns` tells,
      for each push, how many turns the publish thread makes between two tests of the wait
      predicate; when that is used up it empties the queue.  Unless the queue is already shut,
      every event is counted, recorded and let in, in order; if it is, the loop ends at the
      first push.
    */
    method RunIngest(events: seq<E>, turns: seq<seq<nat>>)
      requires Valid() && (queue.shut || queue.capacity > 0 || events == [])
      modifies this`eventsReceived, this`ingestFinished, this`eventsPublished, this`publishFailures
      modifies queue, publisher`attempts, recorder
      ensures Valid() && ingestFinished && queue.shut == old(queue.shut)
      ensures var n := if queue.shut && |events| > 0 then 1 else |events|;
        && eventsReceived == old(eventsReceived) + n
        && (recorder != null ==> recorder.recorded == old(recorder.recorded) + events[..n])
      ensures queue.accepted == old(queue.accepted) + (if queue.shut then [] else events)
    {
      var i := 0;
      while i < |events|
        invariant i <= |events| && (queue.shut ==> i == 0) && queue.shut == old(queue.shut)
        invariant Valid() && eventsReceived == old(eventsReceived) + i
        invariant queue.accepted == old(queue.accepted) + events[..i]
        invariant recorder != null ==> recorder.recorded == old(recorder.recorded) + events[..i]
      {
        CountReceived();
        if recorder != null { OneMoreEvent(old(recorder.recorded), events, i); }
        RecordIfAsked(events[i]);
        OneMoreEvent(old(queue.accepted), events, i);
        var ok := PushWaiting(events[i], if i < |turns| then turns[i] else []);
        if !ok {
          break;
        }
        i := i + 1;
      }
      assert events[..|events|] == events;
      FinishIngest();
    }

    /** What is left of runPublish() once the queue has been shut: it drains the queue, then flushes. */
    method RunPublish()
      requires Valid() && queue.shut
      modifies this`eventsPublished, this`publishFailures, queue, publisher
      ensures Valid() && queue.shut && queue.items == [] && queue.accepted == old(queue.accepted)
      ensures publisher.flushedAt == old(publisher.flushedAt) + [|publisher.attempts|]
    {
      var r := PublishOne();
      while r.PopTook?
        invariant Valid() && queue.shut && queue.accepted == old(queue.accepted)
        invariant !r.PopBlocks? && (r.PopDrained? ==> queue.items == [])
        invariant publisher.flushedAt == old(publisher.flushedAt)
        decreases |queue.items|, r.PopTook?
      {
        r := PublishOne();
      }
      publisher.Flush();
    }

    /**
      stop(), the two joins included.  `rest` is what the source still delivers before it ends
      if the ingest thread has not finished yet.  It does nothing before start() or after it has
      run; else it lets the ingest loop end, publishes what is queued and leaves nothing behind.
    */
    method Stop(rest: seq<E>, turns: seq<seq<nat>>)
      requires Valid()
      requires started && !stopped ==> !queue.shut && (ingestFinished || queue.capacity > 0 || rest == [])
      modifies this, queue, publisher, recorder
      ensures Valid() && queue.accepted == old(queue.accepted) + Joined(old(stopped) || !started || old(ingestFinished), rest)
      ensures started == old(started) && sourceStopped == old(sourceStopped)
      ensures old(stopped) || !started ==>
        unchanged(this) && unchanged(queue) && unchanged(publisher) && (recorder != null ==> unchanged(recorder))
      ensures !old(stopped) && started ==>
        && stopped && ingestFinished && queue.shut && queue.items == []
        && eventsReceived == old(eventsReceived) + |Joined(old(ingestFinished), rest)|
        && (recorder != null ==> recorder.recorded == old(recorder.recorded) + Joined(old(ingestFinished), rest))
        && I.Events(publisher.attempts) == queue.accepted
        && publisher.flushedAt == old(publisher.flushedAt) + [|publisher.attempts|]
    {
      if stopped || !started { return; }
      if !ingestFinished {
        RunIngest(rest, turns);
        assert rest[..|rest|] == rest;
      }
      queue.Shutdown();
      RunPublish();
      FinishStop();
    }

    /** requestStop() and stop(): the end of the main program, and once more the destructor. */
    method Close()
      requires Valid() && started && ingestFinished && (stopped || !queue.shut)
      modifies this, queue, publisher, recorder
      ensures Valid() && started && stopped && ingestFinished
      ensures queue.accepted == old(queue.accepted) && eventsReceived == old(eventsReceived)
      ensures recorder != null ==> recorder.recorded == old(recorder.recorded)
      ensures old(stopped) ==> unchanged(queue) && unchanged(publisher)
      ensures !old(stopped) ==>
        && queue.items == [] && I.Events(publisher.attempts) == queue.accepted
        && publisher.flushedAt == old(publisher.flushedAt) + [|publisher.attempts|]
    {
      RequestStop();
      Stop([], []);
    }
  }

  /** What the ingest thread still brings while stop() waits for it: nothing if it has finished. */
  function Joined<E>(finished: bool, rest: seq<E>): seq<E> { if finished then [] else rest }

  /**
    The main program: a pipeline is started on a source, asked to stop once the source has
    delivered its events, stopped, and stopped once more by its destructor.  All that was
    delivered has been published, in order, once.
  */
  method IngestAndStop<E>(capacity: nat, publisher: Publisher<E>, recorder: Recorder?<E>,
                          events: seq<E>, turns: seq<seq<nat>>)
    returns (p: IngestionPipeline<E>)
    requires capacity > 0 && publisher.attempts == [] && publisher.flushedAt == []
    modifies publisher, recorder
    ensures I.Events(publisher.attempts) == events && publisher.flushedAt == [|events|]
    ensures p.eventsReceived == |events| == p.eventsPublished + p.publishFailures
    ensures p.eventsPublished == I.Successes(publisher.attempts)
    ensures recorder != null ==> recorder.recorded == old(recorder.recorded) + events
    ensures p.queue.items == []
  {
    p := new IngestionPipeline(capacity, publisher, recorder);
    p.Start();
    p.RunIngest(events, turns);
    assert events[..|events|] == events;
    p.Close();
    p.Close();
  }
}
