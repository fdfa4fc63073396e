/** Every interleaving of the three threads, run on the pipeline object. */
module PipelineObjects {
  import opened SourceContract
  import opened Pipeline
  import opened PipelineInvariants
  import opened IngestionPipelines
  import Q = QueueMonitor
  import QT = QueueTheorems
  import T = PipelineTheorems

  /** The object's fields are the shared part of the state; where each thread is, is not in it. */
  ghost predicate Represents<E>(p: IngestionPipeline<E>, s: State<E>)
    reads p, p.queue, p.publisher, p.recorder
  {
    && QT.Represents(p.queue, s.q)
    && SameFields(p, s)
    && SamePublisher(p, s)
    && (p.recorder != null <==> s.recorder.Some?)
    && (p.recorder != null ==> p.recorder.recorded == s.recorder.value)
  }

  ghost predicate SameFields<E>(p: IngestionPipeline<E>, s: State<E>)
    reads p
  {
    && p.started == s.started && p.stopped == s.stopped
    && p.sourceStopped == s.src.stop && p.ingestFinished == s.ingestFinished
    && p.eventsReceived == s.received && p.eventsPublished == s.published && p.publishFailures == s.failures
  }

  ghost predicate SamePublisher<E>(p: IngestionPipeline<E>, s: State<E>)
    reads p, p.publisher
  {
    p.publisher.attempts == s.attempts && p.publisher.flushedAt == s.flushedAt
  }

  /** The publisher of the object answers as the step says. */
  predicate Answers<E>(answer: nat -> bool, s: State<E>, step: Step<E>) {
    step.PublishTry? ==> step.ok == answer(|s.attempts|)
  }

  predicate AllAnswers<E(!new)>(answer: nat -> bool, s: State<E>, steps: seq<Step<E>>)
    requires RunOk(s, steps)
    decreases |steps|
  {
    steps == [] || (Answers(answer, s, steps[0]) && AllAnswers(answer, Apply(s, steps[0]), steps[1..]))
  }

  method PerformInside<E(!new)>(p: IngestionPipeline<E>, s: State<E>, qs: Q.Step<E>)
    requires Represents(p, s) && HasThreads(s) && Internal(qs) && Q.Enabled(s.q, qs)
    modifies p.queue
    ensures Represents(p, s.(q := Q.Apply(s.q, qs)))
  {
    QT.PerformStep(p.queue, s.q, qs);
  }

  method PerformOwner<E(!new)>(p: IngestionPipeline<E>, s: State<E>, step: Step<E>)
    requires Represents(p, s) && HasThreads(s) && OwnerEnabled(s, step)
    modifies p, p.queue
    ensures Represents(p, OwnerApply(s, step))
  {
    match step {
      case OwnerStart => p.Start();
      case OwnerJoinIngest => QT.PerformStep(p.queue, s.q, Q.CallShutdown(OWNER));
      case OwnerShutdownReturn => QT.PerformStep(p.queue, s.q, Q.Return(OWNER));
      case OwnerJoinPublish => p.FinishStop();
      case RequestStop => p.RequestStop();
      case _ =>
    }
  }

  method PerformIngest<E(!new)>(p: IngestionPipeline<E>, s: State<E>, step: Step<E>)
    requires Represents(p, s) && HasThreads(s) && IngestEnabled(s, step)
    modifies p, p.queue, p.recorder
    ensures Represents(p, IngestApply(s, step))
  {
    match step {
      case IngestCount => p.CountReceived();
      case IngestRecord => p.RecordIfAsked(s.ingest.event);
      case IngestCallPush => QT.PerformStep(p.queue, s.q, Q.CallPush(INGEST, s.ingest.event));
      case IngestPushReturn => QT.PerformStep(p.queue, s.q, Q.Return(INGEST));
      case IngestFinish => p.FinishIngest();
      case _ =>
    }
  }

  method PerformPublish<E(!new)>(p: IngestionPipeline<E>, s: State<E>, step: Step<E>)
    requires Represents(p, s) && HasThreads(s) && PublishEnabled(s, step) && Answers(p.publisher.answer, s, step)
    modifies p, p.queue, p.publisher
    ensures Represents(p, PublishApply(s, step))
  {
    match step {
      case PublishCallPop => QT.PerformStep(p.queue, s.q, Q.CallPop(PUBLISH));
      case PublishPopReturn => QT.PerformStep(p.queue, s.q, Q.Return(PUBLISH));
      case PublishTry(_) =>
        var ok := p.publisher.Publish(s.publish.event);
      case PublishCount => p.CountOutcome(s.publish.ok);
      case PublishFlush => p.publisher.Flush();
    }
  }

  /** One step of the machine is one of the pieces the loops are made of, run on the object. */
  method PerformStep<E(!new)>(p: IngestionPipeline<E>, s: State<E>, step: Step<E>)
    requires Represents(p, s) && Enabled(s, step) && Answers(p.publisher.answer, s, step)
    modifies p, p.queue, p.publisher, p.recorder
    ensures Represents(p, Apply(s, step))
  {
    if step.Inside? {
      PerformInside(p, s, step.step);
    } else if OfOwner(step) {
      PerformOwner(p, s, step);
    } else if OfIngest(step) {
      PerformIngest(p, s, step);
    } else {
      PerformPublish(p, s, step);
    }
  }

  lemma {:induction false} RunSnoc<E(!new)>(answer: nat -> bool, s: State<E>, steps: seq<Step<E>>, n: nat)
    requires RunOk(s, steps) && n < |steps| && AllAnswers(answer, s, steps)
    ensures RunOk(s, steps[..n]) && Enabled(Run(s, steps[..n]), steps[n])
    ensures Answers(answer, Run(s, steps[..n]), steps[n])
    ensures RunOk(s, steps[..n + 1]) && Run(s, steps[..n + 1]) == Apply(Run(s, steps[..n]), steps[n])
    decreases n
  {
    if n > 0 {
      RunSnoc(answer, Apply(s, steps[0]), steps[1..], n - 1);
      assert steps[..n][1..] == steps[1..][..n - 1];
      assert steps[..n + 1][1..] == steps[1..][..n];
    } else {
      assert steps[..1] == [steps[0]];
    }
  }

  /**
    Any schedule of the three threads, executed on a fresh pipeline with any publisher.  If
    it has come to the end of stop(), the publisher, the recorder and the counters agree with
    what the source delivered.
  */
  method PerformRun<E(!new)>(capacity: nat, supply: Supply, recording: bool, answer: nat -> bool, steps: seq<Step<E>>)
    returns (p: IngestionPipeline<E>)
    requires RunOk(Init<E>(capacity, supply, recording), steps)
    requires AllAnswers(answer, Init<E>(capacity, supply, recording), steps)
    ensures var s := Run(Init<E>(capacity, supply, recording), steps);
      && Represents(p, s)
      && (s.owner.OStopped? ==>
           && p.stopped && p.queue.items == []
           && Events(p.publisher.attempts) == s.taken
           && p.eventsReceived == |s.taken| == p.eventsPublished + p.publishFailures
           && p.eventsPublished == Successes(p.publisher.attempts)
           && (p.recorder != null ==> p.recorder.recorded == s.taken)
           && p.publisher.flushedAt == [|p.publisher.attempts|])
  {
    ghost var init := Init<E>(capacity, supply, recording);
    var publisher := new Publisher(answer);
    var recorder: Recorder?<E> := null;
    if recording { recorder := new Recorder(); }
    p := new IngestionPipeline(capacity, publisher, recorder);
    var s := Init<E>(capacity, supply, recording);
    for n := 0 to |steps|
      invariant RunOk(init, steps[..n]) && s == Run(init, steps[..n])
      invariant fresh(p) && fresh(p.queue) && fresh(p.publisher) && p.publisher.answer == answer
      invariant p.recorder != null ==> fresh(p.recorder)
      invariant Represents(p, s)
    {
      RunSnoc(answer, init, steps, n);
      PerformStep(p, s, steps[n]);
      s := Apply(s, steps[n]);
    }
    assert steps[..|steps|] == steps;
    if s.owner.OStopped? {
      T.Reached(capacity, supply, recording, steps);
      T.StoppedState(s);
    }
  }
}
