/** What the pipeline promises, over every interleaving of its threads. */
module PipelineTheorems {
  import opened SourceContract
  import opened Pipeline
  import opened PipelineInvariants

  lemma Reached<E(!new)>(capacity: nat, supply: Supply, recording: bool, steps: seq<Step<E>>)
    requires RunOk(Init<E>(capacity, supply, recording), steps)
    ensures Inv(Run(Init<E>(capacity, supply, recording), steps))
  {
    InitInv<E>(capacity, supply, recording);
    InvRun(Init<E>(capacity, supply, recording), steps);
  }

  lemma SuccessesBound<E>(attempts: seq<(E, bool)>)
    ensures Successes(attempts) <= |attempts|
  {}

  /**
    In every state: what the source delivered is what publish() was called on, then what
    is on its way, in order; and the three counters never claim more than has happened.
  */
  lemma Conservation<E(!new)>(capacity: nat, supply: Supply, recording: bool, steps: seq<Step<E>>)
    requires RunOk(Init<E>(capacity, supply, recording), steps)
    ensures var s := Run(Init<E>(capacity, supply, recording), steps);
      && HasThreads(s)
      && s.taken == Events(s.attempts) + InTransit(s)
      && |s.taken| - 1 <= s.received <= |s.taken|
      && |s.attempts| - 1 <= s.published + s.failures <= |s.attempts|
      && s.published + s.failures <= s.received
      && (s.recorder.Some? ==> s.recorder.value <= s.taken && s.received - 1 <= |s.recorder.value| <= s.received)
  {
    Reached(capacity, supply, recording, steps);
    var s := Run(Init<E>(capacity, supply, recording), steps);
    SuccessesBound(s.attempts);
    assert |s.taken| == |s.attempts| + |InTransit(s)|;
    if s.ingest.IGot? { assert HeldByIngest(s.ingest, s.q.pc[INGEST]) == [s.ingest.event]; }
  }

  /**
    The queue is only ever shut after the ingest thread has finished: push() never returns
    false to it, its loop is never left by `break`, and pop() ends only on an empty queue.
  */
  lemma ShutOnlyAfterIngest<E(!new)>(capacity: nat, supply: Supply, recording: bool, steps: seq<Step<E>>)
    requires RunOk(Init<E>(capacity, supply, recording), steps)
    ensures var s := Run(Init<E>(capacity, supply, recording), steps);
      && HasThreads(s)
      && (s.q.core.shut ==> s.ingest.IExited? && s.ingestFinished)
      && (s.q.pc[INGEST].PushDone? ==> s.q.pc[INGEST].ok)
      && (Enabled(s, IngestPushReturn) ==> Apply(s, IngestPushReturn).ingest == ITop)
      && (s.publish.PFlush? || s.publish.PExited? ==> s.q.core.items == [] && s.ingest.IExited?)
  {
    Reached(capacity, supply, recording, steps);
    ShutState(Run(Init<E>(capacity, supply, recording), steps));
  }

  lemma ShutState<E(!new)>(s: State<E>)
    requires Inv(s)
    ensures s.q.core.shut ==> s.ingest.IExited? && s.ingestFinished
    ensures s.q.pc[INGEST].PushDone? ==> s.q.pc[INGEST].ok
    ensures Enabled(s, IngestPushReturn) ==> Apply(s, IngestPushReturn).ingest == ITop
    ensures s.publish.PFlush? || s.publish.PExited? ==> s.q.core.items == [] && s.ingest.IExited?
  {}

  /** What the caller can rely on once stop() has returned. */
  ghost predicate AllDelivered<E>(s: State<E>) {
    && Events(s.attempts) == s.taken
    && s.received == |s.taken|
    && s.published == Successes(s.attempts)
    && s.received == s.published + s.failures
    && s.q.core.items == []
    && (s.recorder.Some? ==> s.recorder.value == s.taken)
    && s.flushedAt == [|s.attempts|]
  }

  ghost predicate SameOutcome<E>(s: State<E>, s': State<E>) {
    && s'.taken == s.taken && s'.attempts == s.attempts && s'.recorder == s.recorder
    && s'.received == s.received && s'.published == s.published && s'.failures == s.failures
    && s'.flushedAt == s.flushedAt && s'.q == s.q && s'.owner == s.owner && s'.stopped
  }

  lemma StoppedState<E>(s: State<E>)
    requires Inv(s) && s.owner.OStopped?
    ensures AllDelivered(s) && s.ingest.IExited? && s.publish.PExited? && s.stopped
    ensures forall t :: t in s.q.pc ==> s.q.pc[t].Idle?
  {
    SuccessesBound(s.attempts);
    assert InTransit(s) == [];
  }

  lemma {:induction false} StoppedRun<E(!new)>(s: State<E>, more: seq<Step<E>>)
    requires Inv(s) && s.owner.OStopped? && RunOk(s, more)
    ensures SameOutcome(s, Run(s, more))
    decreases |more|
  {
    if more != [] {
      StoppedState(s);
      var s' := Apply(s, more[0]);
      assert more[0].RequestStop? || more[0].OwnerStopIgnored?;
      InvStep(s, more[0]);
      StoppedRun(s', more[1..]);
    }
  }

  /**
    When stop() has returned, publish() was called on exactly what the source delivered, in
    order, whatever it answered; the counters, the recorder and the one flush agree with
    that; and later calls of requestStop(), stop() or the destructor change none of it.
  */
  lemma StopDrainsEverything<E(!new)>(capacity: nat, supply: Supply, recording: bool,
                                      steps: seq<Step<E>>, more: seq<Step<E>>)
    requires RunOk(Init<E>(capacity, supply, recording), steps)
    ensures var s := Run(Init<E>(capacity, supply, recording), steps);
      s.owner.OStopped? && RunOk(s, more) ==> AllDelivered(s) && SameOutcome(s, Run(s, more))
  {
    Reached(capacity, supply, recording, steps);
    var s := Run(Init<E>(capacity, supply, recording), steps);
    if s.owner.OStopped? && RunOk(s, more) {
      StoppedState(s);
      StoppedRun(s, more);
    }
  }

  /**
    stop() alone does not return on a source that never ends: the ingest thread finishes
    only after requestStop(), or when the source has run out.
  */
  lemma StopNeedsAnEndingSource<E(!new)>(capacity: nat, supply: Supply, recording: bool, steps: seq<Step<E>>)
    requires RunOk(Init<E>(capacity, supply, recording), steps)
    ensures var s := Run(Init<E>(capacity, supply, recording), steps);
      s.ingestFinished || s.owner.OStopped? ==> s.src.stop || s.src.supply == Finite(0)
  {
    Reached(capacity, supply, recording, steps);
  }

  // ---- at most one event after a stop request ----

  /** Events that may still be counted once the source has been stopped. */
  function Overrun<E>(s: State<E>): nat {
    (if s.ingest.IGot? then 1 else 0) + (if s.src.inNext && s.src.grace then 1 else 0)
  }

  lemma OverrunStep<E(!new)>(s: State<E>, step: Step<E>)
    requires OrderInv(s) && s.src.stop && Enabled(s, step)
    ensures Apply(s, step).src.stop
    ensures Apply(s, step).received + Overrun(Apply(s, step)) <= s.received + Overrun(s)
  {
    if OfOwner(step) {
      OwnerMoves(s, step);
    } else if OfIngest(step) {
      OverrunIngest(s, step);
    } else if OfPublish(step) {
      PublishMovesItself(s, step);
    }
  }

  lemma OverrunIngest<E(!new)>(s: State<E>, step: Step<E>)
    requires HasThreads(s) && s.src.stop && IngestEnabled(s, step)
    ensures var s' := IngestApply(s, step); s'.src.stop && s'.received + Overrun(s') <= s.received + Overrun(s)
  {}

  lemma {:induction false} OverrunRun<E(!new)>(s: State<E>, steps: seq<Step<E>>)
    requires Inv(s) && s.src.stop && RunOk(s, steps)
    ensures Run(s, steps).received <= s.received + Overrun(s)
    decreases |steps|
  {
    if steps != [] {
      InvStep(s, steps[0]);
      OverrunStep(s, steps[0]);
      OverrunRun(Apply(s, steps[0]), steps[1..]);
    }
  }

  /** After requestStop() has completed, the received counter grows by at most one. */
  lemma BoundedOverrun<E(!new)>(capacity: nat, supply: Supply, recording: bool,
                                steps: seq<Step<E>>, more: seq<Step<E>>)
    requires RunOk(Init<E>(capacity, supply, recording), steps)
    ensures var s := Run(Init<E>(capacity, supply, recording), steps);
      s.src.stop && RunOk(s, more) ==> Run(s, more).received <= s.received + 1
  {
    Reached(capacity, supply, recording, steps);
    var s := Run(Init<E>(capacity, supply, recording), steps);
    if s.src.stop && RunOk(s, more) { OverrunRun(s, more); }
  }

  // ---- counters read at different moments ----

  lemma {:induction false} ReceivedGrows<E(!new)>(s: State<E>, more: seq<Step<E>>)
    requires RunOk(s, more)
    ensures s.received <= Run(s, more).received
    decreases |more|
  {
    if more != [] { ReceivedGrows(Apply(s, more[0]), more[1..]); }
  }

  /** Read in this order, the counters are consistent even if the threads run in between. */
  lemma OutcomesBeforeReceived<E(!new)>(capacity: nat, supply: Supply, recording: bool,
                                        steps: seq<Step<E>>, more: seq<Step<E>>)
    requires RunOk(Init<E>(capacity, supply, recording), steps)
    requires RunOk(Run(Init<E>(capacity, supply, recording), steps), more)
    ensures var s := Run(Init<E>(capacity, supply, recording), steps);
      s.published + s.failures <= Run(s, more).received
  {
    Conservation(capacity, supply, recording, steps);
    ReceivedGrows(Run(Init<E>(capacity, supply, recording), steps), more);
  }
}
