/**
  What stats() can show while the threads run (src/ingestion_pipeline.cpp).  It reads the
  received counter, then the published one, then the failures, and the other threads run on
  in between: the ingest and publish threads if it is the owner that calls it, all three if
  it is somebody else.
*/
module StatsSnapshot {
  import opened SourceContract
  import opened Pipeline
  import opened PipelineInvariants
  import opened PipelineProgress
  import Q = QueueMonitor
  import QT = QueueTheorems
  import PT = PipelineTheorems

  /** However the threads run on, no more outcomes are read than events received before. */
  ghost predicate Consistent<E(!new)>(s: State<E>) {
    forall more: seq<Step<E>>, more2: seq<Step<E>> ::
      RunOk(s, more) && RunOk(Run(s, more), more2) ==>
        Run(s, more).published + Run(Run(s, more), more2).failures <= s.received
  }

  /** What the owner thread itself does; a stop may be requested by any thread. */
  predicate OwnersOwn<E>(step: Step<E>) { OfOwner(step) && !step.RequestStop? }

  predicate ByOthers<E>(steps: seq<Step<E>>) { forall i :: 0 <= i < |steps| ==> !OwnersOwn(steps[i]) }

  /** The same if the owner is the caller, and so does nothing else meanwhile. */
  ghost predicate OwnerConsistent<E(!new)>(s: State<E>) {
    forall more: seq<Step<E>>, more2: seq<Step<E>> ::
      RunOk(s, more) && RunOk(Run(s, more), more2) && ByOthers(more) && ByOthers(more2) ==>
        Run(s, more).published + Run(Run(s, more), more2).failures <= s.received
  }

  /** The owner is outside start() and stop(). */
  predicate OwnerFree<E>(s: State<E>) { s.owner.ONew? || s.owner.ORunning? || s.owner.OStopped? }

  /** One more event can still be counted as received. */
  predicate CanStillCount<E>(s: State<E>) {
    || s.ingest.IGot?
    || (s.ingest.INext? && CanDeliver(s.src))
    || (BeforeNext(s.ingest) && !s.src.stop && s.src.supply != Finite(0))
  }

  predicate BeforeNext<E>(i: Ingest<E>) { i.IUnborn? || i.ITop? || i.ICounted? || i.IRecorded? || i.IPush? }

  // ---- when no more can be counted ----

  lemma FrozenStep<E(!new)>(s: State<E>, step: Step<E>)
    requires CallInv(s) && OrderInv(s) && !CanStillCount(s) && Enabled(s, step)
    ensures !CanStillCount(Apply(s, step)) && Apply(s, step).received == s.received
  {
    if OfOwner(step) {
      OwnerMoves(s, step);
    } else if OfIngest(step) {
      FrozenIngest(s, step);
    } else if OfPublish(step) {
      PublishMovesItself(s, step);
    }
  }

  lemma FrozenIngest<E(!new)>(s: State<E>, step: Step<E>)
    requires CallInv(s) && HasThreads(s) && !CanStillCount(s) && IngestEnabled(s, step)
    ensures !CanStillCount(IngestApply(s, step)) && IngestApply(s, step).received == s.received
  {}

  lemma {:induction false} FrozenRun<E(!new)>(s: State<E>, more: seq<Step<E>>)
    requires Inv(s) && !CanStillCount(s) && RunOk(s, more)
    ensures Inv(Run(s, more)) && !CanStillCount(Run(s, more)) && Run(s, more).received == s.received
    decreases |more|
  {
    if more != [] {
      FrozenStep(s, more[0]);
      InvStep(s, more[0]);
      FrozenRun(Apply(s, more[0]), more[1..]);
    }
  }

  lemma {:induction false} PublishedGrows<E(!new)>(s: State<E>, more: seq<Step<E>>)
    requires RunOk(s, more)
    ensures s.published <= Run(s, more).published
    decreases |more|
  {
    if more != [] { PublishedGrows(Apply(s, more[0]), more[1..]); }
  }

  lemma OutcomesBound<E(!new)>(s: State<E>)
    requires Inv(s)
    ensures s.published + s.failures <= s.received
  {
    PT.SuccessesBound(s.attempts);
    assert |s.taken| == |s.attempts| + |InTransit(s)|;
    if s.ingest.IGot? { assert HeldByIngest(s.ingest, s.q.pc[INGEST]) == [s.ingest.event]; }
  }

  lemma FrozenIsConsistent<E(!new)>(s: State<E>)
    requires Inv(s) && !CanStillCount(s)
    ensures Consistent(s)
  {
    forall more: seq<Step<E>>, more2: seq<Step<E>> | RunOk(s, more) && RunOk(Run(s, more), more2)
      ensures Run(s, more).published + Run(Run(s, more), more2).failures <= s.received
    {
      FrozenRun(s, more);
      FrozenRun(Run(s, more), more2);
      PublishedGrows(Run(s, more), more2);
      OutcomesBound(Run(Run(s, more), more2));
    }
  }

  lemma NoRoomIsConsistent<E(!new)>(s: State<E>)
    requires Inv(s) && s.q.core.capacity == 0 && NothingPublished(s)
    ensures Consistent(s)
  {
    forall more: seq<Step<E>>, more2: seq<Step<E>> | RunOk(s, more) && RunOk(Run(s, more), more2)
      ensures Run(s, more).published + Run(Run(s, more), more2).failures <= s.received
    {
      NothingCounted(s, more);
      NothingCounted(Run(s, more), more2);
    }
  }

  lemma NothingCounted<E(!new)>(s: State<E>, more: seq<Step<E>>)
    requires Inv(s) && s.q.core.capacity == 0 && NothingPublished(s) && RunOk(s, more)
    ensures var r := Run(s, more);
      Inv(r) && r.q.core.capacity == 0 && NothingPublished(r) && r.published == 0 && r.failures == 0
  {
    NothingPublishedRun(s, more);
    InvRun(s, more);
    CapacityKept(s, more);
  }

  /** Before start() there is no thread to run. */
  lemma {:induction false} NewStays<E(!new)>(s: State<E>, more: seq<Step<E>>)
    requires Inv(s) && s.owner.ONew? && RunOk(s, more) && ByOthers(more)
    ensures Run(s, more) == s
    decreases |more|
  {
    if more != [] {
      assert !OwnersOwn(more[0]);
      NewStep(s, more[0]);
      NewStays(s, more[1..]);
    }
  }

  lemma NewStep<E(!new)>(s: State<E>, step: Step<E>)
    requires Inv(s) && s.owner.ONew? && Enabled(s, step) && !OwnersOwn(step)
    ensures Apply(s, step) == s
  {
    NobodyRuns(s);
    IdleStep(s, step);
  }

  ghost predicate Idle<E>(s: State<E>) {
    !s.started && s.ingest.IUnborn? && s.publish.PUnborn? && forall t :: t in s.q.pc ==> s.q.pc[t].Idle?
  }

  lemma NobodyRuns<E>(s: State<E>)
    requires RoleInv(s) && OrderInv(s) && s.owner.ONew?
    ensures Idle(s)
  {}

  lemma IdleStep<E(!new)>(s: State<E>, step: Step<E>)
    requires Idle(s) && s.owner.ONew? && Enabled(s, step) && !OwnersOwn(step)
    ensures Apply(s, step) == s
  {}

  lemma NewIsConsistent<E(!new)>(s: State<E>)
    requires Inv(s) && s.owner.ONew?
    ensures OwnerConsistent(s)
  {
    forall more: seq<Step<E>>, more2: seq<Step<E>> |
        RunOk(s, more) && RunOk(Run(s, more), more2) && ByOthers(more) && ByOthers(more2)
      ensures Run(s, more).published + Run(Run(s, more), more2).failures <= s.received
    {
      NewStays(s, more);
      NewStays(s, more2);
      OutcomesBound(s);
    }
  }

  // ---- while one can: a run in which it goes all the way ----

  datatype Trace<E> = Trace(steps: seq<Step<E>>, at: State<E>)

  ghost predicate Leads<E(!new)>(s: State<E>, t: Trace<E>) { RunOk(s, t.steps) && Run(s, t.steps) == t.at }

  lemma {:induction false} Longer<E(!new)>(s: State<E>, t: Trace<E>, step: Step<E>) returns (t': Trace<E>)
    requires Leads(s, t) && Enabled(t.at, step)
    ensures Leads(s, t') && t'.at == Apply(t.at, step) && t'.steps == t.steps + [step]
    decreases |t.steps|
  {
    if t.steps == [] {
      t' := Trace([step], Apply(s, step));
      assert [step][1..] == [];
    } else {
      var rest := Longer(Apply(s, t.steps[0]), Trace(t.steps[1..], t.at), step);
      t' := Trace([t.steps[0]] + rest.steps, rest.at);
      assert t'.steps[1..] == rest.steps;
    }
  }

  /** Failures counted or about to be. */
  function Failed<E>(s: State<E>): nat { s.failures + (if s.publish.PTried? && !s.publish.ok then 1 else 0) }

  /** A run from `s` in which no publish fails, with what it keeps. */
  ghost predicate On<E(!new)>(s: State<E>, t: Trace<E>) {
    && Leads(s, t) && Inv(t.at)
    && t.at.q.core.capacity == s.q.core.capacity
    && Failed(t.at) == Failed(s)
  }

  lemma NoneFails<E(!new)>(s: State<E>, step: Step<E>)
    requires OrderInv(s) && Enabled(s, step) && !FailedTry(step)
    ensures Failed(Apply(s, step)) == Failed(s) && |s.taken| <= |Apply(s, step).taken|
  {
    if OfOwner(step) {
      OwnerFails(s, step);
    }
  }

  lemma OwnerFails<E(!new)>(s: State<E>, step: Step<E>)
    requires OrderInv(s) && OwnerEnabled(s, step)
    ensures Failed(OwnerApply(s, step)) == Failed(s) && OwnerApply(s, step).taken == s.taken
  {
    OwnerMoves(s, step);
  }

  lemma GoOn<E(!new)>(s: State<E>, t: Trace<E>, step: Step<E>) returns (t': Trace<E>)
    requires On(s, t) && Enabled(t.at, step) && !FailedTry(step)
    ensures On(s, t') && t'.at == Apply(t.at, step) && |t.at.taken| <= |t'.at.taken|
    ensures ByOthers(t.steps) && !OwnersOwn(step) ==> ByOthers(t'.steps)
  {
    t' := Longer(s, t, step);
    InvStep(t.at, step);
    CapacityStep(t.at, step);
    NoneFails(t.at, step);
  }

  predicate Running<E>(s: State<E>) { !s.owner.ONew? && !s.owner.OStarting? && !s.owner.OIngestSpawned? }

  /** start() runs to its end. */
  lemma Started<E(!new)>(s: State<E>, t: Trace<E>) returns (t': Trace<E>)
    requires On(s, t) && CanStillCount(t.at)
    ensures On(s, t') && Running(t'.at) && CanStillCount(t'.at) && !t'.at.ingest.IUnborn?
    ensures t'.at.received == t.at.received && (if Running(t.at) then t' == t else t'.at.owner.ORunning?)
    decreases if t.at.owner.ONew? then 3 else if t.at.owner.OStarting? then 2 else if t.at.owner.OIngestSpawned? then 1 else 0
  {
    if Running(t.at) {
      t' := t;
    } else {
      var step := if t.at.owner.ONew? then OwnerStart
                  else if t.at.owner.OStarting? then OwnerSpawnIngest else OwnerSpawnPublish;
      t' := GoOn(s, t, step);
      OwnerMoves(t.at, step);
      t' := Started(s, t');
    }
  }

  /** The ingest thread is in its loop. */
  predicate InLoop<E>(i: Ingest<E>) { !i.IUnborn? && !i.IEnding? && !i.IExited? }

  /** While the ingest thread is inside push(), it or the publish thread has a step. */
  lemma PushGoesOn<E(!new)>(s: State<E>) returns (step: Step<E>)
    requires Inv(s) && s.ingest.IPush? && Running(s) && s.q.core.capacity > 0
    ensures Enabled(s, step) && !FailedTry(step)
    ensures step == IngestPushReturn || OfPublish(step) || (step.Inside? && !step.step.Spurious?)
  {
    if t :| t in s.q.pc && !s.q.pc[t].Idle? && !Q.Parked(s.q.pc[t]) {
      var qs := QT.BusyThreadMoves(s.q, t);
      step := if !qs.Return? then Inside(qs) else if qs.t == INGEST then IngestPushReturn else PublishPopReturn;
    } else if !s.publish.PPop? {
      step := PublishMoves(s);
    } else {
      ParkedForCause(s);
      assert false;
    }
  }

  ghost predicate SameBut<E>(s: State<E>, s': State<E>) {
    s'.owner == s.owner && s'.src == s.src && s'.taken == s.taken && s'.received == s.received
  }

  lemma IngestHandFalls<E(!new)>(s: State<E>, step: Step<E>)
    requires RoleInv(s) && IngestEnabled(s, step) && (step.IngestCount? || step.IngestRecord? || step.IngestCallPush?)
    ensures var s' := IngestApply(s, step);
      HasThreads(s') && WorkLeft(s') < WorkLeft(s) && InLoop(s'.ingest) && s'.owner == s.owner && s'.taken == s.taken
  {}

  /** A step of the ingest thread with an event in hand. */
  function HandStep<E>(i: Ingest<E>): Step<E>
    requires i.IGot? || i.ICounted? || i.IRecorded?
  {
    if i.IGot? then IngestCount else if i.ICounted? then IngestRecord else IngestCallPush
  }

  /** The publish thread, or the queue on its behalf, has a step while something is left for it. */
  lemma PublishGoesOn<E(!new)>(s: State<E>) returns (step: Step<E>)
    requires Inv(s) && Running(s) && (s.ingest.ITop? || s.ingest.INext?)
    requires s.published + s.failures < |s.taken|
    ensures Enabled(s, step) && !FailedTry(step)
    ensures OfPublish(step) || (step.Inside? && !step.step.Spurious?)
  {
    PT.SuccessesBound(s.attempts);
    assert |s.taken| == |s.attempts| + |InTransit(s)|;
    if !s.publish.PPop? {
      assert !s.publish.PExited? && !s.publish.PUnborn?;
      step := PublishMoves(s);
    } else if !Q.Parked(s.q.pc[PUBLISH]) {
      var qs := QT.BusyThreadMoves(s.q, PUBLISH);
      assert qs.t != OWNER && qs.t != INGEST ==> qs.t == PUBLISH;
      step := if qs.Return? then PublishPopReturn else Inside(qs);
    } else {
      ParkedForCause(s);
      assert false;
    }
  }

  lemma InsideFalls<E(!new)>(s: State<E>, qs: Q.Step<E>)
    requires Inv(s) && Enabled(s, Inside(qs)) && !qs.Spurious?
    ensures var s' := Apply(s, Inside(qs));
      && HasThreads(s') && WorkLeft(s') < WorkLeft(s)
      && SameBut(s, s') && s'.ingest == s.ingest
  {
    WorkLeftInside(s, qs);
    InsideOnly(s, qs);
  }

  lemma PublishFalls<E(!new)>(s: State<E>, step: Step<E>)
    requires Inv(s) && Enabled(s, step) && OfPublish(step)
    ensures var s' := Apply(s, step);
      && HasThreads(s') && WorkLeft(s') < WorkLeft(s)
      && SameBut(s, s') && s'.ingest == s.ingest
  {
    WorkPublish(s, step);
    PublishMovesItself(s, step);
  }

  lemma PushReturnFalls<E(!new)>(s: State<E>)
    requires Inv(s) && Enabled(s, IngestPushReturn)
    ensures var s' := Apply(s, IngestPushReturn);
      HasThreads(s') && WorkLeft(s') < WorkLeft(s) && SameBut(s, s') && s'.ingest.ITop?
  {
    assert s.q.pc[INGEST].ok;
  }

  lemma PushStep<E(!new)>(s: State<E>) returns (step: Step<E>)
    requires Inv(s) && s.ingest.IPush? && Running(s) && s.q.core.capacity > 0
    ensures Enabled(s, step) && !FailedTry(step) && !OwnersOwn(step)
    ensures var s' := Apply(s, step);
      HasThreads(s') && WorkLeft(s') < WorkLeft(s) && SameBut(s, s') && (s'.ingest.ITop? || s'.ingest.IPush?)
  {
    step := PushGoesOn(s);
    if step.Inside? {
      InsideFalls(s, step.step);
    } else if OfPublish(step) {
      PublishFalls(s, step);
    } else {
      PushReturnFalls(s);
    }
  }

  /** push() returns, and the source is left alone. */
  lemma Pushed<E(!new)>(s: State<E>, t: Trace<E>) returns (t': Trace<E>)
    requires On(s, t) && t.at.ingest.IPush? && Running(t.at) && s.q.core.capacity > 0
    ensures On(s, t') && t'.at.ingest.ITop? && Running(t'.at) && (ByOthers(t.steps) ==> ByOthers(t'.steps))
    ensures t'.at.src == t.at.src && t'.at.received == t.at.received
    decreases WorkLeft(t.at)
  {
    var step := PushStep(t.at);
    t' := GoOn(s, t, step);
    if t'.at.ingest.IPush? { t' := Pushed(s, t'); }
  }

  function Stage<E>(i: Ingest<E>): nat {
    match i
    case ICounted(_) => 4
    case IRecorded(_) => 3
    case IPush => 2
    case ITop => 1
    case _ => 0
  }

  /** The ingest thread comes nearer to the end of next(). */
  lemma Nearer<E(!new)>(s: State<E>, t: Trace<E>) returns (t': Trace<E>)
    requires On(s, t) && CanStillCount(t.at) && Running(t.at)
    requires t.at.ingest.ICounted? || t.at.ingest.IRecorded? || t.at.ingest.ITop?
    ensures On(s, t') && CanStillCount(t'.at) && Running(t'.at) && !t'.at.ingest.IUnborn?
    ensures t'.at.received == t.at.received && Stage(t'.at.ingest) < Stage(t.at.ingest)
    ensures ByOthers(t.steps) ==> ByOthers(t'.steps)
  {
    var step := if t.at.ingest.ICounted? then IngestRecord else if t.at.ingest.IRecorded? then IngestCallPush else IngestCallNext;
    t' := GoOn(s, t, step);
  }

  /** An event beyond those counted is taken from the source. */
  lemma Taken<E(!new)>(s: State<E>, t: Trace<E>, e: E) returns (t': Trace<E>)
    requires On(s, t) && CanStillCount(t.at) && !t.at.ingest.IUnborn? && Running(t.at) && s.q.core.capacity > 0
    ensures On(s, t') && Running(t'.at) && InLoop(t'.at.ingest) && |t'.at.taken| > t.at.received
    ensures ByOthers(t.steps) ==> ByOthers(t'.steps)
    decreases Stage(t.at.ingest)
  {
    if t.at.ingest.IGot? {
      t' := t;
    } else if t.at.ingest.INext? {
      t' := GoOn(s, t, SourceDelivers(e));
    } else {
      if t.at.ingest.IPush? { t' := Pushed(s, t); } else { t' := Nearer(s, t); }
      t' := Taken(s, t', e);
    }
  }

  /** A step towards the outcomes of the events in hand. */
  lemma DrainStep<E(!new)>(s: State<E>) returns (step: Step<E>)
    requires Inv(s) && Running(s) && InLoop(s.ingest) && s.q.core.capacity > 0
    requires s.published + s.failures < |s.taken|
    ensures Enabled(s, step) && !FailedTry(step) && !OwnersOwn(step)
    ensures var s' := Apply(s, step);
      HasThreads(s') && WorkLeft(s') < WorkLeft(s) && InLoop(s'.ingest) && s'.owner == s.owner && s'.taken == s.taken
  {
    if s.ingest.IGot? || s.ingest.ICounted? || s.ingest.IRecorded? {
      step := HandStep(s.ingest);
      IngestHandFalls(s, step);
    } else if s.ingest.IPush? {
      step := PushStep(s);
    } else {
      step := PublishGoesOn(s);
      if step.Inside? { InsideFalls(s, step.step); } else { PublishFalls(s, step); }
    }
  }

  /** Without the owner, the first n events that were taken come to an outcome. */
  lemma Drained<E(!new)>(s: State<E>, t: Trace<E>, n: nat) returns (t': Trace<E>)
    requires On(s, t) && Running(t.at) && InLoop(t.at.ingest) && |t.at.taken| >= n && s.q.core.capacity > 0
    ensures On(s, t') && t'.at.published + t'.at.failures >= n
    ensures ByOthers(t.steps) ==> ByOthers(t'.steps)
    decreases WorkLeft(t.at)
  {
    if t.at.published + t.at.failures >= n {
      t' := t;
    } else {
      var step := DrainStep(t.at);
      t' := GoOn(s, t, step);
      t' := Drained(s, t', n);
    }
  }

  /**
    From any state in which an event can still be counted, more outcomes can be counted than
    had been received; once the threads are there, without the owner's doing anything.
  */
  lemma Overtaken<E(!new)>(s: State<E>, e: E) returns (more: seq<Step<E>>)
    requires Inv(s) && CanStillCount(s) && s.q.core.capacity > 0
    ensures RunOk(s, more) && (Running(s) ==> ByOthers(more))
    ensures Run(s, more).published + Run(s, more).failures > s.received && Run(s, more).failures <= Failed(s)
  {
    var t := Started(s, Trace([], s));
    t := Taken(s, t, e);
    t := Drained(s, t, s.received + 1);
    more := t.steps;
  }

  /**
    When stats() is consistent.  In every reachable state, however the threads run on between
    its reads, it shows no more outcomes than events received if and only if no further event
    can be counted as received, or the queue has no room for any, or, if the owner calls it,
    the pipeline has not been started.  No further event can be counted once ingestFinished()
    is true.
  */
  lemma SnapshotConsistency<E(!new)>(capacity: nat, supply: Supply, recording: bool, steps: seq<Step<E>>, e: E)
    requires RunOk(Init<E>(capacity, supply, recording), steps)
    ensures var s := Run(Init<E>(capacity, supply, recording), steps);
      && (OwnerFree(s) ==> (OwnerConsistent(s) <==> s.owner.ONew? || capacity == 0 || !CanStillCount(s)))
      && (Consistent(s) <==> capacity == 0 || !CanStillCount(s))
      && (s.ingestFinished ==> !CanStillCount(s))
  {
    var init := Init<E>(capacity, supply, recording);
    PT.Reached(capacity, supply, recording, steps);
    CapacityKept(init, steps);
    if capacity == 0 {
      InitInv<E>(capacity, supply, recording);
      NothingPublishedRun(init, steps);
    }
    var s := Run(init, steps);
    ConsistentJustIf(s, e);
    if OwnerFree(s) { OwnerConsistentJustIf(s, e); }
  }

  lemma ConsistentJustIf<E(!new)>(s: State<E>, e: E)
    requires Inv(s) && (s.q.core.capacity == 0 ==> NothingPublished(s))
    ensures Consistent(s) <==> s.q.core.capacity == 0 || !CanStillCount(s)
    ensures s.ingestFinished ==> !CanStillCount(s)
  {
    if s.q.core.capacity == 0 {
      NoRoomIsConsistent(s);
    } else if !CanStillCount(s) {
      FrozenIsConsistent(s);
    } else {
      var more := Overtaken(s, e);
      assert RunOk(Run(s, more), []) && Run(Run(s, more), []) == Run(s, more);
    }
  }

  lemma OwnerConsistentJustIf<E(!new)>(s: State<E>, e: E)
    requires Inv(s) && OwnerFree(s) && (s.q.core.capacity == 0 ==> NothingPublished(s))
    ensures OwnerConsistent(s) <==> s.owner.ONew? || s.q.core.capacity == 0 || !CanStillCount(s)
  {
    if s.owner.ONew? {
      NewIsConsistent(s);
    } else if s.q.core.capacity == 0 || !CanStillCount(s) {
      ConsistentJustIf(s, e);
    } else {
      var more := Overtaken(s, e);
      assert ByOthers<E>([]);
      assert RunOk(Run(s, more), []) && Run(Run(s, more), []) == Run(s, more);
    }
  }

  /** For example, of a running pipeline the owner can be shown more events published than received. */
  lemma SnapshotMayDisagree<E(!new)>(capacity: nat, e: E) returns (steps: seq<Step<E>>, more: seq<Step<E>>)
    requires capacity > 0
    ensures var init := Init<E>(capacity, Endless, false);
      && RunOk(init, steps) && Run(init, steps).owner.ORunning? && RunOk(Run(init, steps), more) && ByOthers(more)
      && Run(init, steps).received < Run(Run(init, steps), more).published
  {
    InitInv<E>(capacity, Endless, false);
    var init := Init<E>(capacity, Endless, false);
    var t := Started(init, Trace([], init));
    steps := t.steps;
    more := Overtaken(t.at, e);
  }
}
