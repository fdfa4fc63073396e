/** Why stop() returns: no schedule can block the pipeline, and none can keep it busy for ever. */
module PipelineProgress {
  import opened Options
  import opened SourceContract
  import opened Pipeline
  import opened PipelineInvariants
  import PT = PipelineTheorems
  import Q = QueueMonitor
  import QI = QueueInvariants
  import QT = QueueTheorems

  /** Steps the threads take on their own: no new request, no repeated stop(), no spurious wakeup. */
  predicate Work<E>(step: Step<E>) {
    && !step.RequestStop?
    && !step.OwnerStopIgnored?
    && !(step.Inside? && step.step.Spurious?)
  }

  // ---- never blocked ----

  ghost predicate InStop<E>(s: State<E>) {
    s.owner.OJoiningIngest? || s.owner.OShutting? || s.owner.OJoiningPublish?
  }

  predicate FailedTry<E>(step: Step<E>) { step.PublishTry? && !step.ok }

  /** A thread inside the queue that is not parked lets somebody work. */
  lemma BusyInQueue<E(!new)>(s: State<E>, t: Q.Tid) returns (step: Step<E>)
    requires Inv(s) && t in s.q.pc && !s.q.pc[t].Idle? && !Q.Parked(s.q.pc[t])
    ensures Work(step) && Enabled(s, step) && !FailedTry(step)
  {
    var qs := QT.BusyThreadMoves(s.q, t);
    step := if !qs.Return? then Inside(qs)
            else if qs.t == OWNER then OwnerShutdownReturn
            else if qs.t == INGEST then IngestPushReturn
            else PublishPopReturn;
  }

  /** The ingest thread outside push() can go on, if the source is bound to end. */
  lemma IngestMoves<E(!new)>(s: State<E>, any: E) returns (step: Step<E>)
    requires Inv(s) && WillEnd(s.src) && !s.ingest.IUnborn? && !s.ingest.IPush? && !s.ingest.IExited?
    ensures Work(step) && Enabled(s, step) && !FailedTry(step)
  {
    match s.ingest {
      case ITop => step := IngestCallNext;
      case INext =>
        if CanEnd(s.src) { step := SourceEnds; } else { step := SourceDelivers(any); }
      case IGot(_) => step := IngestCount;
      case ICounted(_) => step := IngestRecord;
      case IRecorded(_) => step := IngestCallPush;
      case IEnding => step := IngestFinish;
    }
  }

  lemma PublishMoves<E(!new)>(s: State<E>) returns (step: Step<E>)
    requires Inv(s) && !s.publish.PUnborn? && !s.publish.PPop? && !s.publish.PExited?
    ensures Work(step) && Enabled(s, step) && !FailedTry(step)
    ensures OfPublish(step)
  {
    match s.publish {
      case PTop => step := PublishCallPop;
      case PHold(_) => step := PublishTry(true);
      case PTried(_) => step := PublishCount;
      case PFlush => step := PublishFlush;
    }
  }

  /** With nobody active inside the queue, a parked popper faces an empty one, a parked pusher a full one. */
  lemma ParkedForCause<E(!new)>(s: State<E>)
    requires Inv(s)
    requires forall t :: t in s.q.pc ==> s.q.pc[t].Idle? || Q.Parked(s.q.pc[t])
    ensures s.q.pc[PUBLISH].PopParked? ==> s.q.core.items == [] && !s.q.core.shut
    ensures s.q.pc[INGEST].PushParked? ==> |s.q.core.items| == s.q.core.capacity && !s.q.core.shut
  {
    assert Q.EmptyTokens(s.q.pc) == {} && Q.FullTokens(s.q.pc) == {};
  }

  lemma ParkedPushHoldsAnEvent<E(!new)>(s: State<E>)
    requires Inv(s) && s.ingest.IPush? && Q.Parked(s.q.pc[INGEST])
    ensures s.taken != []
  {
    assert HeldByIngest(s.ingest, s.q.pc[INGEST]) == [s.q.pc[INGEST].item];
  }

  /**
    Ingest, publish and the stopping owner are never all stuck: while stop() is running and
    the source is bound to end, some thread can work.  The queue must have room for one
    item, unless nothing was ever taken from the source.
  */
  lemma NeverStuck<E(!new)>(s: State<E>, any: E) returns (step: Step<E>)
    requires Inv(s) && InStop(s) && WillEnd(s.src)
    requires s.q.core.capacity > 0 || s.taken == []
    ensures Work(step) && Enabled(s, step) && !FailedTry(step)
  {
    if t :| t in s.q.pc && !s.q.pc[t].Idle? && !Q.Parked(s.q.pc[t]) {
      step := BusyInQueue(s, t);
    } else if !s.ingest.IPush? && !s.ingest.IExited? {
      step := IngestMoves(s, any);
    } else if !s.publish.PPop? && !s.publish.PExited? {
      step := PublishMoves(s);
    } else {
      ParkedForCause(s);
      if s.ingest.IPush? { ParkedPushHoldsAnEvent(s); }
      step := if s.owner.OJoiningIngest? then OwnerJoinIngest else OwnerJoinPublish;
    }
  }

  // ---- never busy for ever ----

  function IngestRank<E>(i: Ingest<E>, p: Q.Pc<E>): nat {
    match i
    case IExited => 0
    case IEnding => 1
    case INext => 2
    case IUnborn => 3
    case ITop => 3
    case IRecorded(_) => 19
    case ICounted(_) => 20
    case IGot(_) => 21
    case IPush =>
      match p
      case PushDone(_, ok) => if ok then 4 else 2
      case PushSignal(_) => 7
      case PushParked(_) => 16
      case PushHolds(_, _) => 17
      case _ => 18
  }

  function PublishRank<E>(h: Publish<E>, p: Q.Pc<E>): nat {
    match h
    case PExited => 0
    case PFlush => 1
    case PUnborn => 6
    case PTop => 6
    case PTried(_) => 7
    case PHold(_) => 8
    case PPop =>
      match p
      case PopDone(r) => if r.None? then 2 else 9
      case PopParked => 3
      case PopHolds(_) => 4
      case PopSignal(_) => 12
      case _ => 5
  }

  function OwnerRank<E>(o: Owner, p: Q.Pc<E>): nat {
    match o
    case OStopped => 0
    case OJoiningPublish => 1
    case OJoiningIngest => 11
    case ORunning => 12
    case OIngestSpawned => 13
    case OStarting => 14
    case ONew => 15
    case OShutting =>
      match p
      case ShutDone => 2
      case ShutSignalEmpty => 5
      case ShutSignalFull => 8
      case ShutHolds => 9
      case _ => 10
  }

  /** The work left once the source is bound to end. */
  function WorkLeft<E>(s: State<E>): nat
    requires HasThreads(s)
  {
    20 * Remaining(s.src) + 9 * |s.q.core.items|
      + IngestRank(s.ingest, s.q.pc[INGEST]) + PublishRank(s.publish, s.q.pc[PUBLISH])
      + OwnerRank(s.owner, s.q.pc[OWNER])
  }

  /** A step inside the queue changes the queue only. */
  lemma InsideOnly<E(!new)>(s: State<E>, qs: Q.Step<E>)
    requires Enabled(s, Inside(qs))
    ensures Q.Enabled(s.q, qs) && Apply(s, Inside(qs)) == s.(q := Q.Apply(s.q, qs))
  {}

  lemma AcquireEffect<E(!new)>(q: Q.State<E>, t: Q.Tid)
    requires Q.Enabled(q, Q.Acquire(t))
    ensures var q' := Q.Apply(q, Q.Acquire(t));
      && q'.core == q.core && q'.log == q.log && q'.pc == q.pc[t := Q.AfterAcquire(q.pc[t])]
  {}

  lemma WorkAcquire<E(!new)>(s: State<E>, qs: Q.Step<E>)
    requires RoleInv(s) && Enabled(s, Inside(qs)) && qs.Acquire?
    ensures HasThreads(Apply(s, Inside(qs)))
    ensures WorkLeft(Apply(s, Inside(qs))) < WorkLeft(s)
  {
    InsideOnly(s, qs);
    AcquireEffect(s.q, qs.t);
  }

  lemma PushSectionEffect<E(!new)>(q: Q.State<E>, t: Q.Tid)
    requires Q.Enabled(q, Q.Section(t)) && q.pc[t].PushHolds?
    ensures var q' := Q.Apply(q, Q.Section(t));
      && q'.log == q.log && q'.pc == q.pc[t := q'.pc[t]]
      && (if q'.pc[t].PushSignal? then |q'.core.items| == |q.core.items| + 1
          else q'.core == q.core && (q'.pc[t].PushParked? || (q'.pc[t].PushDone? && !q'.pc[t].ok)))
  {}

  lemma WorkSectionIngest<E(!new)>(s: State<E>, qs: Q.Step<E>)
    requires RoleInv(s) && Enabled(s, Inside(qs)) && qs.Section? && qs.t == INGEST
    ensures HasThreads(Apply(s, Inside(qs)))
    ensures WorkLeft(Apply(s, Inside(qs))) < WorkLeft(s)
  {
    InsideOnly(s, qs);
    PushSectionEffect(s.q, INGEST);
  }

  lemma PopSectionEffect<E(!new)>(q: Q.State<E>, t: Q.Tid)
    requires Q.Enabled(q, Q.Section(t)) && q.pc[t].PopHolds?
    ensures var q' := Q.Apply(q, Q.Section(t));
      && q'.log == q.log && q'.pc == q.pc[t := q'.pc[t]]
      && (if q'.pc[t].PopSignal? then |q'.core.items| + 1 == |q.core.items|
          else q'.core == q.core && (q'.pc[t].PopParked? || (q'.pc[t].PopDone? && q'.pc[t].result.None?)))
  {}

  lemma WorkSectionPublish<E(!new)>(s: State<E>, qs: Q.Step<E>)
    requires RoleInv(s) && Enabled(s, Inside(qs)) && qs.Section? && qs.t == PUBLISH
    ensures HasThreads(Apply(s, Inside(qs)))
    ensures WorkLeft(Apply(s, Inside(qs))) < WorkLeft(s)
  {
    InsideOnly(s, qs);
    PopSectionEffect(s.q, PUBLISH);
  }

  lemma WorkSectionOwner<E(!new)>(s: State<E>, qs: Q.Step<E>)
    requires RoleInv(s) && Enabled(s, Inside(qs)) && qs.Section? && qs.t == OWNER
    ensures HasThreads(Apply(s, Inside(qs)))
    ensures WorkLeft(Apply(s, Inside(qs))) < WorkLeft(s)
  {}

  lemma SignalEffect<E(!new)>(q: Q.State<E>, t: Q.Tid, w: Option<Q.Tid>)
    requires Q.Enabled(q, Q.NotifyOne(t, w))
    ensures var q' := Q.Apply(q, Q.NotifyOne(t, w));
      && q'.core == q.core && q'.log == q.log && q'.pc.Keys == q.pc.Keys
      && q'.pc[t] == Q.AfterSignal(q.pc[t])
      && (forall u :: u in q.pc && u != t ==>
           q'.pc[u] == q.pc[u] || (Q.Reaches(q.pc[t], q.pc[u]) && q'.pc[u] == Q.Wake(q.pc[u])))
  {}

  lemma WorkNotifyOne<E(!new)>(s: State<E>, qs: Q.Step<E>)
    requires RoleInv(s) && Enabled(s, Inside(qs)) && qs.NotifyOne?
    ensures HasThreads(Apply(s, Inside(qs)))
    ensures WorkLeft(Apply(s, Inside(qs))) < WorkLeft(s)
  {
    InsideOnly(s, qs);
    SignalEffect(s.q, qs.t, qs.woken);
    assert qs.t != OWNER;
  }

  lemma WorkNotifyAll<E(!new)>(s: State<E>, qs: Q.Step<E>)
    requires RoleInv(s) && Enabled(s, Inside(qs)) && qs.NotifyAll?
    ensures HasThreads(Apply(s, Inside(qs)))
    ensures WorkLeft(Apply(s, Inside(qs))) < WorkLeft(s)
  {
    var p, p' := s.q.pc, Q.Apply(s.q, qs).pc;
    assert qs.t == OWNER && p'[OWNER] == Q.AfterSignal(p[OWNER]);
    assert p'[PUBLISH] == p[PUBLISH] || (p[PUBLISH].PopParked? && p'[PUBLISH].PopWoken?);
    assert p'[INGEST] == p[INGEST] || (p[INGEST].PushParked? && p'[INGEST].PushWoken?);
    assert p[OWNER].ShutSignalFull? ==> p'[PUBLISH] == p[PUBLISH];
    assert p[OWNER].ShutSignalEmpty? ==> p'[INGEST] == p[INGEST];
  }

  lemma WorkSpurious<E(!new)>(s: State<E>, qs: Q.Step<E>)
    requires RoleInv(s) && Enabled(s, Inside(qs)) && qs.Spurious?
    ensures HasThreads(Apply(s, Inside(qs)))
    ensures WorkLeft(Apply(s, Inside(qs))) <= WorkLeft(s) + 2
  {}

  lemma WorkLeftInside<E(!new)>(s: State<E>, qs: Q.Step<E>)
    requires Inv(s) && Enabled(s, Inside(qs))
    ensures HasThreads(Apply(s, Inside(qs)))
    ensures WorkLeft(Apply(s, Inside(qs))) + (if qs.Spurious? then 0 else 1) <= WorkLeft(s) + (if qs.Spurious? then 2 else 0)
  {
    assert qs.t == OWNER || qs.t == INGEST || qs.t == PUBLISH;
    match qs {
      case Acquire(_) => WorkAcquire(s, qs);
      case Section(t) =>
        if t == INGEST { WorkSectionIngest(s, qs); }
        else if t == PUBLISH { WorkSectionPublish(s, qs); }
        else { WorkSectionOwner(s, qs); }
      case NotifyOne(_, _) => WorkNotifyOne(s, qs);
      case NotifyAll(_) => WorkNotifyAll(s, qs);
      case Spurious(_) => WorkSpurious(s, qs);
    }
  }

  /** A stop request leaves at most the event of the call in progress to be delivered. */
  lemma WorkAfterRequest<E(!new)>(s: State<E>)
    requires RoleInv(s) && CallInv(s) && WillEnd(s.src)
    ensures var s' := OwnerApply(s, RequestStop);
      HasThreads(s') && WillEnd(s'.src) && WorkLeft(s') <= WorkLeft(s)
  {
    assert Remaining(Stop(s.src)) <= Remaining(s.src);
  }

  lemma WorkOwner<E(!new)>(s: State<E>, step: Step<E>)
    requires RoleInv(s) && OrderInv(s) && OwnerEnabled(s, step) && !step.RequestStop?
    ensures var s' := OwnerApply(s, step);
      HasThreads(s') && s'.src == s.src && WorkLeft(s') + (if Work(step) then 1 else 0) <= WorkLeft(s)
  {}

  lemma WorkIngest<E(!new)>(s: State<E>, step: Step<E>)
    requires RoleInv(s) && OrderInv(s) && CallInv(s) && WillEnd(s.src) && IngestEnabled(s, step)
    ensures HasThreads(IngestApply(s, step)) && WillEnd(IngestApply(s, step).src)
    ensures WorkLeft(IngestApply(s, step)) < WorkLeft(s)
  {}

  lemma WorkPublish<E(!new)>(s: State<E>, step: Step<E>)
    requires RoleInv(s) && OrderInv(s) && PublishEnabled(s, step)
    ensures HasThreads(PublishApply(s, step)) && PublishApply(s, step).src == s.src
    ensures WorkLeft(PublishApply(s, step)) < WorkLeft(s)
  {}

  lemma WorkLeftStep<E(!new)>(s: State<E>, step: Step<E>)
    requires Inv(s) && WillEnd(s.src) && Enabled(s, step)
    ensures HasThreads(Apply(s, step)) && WillEnd(Apply(s, step).src)
    ensures WorkLeft(Apply(s, step)) + (if Work(step) then 1 else 0)
         <= WorkLeft(s) + (if step.Inside? && step.step.Spurious? then 2 else 0)
  {
    if step.Inside? { WorkLeftInside(s, step.step); }
    else if step.RequestStop? { WorkAfterRequest(s); }
    else if OfOwner(step) { WorkOwner(s, step); }
    else if OfIngest(step) { WorkIngest(s, step); }
    else { WorkPublish(s, step); }
  }

  function WorkSteps<E>(steps: seq<Step<E>>): nat {
    if steps == [] then 0 else (if Work(steps[0]) then 1 else 0) + WorkSteps(steps[1..])
  }

  function SpuriousWakeups<E>(steps: seq<Step<E>>): nat {
    if steps == [] then 0
    else (if steps[0].Inside? && steps[0].step.Spurious? then 1 else 0) + SpuriousWakeups(steps[1..])
  }

  /** However the threads are scheduled, the work left bounds the steps they can still take. */
  lemma {:induction false} WorkIsBounded<E(!new)>(s: State<E>, steps: seq<Step<E>>)
    requires Inv(s) && WillEnd(s.src) && RunOk(s, steps)
    ensures Inv(Run(s, steps)) && WillEnd(Run(s, steps).src)
    ensures WorkLeft(Run(s, steps)) + WorkSteps(steps) <= WorkLeft(s) + 2 * SpuriousWakeups(steps)
    decreases |steps|
  {
    if steps != [] {
      InvStep(s, steps[0]);
      WorkLeftStep(s, steps[0]);
      WorkIsBounded(Apply(s, steps[0]), steps[1..]);
    }
  }

  ghost predicate Quiescent<E(!new)>(s: State<E>) {
    forall step: Step<E> :: Work(step) ==> !Enabled(s, step)
  }

  lemma {:induction false} StaysInStop<E(!new)>(s: State<E>, more: seq<Step<E>>)
    requires (InStop(s) || s.owner.OStopped?) && RunOk(s, more)
    ensures InStop(Run(s, more)) || Run(s, more).owner.OStopped?
    ensures Run(s, more).q.core.capacity == s.q.core.capacity
    decreases |more|
  {
    if more != [] {
      CapacityStep(s, more[0]);
      StaysInStop(Apply(s, more[0]), more[1..]);
    }
  }

  lemma RankBounds<E>(s: State<E>)
    requires HasThreads(s) && (InStop(s) || s.owner.OStopped?)
    ensures WorkLeft(s) <= 20 * Remaining(s.src) + 9 * |s.q.core.items| + 44
  {}

  lemma {:induction false} CapacityKept<E(!new)>(s: State<E>, steps: seq<Step<E>>)
    requires RunOk(s, steps)
    ensures Run(s, steps).q.core.capacity == s.q.core.capacity
    decreases |steps|
  {
    if steps != [] {
      CapacityStep(s, steps[0]);
      CapacityKept(Apply(s, steps[0]), steps[1..]);
    }
  }

  // ---- a queue without room ----

  ghost predicate NothingPublished<E>(s: State<E>) {
    && HasThreads(s)
    && s.attempts == []
    && !s.publish.PHold? && !s.publish.PTried?
    && QI.PopInFlight(s.q.pc[PUBLISH]) == []
  }

  lemma NothingPublishedInside<E(!new)>(s: State<E>, qs: Q.Step<E>)
    requires RoleInv(s) && QI.FifoInv(s.q) && s.q.core.capacity == 0 && NothingPublished(s) && Enabled(s, Inside(qs))
    ensures NothingPublished(Apply(s, Inside(qs)))
  {
    InsideKind(s.q, qs, PUBLISH);
    if !qs.Section? {
      InsideQuiet(s.q, qs, PUBLISH);
    } else if qs.t != PUBLISH {
      assert Q.Apply(s.q, qs).pc[PUBLISH] == s.q.pc[PUBLISH];
    } else {
      assert s.q.core.items == [];
    }
  }

  lemma NothingPublishedStep<E(!new)>(s: State<E>, step: Step<E>)
    requires RoleInv(s) && QI.FifoInv(s.q) && s.q.core.capacity == 0 && NothingPublished(s) && Enabled(s, step)
    ensures NothingPublished(Apply(s, step))
  {
    match step {
      case Inside(qs) => NothingPublishedInside(s, qs);
      case PublishPopReturn => assert s.q.pc[PUBLISH].result.None?;
      case PublishCallPop =>
      case PublishTry(_) =>
      case PublishCount =>
      case _ => assert Apply(s, step).q.pc[PUBLISH] == s.q.pc[PUBLISH];
    }
  }

  lemma CapacityStep<E(!new)>(s: State<E>, step: Step<E>)
    requires Enabled(s, step)
    ensures Apply(s, step).q.core.capacity == s.q.core.capacity
  {
    if step.Inside? { InsideCapacity(s.q, step.step); }
  }

  lemma InsideCapacity<E(!new)>(q: Q.State<E>, qs: Q.Step<E>)
    requires Q.Enabled(q, qs)
    ensures Q.Apply(q, qs).core.capacity == q.core.capacity
  {}

  lemma {:induction false} NothingPublishedRun<E(!new)>(s: State<E>, steps: seq<Step<E>>)
    requires Inv(s) && s.q.core.capacity == 0 && NothingPublished(s) && RunOk(s, steps)
    ensures NothingPublished(Run(s, steps))
    decreases |steps|
  {
    if steps != [] {
      InvStep(s, steps[0]);
      CapacityStep(s, steps[0]);
      NothingPublishedStep(s, steps[0]);
      NothingPublishedRun(Apply(s, steps[0]), steps[1..]);
    }
  }

  lemma HeldForEver<E>(s: State<E>)
    requires Inv(s) && s.q.core.capacity == 0 && NothingPublished(s)
    ensures s.taken != [] ==>
      && |s.taken| == 1
      && HeldByIngest(s.ingest, s.q.pc[INGEST]) == s.taken
      && !s.ingestFinished && !s.q.core.shut && !s.owner.OStopped?
  {
    assert HeldByPublish(s.publish, s.q.pc[PUBLISH]) == [];
    assert Events(s.attempts) == [] && s.q.core.items == [];
  }

  /**
    With capacity 0 the first event the source delivers never gets past push(): the ingest
    thread never finishes, the queue is never shut, and stop() never returns, whatever is
    requested.  Without such an event stop() returns as usual (NeverStuck).
  */
  lemma CapacityZeroNeverStops<E(!new)>(supply: Supply, recording: bool, steps: seq<Step<E>>)
    requires RunOk(Init<E>(0, supply, recording), steps)
    ensures var s := Run(Init<E>(0, supply, recording), steps);
      && s.attempts == []
      && (s.taken != [] ==>
            && |s.taken| == 1 && HasThreads(s)
            && HeldByIngest(s.ingest, s.q.pc[INGEST]) == s.taken
            && !s.ingestFinished && !s.q.core.shut && !s.owner.OStopped?)
  {
    var s0 := Init<E>(0, supply, recording);
    InitInv<E>(0, supply, recording);
    NothingPublishedRun(s0, steps);
    InvRun(s0, steps);
    CapacityKept(s0, steps);
    HeldForEver(Run(s0, steps));
  }

  /** A pipeline in stop() that has come to rest. */
  lemma AtRestInStop<E(!new)>(r: State<E>, any: E)
    requires Inv(r) && WillEnd(r.src) && (InStop(r) || r.owner.OStopped?)
    requires r.q.core.capacity == 0 ==> NothingPublished(r)
    ensures Quiescent(r) ==> (r.owner.OStopped? <==> r.q.core.capacity > 0 || r.taken == [])
    ensures r.owner.OStopped? ==> PT.AllDelivered(r)
  {
    if r.owner.OStopped? {
      PT.StoppedState(r);
    } else if Quiescent(r) && (r.q.core.capacity > 0 || r.taken == []) {
      var _ := NeverStuck(r, any);
    }
    if r.q.core.capacity == 0 { HeldForEver(r); }
  }

  lemma FromStopOn<E(!new)>(s: State<E>, more: seq<Step<E>>, any: E)
    requires Inv(s) && WillEnd(s.src) && (InStop(s) || s.owner.OStopped?) && RunOk(s, more)
    requires s.q.core.capacity == 0 ==> NothingPublished(s)
    ensures var r := Run(s, more);
      && WorkSteps(more) <= 20 * Remaining(s.src) + 9 * |s.q.core.items| + 44 + 2 * SpuriousWakeups(more)
      && (Quiescent(r) ==> (r.owner.OStopped? <==> s.q.core.capacity > 0 || r.taken == []))
      && (r.owner.OStopped? ==> PT.AllDelivered(r))
  {
    WorkIsBounded(s, more);
    StaysInStop(s, more);
    RankBounds(s);
    if s.q.core.capacity == 0 { NothingPublishedRun(s, more); }
    AtRestInStop(Run(s, more), any);
  }

  /**
    stop() returns.  Once it has been called and the source is bound to end (by
    requestStop() or by running out), every schedule takes a bounded number of steps, and
    one that comes to rest has stopped if and only if the queue has room for an item or
    nothing was ever taken from the source; if so, everything has been delivered.
  */
  lemma StopReturns<E(!new)>(capacity: nat, supply: Supply, recording: bool,
                             steps: seq<Step<E>>, more: seq<Step<E>>, any: E)
    requires RunOk(Init<E>(capacity, supply, recording), steps)
    ensures var s := Run(Init<E>(capacity, supply, recording), steps);
      (InStop(s) || s.owner.OStopped?) && WillEnd(s.src) && RunOk(s, more) ==>
      var r := Run(s, more);
      && WorkSteps(more) <= 20 * Remaining(s.src) + 9 * |s.q.core.items| + 44 + 2 * SpuriousWakeups(more)
      && (Quiescent(r) ==> (r.owner.OStopped? <==> capacity > 0 || r.taken == []))
      && (r.owner.OStopped? ==> PT.AllDelivered(r))
  {
    var init := Init<E>(capacity, supply, recording);
    PT.Reached(capacity, supply, recording, steps);
    CapacityKept(init, steps);
    if capacity == 0 {
      InitInv<E>(capacity, supply, recording);
      NothingPublishedRun(init, steps);
    }
    var s := Run(init, steps);
    if (InStop(s) || s.owner.OStopped?) && WillEnd(s.src) && RunOk(s, more) { FromStopOn(s, more, any); }
  }
}
