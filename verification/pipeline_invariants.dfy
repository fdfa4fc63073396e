/** What every step of the pipeline keeps. */
module PipelineInvariants {
  import opened SourceContract
  import opened Pipeline
  import Q = QueueMonitor
  import QI = QueueInvariants

  // ---- where the events are ----

  function Events<E>(attempts: seq<(E, bool)>): seq<E> {
    seq(|attempts|, i requires 0 <= i < |attempts| => attempts[i].0)
  }

  /** Inside push() and not yet let in. */
  function NotYetQueued<E>(p: Q.Pc<E>): seq<E> {
    match p
    case PushEnter(x) => [x]
    case PushHolds(x, _) => [x]
    case PushParked(x) => [x]
    case PushWoken(x) => [x]
    case _ => []
  }

  function HeldByIngest<E>(i: Ingest<E>, p: Q.Pc<E>): seq<E> {
    match i
    case IGot(e) => [e]
    case ICounted(e) => [e]
    case IRecorded(e) => [e]
    case IPush => NotYetQueued(p)
    case _ => []
  }

  function HeldByPublish<E>(h: Publish<E>, p: Q.Pc<E>): seq<E> {
    match h
    case PHold(e) => [e]
    case PPop => QI.PopInFlight(p)
    case _ => []
  }

  function Successes<E>(attempts: seq<(E, bool)>): nat {
    if attempts == [] then 0
    else Successes(attempts[..|attempts| - 1]) + (if attempts[|attempts| - 1].1 then 1 else 0)
  }

  // ---- the invariant, part by part ----

  predicate InPush<E>(p: Q.Pc<E>) {
    p.PushEnter? || p.PushHolds? || p.PushParked? || p.PushWoken? || p.PushSignal? || p.PushDone?
  }
  predicate InPop<E>(p: Q.Pc<E>) {
    p.PopEnter? || p.PopHolds? || p.PopParked? || p.PopWoken? || p.PopSignal? || p.PopDone?
  }
  predicate InShutdown<E>(p: Q.Pc<E>) {
    p.ShutEnter? || p.ShutHolds? || p.ShutSignalFull? || p.ShutSignalEmpty? || p.ShutDone?
  }

  /** Each thread is inside the queue just when its own position says so, in its own operation. */
  ghost predicate RoleInv<E>(s: State<E>) {
    && HasThreads(s)
    && s.q.pc.Keys == {OWNER, INGEST, PUBLISH}
    && (if s.owner.OShutting? then InShutdown(s.q.pc[OWNER]) else s.q.pc[OWNER].Idle?)
    && (if s.ingest.IPush? then InPush(s.q.pc[INGEST]) else s.q.pc[INGEST].Idle?)
    && (if s.publish.PPop? then InPop(s.q.pc[PUBLISH]) else s.q.pc[PUBLISH].Idle?)
  }

  /** The order of start() and stop(). */
  ghost predicate OrderInv<E>(s: State<E>) {
    && HasThreads(s)
    && (s.ingest.IUnborn? <==> s.owner.ONew? || s.owner.OStarting?)
    && (s.publish.PUnborn? <==> s.owner.ONew? || s.owner.OStarting? || s.owner.OIngestSpawned?)
    && (s.owner.OShutting? || s.owner.OJoiningPublish? || s.owner.OStopped? ==> s.ingest.IExited?)
    && (s.owner.OStopped? ==> s.publish.PExited?)
    && (s.started <==> !s.owner.ONew?)
    && (s.stopped <==> s.owner.OStopped?)
    && (s.ingestFinished <==> s.ingest.IExited?)
  }

  /** The queue is shut by stop() alone, after the ingest thread has been joined. */
  ghost predicate CloseInv<E>(s: State<E>) {
    && HasThreads(s)
    && (s.q.core.shut <==>
          || s.owner.OJoiningPublish? || s.owner.OStopped?
          || (s.owner.OShutting? && !s.q.pc[OWNER].ShutEnter? && !s.q.pc[OWNER].ShutHolds?))
    && (s.q.pc[INGEST].PushDone? ==> s.q.pc[INGEST].ok)
    && (s.publish.PFlush? || s.publish.PExited? ==> s.q.core.shut && s.q.core.items == [])
  }

  /** What has been taken from the source and not been offered to the publisher, oldest first. */
  function InTransit<E>(s: State<E>): seq<E>
    requires HasThreads(s)
  {
    HeldByPublish(s.publish, s.q.pc[PUBLISH]) + s.q.core.items + HeldByIngest(s.ingest, s.q.pc[INGEST])
  }

  /** Conservation: nothing is lost, duplicated or reordered on the way to the publisher. */
  ghost predicate FlowInv<E>(s: State<E>) {
    HasThreads(s) && s.taken == Events(s.attempts) + InTransit(s)
  }

  ghost predicate CountInv<E>(s: State<E>) {
    && s.received + (if s.ingest.IGot? then 1 else 0) == |s.taken|
    && s.published + (if s.publish.PTried? && s.publish.ok then 1 else 0) == Successes(s.attempts)
    && s.failures + (if s.publish.PTried? && !s.publish.ok then 1 else 0) == |s.attempts| - Successes(s.attempts)
    && s.flushedAt == (if s.publish.PExited? then [|s.attempts|] else [])
  }

  ghost predicate RecorderInv<E>(s: State<E>) {
    s.recorder.Some? ==>
      s.recorder.value
        + (if s.ingest.IGot? || s.ingest.ICounted? then [s.ingest.event] else []) == s.taken
  }

  /** The ingest loop ends only because the source was stopped or ran out. */
  ghost predicate CallInv<E>(s: State<E>) {
    && SourceInv(s.src)
    && (s.src.inNext <==> s.ingest.INext?)
    && (s.ingest.IEnding? || s.ingest.IExited? ==> s.src.stop || s.src.supply == Finite(0))
  }

  ghost predicate Inv<E>(s: State<E>) {
    && RoleInv(s) && OrderInv(s) && CloseInv(s) && FlowInv(s) && CountInv(s) && RecorderInv(s) && CallInv(s)
    && QI.Inv(s.q)
  }

  lemma InitInv<E>(capacity: nat, supply: Supply, recording: bool)
    ensures Inv(Init<E>(capacity, supply, recording))
  {
    QI.InitInv<E>(capacity, {OWNER, INGEST, PUBLISH});
  }

  // ---- what a step inside the queue does to one thread ----

  lemma InsideKind<E(!new)>(q: Q.State<E>, qs: Q.Step<E>, t: Q.Tid)
    requires Q.Enabled(q, qs) && Internal(qs) && t in q.pc
    ensures Q.Apply(q, qs).pc.Keys == q.pc.Keys && Q.Apply(q, qs).log == q.log
    ensures var p, p' := q.pc[t], Q.Apply(q, qs).pc[t];
      && (p.Idle? ==> p'.Idle?)
      && (InPush(p) ==> InPush(p'))
      && (InPop(p) ==> InPop(p'))
      && (InShutdown(p) ==> InShutdown(p'))
  {}

  // ---- what the other steps do: each thread moves itself, and the queue's contents stay ----

  lemma OwnerMoves<E(!new)>(s: State<E>, step: Step<E>)
    requires HasThreads(s) && OwnerEnabled(s, step)
    ensures var s' := OwnerApply(s, step);
      && s'.q.core == s.q.core && s'.q.pc == s.q.pc[OWNER := s'.q.pc[OWNER]] && HasThreads(s')
      && s'.ingest == (if step.OwnerSpawnIngest? then ITop else s.ingest)
      && s'.publish == (if step.OwnerSpawnPublish? then PTop else s.publish)
      && s'.ingestFinished == s.ingestFinished
      && s'.taken == s.taken && s'.attempts == s.attempts && s'.flushedAt == s.flushedAt && s'.recorder == s.recorder
      && s'.received == s.received && s'.published == s.published && s'.failures == s.failures
  {
    assert s.q.pc[OWNER := s.q.pc[OWNER]] == s.q.pc;
  }

  lemma IngestMovesItself<E(!new)>(s: State<E>, step: Step<E>)
    requires HasThreads(s) && IngestEnabled(s, step)
    ensures var s' := IngestApply(s, step);
      && s'.q.core == s.q.core && s'.q.pc == s.q.pc[INGEST := s'.q.pc[INGEST]] && HasThreads(s')
      && s'.owner == s.owner && s'.publish == s.publish && s'.started == s.started && s'.stopped == s.stopped
      && s'.attempts == s.attempts && s'.flushedAt == s.flushedAt
      && s'.published == s.published && s'.failures == s.failures
  {}

  lemma PublishMovesItself<E(!new)>(s: State<E>, step: Step<E>)
    requires HasThreads(s) && PublishEnabled(s, step)
    ensures var s' := PublishApply(s, step);
      && s'.q.core == s.q.core && s'.q.pc == s.q.pc[PUBLISH := s'.q.pc[PUBLISH]] && HasThreads(s')
      && s'.owner == s.owner && s'.ingest == s.ingest && s'.started == s.started && s'.stopped == s.stopped
      && s'.ingestFinished == s.ingestFinished && s'.src == s.src && s'.taken == s.taken && s'.recorder == s.recorder
      && s'.received == s.received
  {}

  lemma RoleStep<E(!new)>(s: State<E>, step: Step<E>)
    requires RoleInv(s) && OrderInv(s) && Enabled(s, step)
    ensures RoleInv(Apply(s, step))
  {
    if step.Inside? {
      RoleInside(s, step.step);
    } else if OfOwner(step) {
      OwnerMoves(s, step);
    } else if OfIngest(step) {
      IngestMovesItself(s, step);
    } else {
      PublishMovesItself(s, step);
    }
  }

  lemma RoleInside<E(!new)>(s: State<E>, qs: Q.Step<E>)
    requires RoleInv(s) && Enabled(s, Inside(qs))
    ensures RoleInv(Apply(s, Inside(qs)))
  {
    InsideKind(s.q, qs, OWNER);
    InsideKind(s.q, qs, INGEST);
    InsideKind(s.q, qs, PUBLISH);
  }

  lemma OrderStep<E(!new)>(s: State<E>, step: Step<E>)
    requires RoleInv(s) && OrderInv(s) && CloseInv(s) && Enabled(s, step)
    ensures OrderInv(Apply(s, step))
  {
    if step.Inside? {
      InsideKind(s.q, step.step, OWNER);
    } else if OfOwner(step) {
      OrderOwner(s, step);
    } else if OfIngest(step) {
      OrderIngest(s, step);
    } else {
      PublishMovesItself(s, step);
    }
  }

  lemma OrderOwner<E(!new)>(s: State<E>, step: Step<E>)
    requires OrderInv(s) && OwnerEnabled(s, step)
    ensures OrderInv(OwnerApply(s, step))
  {
    OwnerMoves(s, step);
  }

  lemma OrderIngest<E(!new)>(s: State<E>, step: Step<E>)
    requires OrderInv(s) && IngestEnabled(s, step)
    ensures OrderInv(IngestApply(s, step))
  {
    IngestMovesItself(s, step);
  }

  /** How the queue gets shut, and what a refused push presupposes. */
  lemma InsideClose<E(!new)>(q: Q.State<E>, qs: Q.Step<E>, t: Q.Tid)
    requires Q.Enabled(q, qs) && Internal(qs) && t in q.pc
    ensures var q', p, p' := Q.Apply(q, qs), q.pc[t], Q.Apply(q, qs).pc[t];
      && q'.core.shut == (q.core.shut || (qs.Section? && q.pc[qs.t].ShutHolds?))
      && (q.core.shut && q.core.items == [] ==> q'.core.items == [])
      && (InShutdown(p) && (p.ShutEnter? || p.ShutHolds?) && !(qs.Section? && qs.t == t) ==> p'.ShutEnter? || p'.ShutHolds?)
      && (InShutdown(p) && !(p.ShutEnter? || p.ShutHolds?) ==> !(p'.ShutEnter? || p'.ShutHolds?))
      && (p.ShutHolds? && qs.Section? && qs.t == t ==> p'.ShutSignalFull?)
      && (p'.PushDone? && !p'.ok ==> q.core.shut || (p.PushDone? && !p.ok))
  {}

  lemma CloseInside<E(!new)>(s: State<E>, qs: Q.Step<E>)
    requires RoleInv(s) && OrderInv(s) && CloseInv(s) && Enabled(s, Inside(qs))
    ensures CloseInv(Apply(s, Inside(qs)))
  {
    InsideClose(s.q, qs, OWNER);
    InsideClose(s.q, qs, INGEST);
    InsideKind(s.q, qs, OWNER);
    InsideKind(s.q, qs, INGEST);
    assert qs.t == OWNER || qs.t == INGEST || qs.t == PUBLISH;
  }

  lemma CloseStep<E(!new)>(s: State<E>, step: Step<E>)
    requires RoleInv(s) && OrderInv(s) && CloseInv(s) && QI.Inv(s.q) && Enabled(s, step)
    ensures CloseInv(Apply(s, step))
  {
    if step.Inside? {
      CloseInside(s, step.step);
    } else if OfOwner(step) {
      CloseOwner(s, step);
    } else if OfIngest(step) {
      IngestMovesItself(s, step);
    } else {
      ClosePublish(s, step);
    }
  }

  lemma CloseOwner<E(!new)>(s: State<E>, step: Step<E>)
    requires RoleInv(s) && OrderInv(s) && CloseInv(s) && QI.ShutInv(s.q) && OwnerEnabled(s, step)
    ensures CloseInv(OwnerApply(s, step))
  {
    OwnerMoves(s, step);
  }

  lemma ClosePublish<E(!new)>(s: State<E>, step: Step<E>)
    requires RoleInv(s) && OrderInv(s) && CloseInv(s) && QI.ShutInv(s.q) && PublishEnabled(s, step)
    ensures CloseInv(PublishApply(s, step))
  {
    PublishMovesItself(s, step);
  }

  lemma FlowInside<E(!new)>(s: State<E>, qs: Q.Step<E>)
    requires RoleInv(s) && FlowInv(s) && CloseInv(s) && OrderInv(s) && Enabled(s, Inside(qs))
    ensures FlowInv(Apply(s, Inside(qs)))
  {
    if qs.Section? {
      FlowSection(s, qs.t);
    } else {
      FlowQuiet(s, qs);
    }
  }

  /** Outside the critical section no event moves. */
  lemma InsideQuiet<E(!new)>(q: Q.State<E>, qs: Q.Step<E>, t: Q.Tid)
    requires Q.Enabled(q, qs) && Internal(qs) && !qs.Section? && t in q.pc
    ensures var q' := Q.Apply(q, qs);
      && q'.core == q.core && t in q'.pc
      && NotYetQueued(q'.pc[t]) == NotYetQueued(q.pc[t])
      && QI.PopInFlight(q'.pc[t]) == QI.PopInFlight(q.pc[t])
  {}

  lemma FlowQuiet<E(!new)>(s: State<E>, qs: Q.Step<E>)
    requires RoleInv(s) && FlowInv(s) && Enabled(s, Inside(qs)) && !qs.Section?
    ensures FlowInv(Apply(s, Inside(qs)))
  {
    InsideQuiet(s.q, qs, INGEST);
    InsideQuiet(s.q, qs, PUBLISH);
    InsideKind(s.q, qs, OWNER);
    var s' := Apply(s, Inside(qs));
    assert HeldByPublish(s'.publish, s'.q.pc[PUBLISH]) == HeldByPublish(s.publish, s.q.pc[PUBLISH]);
    assert HeldByIngest(s'.ingest, s'.q.pc[INGEST]) == HeldByIngest(s.ingest, s.q.pc[INGEST]);
  }

  /** Under the mutex an event moves between a thread's hand and the queue. */
  lemma SectionMoves<E>(q: Q.State<E>, t: Q.Tid)
    requires t in q.pc && Q.Holds(q.pc[t]) && (q.core.shut ==> !q.pc[t].PushHolds?)
    ensures var q' := Q.AfterSection(q, t);
      && q'.pc == q.pc[t := q'.pc[t]]
      && (InPush(q.pc[t]) ==> q'.core.items + NotYetQueued(q'.pc[t]) == q.core.items + NotYetQueued(q.pc[t]))
      && (InPop(q.pc[t]) ==> QI.PopInFlight(q'.pc[t]) + q'.core.items == QI.PopInFlight(q.pc[t]) + q.core.items)
      && (q.pc[t].ShutHolds? ==> q'.core.items == q.core.items)
  {}

  lemma FlowSection<E(!new)>(s: State<E>, t: Q.Tid)
    requires RoleInv(s) && FlowInv(s) && CloseInv(s) && OrderInv(s) && Enabled(s, Inside(Q.Section(t)))
    ensures FlowInv(Apply(s, Inside(Q.Section(t))))
  {
    SectionMoves(s.q, t);
    var s' := s.(q := Q.AfterSection(s.q, t));
    if t == INGEST {
      FlowAtBack(s, s');
    } else {
      FlowAtFront(s, s');
    }
  }

  lemma FlowAtBack<E>(s: State<E>, s': State<E>)
    requires FlowInv(s) && HasThreads(s') && s' == s.(q := s'.q) && s'.q.pc[PUBLISH] == s.q.pc[PUBLISH]
    requires s'.q.core.items + HeldByIngest(s.ingest, s'.q.pc[INGEST])
          == s.q.core.items + HeldByIngest(s.ingest, s.q.pc[INGEST])
    ensures FlowInv(s')
  {
    var h := HeldByPublish(s.publish, s.q.pc[PUBLISH]);
    assert InTransit(s) == h + (s.q.core.items + HeldByIngest(s.ingest, s.q.pc[INGEST]));
    assert InTransit(s') == h + (s'.q.core.items + HeldByIngest(s.ingest, s'.q.pc[INGEST]));
  }

  lemma FlowAtFront<E>(s: State<E>, s': State<E>)
    requires FlowInv(s) && HasThreads(s') && s' == s.(q := s'.q) && s'.q.pc[INGEST] == s.q.pc[INGEST]
    requires HeldByPublish(s.publish, s'.q.pc[PUBLISH]) + s'.q.core.items
          == HeldByPublish(s.publish, s.q.pc[PUBLISH]) + s.q.core.items
    ensures FlowInv(s')
  {}

  lemma EventsAppend<E>(attempts: seq<(E, bool)>, e: E, ok: bool)
    ensures Events(attempts + [(e, ok)]) == Events(attempts) + [e]
    ensures Successes(attempts + [(e, ok)]) == Successes(attempts) + (if ok then 1 else 0)
  {
    assert (attempts + [(e, ok)])[..|attempts|] == attempts;
  }

  /** Between the queue's own steps an event moves from one hand to the next. */
  lemma IngestHand<E(!new)>(s: State<E>, step: Step<E>)
    requires RoleInv(s) && OrderInv(s) && IngestEnabled(s, step)
    ensures var s' := IngestApply(s, step);
      && HasThreads(s')
      && var g, g' := HeldByIngest(s.ingest, s.q.pc[INGEST]), HeldByIngest(s'.ingest, s'.q.pc[INGEST]);
      if step.SourceDelivers? then g == [] && g' == [step.event] && s'.taken == s.taken + [step.event]
      else g' == g && s'.taken == s.taken
  {}

  lemma PublishHand<E(!new)>(s: State<E>, step: Step<E>)
    requires RoleInv(s) && OrderInv(s) && PublishEnabled(s, step)
    ensures var s' := PublishApply(s, step);
      && HasThreads(s')
      && var h, h' := HeldByPublish(s.publish, s.q.pc[PUBLISH]), HeldByPublish(s'.publish, s'.q.pc[PUBLISH]);
      if step.PublishTry? then h == [s.publish.event] && h' == [] && s'.attempts == s.attempts + [(s.publish.event, step.ok)]
      else h' == h && s'.attempts == s.attempts
  {}

  lemma FlowIngest<E(!new)>(s: State<E>, step: Step<E>)
    requires RoleInv(s) && OrderInv(s) && FlowInv(s) && IngestEnabled(s, step)
    ensures FlowInv(IngestApply(s, step))
  {
    IngestMovesItself(s, step);
    IngestHand(s, step);
  }

  lemma FlowPublish<E(!new)>(s: State<E>, step: Step<E>)
    requires RoleInv(s) && OrderInv(s) && FlowInv(s) && PublishEnabled(s, step)
    ensures FlowInv(PublishApply(s, step))
  {
    PublishMovesItself(s, step);
    PublishHand(s, step);
    if step.PublishTry? { EventsAppend(s.attempts, s.publish.event, step.ok); }
  }

  lemma FlowStep<E(!new)>(s: State<E>, step: Step<E>)
    requires RoleInv(s) && FlowInv(s) && CloseInv(s) && OrderInv(s) && Enabled(s, step)
    ensures FlowInv(Apply(s, step))
  {
    if step.Inside? {
      FlowInside(s, step.step);
    } else if OfOwner(step) {
      OwnerMoves(s, step);
    } else if OfIngest(step) {
      FlowIngest(s, step);
    } else {
      FlowPublish(s, step);
    }
  }

  lemma CountPublish<E(!new)>(s: State<E>, step: Step<E>)
    requires CountInv(s) && OrderInv(s) && PublishEnabled(s, step)
    ensures CountInv(PublishApply(s, step))
  {
    if step.PublishTry? { EventsAppend(s.attempts, s.publish.event, step.ok); }
  }

  lemma CountIngest<E(!new)>(s: State<E>, step: Step<E>)
    requires CountInv(s) && OrderInv(s) && IngestEnabled(s, step)
    ensures CountInv(IngestApply(s, step))
  {}

  lemma CountStep<E(!new)>(s: State<E>, step: Step<E>)
    requires CountInv(s) && OrderInv(s) && Enabled(s, step)
    ensures CountInv(Apply(s, step))
  {
    if OfOwner(step) {
      OwnerMoves(s, step);
    } else if OfIngest(step) {
      CountIngest(s, step);
    } else if OfPublish(step) {
      CountPublish(s, step);
    }
  }

  lemma RecorderStep<E(!new)>(s: State<E>, step: Step<E>)
    requires RecorderInv(s) && OrderInv(s) && Enabled(s, step)
    ensures RecorderInv(Apply(s, step))
  {}

  lemma CallStep<E(!new)>(s: State<E>, step: Step<E>)
    requires CallInv(s) && OrderInv(s) && CloseInv(s) && Enabled(s, step)
    ensures CallInv(Apply(s, step))
  {}

  lemma QueueStep<E(!new)>(s: State<E>, step: Step<E>)
    requires QI.Inv(s.q) && Enabled(s, step)
    ensures QI.Inv(Apply(s, step).q)
  {
    match step {
      case Inside(qs) => QI.InvStep(s.q, qs);
      case OwnerJoinIngest => QI.InvStep(s.q, Q.CallShutdown(OWNER));
      case OwnerShutdownReturn => QI.InvStep(s.q, Q.Return(OWNER));
      case IngestCallPush => QI.InvStep(s.q, Q.CallPush(INGEST, s.ingest.event));
      case IngestPushReturn => QI.InvStep(s.q, Q.Return(INGEST));
      case PublishCallPop => QI.InvStep(s.q, Q.CallPop(PUBLISH));
      case PublishPopReturn => QI.InvStep(s.q, Q.Return(PUBLISH));
      case _ =>
    }
  }

  lemma InvStep<E(!new)>(s: State<E>, step: Step<E>)
    requires Inv(s) && Enabled(s, step)
    ensures Inv(Apply(s, step))
  {
    RoleStep(s, step);
    OrderStep(s, step);
    CloseStep(s, step);
    FlowStep(s, step);
    CountStep(s, step);
    RecorderStep(s, step);
    CallStep(s, step);
    QueueStep(s, step);
  }

  lemma {:induction false} InvRun<E(!new)>(s: State<E>, steps: seq<Step<E>>)
    requires Inv(s) && RunOk(s, steps)
    ensures Inv(Run(s, steps))
    decreases |steps|
  {
    if steps != [] {
      InvStep(s, steps[0]);
      InvRun(Apply(s, steps[0]), steps[1..]);
    }
  }
}
