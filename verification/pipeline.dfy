/**
  IngestionPipeline as three threads around the queue monitor
  (include/tickforge/ingestion_pipeline.hpp, src/ingestion_pipeline.cpp).

  The owner runs start() and stop(); the ingest thread runs runIngest(); the publish thread
  runs runPublish().  requestStop() may come at any time.  Whatever happens inside push, pop
  and shutdown is a step of QueueMonitor on the same state.
*/
module Pipeline {
  import opened Options
  import opened SourceContract
  import Q = QueueMonitor

  const OWNER: Q.Tid := 0
  const INGEST: Q.Tid := 1
  const PUBLISH: Q.Tid := 2

  datatype Owner =
    | ONew | OStarting | OIngestSpawned | ORunning
    | OJoiningIngest | OShutting | OJoiningPublish | OStopped

  datatype Ingest<E> =
    | IUnborn
    | ITop               // about to call next()
    | INext              // inside next()
    | IGot(event: E)     // next() returned true
    | ICounted(event: E) // after ++events_received_
    | IRecorded(event: E)
    | IPush              // inside push()
    | IEnding            // the loop is over
    | IExited            // after ingest_finished_ = true

  datatype Publish<E> =
    | PUnborn
    | PTop               // about to call pop()
    | PPop               // inside pop()
    | PHold(event: E)    // pop() returned true
    | PTried(ok: bool)   // publish() returned
    | PFlush             // the loop is over
    | PExited

  datatype State<E> = State(
    q: Q.State<E>,
    src: Source,
    owner: Owner,
    ingest: Ingest<E>,
    publish: Publish<E>,
    started: bool,
    stopped: bool,
    ingestFinished: bool,
    received: nat,
    published: nat,
    failures: nat,
    recorder: Option<seq<E>>,   // what the optional recorder holds
    taken: seq<E>,              // what next() has delivered
    attempts: seq<(E, bool)>,   // the calls of publish(), with their results
    flushedAt: seq<nat>)        // |attempts| at each call of flush()

  datatype Step<E> =
    | OwnerStart | OwnerSpawnIngest | OwnerSpawnPublish
    | OwnerStop | OwnerStopIgnored | OwnerJoinIngest | OwnerShutdownReturn | OwnerJoinPublish
    | RequestStop
    | IngestCallNext | SourceDelivers(event: E) | SourceEnds
    | IngestCount | IngestRecord | IngestCallPush | IngestPushReturn | IngestFinish
    | PublishCallPop | PublishPopReturn | PublishTry(ok: bool) | PublishCount | PublishFlush
    | Inside(step: Q.Step<E>)

  function Init<E>(capacity: nat, supply: Supply, recording: bool): State<E> {
    State(Q.Init(capacity, {OWNER, INGEST, PUBLISH}), Fresh(supply), ONew, IUnborn, PUnborn,
          false, false, false, 0, 0, 0, if recording then Some([]) else None, [], [], [])
  }

  /** The steps of the queue's own code; calls and returns belong to the three threads. */
  predicate Internal<E>(step: Q.Step<E>) {
    step.Acquire? || step.Section? || step.NotifyOne? || step.NotifyAll? || step.Spurious?
  }

  predicate HasThreads<E>(s: State<E>) {
    && OWNER in s.q.pc && INGEST in s.q.pc && PUBLISH in s.q.pc
    && OWNER in s.q.log && INGEST in s.q.log && PUBLISH in s.q.log
  }

  // ---- whose step it is ----

  predicate OfOwner<E>(step: Step<E>) {
    step.OwnerStart? || step.OwnerSpawnIngest? || step.OwnerSpawnPublish? || step.OwnerStop? || step.OwnerStopIgnored?
    || step.OwnerJoinIngest? || step.OwnerShutdownReturn? || step.OwnerJoinPublish? || step.RequestStop?
  }

  predicate OfIngest<E>(step: Step<E>) {
    step.IngestCallNext? || step.SourceDelivers? || step.SourceEnds? || step.IngestCount? || step.IngestRecord?
    || step.IngestCallPush? || step.IngestPushReturn? || step.IngestFinish?
  }

  predicate OfPublish<E>(step: Step<E>) {
    step.PublishCallPop? || step.PublishPopReturn? || step.PublishTry? || step.PublishCount? || step.PublishFlush?
  }

  // ---- when it can be taken, and what it does ----

  predicate OwnerEnabled<E>(s: State<E>, step: Step<E>)
    requires HasThreads(s)
  {
    match step
    case OwnerStart => s.owner.ONew?
    case OwnerSpawnIngest => s.owner.OStarting?
    case OwnerSpawnPublish => s.owner.OIngestSpawned?
    case OwnerStop => s.owner.ORunning?
    case OwnerStopIgnored => s.owner.ONew? || s.owner.OStopped?
    case OwnerJoinIngest => s.owner.OJoiningIngest? && s.ingest.IExited? && s.q.pc[OWNER].Idle?
    case OwnerShutdownReturn => s.owner.OShutting? && s.q.pc[OWNER].ShutDone?
    case OwnerJoinPublish => s.owner.OJoiningPublish? && s.publish.PExited?
    case RequestStop => true
    case _ => false
  }

  predicate IngestEnabled<E>(s: State<E>, step: Step<E>)
    requires HasThreads(s)
  {
    match step
    case IngestCallNext => s.ingest.ITop?
    case SourceDelivers(_) => s.ingest.INext? && CanDeliver(s.src)
    case SourceEnds => s.ingest.INext? && CanEnd(s.src)
    case IngestCount => s.ingest.IGot?
    case IngestRecord => s.ingest.ICounted?
    case IngestCallPush => s.ingest.IRecorded? && s.q.pc[INGEST].Idle?
    case IngestPushReturn => s.ingest.IPush? && s.q.pc[INGEST].PushDone?
    case IngestFinish => s.ingest.IEnding?
    case _ => false
  }

  predicate PublishEnabled<E>(s: State<E>, step: Step<E>)
    requires HasThreads(s)
  {
    match step
    case PublishCallPop => s.publish.PTop? && s.q.pc[PUBLISH].Idle?
    case PublishPopReturn => s.publish.PPop? && s.q.pc[PUBLISH].PopDone?
    case PublishTry(_) => s.publish.PHold?
    case PublishCount => s.publish.PTried?
    case PublishFlush => s.publish.PFlush?
    case _ => false
  }

  predicate Enabled<E(!new)>(s: State<E>, step: Step<E>) {
    && HasThreads(s)
    && if step.Inside? then Internal(step.step) && Q.Enabled(s.q, step.step)
       else if OfOwner(step) then OwnerEnabled(s, step)
       else if OfIngest(step) then IngestEnabled(s, step)
       else PublishEnabled(s, step)
  }

  function OwnerApply<E(!new)>(s: State<E>, step: Step<E>): State<E>
    requires HasThreads(s) && OwnerEnabled(s, step)
  {
    match step
    case OwnerStart => s.(owner := OStarting, started := true)
    case OwnerSpawnIngest => s.(owner := OIngestSpawned, ingest := ITop)
    case OwnerSpawnPublish => s.(owner := ORunning, publish := PTop)
    case OwnerStop => s.(owner := OJoiningIngest)
    case OwnerStopIgnored => s  // stopped_ || !started_
    case OwnerJoinIngest => s.(owner := OShutting, q := Q.Apply(s.q, Q.CallShutdown(OWNER)))
    case OwnerShutdownReturn => s.(owner := OJoiningPublish, q := Q.Apply(s.q, Q.Return(OWNER)))
    case OwnerJoinPublish => s.(owner := OStopped, stopped := true)
    case RequestStop => if s.started then s.(src := Stop(s.src)) else s
  }

  function IngestApply<E(!new)>(s: State<E>, step: Step<E>): State<E>
    requires HasThreads(s) && IngestEnabled(s, step)
  {
    match step
    case IngestCallNext => s.(ingest := INext, src := Call(s.src))
    case SourceDelivers(e) => s.(ingest := IGot(e), src := Delivered(s.src), taken := s.taken + [e])
    case SourceEnds => s.(ingest := IEnding, src := Ended(s.src))
    case IngestCount => s.(ingest := ICounted(s.ingest.event), received := s.received + 1)
    case IngestRecord =>
      s.(ingest := IRecorded(s.ingest.event),
         recorder := if s.recorder.Some? then Some(s.recorder.value + [s.ingest.event]) else None)
    case IngestCallPush => s.(ingest := IPush, q := Q.Apply(s.q, Q.CallPush(INGEST, s.ingest.event)))
    case IngestPushReturn =>
      s.(ingest := if s.q.pc[INGEST].ok then ITop else IEnding, q := Q.Apply(s.q, Q.Return(INGEST)))
    case IngestFinish => s.(ingest := IExited, ingestFinished := true)
  }

  function PublishApply<E(!new)>(s: State<E>, step: Step<E>): State<E>
    requires HasThreads(s) && PublishEnabled(s, step)
  {
    match step
    case PublishCallPop => s.(publish := PPop, q := Q.Apply(s.q, Q.CallPop(PUBLISH)))
    case PublishPopReturn =>
      s.(publish := if s.q.pc[PUBLISH].result.Some? then PHold(s.q.pc[PUBLISH].result.value) else PFlush,
         q := Q.Apply(s.q, Q.Return(PUBLISH)))
    case PublishTry(ok) => s.(publish := PTried(ok), attempts := s.attempts + [(s.publish.event, ok)])
    case PublishCount =>
      if s.publish.ok then s.(publish := PTop, published := s.published + 1)
      else s.(publish := PTop, failures := s.failures + 1)
    case PublishFlush => s.(publish := PExited, flushedAt := s.flushedAt + [|s.attempts|])
  }

  function Apply<E(!new)>(s: State<E>, step: Step<E>): State<E>
    requires Enabled(s, step)
  {
    if step.Inside? then s.(q := Q.Apply(s.q, step.step))
    else if OfOwner(step) then OwnerApply(s, step)
    else if OfIngest(step) then IngestApply(s, step)
    else PublishApply(s, step)
  }

  // ---- runs ----

  predicate RunOk<E(!new)>(s: State<E>, steps: seq<Step<E>>)
    decreases |steps|
  {
    steps == [] || (Enabled(s, steps[0]) && RunOk(Apply(s, steps[0]), steps[1..]))
  }

  function Run<E(!new)>(s: State<E>, steps: seq<Step<E>>): State<E>
    requires RunOk(s, steps)
    decreases |steps|
  {
    if steps == [] then s else Run(Apply(s, steps[0]), steps[1..])
  }
}
