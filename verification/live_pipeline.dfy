/**
  The pipeline with the live source in place of the contract: the ingest thread is the one
  that calls next(), and whoever requests a stop runs the source's stop().  Every run of the
  two together is, seen from the pipeline, a run of module Pipeline.
*/
module LivePipeline {
  import L = LiveMachine
  import LT = LiveTheorems
  import LC = LiveContract
  import S = SourceContract
  import P = Pipeline
  import I = PipelineInvariants
  import PT = PipelineTheorems

  datatype State<E> = State(pipe: P.State<E>, live: L.State<E>)

  datatype Step<E> =
    | Start                     // start(), which starts the source first
    | Request(t: L.Tid)         // requestStop(): the source's stop() begins on thread t
    | CallNext
    | Live(ls: L.Step<E>)       // inside next() or stop()
    | Pipe(ps: P.Step<E>)       // anything else the pipeline does

  function Init<E>(capacity: nat, recording: bool, stoppers: set<L.Tid>): State<E> {
    State(P.Init(capacity, S.Endless, recording), L.Init(stoppers))
  }

  /** The steps of the pipeline that are calls of the source, or returns from it. */
  predicate AtSource<E>(step: P.Step<E>) {
    step.OwnerStart? || step.RequestStop? || step.IngestCallNext? || step.SourceDelivers? || step.SourceEnds?
  }

  predicate Internal<E>(step: L.Step<E>) { !step.Call? && !step.Start? && !step.StopBegin? }

  /** What the thread that takes the step asks for. */
  predicate Offered<E(!new)>(s: State<E>, step: Step<E>) {
    match step
    case Start => P.Enabled(s.pipe, P.OwnerStart)
    case Request(t) => s.pipe.started ==> L.Enabled(s.live, L.StopBegin(t))
    case CallNext => P.Enabled(s.pipe, P.IngestCallNext) && L.Enabled(s.live, L.Call)
    case Live(ls) => Internal(ls) && L.Enabled(s.live, ls)
    case Pipe(ps) => !AtSource(ps) && P.Enabled(s.pipe, ps)
  }

  function LiveAfter<E(!new)>(s: State<E>, step: Step<E>): L.State<E>
    requires Offered(s, step)
  {
    match step
    case Start => L.Apply(s.live, L.Start)
    case Request(t) => if s.pipe.started then L.Apply(s.live, L.StopBegin(t)) else s.live
    case CallNext => L.Apply(s.live, L.Call)
    case Live(ls) => L.Apply(s.live, ls)
    case Pipe(_) => s.live
  }

  /** next() turns to returning. */
  function Returned<E>(n: L.Next<E>, n': L.Next<E>): seq<P.Step<E>> {
    if LT.InNext(n) && n'.NDone? then
      [if n'.result.Some? then P.SourceDelivers(n'.result.value) else P.SourceEnds]
    else []
  }

  /** What the pipeline does in a step: nothing, or one step of its own. */
  function Seen<E(!new)>(s: State<E>, step: Step<E>): (seen: seq<P.Step<E>>)
    requires Offered(s, step)
    ensures |seen| <= 1
  {
    match step
    case Start => [P.OwnerStart]
    case Request(_) => [P.RequestStop]
    case CallNext => [P.IngestCallNext]
    case Live(_) => Returned(s.live.next, LiveAfter(s, step).next)
    case Pipe(ps) => [ps]
  }

  predicate Enabled<E(!new)>(s: State<E>, step: Step<E>) {
    Offered(s, step) && P.RunOk(s.pipe, Seen(s, step))
  }

  function Apply<E(!new)>(s: State<E>, step: Step<E>): State<E>
    requires Enabled(s, step)
  {
    State(P.Run(s.pipe, Seen(s, step)), LiveAfter(s, step))
  }

  predicate RunOk<E(!new)>(s: State<E>, steps: seq<Step<E>>)
    decreases |steps|
  {
    steps == [] || (Enabled(s, steps[0]) && RunOk(Apply(s, steps[0]), steps[1..]))
  }

  function Run<E(!new)>(s: State<E>, steps: seq<Step<E>>): State<E>
    requires RunOk(s, steps)
    decreases |steps|
  {
    if steps == [] then s else Run(Apply(s, steps[0]), steps[1..])
  }

  /** The run as the pipeline sees it. */
  function Projected<E(!new)>(s: State<E>, steps: seq<Step<E>>): seq<P.Step<E>>
    requires RunOk(s, steps)
    decreases |steps|
  {
    if steps == [] then [] else Seen(s, steps[0]) + Projected(Apply(s, steps[0]), steps[1..])
  }

  // ---- the two agree on what passes between them ----

  ghost predicate Agree<E>(s: State<E>) {
    && s.pipe.src.supply == S.Endless
    && s.pipe.src.stop == s.live.stop
    && s.pipe.src.inNext == LT.InNext(s.live.next)
    && (s.pipe.src.inNext ==> s.pipe.src.grace == s.live.grace)
    && (!s.pipe.started ==> !s.live.stop)
  }

  ghost predicate Inv<E>(s: State<E>) { Agree(s) && I.Inv(s.pipe) && LT.Inv(s.live) }

  lemma InitInv<E>(capacity: nat, recording: bool, stoppers: set<L.Tid>)
    ensures Inv(Init<E>(capacity, recording, stoppers))
  {
    I.InitInv<E>(capacity, S.Endless, recording);
  }

  lemma OneStep<E(!new)>(p: P.State<E>, step: P.Step<E>)
    requires P.Enabled(p, step)
    ensures P.RunOk(p, [step]) && P.Run(p, [step]) == P.Apply(p, step)
  {
    assert [step][1..] == [];
  }

  /** A step inside next() or stop(), and what the pipeline sees of it. */
  lemma LiveInside<E(!new)>(s: State<E>, ls: L.Step<E>)
    requires Inv(s) && Internal(ls) && L.Enabled(s.live, ls)
    ensures Enabled(s, Live(ls)) && Agree(Apply(s, Live(ls)))
  {
    LC.LiveKeepsContract(s.live, ls);
    var n' := L.Apply(s.live, ls).next;
    if LT.InNext(s.live.next) && n'.NDone? {
      OneStep(s.pipe, if n'.result.Some? then P.SourceDelivers(n'.result.value) else P.SourceEnds);
    }
  }

  lemma SourceUntouched<E(!new)>(p: P.State<E>, ps: P.Step<E>)
    requires P.Enabled(p, ps) && !AtSource(ps)
    ensures P.Apply(p, ps).src == p.src && P.Apply(p, ps).started == p.started
  {
    if P.OfOwner(ps) {
      OwnerLeavesSource(p, ps);
    } else if P.OfIngest(ps) {
      IngestLeavesSource(p, ps);
    } else if P.OfPublish(ps) {
      I.PublishMovesItself(p, ps);
    }
  }

  lemma OwnerLeavesSource<E(!new)>(p: P.State<E>, ps: P.Step<E>)
    requires P.HasThreads(p) && P.OwnerEnabled(p, ps) && !AtSource(ps)
    ensures P.OwnerApply(p, ps).src == p.src && P.OwnerApply(p, ps).started == p.started
  {}

  lemma IngestLeavesSource<E(!new)>(p: P.State<E>, ps: P.Step<E>)
    requires P.HasThreads(p) && P.IngestEnabled(p, ps) && !AtSource(ps)
    ensures P.IngestApply(p, ps).src == p.src && P.IngestApply(p, ps).started == p.started
  {}

  lemma CalledSource<E(!new)>(s: State<E>, step: Step<E>)
    requires Inv(s) && Offered(s, step) && (step.Start? || step.Request? || step.CallNext?)
    ensures Enabled(s, step) && Agree(Apply(s, step))
  {
    OneStep(s.pipe, if step.Start? then P.OwnerStart else if step.Request? then P.RequestStop else P.IngestCallNext);
  }

  /** Whatever next() of the live source returns, the pipeline can take: no step is ever refused. */
  lemma NothingRefused<E(!new)>(s: State<E>, step: Step<E>)
    requires Inv(s) && Offered(s, step)
    ensures Enabled(s, step) && Agree(Apply(s, step))
  {
    match step {
      case Live(ls) => LiveInside(s, ls);
      case Pipe(ps) =>
        OneStep(s.pipe, ps);
        SourceUntouched(s.pipe, ps);
      case _ => CalledSource(s, step);
    }
  }

  lemma LiveInvStep<E(!new)>(s: State<E>, step: Step<E>)
    requires LT.Inv(s.live) && Offered(s, step)
    ensures LT.Inv(LiveAfter(s, step))
  {
    match step {
      case Start => LT.InvStep(s.live, L.Start);
      case Request(t) => if s.pipe.started { LT.InvStep(s.live, L.StopBegin(t)); }
      case CallNext => LT.InvStep(s.live, L.Call);
      case Live(ls) => LT.InvStep(s.live, ls);
      case Pipe(_) =>
    }
  }

  lemma InvStep<E(!new)>(s: State<E>, step: Step<E>)
    requires Inv(s) && Enabled(s, step)
    ensures Inv(Apply(s, step))
  {
    NothingRefused(s, step);
    LiveInvStep(s, step);
    I.InvRun(s.pipe, Seen(s, step));
  }

  lemma {:induction false} InvRun<E(!new)>(s: State<E>, steps: seq<Step<E>>)
    requires Inv(s) && RunOk(s, steps)
    ensures Inv(Run(s, steps))
    decreases |steps|
  {
    if steps != [] {
      InvStep(s, steps[0]);
      InvRun(Apply(s, steps[0]), steps[1..]);
    }
  }

  // ---- runs of the two are runs of the pipeline ----

  lemma {:induction false} JoinedRuns<E(!new)>(p: P.State<E>, a: seq<P.Step<E>>, b: seq<P.Step<E>>)
    requires P.RunOk(p, a) && P.RunOk(P.Run(p, a), b)
    ensures P.RunOk(p, a + b) && P.Run(p, a + b) == P.Run(P.Run(p, a), b)
    decreases |a|
  {
    if a == [] {
      assert a + b == b;
    } else {
      assert (a + b)[1..] == a[1..] + b;
      JoinedRuns(P.Apply(p, a[0]), a[1..], b);
    }
  }

  lemma {:induction false} ProjectedRun<E(!new)>(s: State<E>, steps: seq<Step<E>>)
    requires RunOk(s, steps)
    ensures P.RunOk(s.pipe, Projected(s, steps)) && P.Run(s.pipe, Projected(s, steps)) == Run(s, steps).pipe
    decreases |steps|
  {
    if steps != [] {
      var s' := Apply(s, steps[0]);
      ProjectedRun(s', steps[1..]);
      JoinedRuns(s.pipe, Seen(s, steps[0]), Projected(s', steps[1..]));
    }
  }

  /**
    Every run of pipeline and live source together is a run of the pipeline on an endless
    source, so what holds of all its runs holds here.  No step of either is ever refused by
    the other.
  */
  lemma LiveRunsAreRuns<E(!new)>(capacity: nat, recording: bool, stoppers: set<L.Tid>, steps: seq<Step<E>>, next: Step<E>)
    requires RunOk(Init<E>(capacity, recording, stoppers), steps)
    ensures var init, s := Init<E>(capacity, recording, stoppers), Run(Init<E>(capacity, recording, stoppers), steps);
      && P.RunOk(init.pipe, Projected(init, steps))
      && P.Run(init.pipe, Projected(init, steps)) == s.pipe
      && (Offered(s, next) ==> Enabled(s, next))
  {
    var init := Init<E>(capacity, recording, stoppers);
    InitInv<E>(capacity, recording, stoppers);
    InvRun(init, steps);
    ProjectedRun(init, steps);
    if Offered(Run(init, steps), next) { NothingRefused(Run(init, steps), next); }
  }

  /**
    When stop() has returned on a pipeline with a live source, everything it delivered has been
    published, and no open connection is left once the source's own stop() has completed.
  */
  lemma LiveStopDrainsEverything<E(!new)>(capacity: nat, recording: bool, stoppers: set<L.Tid>, steps: seq<Step<E>>)
    requires RunOk(Init<E>(capacity, recording, stoppers), steps)
    ensures var s := Run(Init<E>(capacity, recording, stoppers), steps);
      s.pipe.owner.OStopped? ==>
        && PT.AllDelivered(s.pipe)
        && s.live.stop
        && (!LT.StopPending(s.live) ==> s.live.ws != L.Open)
  {
    var init := Init<E>(capacity, recording, stoppers);
    InitInv<E>(capacity, recording, stoppers);
    InvRun(init, steps);
    var s := Run(init, steps);
    if s.pipe.owner.OStopped? { PT.StoppedState(s.pipe); }
  }

  /** Once a stop has been requested, the received counter grows by at most one. */
  lemma LiveBoundedOverrun<E(!new)>(capacity: nat, recording: bool, stoppers: set<L.Tid>,
                                    steps: seq<Step<E>>, more: seq<Step<E>>)
    requires RunOk(Init<E>(capacity, recording, stoppers), steps)
    ensures var s := Run(Init<E>(capacity, recording, stoppers), steps);
      s.live.stop && RunOk(s, more) ==> Run(s, more).pipe.received <= s.pipe.received + 1
  {
    var init := Init<E>(capacity, recording, stoppers);
    InitInv<E>(capacity, recording, stoppers);
    InvRun(init, steps);
    var s := Run(init, steps);
    if s.live.stop && RunOk(s, more) {
      ProjectedRun(s, more);
      PT.OverrunRun(s.pipe, Projected(s, more));
    }
  }
}
