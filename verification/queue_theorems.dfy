/** What the queue promises its callers, for any number of threads and every interleaving. */
module QueueTheorems {
  import opened Options
  import opened BoundedQueues
  import opened QueueMonitor
  import opened QueueInvariants

  // ---- no lost wakeup, and no thread parked without reason ----

  /** Which threads answer for the items or free slots a parked thread is waiting for. */
  lemma NoLostWakeup<T(!new)>(capacity: nat, threads: set<Tid>, steps: seq<Step<T>>, u: Tid)
    requires RunOk(Init(capacity, threads), steps)
    ensures var s := Run(Init(capacity, threads), steps);
      u in s.pc ==>
        && (s.pc[u].PopParked? ==> |s.core.items| <= |EmptyTokens(s.pc)|)
        && (s.pc[u].PushParked? && !s.core.shut ==> capacity - |s.core.items| <= |FullTokens(s.pc)|)
        && (s.pc[u].PushParked? && s.core.shut ==> exists v :: v in s.pc && s.pc[v].ShutSignalFull?)
        && (s.pc[u].PopParked? && s.core.shut ==>
              exists v :: v in s.pc && (s.pc[v].ShutSignalFull? || s.pc[v].ShutSignalEmpty?))
  {
    InitInv<T>(capacity, threads);
    InvRun(Init(capacity, threads), steps);
    CapacityRun(Init(capacity, threads), steps);
  }

  lemma {:induction false} CapacityRun<T(!new)>(s: State<T>, steps: seq<Step<T>>)
    requires RunOk(s, steps)
    ensures Run(s, steps).core.capacity == s.core.capacity && Run(s, steps).pc.Keys == s.pc.Keys
    decreases |steps|
  {
    if steps != [] { CapacityRun(Apply(s, steps[0]), steps[1..]); }
  }

  /** Steps that some thread inside the queue can take without a new call and without luck. */
  predicate Progress<T>(step: Step<T>) {
    step.Acquire? || step.Section? || step.NotifyOne? || step.NotifyAll? || step.Return?
  }

  ghost predicate Stuck<T(!new)>(s: State<T>) {
    forall step: Step<T> :: Progress(step) ==> !Enabled(s, step)
  }

  /** A signalling thread can always signal, whether or not somebody waits. */
  lemma SignalEnabled<T(!new)>(s: State<T>, t: Tid) returns (step: Step<T>)
    requires t in s.pc && t in s.log && (s.pc[t].PushSignal? || s.pc[t].PopSignal?)
    ensures step.NotifyOne? && step.t == t && Enabled(s, step)
  {
    if w :| w in s.pc && Reaches(s.pc[t], s.pc[w]) {
      step := NotifyOne(t, Some(w));
    } else {
      step := NotifyOne(t, None);
    }
  }

  /** Every thread that is neither outside the queue nor parked lets some thread make progress. */
  lemma BusyThreadMoves<T(!new)>(s: State<T>, t: Tid) returns (step: Step<T>)
    requires Inv(s) && t in s.pc && !s.pc[t].Idle? && !Parked(s.pc[t])
    ensures Progress(step) && Enabled(s, step)
  {
    var p := s.pc[t];
    if WantsMutex(p) {
      step := if s.holder.None? then Acquire(t) else Section(s.holder.value);
    } else if Holds(p) {
      step := Section(t);
    } else if Done(p) {
      step := Return(t);
    } else if p.PushSignal? || p.PopSignal? {
      step := SignalEnabled(s, t);
    } else {
      step := NotifyAll(t);
    }
  }

  /**
    When nothing inside the queue can move, every thread inside it is parked for its own
    reason: poppers because the open queue is empty, pushers because it is full.  With room
    for one item the two cannot both be waiting.
  */
  lemma StuckOnlyForCause<T(!new)>(capacity: nat, threads: set<Tid>, steps: seq<Step<T>>, u: Tid)
    requires RunOk(Init(capacity, threads), steps) && u in threads
    requires Stuck(Run(Init(capacity, threads), steps))
    ensures var s := Run(Init(capacity, threads), steps);
      && u in s.pc
      && (s.pc[u].Idle? || Parked(s.pc[u]))
      && (s.pc[u].PopParked? ==> s.core.items == [] && !s.core.shut)
      && (s.pc[u].PushParked? ==> |s.core.items| == capacity && !s.core.shut)
      && (capacity > 0 && s.pc[u].PushParked? ==> forall v :: v in s.pc ==> !s.pc[v].PopParked?)
  {
    var s := Run(Init(capacity, threads), steps);
    InitInv<T>(capacity, threads);
    InvRun(Init(capacity, threads), steps);
    CapacityRun(Init(capacity, threads), steps);
    forall t | t in s.pc ensures s.pc[t].Idle? || Parked(s.pc[t]) {
      if !(s.pc[t].Idle? || Parked(s.pc[t])) { var _ := BusyThreadMoves(s, t); }
    }
    assert EmptyTokens(s.pc) == {} && FullTokens(s.pc) == {};
    assert forall v :: v in s.pc ==> !s.pc[v].ShutSignalFull? && !s.pc[v].ShutSignalEmpty?;
  }

  // ---- first in, first out, nothing lost ----

  lemma {:induction false} OfPrefix<T>(t: Tid, h: seq<(Tid, T)>, n: nat)
    requires n <= |h|
    ensures Of(t, h[..n]) <= Of(t, h)
  {
    if n < |h| {
      OfPrefix(t, h[..|h| - 1], n);
      assert h[..|h| - 1][..n] == h[..n];
    } else {
      assert h[..n] == h;
    }
  }

  /**
    Items leave in the order in which they were let in; the items that leave of one
    producer's are, in its own calling order, the first of those its pushes accepted; and
    each consumer received just what the lock-order history says it took.
  */
  lemma LinearisedFifo<T(!new)>(capacity: nat, threads: set<Tid>, steps: seq<Step<T>>, t: Tid)
    requires RunOk(Init(capacity, threads), steps) && t in threads
    ensures var s := Run(Init(capacity, threads), steps);
      && t in s.pc && t in s.log
      && Items(s.popped) + s.core.items == Items(s.pushed)
      && |s.popped| <= |s.pushed|
      && Of(t, s.pushed[..|s.popped|]) <= s.log[t].sent + PushInFlight(s.pc[t])
      && Of(t, s.popped) == s.log[t].got + PopInFlight(s.pc[t])
      && |s.core.items| <= capacity
  {
    var s := Run(Init(capacity, threads), steps);
    InitInv<T>(capacity, threads);
    InvRun(Init(capacity, threads), steps);
    CapacityRun(Init(capacity, threads), steps);
    assert |Items(s.popped)| + |s.core.items| == |Items(s.pushed)|;
    OfPrefix(t, s.pushed, |s.popped|);
    assert LogOf(t, s.pushed, s.popped, s.pc, s.log);
  }

  lemma PeakStep<T(!new)>(s: State<T>, step: Step<T>)
    requires |s.core.items| <= s.core.highWater && Enabled(s, step)
    ensures var s' := Apply(s, step);
      s'.core.highWater == if |s'.core.items| > s.core.highWater then |s'.core.items| else s.core.highWater
  {}

  lemma {:induction false} PeakRun<T(!new)>(s: State<T>, steps: seq<Step<T>>)
    requires |s.core.items| <= s.core.highWater && RunOk(s, steps)
    ensures Run(s, steps).core.highWater
         == if PeakLength(s, steps) > s.core.highWater then PeakLength(s, steps) else s.core.highWater
    decreases |steps|
  {
    if steps != [] {
      PeakStep(s, steps[0]);
      PeakRun(Apply(s, steps[0]), steps[1..]);
    }
  }

  /** The reported high-water mark is the largest length the queue ever had. */
  lemma HighWaterIsPeak<T(!new)>(capacity: nat, threads: set<Tid>, steps: seq<Step<T>>)
    requires RunOk(Init(capacity, threads), steps)
    ensures Run(Init(capacity, threads), steps).core.highWater == PeakLength(Init(capacity, threads), steps)
  {
    PeakRun(Init(capacity, threads), steps);
  }

  lemma {:induction false} ClosedRun<T(!new)>(s: State<T>, steps: seq<Step<T>>)
    requires s.core.shut && RunOk(s, steps)
    ensures Run(s, steps).core.shut && Run(s, steps).pushed == s.pushed
    ensures s.core.items == [] ==> Run(s, steps).popped == s.popped && Run(s, steps).core.items == []
    decreases |steps|
  {
    if steps != [] { ClosedRun(Apply(s, steps[0]), steps[1..]); }
  }

  /**
    Drain, then stop: when one pop has reported the end, everything that was ever let in
    has been handed out, and it stays that way however the run goes on.
  */
  lemma DrainedMeansAllDelivered<T(!new)>(capacity: nat, threads: set<Tid>, steps: seq<Step<T>>,
                                          t: Tid, more: seq<Step<T>>)
    requires RunOk(Init(capacity, threads), steps)
    requires var s := Run(Init(capacity, threads), steps); t in s.pc && s.pc[t] == PopDone(None) && RunOk(s, more)
    ensures var s := Run(Init(capacity, threads), steps);
      && Items(s.popped) == Items(s.pushed)
      && Run(s, more).pushed == s.pushed && Run(s, more).popped == s.popped
  {
    var s := Run(Init(capacity, threads), steps);
    InitInv<T>(capacity, threads);
    InvRun(Init(capacity, threads), steps);
    ClosedRun(s, more);
  }

  // ---- the steps refine the mutable object ----

  ghost predicate Represents<T>(q: BoundedQueue<T>, s: State<T>)
    reads q
  {
    && q.Valid()
    && q.Snapshot() == s.core
    && q.accepted == Items(s.pushed)
    && q.delivered == Items(s.popped)
  }

  /** One step of the monitor is at most one critical section run on the object. */
  method PerformStep<T(!new)>(q: BoundedQueue<T>, s: State<T>, step: Step<T>)
    requires Represents(q, s) && Enabled(s, step)
    modifies q
    ensures Represents(q, Apply(s, step))
  {
    if step.Section? {
      match s.pc[step.t] {
        case PushHolds(x, _) =>
          var r := q.Push(x);
          assert r.PushAccepted? ==> Items(Apply(s, step).pushed) == Items(s.pushed) + [x];
        case PopHolds(_) =>
          var r := q.Pop();
          assert r.PopTook? ==> Items(Apply(s, step).popped) == Items(s.popped) + [r.item];
        case ShutHolds =>
          q.Shutdown();
      }
    }
  }

  lemma {:induction false} RunSnoc<T(!new)>(s: State<T>, steps: seq<Step<T>>, n: nat)
    requires RunOk(s, steps) && n < |steps|
    ensures RunOk(s, steps[..n]) && Enabled(Run(s, steps[..n]), steps[n])
    ensures RunOk(s, steps[..n + 1])
    ensures Run(s, steps[..n + 1]) == Apply(Run(s, steps[..n]), steps[n])
    decreases n
  {
    if n > 0 {
      RunSnoc(Apply(s, steps[0]), steps[1..], n - 1);
      assert steps[..n][1..] == steps[1..][..n - 1];
      assert steps[..n + 1][1..] == steps[1..][..n];
    } else {
      assert steps[..1] == [steps[0]];
    }
  }

  /** Any schedule of any number of threads, executed on a fresh queue object. */
  method PerformRun<T(!new)>(capacity: nat, threads: set<Tid>, steps: seq<Step<T>>) returns (q: BoundedQueue<T>)
    requires RunOk(Init(capacity, threads), steps)
    ensures fresh(q) && Represents(q, Run(Init(capacity, threads), steps))
  {
    q := new BoundedQueue(capacity);
    var s := Init(capacity, threads);
    for n := 0 to |steps|
      invariant RunOk(Init(capacity, threads), steps[..n]) && s == Run(Init(capacity, threads), steps[..n])
      invariant fresh(q) && Represents(q, s)
    {
      RunSnoc(Init(capacity, threads), steps, n);
      PerformStep(q, s, steps[n]);
      s := Apply(s, steps[n]);
    }
    assert steps[..|steps|] == steps;
  }
}
