/** What every step of the queue monitor keeps. */
module QueueInvariants {
  import opened Options
  import opened BoundedQueues
  import opened QueueMonitor

  // ---- histories ----

  function Items<T>(h: seq<(Tid, T)>): seq<T> { seq(|h|, i requires 0 <= i < |h| => h[i].1) }

  /** The part of a history that belongs to thread t, in order. */
  function Of<T>(t: Tid, h: seq<(Tid, T)>): seq<T> {
    if h == [] then []
    else Of(t, h[..|h| - 1]) + (if h[|h| - 1].0 == t then [h[|h| - 1].1] else [])
  }

  function PushInFlight<T>(p: Pc<T>): seq<T> {
    match p
    case PushSignal(x) => [x]
    case PushDone(x, true) => [x]
    case _ => []
  }

  function PopInFlight<T>(p: Pc<T>): seq<T> {
    match p
    case PopSignal(x) => [x]
    case PopDone(Some(x)) => [x]
    case _ => []
  }

  // ---- the invariant, part by part ----

  ghost predicate MutexInv<T>(s: State<T>) {
    && s.pc.Keys == s.log.Keys
    && (s.holder.Some? ==> s.holder.value in s.pc)
    && forall t :: t in s.pc ==> (Holds(s.pc[t]) <==> s.holder == Some(t))
  }

  ghost predicate FifoInv<T>(s: State<T>) {
    && Items(s.popped) + s.core.items == Items(s.pushed)
    && |s.core.items| <= s.core.highWater <= s.core.capacity
  }

  /** A thread's own record, plus the operation it is returning from, is its part of the history. */
  ghost predicate LogOf<T>(t: Tid, pushed: seq<(Tid, T)>, popped: seq<(Tid, T)>,
                           pc: map<Tid, Pc<T>>, log: map<Tid, Log<T>>) {
    if t in pc && t in log then
      && Of(t, pushed) == log[t].sent + PushInFlight(pc[t])
      && Of(t, popped) == log[t].got + PopInFlight(pc[t])
    else Of(t, pushed) == [] && Of(t, popped) == []
  }

  ghost predicate LogInv<T>(s: State<T>) {
    forall t :: LogOf(t, s.pushed, s.popped, s.pc, s.log)
  }

  /** A parked popper: every queued item is accounted for by a thread that will act on it. */
  ghost predicate EmptyWake<T>(s: State<T>) {
    forall u :: u in s.pc && s.pc[u].PopParked? ==> |s.core.items| <= |EmptyTokens(s.pc)|
  }

  /** A parked pusher before shutdown: every free slot is accounted for. */
  ghost predicate FullWake<T>(s: State<T>) {
    !s.core.shut ==>
      forall u :: u in s.pc && s.pc[u].PushParked? ==>
        s.core.capacity - |s.core.items| <= |FullTokens(s.pc)|
  }

  /** Thread v owes the parked thread u a signal of shutdown. */
  predicate Owes<T>(pc: map<Tid, Pc<T>>, v: Tid, u: Tid) {
    v in pc && u in pc && (pc[v].ShutSignalFull? || (pc[u].PopParked? && pc[v].ShutSignalEmpty?))
  }

  /** A parked thread after shutdown: the notify_all on its condition is still to come. */
  ghost predicate ShutWake<T>(s: State<T>) {
    s.core.shut ==> forall u :: u in s.pc && Parked(s.pc[u]) ==> exists v :: Owes(s.pc, v, u)
  }

  /** A signal of shutdown, or a call it refused or drained, is only seen once it has happened. */
  ghost predicate ShutInv<T>(s: State<T>) {
    forall t :: t in s.pc ==>
      && (s.pc[t].ShutSignalFull? || s.pc[t].ShutSignalEmpty? || s.pc[t].ShutDone? ==> s.core.shut)
      && (s.pc[t].PushDone? && !s.pc[t].ok ==> s.core.shut)
      && (s.pc[t].PopDone? && s.pc[t].result.None? ==> s.core.shut && s.core.items == [])
  }

  ghost predicate Inv<T>(s: State<T>) {
    MutexInv(s) && FifoInv(s) && LogInv(s) && EmptyWake(s) && FullWake(s) && ShutWake(s) && ShutInv(s)
  }

  // ---- it holds initially ----

  lemma InitInv<T>(capacity: nat, threads: set<Tid>)
    ensures Inv(Init<T>(capacity, threads))
  {}

  // ---- every step keeps it ----

  lemma MutexStep<T(!new)>(s: State<T>, step: Step<T>)
    requires MutexInv(s) && Enabled(s, step)
    ensures MutexInv(Apply(s, step))
  {
    if step.Section? { var _ := AfterSection(s, step.t); }
  }

  lemma FifoStep<T(!new)>(s: State<T>, step: Step<T>)
    requires FifoInv(s) && Enabled(s, step)
    ensures FifoInv(Apply(s, step))
  {
    if step.Section? {
      var s' := AfterSection(s, step.t);
      match s.pc[step.t] {
        case PushHolds(x, _) =>
          if PushOutcome(s.core).PushAccepted? {
            assert Items(s'.pushed) == Items(s.pushed) + [x];
          }
        case PopHolds(_) =>
          if PopOutcome(s.core).PopTook? {
            assert Items(s'.popped) == Items(s.popped) + [s.core.items[0]];
            assert s.core.items == [s.core.items[0]] + s.core.items[1..];
          }
        case _ =>
      }
    }
  }

  lemma OfAppend<T>(t: Tid, h: seq<(Tid, T)>, u: Tid, x: T)
    ensures Of(t, h + [(u, x)]) == Of(t, h) + (if u == t then [x] else [])
  {
    assert (h + [(u, x)])[..|h|] == h;
  }

  /** Outside the critical section and the return, no thread's operation in flight changes. */
  lemma FlightFrame<T(!new)>(s: State<T>, step: Step<T>, t: Tid)
    requires Enabled(s, step) && !step.Section? && !step.Return? && t in s.pc
    ensures PushInFlight(Apply(s, step).pc[t]) == PushInFlight(s.pc[t])
    ensures PopInFlight(Apply(s, step).pc[t]) == PopInFlight(s.pc[t])
  {}

  lemma LogPush<T>(s: State<T>, u: Tid, x: T, t: Tid)
    requires LogOf(t, s.pushed, s.popped, s.pc, s.log)
    requires u in s.pc && u in s.log && PushInFlight(s.pc[u]) == PopInFlight(s.pc[u]) == []
    ensures LogOf(t, s.pushed + [(u, x)], s.popped, s.pc[u := PushSignal(x)], s.log)
  {
    OfAppend(t, s.pushed, u, x);
  }

  lemma LogPop<T>(s: State<T>, u: Tid, x: T, t: Tid)
    requires LogOf(t, s.pushed, s.popped, s.pc, s.log)
    requires u in s.pc && u in s.log && PushInFlight(s.pc[u]) == PopInFlight(s.pc[u]) == []
    ensures LogOf(t, s.pushed, s.popped + [(u, x)], s.pc[u := PopSignal(x)], s.log)
  {
    OfAppend(t, s.popped, u, x);
  }

  lemma LogQuiet<T>(s: State<T>, pc': map<Tid, Pc<T>>, t: Tid)
    requires LogOf(t, s.pushed, s.popped, s.pc, s.log)
    requires pc'.Keys == s.pc.Keys
    requires t in s.pc ==> PushInFlight(pc'[t]) == PushInFlight(s.pc[t]) && PopInFlight(pc'[t]) == PopInFlight(s.pc[t])
    ensures LogOf(t, s.pushed, s.popped, pc', s.log)
  {}

  lemma LogSectionPush<T(!new)>(s: State<T>, u: Tid, t: Tid)
    requires LogOf(t, s.pushed, s.popped, s.pc, s.log) && Enabled(s, Section(u)) && s.pc[u].PushHolds?
    ensures var s' := AfterSection(s, u); LogOf(t, s'.pushed, s'.popped, s'.pc, s'.log)
  {
    if PushOutcome(s.core).PushAccepted? {
      LogPush(s, u, s.pc[u].item, t);
    } else {
      LogQuiet(s, AfterSection(s, u).pc, t);
    }
  }

  lemma LogSectionPop<T(!new)>(s: State<T>, u: Tid, t: Tid)
    requires LogOf(t, s.pushed, s.popped, s.pc, s.log) && Enabled(s, Section(u)) && s.pc[u].PopHolds?
    ensures var s' := AfterSection(s, u); LogOf(t, s'.pushed, s'.popped, s'.pc, s'.log)
  {
    if PopOutcome(s.core).PopTook? {
      LogPop(s, u, s.core.items[0], t);
    } else {
      LogQuiet(s, AfterSection(s, u).pc, t);
    }
  }

  lemma LogSection<T(!new)>(s: State<T>, u: Tid, t: Tid)
    requires LogOf(t, s.pushed, s.popped, s.pc, s.log) && Enabled(s, Section(u))
    ensures var s' := AfterSection(s, u); LogOf(t, s'.pushed, s'.popped, s'.pc, s'.log)
  {
    match s.pc[u] {
      case PushHolds(_, _) => LogSectionPush(s, u, t);
      case PopHolds(_) => LogSectionPop(s, u, t);
      case ShutHolds => LogQuiet(s, AfterSection(s, u).pc, t);
    }
  }

  lemma LogReturn<T(!new)>(s: State<T>, u: Tid, t: Tid)
    requires LogOf(t, s.pushed, s.popped, s.pc, s.log) && Enabled(s, Return(u))
    ensures var s' := Apply(s, Return(u)); LogOf(t, s'.pushed, s'.popped, s'.pc, s'.log)
  {
    if t == u {
      assert PushInFlight<T>(Idle) == [] && PopInFlight<T>(Idle) == [];
    }
  }

  lemma LogStep<T(!new)>(s: State<T>, step: Step<T>)
    requires LogInv(s) && Enabled(s, step)
    ensures LogInv(Apply(s, step))
  {
    var s' := Apply(s, step);
    forall t ensures LogOf(t, s'.pushed, s'.popped, s'.pc, s'.log) {
      assert LogOf(t, s.pushed, s.popped, s.pc, s.log);
      if step.Section? {
        LogSection(s, step.t, t);
      } else if step.Return? {
        LogReturn(s, step.t, t);
      } else {
        if t in s.pc { FlightFrame(s, step, t); }
        LogQuiet(s, s'.pc, t);
      }
    }
  }

  lemma ShutStep<T(!new)>(s: State<T>, step: Step<T>)
    requires ShutInv(s) && Enabled(s, step)
    ensures ShutInv(Apply(s, step))
  {
    if step.Section? { var _ := AfterSection(s, step.t); }
  }

  /** A notify_one changes two threads. */
  lemma TokensAfterNotify<T>(pc: map<Tid, Pc<T>>, t: Tid, w: Tid)
    requires t in pc && w in pc && Reaches(pc[t], pc[w]) && (pc[t].PushSignal? || pc[t].PopSignal?)
    ensures var pc' := pc[t := AfterSignal(pc[t])][w := Wake(pc[w])];
      && |EmptyTokens(pc')| == |EmptyTokens(pc)|
      && |FullTokens(pc')| == |FullTokens(pc)|
  {
    var mid := pc[t := AfterSignal(pc[t])];
    TokensAfterUpdate(pc, t, AfterSignal(pc[t]));
    TokensAfterUpdate(mid, w, Wake(pc[w]));
  }

  /** A notify_all turns parked threads into tokens and takes none away. */
  lemma TokensAfterNotifyAll<T(!new)>(s: State<T>, t: Tid)
    requires Enabled(s, NotifyAll(t))
    ensures |EmptyTokens(s.pc)| <= |EmptyTokens(Apply(s, NotifyAll(t)).pc)|
    ensures |FullTokens(s.pc)| <= |FullTokens(Apply(s, NotifyAll(t)).pc)|
  {
    var pc' := Apply(s, NotifyAll(t)).pc;
    SubsetCardinality(EmptyTokens(s.pc), EmptyTokens(pc'));
    SubsetCardinality(FullTokens(s.pc), FullTokens(pc'));
  }

  lemma SubsetCardinality(a: set<Tid>, b: set<Tid>)
    requires a <= b
    ensures |a| <= |b|
  {
    assert b == a + (b - a);
  }

  lemma EmptyWakeStep<T(!new)>(s: State<T>, step: Step<T>)
    requires EmptyWake(s) && Enabled(s, step)
    ensures EmptyWake(Apply(s, step))
  {
    var s' := Apply(s, step);
    match step {
      case NotifyOne(t, w) =>
        if w.Some? { TokensAfterNotify(s.pc, t, w.value); } else { TokensAfterUpdate(s.pc, t, s'.pc[t]); }
      case NotifyAll(t) => TokensAfterNotifyAll(s, t);
      case _ => TokensAfterUpdate(s.pc, step.t, s'.pc[step.t]);
    }
  }

  lemma FullWakeStep<T(!new)>(s: State<T>, step: Step<T>)
    requires FullWake(s) && Enabled(s, step)
    ensures FullWake(Apply(s, step))
  {
    var s' := Apply(s, step);
    match step {
      case NotifyOne(t, w) =>
        if w.Some? { TokensAfterNotify(s.pc, t, w.value); } else { TokensAfterUpdate(s.pc, t, s'.pc[t]); }
      case NotifyAll(t) => TokensAfterNotifyAll(s, t);
      case _ => TokensAfterUpdate(s.pc, step.t, s'.pc[step.t]);
    }
  }

  /** Only its own notify_all moves a thread that is about to signal shutdown. */
  lemma SignalStays<T(!new)>(s: State<T>, step: Step<T>, v: Tid)
    requires Enabled(s, step) && v in s.pc && (s.pc[v].ShutSignalFull? || s.pc[v].ShutSignalEmpty?)
    requires !(step.NotifyAll? && step.t == v)
    ensures v in Apply(s, step).pc && Apply(s, step).pc[v] == s.pc[v]
  {}

  /** On a shut queue nobody parks. */
  lemma StaysParked<T(!new)>(s: State<T>, step: Step<T>, u: Tid)
    requires Enabled(s, step) && s.core.shut && u in Apply(s, step).pc && Parked(Apply(s, step).pc[u])
    ensures u in s.pc && s.pc[u] == Apply(s, step).pc[u]
  {}

  /** What is still owed after a notify_all. */
  lemma OwedAfterSignal<T(!new)>(s: State<T>, v: Tid, u: Tid)
    requires Enabled(s, NotifyAll(v)) && Owes(s.pc, v, u)
    ensures var pc' := Apply(s, NotifyAll(v)).pc; u in pc' && (Parked(pc'[u]) ==> Owes(pc', v, u))
  {}

  lemma ShutByOwner<T(!new)>(s: State<T>, step: Step<T>)
    requires Enabled(s, step) && !s.core.shut && Apply(s, step).core.shut
    ensures step.t in Apply(s, step).pc && Apply(s, step).pc[step.t].ShutSignalFull?
  {}

  lemma ShutWakeStep<T(!new)>(s: State<T>, step: Step<T>)
    requires ShutWake(s) && Enabled(s, step)
    ensures ShutWake(Apply(s, step))
  {
    var s' := Apply(s, step);
    if s'.core.shut {
      forall u | u in s'.pc && Parked(s'.pc[u]) ensures exists v :: Owes(s'.pc, v, u) {
        if s.core.shut {
          StaysParked(s, step, u);
          var v :| Owes(s.pc, v, u);
          if step.NotifyAll? && step.t == v { OwedAfterSignal(s, v, u); } else { SignalStays(s, step, v); }
          assert Owes(s'.pc, v, u);
        } else {
          ShutByOwner(s, step);
          assert Owes(s'.pc, step.t, u);
        }
      }
    }
  }

  /** Every step of every thread keeps the whole invariant. */
  lemma InvStep<T(!new)>(s: State<T>, step: Step<T>)
    requires Inv(s) && Enabled(s, step)
    ensures Inv(Apply(s, step))
  {
    MutexStep(s, step);
    FifoStep(s, step);
    LogStep(s, step);
    EmptyWakeStep(s, step);
    FullWakeStep(s, step);
    ShutWakeStep(s, step);
    ShutStep(s, step);
  }

  lemma {:induction false} InvRun<T(!new)>(s: State<T>, steps: seq<Step<T>>)
    requires Inv(s) && RunOk(s, steps)
    ensures Inv(Run(s, steps))
    decreases |steps|
  {
    if steps != [] {
      InvStep(s, steps[0]);
      InvRun(Apply(s, steps[0]), steps[1..]);
    }
  }
}
