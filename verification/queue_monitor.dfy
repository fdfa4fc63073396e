/**
  The queue as a monitor: any number of threads, one mutex, two condition variables.

  A step is one thing one thread does between two points at which another thread may run.
  The code under the mutex is one step, because nothing it touches is read or written by a
  thread that does not hold the mutex.  Signalling is a step of its own: both notify_one
  calls and the two notify_all calls run after the mutex has been released.  A parked
  thread can leave the wait set at any time without a signal (a spurious wakeup).
*/
module QueueMonitor {
  import opened Options
  import opened BoundedQueues

  type Tid = nat

  datatype Pc<T> =
    | Idle
    // push
    | PushEnter(item: T)                 // waits for the mutex
    | PushHolds(item: T, recheck: bool)  // holds it, about to test the predicate
    | PushParked(item: T)                // waits on not_full_
    | PushWoken(item: T)                 // left the wait set, waits for the mutex again
    | PushSignal(item: T)                // has unlocked, notify_one on not_empty_ still to come
    | PushDone(item: T, ok: bool)
    // pop
    | PopEnter
    | PopHolds(recheck: bool)
    | PopParked                          // waits on not_empty_
    | PopWoken
    | PopSignal(got: T)                  // has unlocked, notify_one on not_full_ still to come
    | PopDone(result: Option<T>)
    // shutdown
    | ShutEnter
    | ShutHolds
    | ShutSignalFull                     // notify_all on not_full_ still to come
    | ShutSignalEmpty                    // notify_all on not_empty_ still to come
    | ShutDone

  /** What a thread itself has seen: the pushes that returned true and the items popped. */
  datatype Log<T> = Log(sent: seq<T>, got: seq<T>)

  datatype State<T> = State(
    core: Core<T>,
    holder: Option<Tid>,
    pc: map<Tid, Pc<T>>,
    pushed: seq<(Tid, T)>,  // accepted pushes with their thread, in lock order
    popped: seq<(Tid, T)>,  // successful pops with their thread, in lock order
    log: map<Tid, Log<T>>)

  datatype Step<T> =
    | CallPush(t: Tid, item: T)
    | CallPop(t: Tid)
    | CallShutdown(t: Tid)
    | Acquire(t: Tid)
    | Section(t: Tid)
    | NotifyOne(t: Tid, woken: Option<Tid>)
    | NotifyAll(t: Tid)
    | Spurious(t: Tid)
    | Return(t: Tid)

  function Init<T>(capacity: nat, threads: set<Tid>): State<T> {
    State(Core(capacity, [], 0, false), None, map t | t in threads :: Idle, [], [],
          map t | t in threads :: Log([], []))
  }

  predicate Holds<T>(p: Pc<T>) { p.PushHolds? || p.PopHolds? || p.ShutHolds? }
  predicate WantsMutex<T>(p: Pc<T>) {
    p.PushEnter? || p.PushWoken? || p.PopEnter? || p.PopWoken? || p.ShutEnter?
  }
  predicate Parked<T>(p: Pc<T>) { p.PushParked? || p.PopParked? }
  predicate Done<T>(p: Pc<T>) { p.PushDone? || p.PopDone? || p.ShutDone? }

  function AfterAcquire<T>(p: Pc<T>): Pc<T>
    requires WantsMutex(p)
  {
    match p
    case PushEnter(x) => PushHolds(x, false)
    case PushWoken(x) => PushHolds(x, true)
    case PopEnter => PopHolds(false)
    case PopWoken => PopHolds(true)
    case ShutEnter => ShutHolds
  }

  function Wake<T>(p: Pc<T>): Pc<T>
    requires Parked(p)
  {
    match p
    case PushParked(x) => PushWoken(x)
    case PopParked => PopWoken
  }

  /** May the signal of a thread at `p` reach a thread at `q`? */
  predicate Reaches<T>(p: Pc<T>, q: Pc<T>) {
    match p
    case PushSignal(_) => q.PopParked?
    case PopSignal(_) => q.PushParked?
    case ShutSignalFull => q.PushParked?
    case ShutSignalEmpty => q.PopParked?
    case _ => false
  }

  function AfterSignal<T>(p: Pc<T>): Pc<T>
    requires p.PushSignal? || p.PopSignal? || p.ShutSignalFull? || p.ShutSignalEmpty?
  {
    match p
    case PushSignal(x) => PushDone(x, true)
    case PopSignal(x) => PopDone(Some(x))
    case ShutSignalFull => ShutSignalEmpty
    case ShutSignalEmpty => ShutDone
  }

  predicate Enabled<T(!new)>(s: State<T>, step: Step<T>) {
    && step.t in s.pc
    && step.t in s.log
    && var p := s.pc[step.t];
    match step
    case CallPush(_, _) => p.Idle?
    case CallPop(_) => p.Idle?
    case CallShutdown(_) => p.Idle?
    case Acquire(_) => WantsMutex(p) && s.holder.None?
    case Section(t) => Holds(p) && s.holder == Some(t)
    case NotifyOne(_, w) =>
      && (p.PushSignal? || p.PopSignal?)
      && (if w.Some? then w.value in s.pc && Reaches(p, s.pc[w.value])
          else forall u :: u in s.pc ==> !Reaches(p, s.pc[u]))
    case NotifyAll(_) => p.ShutSignalFull? || p.ShutSignalEmpty?
    case Spurious(_) => Parked(p)
    case Return(_) => Done(p)
  }

  function AfterSection<T>(s: State<T>, t: Tid): State<T>
    requires t in s.pc && Holds(s.pc[t])
  {
    match s.pc[t]
    case PushHolds(x, _) => (
      match PushOutcome(s.core)
      case PushBlocks => s.(holder := None, pc := s.pc[t := PushParked(x)])
      case PushRefused => s.(holder := None, pc := s.pc[t := PushDone(x, false)])
      case PushAccepted =>
        s.(core := AfterPush(s.core, x), holder := None, pc := s.pc[t := PushSignal(x)],
           pushed := s.pushed + [(t, x)]))
    case PopHolds(_) => (
      match PopOutcome(s.core)
      case PopBlocks => s.(holder := None, pc := s.pc[t := PopParked])
      case PopDrained => s.(holder := None, pc := s.pc[t := PopDone(None)])
      case PopTook(x) =>
        s.(core := AfterPop(s.core), holder := None, pc := s.pc[t := PopSignal(x)],
           popped := s.popped + [(t, x)]))
    case ShutHolds =>
      s.(core := AfterShutdown(s.core), holder := None, pc := s.pc[t := ShutSignalFull])
  }

  function AfterReturn<T>(l: Log<T>, p: Pc<T>): Log<T> {
    match p
    case PushDone(x, true) => l.(sent := l.sent + [x])
    case PopDone(Some(x)) => l.(got := l.got + [x])
    case _ => l
  }

  function Apply<T(!new)>(s: State<T>, step: Step<T>): State<T>
    requires Enabled(s, step)
  {
    var t := step.t;
    var p := s.pc[t];
    match step
    case CallPush(_, x) => s.(pc := s.pc[t := PushEnter(x)])
    case CallPop(_) => s.(pc := s.pc[t := PopEnter])
    case CallShutdown(_) => s.(pc := s.pc[t := ShutEnter])
    case Acquire(_) => s.(holder := Some(t), pc := s.pc[t := AfterAcquire(p)])
    case Section(_) => AfterSection(s, t)
    case NotifyOne(_, w) =>
      var signalled := s.pc[t := AfterSignal(p)];
      s.(pc := if w.Some? then signalled[w.value := Wake(s.pc[w.value])] else signalled)
    case NotifyAll(_) =>
      s.(pc := map u | u in s.pc :: if u == t then AfterSignal(p)
                                    else if Reaches(p, s.pc[u]) then Wake(s.pc[u]) else s.pc[u])
    case Spurious(_) => s.(pc := s.pc[t := Wake(p)])
    case Return(_) => s.(pc := s.pc[t := Idle], log := s.log[t := AfterReturn(s.log[t], p)])
  }

  // ---- runs ----

  predicate RunOk<T(!new)>(s: State<T>, steps: seq<Step<T>>)
    decreases |steps|
  {
    steps == [] || (Enabled(s, steps[0]) && RunOk(Apply(s, steps[0]), steps[1..]))
  }

  function Run<T(!new)>(s: State<T>, steps: seq<Step<T>>): State<T>
    requires RunOk(s, steps)
    decreases |steps|
  {
    if steps == [] then s else Run(Apply(s, steps[0]), steps[1..])
  }

  /** The longest the queue has been in any state of the run, its first one included. */
  function PeakLength<T(!new)>(s: State<T>, steps: seq<Step<T>>): nat
    requires RunOk(s, steps)
    decreases |steps|
  {
    if steps == [] then |s.core.items|
    else
      var rest := PeakLength(Apply(s, steps[0]), steps[1..]);
      if |s.core.items| > rest then |s.core.items| else rest
  }

  // ---- counting threads ----

  /** Accounts for one queued item while a popper is parked. */
  predicate EmptyToken<T>(p: Pc<T>) { p.PopWoken? || (p.PopHolds? && p.recheck) || p.PushSignal? }

  /** Accounts for one free slot while a pusher is parked. */
  predicate FullToken<T>(p: Pc<T>) { p.PushWoken? || (p.PushHolds? && p.recheck) || p.PopSignal? }

  function EmptyTokens<T>(pc: map<Tid, Pc<T>>): set<Tid> { set t | t in pc && EmptyToken(pc[t]) }
  function FullTokens<T>(pc: map<Tid, Pc<T>>): set<Tid> { set t | t in pc && FullToken(pc[t]) }

  lemma CardinalityBut(a: set<Tid>, b: set<Tid>, t: Tid)
    requires a - {t} == b - {t}
    ensures |b| == |a| - (if t in a then 1 else 0) + (if t in b then 1 else 0)
  {
    if t in a { assert a == (a - {t}) + {t}; } else { assert a == a - {t}; }
    if t in b { assert b == (b - {t}) + {t}; } else { assert b == b - {t}; }
  }

  lemma TokensAfterUpdate<T>(pc: map<Tid, Pc<T>>, t: Tid, v: Pc<T>)
    requires t in pc
    ensures |EmptyTokens(pc[t := v])|
         == |EmptyTokens(pc)| - (if EmptyToken(pc[t]) then 1 else 0) + (if EmptyToken(v) then 1 else 0)
    ensures |FullTokens(pc[t := v])|
         == |FullTokens(pc)| - (if FullToken(pc[t]) then 1 else 0) + (if FullToken(v) then 1 else 0)
  {
    CardinalityBut(EmptyTokens(pc), EmptyTokens(pc[t := v]), t);
    CardinalityBut(FullTokens(pc), FullTokens(pc[t := v]), t);
  }
}
