/**
  The live source's connection life cycle under concurrent calls
  (include/tickforge/live_source.hpp, src/live_source.cpp).

  One thread calls next(); any number of threads call stop(); start() may come at any time.
  The two sides share ws_mutex_ and the atomic flags.  Connecting and reading are oracles
  that may succeed or fail; a read on a closed socket can only fail.
*/
module LiveMachine {
  import opened Options

  type Tid = nat

  /** The optional stored connection ws_, which next() replaces and stop() closes. */
  datatype Stored = Missing | Open | Closed

  /** Inside ensureConnected() and connectOnce(). */
  datatype ConnectPc =
    | CEnsure      // if (connected_)
    | CRetry       // the loop test
    | CConnecting  // resolving, connecting, shaking hands
    | CLock        // connected; waits for ws_mutex_
    | CCheck       // holds it: if (stop_requested_)
    | CStore       // holds it: ws_.emplace
    | CMark        // holds it: connected_ = true
    | CDone        // connectOnce() returned true
    | CFailed      // an exception: connected_ = false
    | CRefused     // connectOnce() returned false: if (stop_requested_)
    | CSleeping

  datatype ReadPc =
    | RLock        // waits for ws_mutex_ before reading
    | RView        // holds it: ws_.has_value()
    | RReading
    | RFailed      // connected_ = false
    | RCheck       // if (stop_requested_)

  datatype Next<E> =
    | NIdle
    | NTop                          // the loop test of next()
    | NConnect(c: ConnectPc)
    | NRead(r: ReadPc)
    | NMessage(parsed: Option<E>)   // ++messages_received_
    | NParsed(parsed: Option<E>)    // a bad message is counted, a good one returned
    | NDone(result: Option<E>)

  datatype Stopper =
    | SIdle
    | SLock    // has set stop_requested_; waits for ws_mutex_
    | SClose   // holds it: close the stored connection

  datatype Holder = Nobody | ByNext | ByStop(t: Tid)

  datatype State<E> = State(
    stop: bool,
    connected: bool,
    ws: Stored,
    holder: Holder,
    hadConnected: bool,
    reconnects: nat,
    received: nat,
    malformed: nat,
    next: Next<E>,
    stoppers: map<Tid, Stopper>,
    // history
    grace: bool,      // the call of next() in progress may still deliver an event
    connects: nat,    // calls of connectOnce() that returned true
    returned: nat)    // calls of next() that returned true

  datatype Step<E> =
    | Call                         // next() is called
    | Advance                      // next() runs on where it needs no oracle
    | ConnectSucceeds
    | ConnectFails
    | ReadFails
    | ReadMessage(parsed: Option<E>)
    | Start
    | StopBegin(t: Tid)
    | StopAcquire(t: Tid)
    | StopClose(t: Tid)

  function Init<E>(stoppers: set<Tid>): State<E> {
    State(false, false, Missing, Nobody, false, 0, 0, 0, NIdle, map t | t in stoppers :: SIdle, false, 0, 0)
  }

  predicate AtConnect<E>(n: Next<E>, c: ConnectPc) { n.NConnect? && n.c == c }
  predicate AtRead<E>(n: Next<E>, r: ReadPc) { n.NRead? && n.r == r }
  predicate NeedsOracle<E>(n: Next<E>) { AtConnect(n, CConnecting) || AtRead(n, RReading) }
  predicate WaitsForMutex<E>(n: Next<E>) { AtConnect(n, CLock) || AtRead(n, RLock) }

  predicate Enabled<E>(s: State<E>, step: Step<E>) {
    match step
    case Call => s.next.NIdle?
    case Advance =>
      && !s.next.NIdle? && !NeedsOracle(s.next)
      && (WaitsForMutex(s.next) ==> s.holder.Nobody?)
    case ConnectSucceeds => AtConnect(s.next, CConnecting)
    case ConnectFails => AtConnect(s.next, CConnecting)
    case ReadFails => AtRead(s.next, RReading)
    case ReadMessage(_) => AtRead(s.next, RReading) && s.ws == Open
    case Start => true
    case StopBegin(t) => t in s.stoppers && s.stoppers[t].SIdle?
    case StopAcquire(t) => t in s.stoppers && s.stoppers[t].SLock? && s.holder.Nobody?
    case StopClose(t) => t in s.stoppers && s.stoppers[t].SClose?
  }

  /** What ensureConnected() and connectOnce() do at each of their positions. */
  function ConnectAdvanced<E>(s: State<E>): State<E>
    requires s.next.NConnect? && s.next.c != CConnecting
  {
    match s.next.c
    case CEnsure => s.(next := if s.connected then NRead(RLock) else NConnect(CRetry))
    case CRetry => s.(next := if s.stop then NDone(None) else NConnect(CConnecting))
    case CLock => s.(next := NConnect(CCheck), holder := ByNext)
    case CCheck =>
      if s.stop then s.(next := NConnect(CRefused), holder := Nobody) else s.(next := NConnect(CStore))
    case CStore => s.(next := NConnect(CMark), ws := Open)
    case CMark => s.(next := NConnect(CDone), connected := true, holder := Nobody, connects := s.connects + 1)
    case CDone =>
      s.(next := NRead(RLock), hadConnected := true,
         reconnects := if s.hadConnected then s.reconnects + 1 else s.reconnects)
    case CFailed => s.(next := NConnect(CRefused), connected := false)
    case CRefused => s.(next := if s.stop then NDone(None) else NConnect(CSleeping))
    case CSleeping => s.(next := NConnect(CRetry))
  }

  /** What next() does around a read. */
  function ReadAdvanced<E>(s: State<E>): State<E>
    requires s.next.NRead? && s.next.r != RReading
  {
    match s.next.r
    case RLock => s.(next := NRead(RView), holder := ByNext)
    case RView =>
      if s.ws.Missing? then s.(next := NTop, connected := false, holder := Nobody)
      else s.(next := NRead(RReading), holder := Nobody)
    case RFailed => s.(next := NRead(RCheck), connected := false)
    case RCheck => s.(next := if s.stop then NDone(None) else NTop)
  }

  function Advanced<E>(s: State<E>): State<E>
    requires Enabled(s, Advance)
  {
    match s.next
    case NTop => s.(next := if s.stop then NDone(None) else NConnect(CEnsure))
    case NConnect(_) => ConnectAdvanced(s)
    case NRead(_) => ReadAdvanced(s)
    case NMessage(p) => s.(next := NParsed(p), received := s.received + 1)
    case NParsed(p) => if p.None? then s.(next := NTop, malformed := s.malformed + 1) else s.(next := NDone(p))
    case NDone(r) => s.(next := NIdle, returned := if r.Some? then s.returned + 1 else s.returned)
  }

  function Apply<E>(s: State<E>, step: Step<E>): State<E>
    requires Enabled(s, step)
  {
    match step
    case Call => s.(next := NTop, grace := !s.stop)
    case Advance => Advanced(s)
    case ConnectSucceeds => s.(next := NConnect(CLock))
    case ConnectFails => s.(next := NConnect(CFailed))
    case ReadFails => s.(next := NRead(RFailed))
    case ReadMessage(p) => s.(next := NMessage(p))
    case Start => s.(stop := false, grace := true)
    case StopBegin(t) => s.(stop := true, stoppers := s.stoppers[t := SLock])
    case StopAcquire(t) => s.(stoppers := s.stoppers[t := SClose], holder := ByStop(t))
    case StopClose(t) =>
      s.(stoppers := s.stoppers[t := SIdle], holder := Nobody, ws := if s.ws.Missing? then Missing else Closed)
  }

  predicate RunOk<E>(s: State<E>, steps: seq<Step<E>>)
    decreases |steps|
  {
    steps == [] || (Enabled(s, steps[0]) && RunOk(Apply(s, steps[0]), steps[1..]))
  }

  function Run<E>(s: State<E>, steps: seq<Step<E>>): State<E>
    requires RunOk(s, steps)
    decreases |steps|
  {
    if steps == [] then s else Run(Apply(s, steps[0]), steps[1..])
  }
}

module LiveTheorems {
  import opened Options
  import opened LiveMachine

  // ---- invariant ----

  predicate NextHolds<E>(n: Next<E>) { AtConnect(n, CCheck) || AtConnect(n, CStore) || AtConnect(n, CMark) || AtRead(n, RView) }

  ghost predicate MutexInv<E>(s: State<E>) {
    && (NextHolds(s.next) <==> s.holder == ByNext)
    && (forall t :: t in s.stoppers ==> (s.stoppers[t].SClose? <==> s.holder == ByStop(t)))
    && (s.holder.ByStop? ==> s.holder.t in s.stoppers)
  }

  ghost predicate StopPending<E>(s: State<E>) {
    exists t :: t in s.stoppers && !s.stoppers[t].SIdle?
  }

  /** A stop request leaves an open connection only as long as some stop() has yet to close it. */
  ghost predicate ClosedInv<E>(s: State<E>) {
    s.stop ==> StopPending(s) || (s.ws != Open && !AtConnect(s.next, CStore))
  }

  predicate UsesConnection<E>(n: Next<E>) { AtConnect(n, CDone) || AtRead(n, RLock) || AtRead(n, RView) || AtRead(n, RReading) }

  ghost predicate ConnectedInv<E>(s: State<E>) {
    && (s.connected || AtConnect(s.next, CMark) ==> !s.ws.Missing?)
    && (UsesConnection(s.next) ==> s.connected)
  }

  ghost predicate CountInv<E>(s: State<E>) {
    && s.received == s.malformed + s.returned
                     + (if s.next.NParsed? || (s.next.NDone? && s.next.result.Some?) then 1 else 0)
    && (var seen := s.connects - (if AtConnect(s.next, CDone) then 1 else 0);
        && 0 <= seen
        && (s.hadConnected <==> seen > 0)
        && s.reconnects == (if seen > 0 then seen - 1 else 0))
  }

  predicate InNext<E>(n: Next<E>) { !n.NIdle? && !n.NDone? }

  /** A call that began after stop() has not got past its first test of the flag. */
  ghost predicate GraceInv<E>(s: State<E>) {
    InNext(s.next) && !s.grace ==> s.stop && s.next.NTop?
  }

  ghost predicate Inv<E>(s: State<E>) {
    MutexInv(s) && ClosedInv(s) && ConnectedInv(s) && CountInv(s) && GraceInv(s)
  }

  /** Where ensureConnected() takes and gives back the mutex. */
  lemma ConnectAndMutex<E>(s: State<E>)
    requires s.next.NConnect? && s.next.c != CConnecting
    ensures var s' := ConnectAdvanced(s);
      && s'.stoppers == s.stoppers
      && s'.holder == (if s.next.c.CLock? then ByNext
                       else if s.next.c.CMark? || (s.next.c.CCheck? && s.stop) then Nobody else s.holder)
      && (NextHolds(s'.next) <==> s.next.c.CLock? || s.next.c.CStore? || (s.next.c.CCheck? && !s.stop))
  {}

  lemma MutexConnect<E>(s: State<E>)
    requires MutexInv(s) && s.next.NConnect? && s.next.c != CConnecting && (s.next.c.CLock? ==> s.holder.Nobody?)
    ensures MutexInv(ConnectAdvanced(s))
  {
    ConnectAndMutex(s);
  }

  lemma MutexRead<E>(s: State<E>)
    requires MutexInv(s) && s.next.NRead? && s.next.r != RReading && (s.next.r.RLock? ==> s.holder.Nobody?)
    ensures MutexInv(ReadAdvanced(s))
  {}

  lemma MutexStopper<E>(s: State<E>, step: Step<E>)
    requires MutexInv(s) && Enabled(s, step) && (step.StopBegin? || step.StopAcquire? || step.StopClose?)
    ensures MutexInv(Apply(s, step))
  {}

  /** The other steps of next() are made without the mutex. */
  lemma MutexAdvance<E>(s: State<E>)
    requires MutexInv(s) && Enabled(s, Advance)
    ensures MutexInv(Advanced(s))
  {
    if s.next.NConnect? {
      MutexConnect(s);
    } else if s.next.NRead? {
      MutexRead(s);
    } else {
      assert Advanced(s).stoppers == s.stoppers && Advanced(s).holder == s.holder;
    }
  }

  lemma MutexStep<E>(s: State<E>, step: Step<E>)
    requires MutexInv(s) && Enabled(s, step)
    ensures MutexInv(Apply(s, step))
  {
    match step {
      case Advance => MutexAdvance(s);
      case StopBegin(_) => MutexStopper(s, step);
      case StopAcquire(_) => MutexStopper(s, step);
      case StopClose(_) => MutexStopper(s, step);
      case _ => assert Apply(s, step).stoppers == s.stoppers && Apply(s, step).holder == s.holder;
    }
  }

  lemma ClosedConnect<E>(s: State<E>)
    requires s.next.NConnect? && s.next.c != CConnecting
    ensures var s' := ConnectAdvanced(s);
      && s'.stop == s.stop && s'.stoppers == s.stoppers
      && (s.stop && s.ws != Open && !s.next.c.CStore? ==> s'.ws != Open && !AtConnect(s'.next, CStore))
  {}

  lemma ClosedRead<E>(s: State<E>)
    requires s.next.NRead? && s.next.r != RReading
    ensures var s' := ReadAdvanced(s);
      s'.stop == s.stop && s'.stoppers == s.stoppers && s'.ws == s.ws && !AtConnect(s'.next, CStore)
  {}

  lemma ClosedStep<E>(s: State<E>, step: Step<E>)
    requires MutexInv(s) && ClosedInv(s) && Enabled(s, step)
    ensures ClosedInv(Apply(s, step))
  {
    var s' := Apply(s, step);
    match step {
      case Advance => ClosedAdvance(s);
      case StopBegin(t) => assert s'.stoppers[t].SLock?;
      case StopAcquire(t) => assert s'.stoppers[t].SClose?;
      case StopClose(t) => assert !NextHolds(s.next);
      case _ => assert s'.stoppers == s.stoppers;
    }
  }

  lemma ClosedAdvance<E>(s: State<E>)
    requires MutexInv(s) && ClosedInv(s) && Enabled(s, Advance)
    ensures ClosedInv(Advanced(s))
  {
    if s.next.NConnect? {
      ClosedConnect(s);
    } else if s.next.NRead? {
      ClosedRead(s);
    } else {
      assert Advanced(s).stoppers == s.stoppers;
    }
  }

  lemma ConnectedConnect<E>(s: State<E>)
    requires ConnectedInv(s) && s.next.NConnect? && s.next.c != CConnecting
    ensures ConnectedInv(ConnectAdvanced(s))
  {}

  lemma ConnectedRead<E>(s: State<E>)
    requires ConnectedInv(s) && s.next.NRead? && s.next.r != RReading
    ensures ConnectedInv(ReadAdvanced(s))
  {}

  lemma ConnectedStep<E>(s: State<E>, step: Step<E>)
    requires ConnectedInv(s) && Enabled(s, step)
    ensures ConnectedInv(Apply(s, step))
  {
    if step.Advance? { if s.next.NConnect? { ConnectedConnect(s); } else if s.next.NRead? { ConnectedRead(s); } }
  }

  lemma CountConnect<E>(s: State<E>)
    requires CountInv(s) && s.next.NConnect? && s.next.c != CConnecting
    ensures CountInv(ConnectAdvanced(s))
  {}

  lemma CountRead<E>(s: State<E>)
    requires CountInv(s) && s.next.NRead? && s.next.r != RReading
    ensures CountInv(ReadAdvanced(s))
  {}

  lemma CountStep<E>(s: State<E>, step: Step<E>)
    requires CountInv(s) && Enabled(s, step)
    ensures CountInv(Apply(s, step))
  {
    if step.Advance? { if s.next.NConnect? { CountConnect(s); } else if s.next.NRead? { CountRead(s); } }
  }

  lemma GraceStep<E>(s: State<E>, step: Step<E>)
    requires GraceInv(s) && Enabled(s, step)
    ensures GraceInv(Apply(s, step))
  {}

  lemma InvStep<E>(s: State<E>, step: Step<E>)
    requires Inv(s) && Enabled(s, step)
    ensures Inv(Apply(s, step))
  {
    MutexStep(s, step);
    ClosedStep(s, step);
    ConnectedStep(s, step);
    CountStep(s, step);
    GraceStep(s, step);
  }

  lemma {:induction false} InvRun<E>(s: State<E>, steps: seq<Step<E>>)
    requires Inv(s) && RunOk(s, steps)
    ensures Inv(Run(s, steps))
    decreases |steps|
  {
    if steps != [] {
      InvStep(s, steps[0]);
      InvRun(Apply(s, steps[0]), steps[1..]);
    }
  }

  // ---- the race between stop() and connecting ----

  /** Stopped, and nothing left that a read could wait on. */
  predicate Sealed<E>(s: State<E>) { s.stop && s.ws != Open && !AtConnect(s.next, CStore) }

  lemma SealedStep<E>(s: State<E>, step: Step<E>)
    requires Sealed(s) && Enabled(s, step) && !step.Start?
    ensures Sealed(Apply(s, step))
  {
    if step.Advance? { if s.next.NConnect? { ClosedConnect(s); } else if s.next.NRead? { ClosedRead(s); } }
  }

  lemma {:induction false} SealedRun<E>(s: State<E>, more: seq<Step<E>>)
    requires Sealed(s) && RunOk(s, more)
    requires forall i :: 0 <= i < |more| ==> !more[i].Start?
    ensures Sealed(Run(s, more))
    decreases |more|
  {
    if more != [] {
      SealedStep(s, more[0]);
      SealedRun(Apply(s, more[0]), more[1..]);
    }
  }

  /**
    Once stop() has completed and start() has not been called since, no open connection is
    stored or about to be stored, so next() is not waiting in a read that nobody will end;
    and that stays so until start(), whatever connecting comes to.
  */
  lemma StopLeavesNothingOpen<E>(stoppers: set<Tid>, steps: seq<Step<E>>, more: seq<Step<E>>)
    requires RunOk(Init<E>(stoppers), steps)
    requires var s := Run(Init<E>(stoppers), steps); s.stop && !StopPending(s) && RunOk(s, more)
    requires forall i :: 0 <= i < |more| ==> !more[i].Start?
    ensures var s := Run(Run(Init<E>(stoppers), steps), more);
      && s.ws != Open && !AtConnect(s.next, CStore)
      && (AtRead(s.next, RReading) ==> s.ws == Closed)
  {
    var s := Run(Init<E>(stoppers), steps);
    InvRun(Init<E>(stoppers), steps);
    InvRun(s, more);
    SealedRun(s, more);
  }

  lemma CloseSeals<E>(s: State<E>, t: Tid)
    requires MutexInv(s) && s.stop && Enabled(s, StopClose(t))
    ensures Sealed(Apply(s, StopClose(t)))
  {
    assert !NextHolds(s.next);
  }

  /**
    The same from the moment one stop() completes, even while other calls of it are pending:
    what it found stored is closed, and nothing open is stored from then on until start().
  */
  lemma EachStopLeavesNothingOpen<E>(stoppers: set<Tid>, steps: seq<Step<E>>, t: Tid, more: seq<Step<E>>)
    requires RunOk(Init<E>(stoppers), steps)
    requires var s := Run(Init<E>(stoppers), steps);
      s.stop && Enabled(s, StopClose(t)) && RunOk(Apply(s, StopClose(t)), more)
    requires forall i :: 0 <= i < |more| ==> !more[i].Start?
    ensures var s := Run(Apply(Run(Init<E>(stoppers), steps), StopClose(t)), more);
      && s.ws != Open && !AtConnect(s.next, CStore)
      && (AtRead(s.next, RReading) ==> s.ws == Closed)
  {
    var s := Run(Init<E>(stoppers), steps);
    InvRun(Init<E>(stoppers), steps);
    CloseSeals(s, t);
    InvStep(s, StopClose(t));
    InvRun(Apply(s, StopClose(t)), more);
    SealedRun(Apply(s, StopClose(t)), more);
  }

  // ---- transparent reconnection ----

  /**
    Over every run: `connected_` means a connection is stored, so the test for a missing one
    in next() never succeeds; between calls every message was either malformed or returned;
    and every successful connect but the first is counted as a reconnect.
  */
  lemma ReconnectionIsTransparent<E>(stoppers: set<Tid>, steps: seq<Step<E>>)
    requires RunOk(Init<E>(stoppers), steps)
    ensures var s := Run(Init<E>(stoppers), steps);
      && (s.connected ==> !s.ws.Missing?)
      && (AtRead(s.next, RView) ==> !s.ws.Missing?)
      && (s.next.NIdle? ==> s.received == s.malformed + s.returned)
      && (!AtConnect(s.next, CDone) ==> s.reconnects == if s.connects > 0 then s.connects - 1 else 0)
  {
    InvRun(Init<E>(stoppers), steps);
  }

  /** next() only turns to returning false at a moment at which the stop flag is set. */
  lemma FalseOnlyWhenStopped<E>(s: State<E>, step: Step<E>)
    requires Enabled(s, step)
    requires s.next != NDone(None) && Apply(s, step).next == NDone(None)
    ensures s.stop
  {}

  lemma {:induction false} NeverStoppedRun<E>(s: State<E>, steps: seq<Step<E>>)
    requires RunOk(s, steps) && !s.stop && s.next != NDone(None)
    requires forall i :: 0 <= i < |steps| ==> !steps[i].StopBegin?
    ensures Run(s, steps).next != NDone(None)
    decreases |steps|
  {
    if steps != [] { NeverStoppedRun(Apply(s, steps[0]), steps[1..]); }
  }

  /** No disconnect, however often and however it comes about, makes next() return false. */
  lemma DisconnectsNeverEndNext<E>(stoppers: set<Tid>, steps: seq<Step<E>>)
    requires RunOk(Init<E>(stoppers), steps)
    requires forall i :: 0 <= i < |steps| ==> !steps[i].StopBegin?
    ensures Run(Init<E>(stoppers), steps).next != NDone(None)
  {
    NeverStoppedRun(Init<E>(stoppers), steps);
  }

  // ---- next() returns after stop() ----

  /** How many steps next() can still take while the stop flag stays set. */
  function Rank<E>(n: Next<E>): nat {
    match n
    case NIdle => 0
    case NDone(_) => 1
    case NTop => 2
    case NParsed(_) => 3
    case NMessage(_) => 4
    case NRead(r) => ReadRank(r)
    case NConnect(c) => ConnectRank(c)
  }

  function ReadRank(r: ReadPc): nat {
    match r
    case RCheck => 3
    case RFailed => 4
    case RReading => 5
    case RView => 6
    case RLock => 7
  }

  function ConnectRank(c: ConnectPc): nat {
    match c
    case CRetry => 2
    case CRefused => 2
    case CSleeping => 3
    case CFailed => 3
    case CEnsure => 8
    case CDone => 8
    case CMark => 9
    case CStore => 10
    case CCheck => 11
    case CLock => 12
    case CConnecting => 13
  }

  predicate OfNext<E>(step: Step<E>) {
    step.Advance? || step.ConnectSucceeds? || step.ConnectFails? || step.ReadFails? || step.ReadMessage?
  }

  function NextSteps<E>(steps: seq<Step<E>>): nat {
    if steps == [] then 0 else (if OfNext(steps[0]) then 1 else 0) + NextSteps(steps[1..])
  }

  lemma RankAdvance<E>(s: State<E>)
    requires s.stop && Enabled(s, Advance)
    ensures Advanced(s).stop && Rank(Advanced(s).next) < Rank(s.next)
  {
    if s.next.NConnect? { RankConnect(s); } else if s.next.NRead? { RankRead(s); }
  }

  lemma RankConnect<E>(s: State<E>)
    requires s.stop && s.next.NConnect? && s.next.c != CConnecting
    ensures ConnectAdvanced(s).stop && Rank(ConnectAdvanced(s).next) < Rank(s.next)
  {}

  lemma RankRead<E>(s: State<E>)
    requires s.stop && s.next.NRead? && s.next.r != RReading
    ensures ReadAdvanced(s).stop && Rank(ReadAdvanced(s).next) < Rank(s.next)
  {}

  lemma RankStep<E>(s: State<E>, step: Step<E>)
    requires s.stop && Enabled(s, step) && !step.Call? && !step.Start?
    ensures Apply(s, step).stop
    ensures Rank(Apply(s, step).next) + (if OfNext(step) then 1 else 0) <= Rank(s.next)
  {
    if step.Advance? { RankAdvance(s); } else { assert step.StopBegin? ==> Apply(s, step).next == s.next; }
  }

  /** Once the flag is set, the call of next() in progress takes at most 13 more steps. */
  lemma {:induction false} NextEndsSoon<E>(s: State<E>, steps: seq<Step<E>>)
    requires s.stop && RunOk(s, steps)
    requires forall i :: 0 <= i < |steps| ==> !steps[i].Call? && !steps[i].Start?
    ensures Rank(Run(s, steps).next) + NextSteps(steps) <= Rank(s.next) <= 13
    decreases |steps|
  {
    if steps != [] {
      RankStep(s, steps[0]);
      NextEndsSoon(Apply(s, steps[0]), steps[1..]);
    }
  }

  /**
    Steps that wait for nothing outside the process: not the end of a connection attempt, and
    not the outcome of a read on an open connection.
  */
  predicate Certain<E>(s: State<E>, step: Step<E>) {
    && (step.Advance? || step.ReadFails? || step.ReadMessage? || step.StopAcquire? || step.StopClose?)
    && (step.ReadMessage? || step.ReadFails? ==> s.ws != Open)
  }

  ghost predicate CanGoOn<E(!new)>(s: State<E>) { exists step: Step<E> :: Enabled(s, step) && Certain(s, step) }

  /**
    Once the flag is set, and until next() has returned and every stop() has completed, some
    thread can take a step that waits for nothing outside if and only if next() is not in the
    middle of a connection attempt or some stop() is still at work.  An attempt runs on a
    connection that is not stored yet, so it is the one place where stop() cannot reach
    next(); stop() itself never waits for it.
  */
  lemma StopAndNextNeverStuck<E(!new)>(stoppers: set<Tid>, steps: seq<Step<E>>)
    requires RunOk(Init<E>(stoppers), steps)
    requires var s := Run(Init<E>(stoppers), steps); s.stop && (!s.next.NIdle? || StopPending(s))
    ensures var s := Run(Init<E>(stoppers), steps);
      CanGoOn(s) <==> !AtConnect(s.next, CConnecting) || StopPending(s)
  {
    InvRun(Init<E>(stoppers), steps);
    var s := Run(Init<E>(stoppers), steps);
    if !AtConnect(s.next, CConnecting) || StopPending(s) {
      var step := Unblocked(s);
    } else {
      OnlyTheAttempt(s);
    }
  }

  lemma OnlyTheAttempt<E(!new)>(s: State<E>)
    requires AtConnect(s.next, CConnecting) && !StopPending(s)
    ensures !CanGoOn(s)
  {
    assert forall t :: t in s.stoppers ==> s.stoppers[t].SIdle?;
    forall step: Step<E> | Enabled(s, step) ensures !Certain(s, step) {}
  }

  lemma Unblocked<E>(s: State<E>) returns (step: Step<E>)
    requires Inv(s) && s.stop && (!s.next.NIdle? || StopPending(s))
    requires !AtConnect(s.next, CConnecting) || StopPending(s)
    ensures Enabled(s, step) && Certain(s, step)
  {
    if !s.holder.Nobody? {
      step := if s.holder.ByNext? then Advance else StopClose(s.holder.t);
    } else if StopPending(s) {
      var t :| t in s.stoppers && !s.stoppers[t].SIdle?;
      step := StopAcquire(t);
    } else if AtRead(s.next, RReading) {
      step := ReadFails;
    } else {
      step := Advance;
    }
  }
}

/** The live source is one of the sources the pipeline is built for. */
module LiveContract {
  import opened Options
  import opened LiveMachine
  import opened LiveTheorems
  import S = SourceContract

  function Seen<E>(s: State<E>): S.Source { S.Source(S.Endless, s.stop, InNext(s.next), s.grace) }

  /**
    Every step, start() apart, is one the contract allows: a call, a stop, the delivery of
    the event returned, the end of next(), or nothing the pipeline can see.
  */
  lemma LiveKeepsContract<E>(s: State<E>, step: Step<E>)
    requires Inv(s) && Enabled(s, step) && !step.Start?
    ensures var src, src', n' := Seen(s), Seen(Apply(s, step)), Apply(s, step).next;
      if step.Call? then src' == S.Call(src)
      else if step.StopBegin? then src' == S.Stop(src)
      else if InNext(s.next) && n'.NDone? then
        (if n'.result.Some? then S.CanDeliver(src) && src' == S.Delivered(src)
         else S.CanEnd(src) && src' == S.Ended(src))
      else src' == src
  {
    if step.Advance? && s.next.NConnect? { ConnectVisible(s); }
    if step.Advance? && s.next.NRead? { ReadVisible(s); }
  }

  lemma ConnectVisible<E>(s: State<E>)
    requires s.next.NConnect? && s.next.c != CConnecting
    ensures var s' := ConnectAdvanced(s);
      s'.stop == s.stop && s'.grace == s.grace && (s'.next.NDone? ==> s.stop && s'.next == NDone(None)) && !s'.next.NIdle?
  {}

  lemma ReadVisible<E>(s: State<E>)
    requires s.next.NRead? && s.next.r != RReading
    ensures var s' := ReadAdvanced(s);
      s'.stop == s.stop && s'.grace == s.grace && (s'.next.NDone? ==> s.stop && s'.next == NDone(None)) && !s'.next.NIdle?
  {}

  /** Calls of next() that can still return an event while the stop flag stays set. */
  function StillReturned<E>(s: State<E>): nat {
    (if InNext(s.next) && s.grace then 1 else 0) + (if s.next.NDone? && s.next.result.Some? then 1 else 0)
  }

  lemma StillReturnedStep<E>(s: State<E>, step: Step<E>)
    requires Inv(s) && s.stop && Enabled(s, step) && !step.Start?
    ensures Apply(s, step).stop
    ensures Apply(s, step).returned + StillReturned(Apply(s, step)) <= s.returned + StillReturned(s)
  {
    LiveKeepsContract(s, step);
    if step.Advance? && s.next.NConnect? { ConnectVisible(s); }
    if step.Advance? && s.next.NRead? { ReadVisible(s); }
  }

  lemma {:induction false} OverrunRun<E>(s: State<E>, steps: seq<Step<E>>)
    requires Inv(s) && s.stop && RunOk(s, steps)
    requires forall i :: 0 <= i < |steps| ==> !steps[i].Start?
    ensures Run(s, steps).returned + StillReturned(Run(s, steps)) <= s.returned + StillReturned(s) <= s.returned + 1
    decreases |steps|
  {
    if steps != [] {
      InvStep(s, steps[0]);
      StillReturnedStep(s, steps[0]);
      OverrunRun(Apply(s, steps[0]), steps[1..]);
    }
  }

  /** After stop(), and until start(), the live source returns at most one more event. */
  lemma LiveOverrun<E>(stoppers: set<Tid>, steps: seq<Step<E>>, more: seq<Step<E>>)
    requires RunOk(Init<E>(stoppers), steps)
    requires var s := Run(Init<E>(stoppers), steps); s.stop && RunOk(s, more)
    requires forall i :: 0 <= i < |more| ==> !more[i].Start?
    ensures var s := Run(Init<E>(stoppers), steps); Run(s, more).returned <= s.returned + 1
  {
    InvRun(Init<E>(stoppers), steps);
    OverrunRun(Run(Init<E>(stoppers), steps), more);
  }
}
