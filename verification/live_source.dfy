/** The waiting times between connection attempts (src/live_source.cpp:101-118). */
module Backoff {
  import opened Basics

  const DEFAULT_INITIAL: nat := 1000  // milliseconds
  const DEFAULT_MAX: nat := 30000

  function Pow2(k: nat): nat { if k == 0 then 1 else 2 * Pow2(k - 1) }

  /** The wait after the k-th failure of one outage, counted from 0. */
  function Delay(initial: nat, max: nat, k: nat): nat {
    if k == 0 then initial else Min(initial * Pow2(k), max)
  }

  function Delays(initial: nat, max: nat, n: nat): seq<nat> {
    seq(n, k requires 0 <= k < n => Delay(initial, max, k))
  }

  /** Doubling with a ceiling, as the loop does it, gives the closed form. */
  lemma NextDelay(initial: nat, max: nat, k: nat)
    ensures Min(Delay(initial, max, k) * 2, max) == Delay(initial, max, k + 1)
  {
    assert initial * Pow2(k + 1) == initial * Pow2(k) * 2;
    if k == 0 { assert initial * Pow2(1) == initial * 2; }
  }

  /** The time slept between the i-th and the j-th attempt of one outage. */
  function Slept(initial: nat, max: nat, i: nat, j: nat): nat
    requires i <= j
    decreases j
  {
    if i == j then 0 else Slept(initial, max, i, j - 1) + Delay(initial, max, j - 1)
  }

  lemma Pow2Large(k: nat)
    requires k >= 5
    ensures Pow2(k) >= 32
  {
    if k > 5 { Pow2Large(k - 1); } else { assert Pow2(5) == 2 * Pow2(4) && Pow2(4) == 16 by { assert Pow2(3) == 8; } }
  }

  lemma DefaultDelay(k: nat)
    ensures Delay(DEFAULT_INITIAL, DEFAULT_MAX, k)
         == (if k == 0 then 1000 else if k == 1 then 2000 else if k == 2 then 4000
             else if k == 3 then 8000 else if k == 4 then 16000 else 30000)
  {
    if k >= 5 {
      Pow2Large(k);
    } else {
      assert Pow2(1) == 2 && Pow2(2) == 4 && Pow2(3) == 8;
      assert Pow2(4) == 2 * Pow2(3);
    }
  }

  /** With the defaults, n >= 5 failures of one outage sleep this long in all. */
  lemma {:induction false} DefaultTotal(n: nat)
    requires n >= 5
    ensures Slept(DEFAULT_INITIAL, DEFAULT_MAX, 0, n) == 31000 + 30000 * (n - 5)
    decreases n
  {
    DefaultDelay(n - 1);
    if n > 5 {
      DefaultTotal(n - 1);
    } else {
      DefaultDelay(0); DefaultDelay(1); DefaultDelay(2); DefaultDelay(3);
      assert Slept(DEFAULT_INITIAL, DEFAULT_MAX, 0, 3) == 7000;
    }
  }

  /** A stretch that begins later in the outage is at least as long. */
  lemma {:induction false} SleptAtLeast(i: nat, j: nat)
    requires i <= j
    ensures Slept(DEFAULT_INITIAL, DEFAULT_MAX, i, j) >= Slept(DEFAULT_INITIAL, DEFAULT_MAX, 0, j - i)
    decreases j
  {
    if i < j {
      SleptAtLeast(i, j - 1);
      DefaultDelay(j - 1);
      DefaultDelay(j - i - 1);
    }
  }

  /**
    At most 14 attempts of one outage begin within any 5 minutes, so the provider's limit of
    300 is out of reach.  `start[k]` is when attempt k begins, in milliseconds; attempts are
    at least the slept time apart.
  */
  lemma AttemptsInFiveMinutes(start: seq<int>, i: nat, j: nat)
    requires i <= j < |start|
    requires forall k :: 0 <= k < |start| - 1 ==> start[k] + Delay(DEFAULT_INITIAL, DEFAULT_MAX, k) <= start[k + 1]
    requires start[j] - start[i] <= 300000
    ensures j - i + 1 <= 14
  {
    Apart(start, i, j);
    SleptAtLeast(i, j);
    if j - i >= 14 { DefaultTotal(j - i); }
  }

  lemma {:induction false} Apart(start: seq<int>, i: nat, j: nat)
    requires i <= j < |start|
    requires forall k :: 0 <= k < |start| - 1 ==> start[k] + Delay(DEFAULT_INITIAL, DEFAULT_MAX, k) <= start[k + 1]
    ensures start[i] + Slept(DEFAULT_INITIAL, DEFAULT_MAX, i, j) <= start[j]
    decreases j
  {
    if i < j {
      Apart(start, i, j - 1);
      assert start[j - 1] + Delay(DEFAULT_INITIAL, DEFAULT_MAX, j - 1) <= start[j - 1 + 1];
    }
  }
}

/**
  The live source as its next() caller runs it.  `World` answers what the thread cannot know
  in advance: the flag as set by other threads, and the outcomes of connecting and reading.
  Module LiveMachine treats the interleaving with stop().
*/
module LiveSources {
  import opened Basics
  import opened Options
  import opened Backoff
  import opened SkipAndCount

  datatype Read<E> = Failed | Message(parsed: Option<E>)

  function ClassifyRead<E>(r: Read<E>): Verdict<E> {
    match r
    case Failed => Ignored
    case Message(None) => Malformed
    case Message(Some(e)) => SkipAndCount.Good(e)
  }

  class World<E> {
    var flags: seq<bool>      // the stop flag each time it is read; set once these run out
    var connects: seq<bool>
    var arrivals: seq<Read<E>>
    ghost var seen: seq<Read<E>>  // the outcomes handed out so far
    ghost var lastFlag: bool

    method StopRequested() returns (b: bool)
      modifies this`flags, this`lastFlag
      ensures b == lastFlag && (!b ==> |flags| < |old(flags)|) && |flags| <= |old(flags)|
    {
      if flags == [] {
        b := true;
      } else {
        b, flags := flags[0], flags[1..];
      }
      lastFlag := b;
    }

    method Connect() returns (ok: bool)
      modifies this`connects
    {
      if connects == [] { return false; }
      ok, connects := connects[0], connects[1..];
    }

    method Read() returns (r: Read<E>)
      modifies this`arrivals, this`seen
      ensures seen == old(seen) + [r]
    {
      if arrivals == [] {
        r := Failed;
      } else {
        r, arrivals := arrivals[0], arrivals[1..];
      }
      seen := seen + [r];
    }
  }

  class LiveSource<E> {
    const initialBackoff: nat
    const maxBackoff: nat
    const world: World<E>
    var stored: bool          // ws_.has_value()
    var connected: bool
    var hadConnectedOnce: bool
    var messagesReceived: nat
    var messagesMalformed: nat
    var reconnects: nat
    ghost var connects: nat   // successful connects
    ghost var returned: nat   // events returned

    ghost predicate Valid()
      reads this
    {
      && (hadConnectedOnce <==> connects > 0)
      && reconnects == (if connects > 0 then connects - 1 else 0)
    }

    /** The counters say what has been read. */
    ghost predicate Counted()
      reads this, world
    {
      && messagesMalformed == MalformedCount(ClassifyRead, world.seen)
      && returned == |Delivered(ClassifyRead, world.seen)|
      && messagesReceived == messagesMalformed + returned
    }

    constructor (initialBackoff: nat, maxBackoff: nat, world: World<E>)
      requires world.seen == []
      ensures Valid() && Counted() && connects == 0 && returned == 0 && this.world == world
    {
      this.initialBackoff, this.maxBackoff, this.world := initialBackoff, maxBackoff, world;
      stored, connected, hadConnectedOnce := false, false, false;
      messagesReceived, messagesMalformed, reconnects := 0, 0, 0;
      connects, returned := 0, 0;
    }

    /** connectOnce(): a connection made while stop() ran is thrown away. */
    method ConnectOnce() returns (ok: bool)
      modifies this`stored, this`connected, world`flags, world`lastFlag, world`connects
      ensures ok ==> stored && connected && !world.lastFlag
      ensures !ok ==> stored == old(stored)
      ensures |world.flags| <= |old(world.flags)|
    {
      var reached := world.Connect();
      if !reached {
        connected := false;
        return false;
      }
      var stop := world.StopRequested();
      if stop { return false; }
      stored := true;
      connected := true;
      return true;
    }

    /**
      ensureConnected(), with the waits it makes.  It gives up only when the flag is set, and
      waits along the backoff schedule of this outage, starting afresh with each outage.
    */
    method EnsureConnected() returns (ok: bool, waits: seq<nat>)
      requires Valid()
      modifies this`stored, this`connected, this`hadConnectedOnce, this`reconnects, this`connects
      modifies world`flags, world`lastFlag, world`connects
      ensures Valid()
      ensures ok ==> connected
      ensures !ok ==> world.lastFlag
      ensures connects == old(connects) + (if ok && !old(connected) then 1 else 0)
      ensures waits == Delays(initialBackoff, maxBackoff, |waits|)
      ensures old(connected) ==> ok && waits == []
      ensures |world.flags| <= |old(world.flags)|
    {
      waits := [];
      if connected { return true, []; }
      var backoff := initialBackoff;
      var stop := world.StopRequested();
      while !stop
        invariant Valid() && connects == old(connects)
        invariant stop == world.lastFlag
        invariant waits == Delays(initialBackoff, maxBackoff, |waits|)
        invariant backoff == Delay(initialBackoff, maxBackoff, |waits|)
        invariant |world.flags| <= |old(world.flags)|
        decreases !stop, |world.flags|
      {
        var reached := ConnectOnce();
        if reached {
          if hadConnectedOnce { reconnects := reconnects + 1; }
          hadConnectedOnce := true;
          connects := connects + 1;
          return true, waits;
        }
        stop := world.StopRequested();
        if stop { return false, waits; }
        NextDelay(initialBackoff, maxBackoff, |waits|);
        waits := waits + [backoff];
        backoff := Min(backoff * 2, maxBackoff);
        stop := world.StopRequested();
      }
      return false, waits;
    }

    /** One read; a message is counted, a good one as returned. */
    method ReadOne() returns (r: Read<E>)
      requires Counted()
      modifies this`connected, this`messagesReceived, this`messagesMalformed, this`returned
      modifies world`arrivals, world`seen
      ensures Counted()
      ensures Delivered(ClassifyRead, world.seen) == Delivered(ClassifyRead, old(world.seen)) + Event(ClassifyRead(r))
    {
      ghost var before := world.seen;
      r := world.Read();
      Snoc(ClassifyRead, before, r);
      if r.Failed? {
        connected := false;
      } else {
        messagesReceived := messagesReceived + 1;
        if r.parsed.None? { messagesMalformed := messagesMalformed + 1; } else { returned := returned + 1; }
      }
    }

    /** One turn of the loop of next(): a good message ends it, and so does a stop seen on the way. */
    method Turn() returns (event: Option<E>, ended: bool)
      requires Valid() && Counted()
      modifies this, world
      ensures Valid() && Counted()
      ensures ended ==> event.None? && world.lastFlag
      ensures Delivered(ClassifyRead, world.seen)
           == Delivered(ClassifyRead, old(world.seen)) + (if event.Some? then [event.value] else [])
      ensures |world.flags| <= |old(world.flags)|
    {
      var ok, _ := EnsureConnected();
      if !ok { return None, true; }
      if !stored {
        connected := false;
        return None, false;
      }
      var r := ReadOne();
      if r.Failed? {
        ended := world.StopRequested();
        return None, ended;
      }
      return r.parsed, false;
    }

    /**
      next(): ends only when the flag is set; of the messages it reads it returns the first
      good one; each message is counted, and as malformed exactly if it was not returned.
    */
    method Next() returns (event: Option<E>)
      requires Valid() && Counted()
      modifies this, world
      ensures Valid() && Counted()
      ensures event.None? ==> world.lastFlag
      ensures Delivered(ClassifyRead, world.seen)
           == Delivered(ClassifyRead, old(world.seen)) + (if event.Some? then [event.value] else [])
    {
      var stop := world.StopRequested();
      while !stop
        invariant Valid() && Counted() && stop == world.lastFlag
        invariant Delivered(ClassifyRead, world.seen) == Delivered(ClassifyRead, old(world.seen))
        decreases !stop, |world.flags|
      {
        var found, ended := Turn();
        if found.Some? || ended { return found; }
        stop := world.StopRequested();
      }
      return None;
    }
  }
}
