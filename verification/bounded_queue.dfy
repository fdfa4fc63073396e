/**
  The bounded blocking queue (include/tickforge/bounded_queue.hpp).

  A `Core` is what the mutex guards.  Each of the three critical sections is given as a
  function on it; `BoundedQueue` is the mutable object, and its methods are the code that
  runs while the mutex is held, including the test of the wait predicate.  Blocking itself
  (parking, waking, signalling) belongs to module QueueMonitor.
*/
module BoundedQueues {
  datatype Core<T> = Core(capacity: nat, items: seq<T>, highWater: nat, shut: bool)

  // The predicates handed to condition_variable::wait.
  predicate MayPush<T>(c: Core<T>) { |c.items| < c.capacity || c.shut }
  predicate MayPop<T>(c: Core<T>) { c.items != [] || c.shut }

  datatype PushResult = PushBlocks | PushRefused | PushAccepted
  datatype PopResult<T> = PopBlocks | PopDrained | PopTook(item: T)

  function PushOutcome<T>(c: Core<T>): PushResult {
    if !MayPush(c) then PushBlocks else if c.shut then PushRefused else PushAccepted
  }

  function AfterPush<T>(c: Core<T>, item: T): Core<T> {
    if PushOutcome(c).PushAccepted? then
      var items := c.items + [item];
      c.(items := items, highWater := if |items| > c.highWater then |items| else c.highWater)
    else c
  }

  function PopOutcome<T>(c: Core<T>): PopResult<T> {
    if !MayPop(c) then PopBlocks else if c.items == [] then PopDrained else PopTook(c.items[0])
  }

  function AfterPop<T>(c: Core<T>): Core<T> {
    if PopOutcome(c).PopTook? then c.(items := c.items[1..]) else c
  }

  function AfterShutdown<T>(c: Core<T>): Core<T> { c.(shut := true) }

  class BoundedQueue<T> {
    const capacity: nat
    var items: seq<T>
    var highWaterMark: nat
    var shut: bool
    ghost var accepted: seq<T>   // every item a push let in, in lock order
    ghost var delivered: seq<T>  // every item a pop handed out, in lock order

    ghost predicate Valid()
      reads this
    {
      && delivered + items == accepted
      && |items| <= highWaterMark <= capacity
    }

    function Snapshot(): Core<T>
      reads this
    {
      Core(capacity, items, highWaterMark, shut)
    }

    constructor (capacity: nat)
      ensures Valid() && Snapshot() == Core(capacity, [], 0, false)
      ensures accepted == [] && delivered == []
    {
      this.capacity := capacity;
      items, highWaterMark, shut := [], 0, false;
      accepted, delivered := [], [];
    }

    /** push() from the moment mutex_ is held until it is released. */
    method Push(item: T) returns (r: PushResult)
      requires Valid()
      modifies this
      ensures Valid()
      ensures r == PushOutcome(old(Snapshot())) && Snapshot() == AfterPush(old(Snapshot()), item)
      ensures r.PushAccepted? <==> !old(shut) && |old(items)| < capacity
      ensures accepted == old(accepted) + (if r.PushAccepted? then [item] else [])
      ensures delivered == old(delivered)
    {
      if !(|items| < capacity || shut) {
        return PushBlocks;
      }
      if shut {
        return PushRefused;
      }
      items := items + [item];
      accepted := accepted + [item];
      if |items| > highWaterMark {
        highWaterMark := |items|;
      }
      return PushAccepted;
    }

    /** pop() from the moment mutex_ is held until it is released. */
    method Pop() returns (r: PopResult<T>)
      requires Valid()
      modifies this
      ensures Valid()
      ensures r == PopOutcome(old(Snapshot())) && Snapshot() == AfterPop(old(Snapshot()))
      ensures r.PopTook? <==> old(items) != []
      ensures r.PopDrained? ==> shut && delivered == accepted
      ensures delivered == old(delivered) + (if r.PopTook? then [r.item] else [])
      ensures accepted == old(accepted)
    {
      if !(items != [] || shut) {
        return PopBlocks;
      }
      if items == [] {
        return PopDrained;
      }
      r := PopTook(items[0]);
      delivered := delivered + [items[0]];
      items := items[1..];
    }

    method Shutdown()
      requires Valid()
      modifies this`shut
      ensures Valid() && Snapshot() == AfterShutdown(old(Snapshot()))
    {
      shut := true;
    }
  }
}
