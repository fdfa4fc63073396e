/**
  Messages that are kept in partitions by key.  Assumed of the broker: a message that was
  accepted is appended once, in the order of acceptance, to the partition its key belongs
  to, and a consumer reads each partition from its start.
*/
module PartitionedLog {
  import opened Basics

  /** The messages with key k, in order. */
  function WithKey<M>(key: M -> string, k: string, ms: seq<M>): seq<M> {
    if ms == [] then []
    else WithKey(key, k, ms[..|ms| - 1]) + (if key(ms[|ms| - 1]) == k then [ms[|ms| - 1]] else [])
  }

  /** The log of partition p. */
  function InPartition<M>(key: M -> string, part: string -> nat, p: nat, ms: seq<M>): seq<M> {
    if ms == [] then []
    else
      InPartition(key, part, p, ms[..|ms| - 1])
      + (if part(key(ms[|ms| - 1])) == p then [ms[|ms| - 1]] else [])
  }

  /** How often partition p has been polled. */
  function Polled(p: nat, order: seq<nat>): nat {
    if order == [] then 0 else Polled(p, order[..|order| - 1]) + (if order[|order| - 1] == p then 1 else 0)
  }

  /** The n-th message of a log, if there is one yet. */
  function At<M>(log: seq<M>, n: nat): seq<M> { if n < |log| then [log[n]] else [] }

  /** What a consumer gets that polls the partitions in the given order. */
  function Consumed<M>(key: M -> string, part: string -> nat, ms: seq<M>, order: seq<nat>): seq<M> {
    if order == [] then []
    else
      var front, p := order[..|order| - 1], order[|order| - 1];
      Consumed(key, part, ms, front) + At(InPartition(key, part, p, ms), Polled(p, front))
  }

  /** All messages with one key are in one partition, in their order. */
  lemma {:induction false} KeyInOnePartition<M>(key: M -> string, part: string -> nat, k: string, p: nat, ms: seq<M>)
    ensures WithKey(key, k, InPartition(key, part, p, ms)) == if part(k) == p then WithKey(key, k, ms) else []
    decreases |ms|
  {
    if ms != [] {
      var front, last := ms[..|ms| - 1], ms[|ms| - 1];
      KeyInOnePartition(key, part, k, p, front);
      var log := InPartition(key, part, p, front);
      if part(key(last)) == p { assert (log + [last])[..|log|] == log; } else { assert log + [] == log; }
    }
  }

  lemma {:induction false} WithKeyPrefix<M>(key: M -> string, k: string, ms: seq<M>, n: nat)
    requires n <= |ms|
    ensures WithKey(key, k, ms[..n]) <= WithKey(key, k, ms)
    decreases |ms|
  {
    if n < |ms| {
      WithKeyPrefix(key, k, ms[..|ms| - 1], n);
      assert ms[..|ms| - 1][..n] == ms[..n];
    } else {
      assert ms[..n] == ms;
    }
  }

  lemma OneMore<M>(key: M -> string, k: string, log: seq<M>, n: nat)
    ensures WithKey(key, k, log[..Min(n + 1, |log|)])
         == WithKey(key, k, log[..Min(n, |log|)]) + WithKey(key, k, At(log, n))
  {
    if n < |log| {
      assert log[..n + 1][..n] == log[..n];
      assert [log[n]][..0] == [];
    }
  }

  lemma {:induction false} LogIsOfPartition<M>(key: M -> string, part: string -> nat, p: nat, ms: seq<M>)
    ensures forall m :: m in InPartition(key, part, p, ms) ==> part(key(m)) == p
    decreases |ms|
  {
    if ms != [] { LogIsOfPartition(key, part, p, ms[..|ms| - 1]); }
  }

  lemma OneOfOtherKey<M>(key: M -> string, k: string, m: M)
    ensures WithKey(key, k, [m]) == if key(m) == k then [m] else []
  {
    assert [m][..0] == [];
    assert WithKey(key, k, [m][..0]) == [];
  }

  lemma OtherPartition<M>(key: M -> string, part: string -> nat, k: string, p: nat, ms: seq<M>, n: nat)
    requires part(k) != p
    ensures WithKey(key, k, At(InPartition(key, part, p, ms), n)) == []
  {
    LogIsOfPartition(key, part, p, ms);
    var log := InPartition(key, part, p, ms);
    if n < |log| {
      assert log[n] in log;
      OneOfOtherKey(key, k, log[n]);
    }
  }

  lemma WithKeySplit<M>(key: M -> string, k: string, a: seq<M>, b: seq<M>)
    requires |b| <= 1
    ensures WithKey(key, k, a + b) == WithKey(key, k, a) + WithKey(key, k, b)
  {
    if b == [] {
      assert a + b == a;
    } else {
      assert (a + b)[..|a|] == a && b[..0] == [];
    }
  }

  /** Of the messages with one key, a consumer has always got the first ones of their partition. */
  lemma {:induction false} ConsumedOfKey<M>(key: M -> string, part: string -> nat, ms: seq<M>, order: seq<nat>, k: string)
    ensures var log := InPartition(key, part, part(k), ms);
      WithKey(key, k, Consumed(key, part, ms, order)) == WithKey(key, k, log[..Min(Polled(part(k), order), |log|)])
    decreases |order|
  {
    var log := InPartition(key, part, part(k), ms);
    if order == [] {
      assert log[..0] == [];
    } else {
      var front, p := order[..|order| - 1], order[|order| - 1];
      ConsumedOfKey(key, part, ms, front, k);
      var n := Polled(p, front);
      WithKeySplit(key, k, Consumed(key, part, ms, front), At(InPartition(key, part, p, ms), n));
      if p == part(k) { OneMore(key, k, log, n); } else { OtherPartition(key, part, k, p, ms, n); }
    }
  }

  /**
    Order is kept per key, whatever the partitioning function and however the partitions
    are polled in turn: the consumed messages with a key are the first of those accepted.
  */
  lemma OrderPerKey<M>(key: M -> string, part: string -> nat, ms: seq<M>, order: seq<nat>, k: string)
    ensures WithKey(key, k, Consumed(key, part, ms, order)) <= WithKey(key, k, ms)
  {
    var log := InPartition(key, part, part(k), ms);
    ConsumedOfKey(key, part, ms, order, k);
    WithKeyPrefix(key, k, log, Min(Polled(part(k), order), |log|));
    KeyInOnePartition(key, part, k, part(k), ms);
  }

  /** Nothing is consumed that was not accepted. */
  lemma {:induction false} ConsumedFrom<M>(key: M -> string, part: string -> nat, ms: seq<M>, order: seq<nat>)
    ensures forall m :: m in Consumed(key, part, ms, order) ==> m in ms
    decreases |order|
  {
    if order != [] {
      var front, p := order[..|order| - 1], order[|order| - 1];
      ConsumedFrom(key, part, ms, front);
      LogFrom(key, part, p, ms);
    }
  }

  lemma {:induction false} LogFrom<M>(key: M -> string, part: string -> nat, p: nat, ms: seq<M>)
    ensures forall m :: m in InPartition(key, part, p, ms) ==> m in ms
    decreases |ms|
  {
    if ms != [] { LogFrom(key, part, p, ms[..|ms| - 1]); }
  }

  /** Once its partition has been read to the end, nothing with the key is missing. */
  lemma AllOfKey<M>(key: M -> string, part: string -> nat, ms: seq<M>, order: seq<nat>, k: string)
    ensures Polled(part(k), order) >= |InPartition(key, part, part(k), ms)| ==>
      WithKey(key, k, Consumed(key, part, ms, order)) == WithKey(key, k, ms)
  {
    var log := InPartition(key, part, part(k), ms);
    ConsumedOfKey(key, part, ms, order, k);
    KeyInOnePartition(key, part, k, part(k), ms);
    assert log[..|log|] == log;
  }

  /** Across partitions there is no order: two messages in different ones can be consumed either way round. */
  lemma NoOrderAcrossPartitions<M>(key: M -> string, part: string -> nat, a: M, b: M)
    requires part(key(a)) != part(key(b))
    ensures Consumed(key, part, [a, b], [part(key(a)), part(key(b))]) == [a, b]
    ensures Consumed(key, part, [a, b], [part(key(b)), part(key(a))]) == [b, a]
  {
    var p, q := part(key(a)), part(key(b));
    TwoLogs(key, part, a, b);
    assert [p, q][..1] == [p] && [q, p][..1] == [q] && [p][..0] == [] && [q][..0] == [];
    assert Polled(p, []) == 0 && Polled(q, []) == 0;
    assert Consumed(key, part, [a, b], [p]) == [a] && Consumed(key, part, [a, b], [q]) == [b];
  }

  lemma TwoLogs<M>(key: M -> string, part: string -> nat, a: M, b: M)
    requires part(key(a)) != part(key(b))
    ensures InPartition(key, part, part(key(a)), [a, b]) == [a]
    ensures InPartition(key, part, part(key(b)), [a, b]) == [b]
  {
    assert [a, b][..1] == [a] && [a][..0] == [];
    var p, q := part(key(a)), part(key(b));
    assert InPartition(key, part, p, []) == [] && InPartition(key, part, q, []) == [];
    assert InPartition(key, part, p, [a]) == [a] && InPartition(key, part, q, [a]) == [];
  }

  // ---- what is produced ----

  function Mapped<E, M>(f: E -> M, es: seq<E>): seq<M> {
    if es == [] then [] else Mapped(f, es[..|es| - 1]) + [f(es[|es| - 1])]
  }

  /** Of the publishes tried, those that succeeded. */
  function AcceptedOf<E>(attempts: seq<(E, bool)>): seq<E> {
    if attempts == [] then []
    else
      var last := attempts[|attempts| - 1];
      AcceptedOf(attempts[..|attempts| - 1]) + (if last.1 then [last.0] else [])
  }

  lemma AcceptedSnoc<E, M>(f: E -> M, before: seq<M>, attempts: seq<(E, bool)>, i: nat)
    requires i < |attempts|
    ensures before + Mapped(f, AcceptedOf(attempts[..i + 1]))
         == before + Mapped(f, AcceptedOf(attempts[..i])) + (if attempts[i].1 then [f(attempts[i].0)] else [])
  {
    assert attempts[..i + 1][..i] == attempts[..i];
    var front, e := AcceptedOf(attempts[..i]), attempts[i].0;
    if attempts[i].1 { assert (front + [e])[..|front|] == front; } else { assert front + [] == front; }
  }
}
