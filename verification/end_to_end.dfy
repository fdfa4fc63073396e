/** From the source through the pipeline to a Kafka consumer, and to a replay of the capture. */
module EndToEnd {
  import opened SourceContract
  import opened MarketEvents
  import opened PartitionedLog
  import opened Kafka
  import opened CaptureTheorems
  import opened PerSymbolOrder
  import L = LineFiles
  import K = SkipAndCount
  import C = Capture
  import P = Pipeline
  import I = PipelineInvariants
  import T = PipelineTheorems

  /** `a` is `b` with some elements left out. */
  predicate Subsequence<E(==)>(a: seq<E>, b: seq<E>) {
    if a == [] then true
    else if b == [] then false
    else if a[|a| - 1] == b[|b| - 1] then Subsequence(a[..|a| - 1], b[..|b| - 1])
    else Subsequence(a, b[..|b| - 1])
  }

  lemma {:induction false} LeaveOneOut<E>(a: seq<E>, b: seq<E>)
    requires a != [] && Subsequence(a, b)
    ensures Subsequence(a[..|a| - 1], b)
    decreases |b|, 0
  {
    if a[|a| - 1] == b[|b| - 1] {
      GrowSubsequence(a[..|a| - 1], b[..|b| - 1], b[|b| - 1]);
      assert b == b[..|b| - 1] + [b[|b| - 1]];
    } else {
      LeaveOneOut(a, b[..|b| - 1]);
      GrowSubsequence(a[..|a| - 1], b[..|b| - 1], b[|b| - 1]);
      assert b == b[..|b| - 1] + [b[|b| - 1]];
    }
  }

  lemma {:induction false} GrowSubsequence<E>(a: seq<E>, b: seq<E>, x: E)
    requires Subsequence(a, b)
    ensures Subsequence(a, b + [x])
    decreases |b|, 1
  {
    assert (b + [x])[..|b|] == b;
    if a != [] && a[|a| - 1] == x { LeaveOneOut(a, b); }
  }

  lemma {:induction false} GrowToPrefix<E>(a: seq<E>, b: seq<E>, c: seq<E>)
    requires Subsequence(a, b) && b <= c
    ensures Subsequence(a, c)
    decreases |c|
  {
    if |b| < |c| {
      GrowToPrefix(a, b, c[..|c| - 1]);
      GrowSubsequence(a, c[..|c| - 1], c[|c| - 1]);
      assert c == c[..|c| - 1] + [c[|c| - 1]];
    } else {
      assert b == c;
    }
  }

  lemma {:induction false} AcceptedInOrder<E>(attempts: seq<(E, bool)>)
    ensures Subsequence(AcceptedOf(attempts), I.Events(attempts))
    ensures (forall i :: 0 <= i < |attempts| ==> attempts[i].1) ==> AcceptedOf(attempts) == I.Events(attempts)
    decreases |attempts|
  {
    if attempts != [] {
      var front, last := attempts[..|attempts| - 1], attempts[|attempts| - 1];
      AcceptedInOrder(front);
      var a, b := AcceptedOf(front), I.Events(front);
      assert I.Events(attempts) == b + [last.0];
      if last.1 {
        assert a == b ==> a + [last.0] == b + [last.0];
        assert (a + [last.0])[..|a|] == a && (b + [last.0])[..|b|] == b;
      } else {
        GrowSubsequence(a, b, last.0);
        assert a + [] == a;
      }
    }
  }

  lemma SelectedPrefix<M>(key: M -> string, k: string, a: seq<M>, b: seq<M>)
    requires a <= b
    ensures WithKey(key, k, a) <= WithKey(key, k, b)
  {
    assert b[..|a|] == a;
    WithKeyPrefix(key, k, b, |a|);
  }

  /** What a consumer has got of a symbol, once these publishes have been tried. */
  function Got(attempts: seq<(MarketEvent, bool)>, part: string -> nat, choices: seq<Choice>, symbol: string): seq<MarketEvent> {
    WithKey(SymbolOf, symbol, ConsumedEvents(Script(part, Mapped(MessageOf, AcceptedOf(attempts)), choices)))
  }

  /** The events with a symbol as they are read back. */
  function Expected(es: seq<MarketEvent>, symbol: string): seq<MarketEvent> {
    K.Delivered(ReadBack, WithKey(SymbolOf, symbol, es))
  }

  predicate NoneFailed<E>(attempts: seq<(E, bool)>) { forall i :: 0 <= i < |attempts| ==> attempts[i].1 }

  lemma ExpectedPrefix(a: seq<MarketEvent>, b: seq<MarketEvent>, symbol: string)
    requires a <= b
    ensures Expected(a, symbol) <= Expected(b, symbol)
  {
    SelectedPrefix(SymbolOf, symbol, a, b);
    K.PrefixDelivered(ReadBack, WithKey(SymbolOf, symbol, a), WithKey(SymbolOf, symbol, b));
  }

  lemma GotInOrder(attempts: seq<(MarketEvent, bool)>, taken: seq<MarketEvent>,
                   part: string -> nat, choices: seq<Choice>, symbol: string)
    requires I.Events(attempts) <= taken
    ensures Subsequence(AcceptedOf(attempts), taken)
    ensures Got(attempts, part, choices, symbol) <= Expected(AcceptedOf(attempts), symbol)
    ensures NoneFailed(attempts) ==> Got(attempts, part, choices, symbol) <= Expected(taken, symbol)
  {
    var accepted := AcceptedOf(attempts);
    AcceptedInOrder(attempts);
    GrowToPrefix(accepted, I.Events(attempts), taken);
    ConsumedPerSymbol(part, accepted, choices, symbol);
    if NoneFailed(attempts) { ExpectedPrefix(accepted, taken, symbol); }
  }

  /**
    At any moment of any run, with any partitioning and any order of polls: the events that
    were accepted are events the source delivered, in its order, none twice; what a consumer
    has got of a symbol is the first part of what comes back of those; and if no publish
    failed, it is the first part of what comes back of the symbol's events at the source.
  */
  lemma ConsumedInSourceOrder(capacity: nat, supply: Supply, recording: bool, steps: seq<P.Step<MarketEvent>>,
                              part: string -> nat, choices: seq<Choice>, symbol: string)
    requires P.RunOk(P.Init<MarketEvent>(capacity, supply, recording), steps)
    ensures var s := P.Run(P.Init<MarketEvent>(capacity, supply, recording), steps);
      && Subsequence(AcceptedOf(s.attempts), s.taken)
      && Got(s.attempts, part, choices, symbol) <= Expected(AcceptedOf(s.attempts), symbol)
      && (NoneFailed(s.attempts) ==> Got(s.attempts, part, choices, symbol) <= Expected(s.taken, symbol))
  {
    T.Conservation(capacity, supply, recording, steps);
    var s := P.Run(P.Init<MarketEvent>(capacity, supply, recording), steps);
    GotInOrder(s.attempts, s.taken, part, choices, symbol);
  }

  // ---- the capture of a run ----

  /** What a replay of a file gives. */
  function Replayed(file: string): seq<MarketEvent> { K.Delivered(C.Classify, L.Lines(file)) }

  lemma CutReplayed(r: seq<MarketEvent>, taken: seq<MarketEvent>, k: nat)
    requires r <= taken
    ensures k <= |C.Recorded(r)| ==> Replayed(C.Recorded(r)[..k]) <= K.Delivered(ReadBack, taken)
  {
    CrashSafe(r, k);
    K.PrefixDelivered(ReadBack, r, taken);
  }

  lemma WholeReplayed(r: seq<MarketEvent>)
    ensures Replayed(C.Recorded(r)) == K.Delivered(ReadBack, r)
  {
    RecordReplay(r);
  }

  lemma {:induction false} RecorderStays<E(!new)>(s: P.State<E>, steps: seq<P.Step<E>>)
    requires P.RunOk(s, steps)
    ensures P.Run(s, steps).recorder.Some? == s.recorder.Some?
    decreases |steps|
  {
    if steps != [] { RecorderStays(P.Apply(s, steps[0]), steps[1..]); }
  }

  /**
    If the process dies at any moment, and the capture file is cut anywhere, the replay gives
    the first part of what comes back of the source's deliveries, which is the deliveries
    themselves if they survive; after stop() has returned the whole file gives all of it.
  */
  lemma CaptureOfRun(capacity: nat, supply: Supply, steps: seq<P.Step<MarketEvent>>, k: nat)
    requires P.RunOk(P.Init<MarketEvent>(capacity, supply, true), steps)
    ensures var s := P.Run(P.Init<MarketEvent>(capacity, supply, true), steps);
      var back := K.Delivered(ReadBack, s.taken);
      && s.recorder.Some?
      && (k <= |C.Recorded(s.recorder.value)| ==> Replayed(C.Recorded(s.recorder.value)[..k]) <= back)
      && (s.owner.OStopped? ==> Replayed(C.Recorded(s.recorder.value)) == back)
      && (back == s.taken <==> AllSurvive(s.taken))
  {
    T.Conservation(capacity, supply, true, steps);
    var s := P.Run(P.Init<MarketEvent>(capacity, supply, true), steps);
    RecorderStays(P.Init<MarketEvent>(capacity, supply, true), steps);
    var r := s.recorder.value;
    CutReplayed(r, s.taken, k);
    SurvivorsComeBack(s.taken);
    if s.owner.OStopped? {
      T.StopDrainsEverything(capacity, supply, true, steps, []);
      WholeReplayed(r);
    }
  }
}
