/**
  The replay source under concurrent calls (src/replay_source.cpp): it is one of the sources
  the pipeline is built for.  One thread calls next(); stop() may come at any time.  What a
  line is worth is a parameter; for the capture format it is Capture.Classify.
*/
module ReplayContract {
  import opened Options
  import opened LineFiles
  import opened SkipAndCount
  import S = SourceContract

  datatype Next<E> =
    | NIdle
    | NTop                      // the loop test: the stop flag
    | NRead                     // the loop test: std::getline, and what the line holds
    | NDone(result: Option<E>)
    | NThrown                   // an exception has left next(): nothing catches it, the thread is gone

  datatype State<E> = State(
    input: string,
    stop: bool,
    next: Next<E>,
    grace: bool,     // the call of next() in progress began before stop()
    returned: nat)   // calls of next() that returned true

  datatype Step = Call | Test | ReadLine | Return | Stop

  function Init<E>(file: string): State<E> { State(file, false, NIdle, false, 0) }

  predicate Enabled<E>(s: State<E>, step: Step) {
    match step
    case Call => s.next.NIdle?
    case Test => s.next.NTop?
    case ReadLine => s.next.NRead?
    case Return => s.next.NDone?
    case Stop => true
  }

  function Apply<E>(classify: string -> Verdict<E>, s: State<E>, step: Step): State<E>
    requires Enabled(s, step)
  {
    match step
    case Call => s.(next := NTop, grace := !s.stop)
    case Test => s.(next := if s.stop then NDone(None) else NRead)
    case ReadLine => LineRead(classify, s)
    case Return => s.(next := NIdle, returned := if s.next.result.Some? then s.returned + 1 else s.returned)
    case Stop => s.(stop := true)
  }

  function LineRead<E>(classify: string -> Verdict<E>, s: State<E>): State<E> {
    if s.input == [] then s.(next := NDone(None))
    else
      s.(input := AfterLine(s.input), next := AfterVerdict(classify(s.input[..LineLen(s.input)])))
  }

  function AfterVerdict<E>(v: Verdict<E>): Next<E> {
    match v
    case Good(event) => NDone(Some(event))
    case Throws => NThrown
    case _ => NTop
  }

  predicate RunOk<E>(classify: string -> Verdict<E>, s: State<E>, steps: seq<Step>)
    decreases |steps|
  {
    steps == [] || (Enabled(s, steps[0]) && RunOk(classify, Apply(classify, s, steps[0]), steps[1..]))
  }

  function Run<E>(classify: string -> Verdict<E>, s: State<E>, steps: seq<Step>): State<E>
    requires RunOk(classify, s, steps)
    decreases |steps|
  {
    if steps == [] then s else Run(classify, Apply(classify, s, steps[0]), steps[1..])
  }

  // ---- as a source ----

  predicate InNext<E>(n: Next<E>) { n.NTop? || n.NRead? || n.NThrown? }

  /** A call that began after stop() does not read. */
  predicate GraceInv<E>(s: State<E>) { (s.next.NRead? ==> s.grace) && (s.next.NTop? && !s.grace ==> s.stop) }

  /**
    What the pipeline sees: the supply is the number of events that the rest of the file holds
    before a line that raises an exception.  A call that ended in one does not return.
  */
  function Seen<E>(classify: string -> Verdict<E>, s: State<E>): S.Source {
    S.Source(S.Finite(if s.next.NThrown? then 0 else EventsLeft(classify, s.input)), s.stop, InNext(s.next), s.grace)
  }

  function EventsLeft<E>(classify: string -> Verdict<E>, input: string): nat {
    |Delivered(classify, BeforeThrow(classify, Lines(input)))|
  }

  lemma {:induction false} FirstBefore<E>(classify: string -> Verdict<E>, line: string, more: seq<string>)
    requires !classify(line).Throws?
    ensures BeforeThrow(classify, [line] + more) == [line] + BeforeThrow(classify, more)
    decreases |more|
  {
    var all := [line] + more;
    if more == [] {
      assert all[..0] == [] && all == [line];
    } else {
      FirstBefore(classify, line, more[..|more| - 1]);
      assert all[..|all| - 1] == [line] + more[..|more| - 1];
    }
  }

  lemma FirstInput<E>(classify: string -> Verdict<E>, line: string, more: seq<string>)
    ensures Delivered(classify, [line] + more) == Event(classify(line)) + Delivered(classify, more)
  {
    Split(classify, [line], more);
    Snoc(classify, [], line);
    assert [] + [line] == [line];
    assert Delivered(classify, []) == [];
  }

  lemma OneInputLess<E>(classify: string -> Verdict<E>, line: string, more: seq<string>)
    ensures var v := classify(line);
      |Delivered(classify, BeforeThrow(classify, [line] + more))|
      == if v.Throws? then 0 else |Delivered(classify, BeforeThrow(classify, more))| + |Event(v)|
  {
    if classify(line).Throws? {
      FirstThrow(classify, [], line, more);
      assert [] + [line] + more == [line] + more;
    } else {
      FirstBefore(classify, line, more);
      FirstInput(classify, line, BeforeThrow(classify, more));
    }
  }

  lemma OneLineLess<E>(classify: string -> Verdict<E>, input: string)
    requires input != []
    ensures var v := classify(input[..LineLen(input)]);
      EventsLeft(classify, input) == if v.Throws? then 0 else EventsLeft(classify, AfterLine(input)) + |Event(v)|
  {
    var line, more := input[..LineLen(input)], Lines(AfterLine(input));
    assert Lines(input) == [line] + more;
    OneInputLess(classify, line, more);
  }

  lemma NoneLeft<E>(classify: string -> Verdict<E>)
    ensures EventsLeft(classify, []) == 0
  {}

  lemma GraceStep<E>(classify: string -> Verdict<E>, s: State<E>, step: Step)
    requires GraceInv(s) && Enabled(s, step)
    ensures GraceInv(Apply(classify, s, step))
  {}

  lemma VerdictKeepsContract<E>(v: Verdict<E>, src: S.Source, src': S.Source, left: nat)
    requires src.inNext && src.grace
    requires src.supply == S.Finite(if v.Throws? then 0 else left + |Event(v)|)
    requires src' == src.(supply := S.Finite(if v.Throws? then 0 else left), inNext := InNext(AfterVerdict(v)))
    ensures var n' := AfterVerdict(v);
      if n'.NDone? then n'.result.Some? && S.CanDeliver(src) && src' == S.Delivered(src)
      else InNext(n') && src' == src
  {}

  lemma LineReadKeepsContract<E>(classify: string -> Verdict<E>, s: State<E>, v: Verdict<E>, left: nat)
    requires s.next.NRead? && s.grace && s.input != [] && v == classify(s.input[..LineLen(s.input)])
    requires left == EventsLeft(classify, AfterLine(s.input))
    requires EventsLeft(classify, s.input) == if v.Throws? then 0 else left + |Event(v)|
    ensures var src, src', n' := Seen(classify, s), Seen(classify, LineRead(classify, s)), AfterVerdict(v);
      && LineRead(classify, s).next == n'
      && if n'.NDone? then n'.result.Some? && S.CanDeliver(src) && src' == S.Delivered(src)
         else InNext(n') && src' == src
  {
    var s' := LineRead(classify, s);
    assert s' == s.(input := AfterLine(s.input), next := AfterVerdict(v));
    VerdictKeepsContract(v, Seen(classify, s), Seen(classify, s'), left);
  }

  lemma LineKeepsContract<E>(classify: string -> Verdict<E>, s: State<E>)
    requires s.next.NRead? && s.grace
    ensures var s' := LineRead(classify, s);
      var src, src', n' := Seen(classify, s), Seen(classify, s'), s'.next;
      if n'.NDone? then
        (if n'.result.Some? then S.CanDeliver(src) && src' == S.Delivered(src)
         else S.CanEnd(src) && src' == S.Ended(src))
      else InNext(n') && src' == src
  {
    if s.input == [] {
      NoneLeft(classify);
    } else {
      OneLineLess(classify, s.input);
      LineReadKeepsContract(classify, s, classify(s.input[..LineLen(s.input)]), EventsLeft(classify, AfterLine(s.input)));
    }
  }

  /**
    Every step is one the contract allows: a call, a stop, the delivery of the event returned,
    the end of next(), or nothing the pipeline can see.  An exception comes from a line that
    raises one, and from nothing else.
  */
  lemma ReplayKeepsContract<E>(classify: string -> Verdict<E>, s: State<E>, step: Step)
    requires GraceInv(s) && Enabled(s, step)
    ensures var s' := Apply(classify, s, step);
      var src, src', n' := Seen(classify, s), Seen(classify, s'), s'.next;
      if step.Call? then src' == S.Call(src)
      else if step.Stop? then src' == S.Stop(src)
      else if InNext(s.next) && n'.NDone? then
        (if n'.result.Some? then S.CanDeliver(src) && src' == S.Delivered(src)
         else S.CanEnd(src) && src' == S.Ended(src))
      else src' == src
    ensures Apply(classify, s, step).next.NThrown? && !s.next.NThrown? <==>
      step.ReadLine? && s.input != [] && classify(s.input[..LineLen(s.input)]).Throws?
  {
    if step.ReadLine? { LineKeepsContract(classify, s); }
  }

  /** Calls of next() that can still return an event once the stop flag is set. */
  function StillReturned<E>(s: State<E>): nat {
    if (InNext(s.next) && s.grace) || (s.next.NDone? && s.next.result.Some?) then 1 else 0
  }

  lemma {:induction false} OverrunRun<E>(classify: string -> Verdict<E>, s: State<E>, more: seq<Step>)
    requires GraceInv(s) && s.stop && RunOk(classify, s, more)
    ensures var r := Run(classify, s, more); r.returned + StillReturned(r) <= s.returned + StillReturned(s)
    decreases |more|
  {
    if more != [] {
      GraceStep(classify, s, more[0]);
      OverrunRun(classify, Apply(classify, s, more[0]), more[1..]);
    }
  }

  lemma {:induction false} GraceRun<E>(classify: string -> Verdict<E>, s: State<E>, steps: seq<Step>)
    requires GraceInv(s) && RunOk(classify, s, steps)
    ensures GraceInv(Run(classify, s, steps))
    decreases |steps|
  {
    if steps != [] {
      GraceStep(classify, s, steps[0]);
      GraceRun(classify, Apply(classify, s, steps[0]), steps[1..]);
    }
  }

  /** After stop() a replay returns at most one more event. */
  lemma ReplayOverrun<E>(classify: string -> Verdict<E>, file: string, steps: seq<Step>, more: seq<Step>)
    requires RunOk(classify, Init<E>(file), steps)
    requires var s := Run(classify, Init<E>(file), steps); s.stop && RunOk(classify, s, more)
    ensures var s := Run(classify, Init<E>(file), steps); Run(classify, s, more).returned <= s.returned + 1
  {
    GraceRun(classify, Init<E>(file), steps);
    OverrunRun(classify, Run(classify, Init<E>(file), steps), more);
  }
}
