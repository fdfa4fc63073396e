/**
  The loop that the replay source and the Kafka consumer share: take inputs in order, skip
  what holds no event, count what is malformed, hand out the rest, and end with an exception
  where reading raises one that is not caught.  What an input is worth (`classify`) and how
  events are written (`write`) are parameters here.
*/
module SkipAndCount {
  import opened Basics
  import opened LineFiles

  datatype Verdict<E> = Ignored | Malformed | Throws | Good(event: E)

  function Event<E>(v: Verdict<E>): seq<E> { if v.Good? then [v.event] else [] }

  /** The events among the inputs, in order. */
  function Delivered<I, E>(classify: I -> Verdict<E>, inputs: seq<I>): seq<E> {
    if inputs == [] then []
    else Delivered(classify, inputs[..|inputs| - 1]) + Event(classify(inputs[|inputs| - 1]))
  }

  function MalformedCount<I, E>(classify: I -> Verdict<E>, inputs: seq<I>): nat {
    if inputs == [] then 0
    else MalformedCount(classify, inputs[..|inputs| - 1]) + (if classify(inputs[|inputs| - 1]).Malformed? then 1 else 0)
  }

  function IgnoredCount<I, E>(classify: I -> Verdict<E>, inputs: seq<I>): nat {
    if inputs == [] then 0
    else IgnoredCount(classify, inputs[..|inputs| - 1]) + (if classify(inputs[|inputs| - 1]).Ignored? then 1 else 0)
  }

  lemma Snoc<I, E>(classify: I -> Verdict<E>, inputs: seq<I>, input: I)
    ensures Delivered(classify, inputs + [input]) == Delivered(classify, inputs) + Event(classify(input))
    ensures MalformedCount(classify, inputs + [input])
         == MalformedCount(classify, inputs) + (if classify(input).Malformed? then 1 else 0)
    ensures IgnoredCount(classify, inputs + [input])
         == IgnoredCount(classify, inputs) + (if classify(input).Ignored? then 1 else 0)
  {
    assert (inputs + [input])[..|inputs|] == inputs;
  }

  lemma FrontOfParts<T>(s: seq<T>, n: nat)
    requires n < |s|
    ensures var front := s[..|s| - 1]; front[..n] == s[..n] && s[n..] == front[n..] + [s[|s| - 1]]
  {}

  lemma {:induction false} SplitAt<I, E>(classify: I -> Verdict<E>, inputs: seq<I>, n: nat)
    requires n <= |inputs|
    ensures Delivered(classify, inputs) == Delivered(classify, inputs[..n]) + Delivered(classify, inputs[n..])
    ensures MalformedCount(classify, inputs) == MalformedCount(classify, inputs[..n]) + MalformedCount(classify, inputs[n..])
    decreases |inputs|
  {
    if n == |inputs| {
      assert inputs[..n] == inputs && inputs[n..] == [];
    } else {
      var front, last := inputs[..|inputs| - 1], inputs[|inputs| - 1];
      FrontOfParts(inputs, n);
      SplitAt(classify, front, n);
      Snoc(classify, front[n..], last);
      Assoc(Delivered(classify, front[..n]), Delivered(classify, front[n..]), Event(classify(last)));
    }
  }

  lemma Split<I, E>(classify: I -> Verdict<E>, a: seq<I>, b: seq<I>)
    ensures Delivered(classify, a + b) == Delivered(classify, a) + Delivered(classify, b)
    ensures MalformedCount(classify, a + b) == MalformedCount(classify, a) + MalformedCount(classify, b)
  {
    assert (a + b)[..|a|] == a && (a + b)[|a|..] == b;
    SplitAt(classify, a + b, |a|);
  }

  lemma LineMoved(consumed: seq<string>, input: string, line: string)
    requires input != [] && line == input[..LineLen(input)]
    ensures consumed + Lines(input) == (consumed + [line]) + Lines(AfterLine(input))
  {
    Assoc(consumed, [line], Lines(AfterLine(input)));
  }

  /** Moving one line from a file to what has been read of it. */
  lemma TakeLine<E>(classify: string -> Verdict<E>, consumed: seq<string>, input: string, line: string)
    requires input != [] && line == input[..LineLen(input)]
    ensures consumed + Lines(input) == (consumed + [line]) + Lines(AfterLine(input))
    ensures Delivered(classify, consumed + [line]) == Delivered(classify, consumed) + Event(classify(line))
    ensures MalformedCount(classify, consumed + [line])
         == MalformedCount(classify, consumed) + (if classify(line).Malformed? then 1 else 0)
  {
    LineMoved(consumed, input, line);
    Snoc(classify, consumed, line);
  }

  /** Moving one input from what is to come to what has been taken. */
  lemma TakeInput<I, E>(classify: I -> Verdict<E>, consumed: seq<I>, pending: seq<I>, input: I)
    requires pending != [] && input == pending[0]
    ensures consumed + pending == (consumed + [input]) + pending[1..]
    ensures Delivered(classify, consumed + [input]) == Delivered(classify, consumed) + Event(classify(input))
    ensures MalformedCount(classify, consumed + [input])
         == MalformedCount(classify, consumed) + (if classify(input).Malformed? then 1 else 0)
  {
    Snoc(classify, consumed, input);
  }

  // ---- up to an exception ----

  predicate ToTheEnd<I, E>(classify: I -> Verdict<E>, inputs: seq<I>) {
    forall i :: 0 <= i < |inputs| ==> !classify(inputs[i]).Throws?
  }

  /** What the loop gets through before reading an input raises an exception. */
  function BeforeThrow<I, E>(classify: I -> Verdict<E>, inputs: seq<I>): (b: seq<I>)
    ensures b <= inputs
  {
    if inputs == [] then []
    else
      var front := inputs[..|inputs| - 1];
      var b := BeforeThrow(classify, front);
      if |b| < |front| || classify(inputs[|inputs| - 1]).Throws? then b else inputs
  }

  lemma {:induction false} BeforeThrowWhole<I, E>(classify: I -> Verdict<E>, inputs: seq<I>)
    ensures ToTheEnd(classify, BeforeThrow(classify, inputs))
    ensures BeforeThrow(classify, inputs) == inputs <==> ToTheEnd(classify, inputs)
    decreases |inputs|
  {
    if inputs != [] {
      var front, last := inputs[..|inputs| - 1], inputs[|inputs| - 1];
      BeforeThrowWhole(classify, front);
      assert inputs == front + [last];
      if ToTheEnd(classify, inputs) {
        forall i | 0 <= i < |front| ensures !classify(front[i]).Throws? { assert front[i] == inputs[i]; }
      }
    }
  }

  lemma {:induction false} FirstThrow<I, E>(classify: I -> Verdict<E>, a: seq<I>, x: I, more: seq<I>)
    requires ToTheEnd(classify, a) && classify(x).Throws?
    ensures BeforeThrow(classify, a + [x] + more) == a
    decreases |more|
  {
    BeforeThrowWhole(classify, a);
    if more == [] {
      assert a + [x] + more == a + [x] && (a + [x])[..|a|] == a;
    } else {
      FirstThrow(classify, a, x, more[..|more| - 1]);
      assert (a + [x] + more)[..|a + [x] + more| - 1] == a + [x] + more[..|more| - 1];
    }
  }

  lemma {:induction false} PrefixBefore<I, E>(classify: I -> Verdict<E>, a: seq<I>, b: seq<I>)
    requires ToTheEnd(classify, a)
    ensures a <= BeforeThrow(classify, a + b)
    decreases |b|
  {
    if b == [] {
      assert a + b == a;
      BeforeThrowWhole(classify, a);
    } else {
      PrefixBefore(classify, a, b[..|b| - 1]);
      assert (a + b)[..|a + b| - 1] == a + b[..|b| - 1];
    }
  }

  lemma ToTheEndSnoc<I, E>(classify: I -> Verdict<E>, inputs: seq<I>, input: I)
    ensures ToTheEnd(classify, inputs + [input]) <==> ToTheEnd(classify, inputs) && !classify(input).Throws?
  {
    var all := inputs + [input];
    if ToTheEnd(classify, all) {
      forall i | 0 <= i < |inputs| ensures !classify(inputs[i]).Throws? { assert inputs[i] == all[i]; }
      assert all[|inputs|] == input;
    }
  }

  lemma ToTheEndJoin<I, E>(classify: I -> Verdict<E>, a: seq<I>, b: seq<I>)
    ensures ToTheEnd(classify, a + b) <==> ToTheEnd(classify, a) && ToTheEnd(classify, b)
  {
    var all := a + b;
    if ToTheEnd(classify, all) {
      forall i | 0 <= i < |a| ensures !classify(a[i]).Throws? { assert a[i] == all[i]; }
      forall i | 0 <= i < |b| ensures !classify(b[i]).Throws? { assert b[i] == all[|a| + i]; }
    }
  }

  /** Every input that does not raise an exception is delivered, malformed or ignored. */
  lemma {:induction false} NothingUnaccounted<I, E>(classify: I -> Verdict<E>, inputs: seq<I>)
    ensures |Delivered(classify, inputs)| + MalformedCount(classify, inputs) + IgnoredCount(classify, inputs) <= |inputs|
    ensures |inputs| == |Delivered(classify, inputs)| + MalformedCount(classify, inputs) + IgnoredCount(classify, inputs)
       <==> ToTheEnd(classify, inputs)
    decreases |inputs|
  {
    if inputs != [] {
      var front, last := inputs[..|inputs| - 1], inputs[|inputs| - 1];
      NothingUnaccounted(classify, front);
      assert inputs == front + [last];
      ToTheEndSnoc(classify, front, last);
    }
  }

  /** Only the last of the inputs raises an exception. */
  predicate LastThrows<I, E>(classify: I -> Verdict<E>, inputs: seq<I>) {
    inputs != [] && ToTheEnd(classify, inputs[..|inputs| - 1]) && classify(inputs[|inputs| - 1]).Throws?
  }

  lemma ThrowsLast<I, E>(classify: I -> Verdict<E>, before: seq<I>, input: I)
    requires ToTheEnd(classify, before) && classify(input).Throws?
    ensures LastThrows(classify, before + [input])
  {
    assert (before + [input])[..|before|] == before;
  }

  /** What the loop has taken, against all that it can get through. */
  lemma TakenSoFar<I, E>(classify: I -> Verdict<E>, taken: seq<I>, more: seq<I>, threw: bool)
    requires if threw then LastThrows(classify, taken) else ToTheEnd(classify, taken)
    ensures |taken| == |Delivered(classify, taken)| + MalformedCount(classify, taken)
                       + IgnoredCount(classify, taken) + (if threw then 1 else 0)
    ensures var all := BeforeThrow(classify, taken + more);
      && Delivered(classify, taken) <= Delivered(classify, all)
      && (threw || more == [] ==>
           && Delivered(classify, taken) == Delivered(classify, all)
           && MalformedCount(classify, taken) == MalformedCount(classify, all)
           && (threw <==> !ToTheEnd(classify, taken + more)))
  {
    if threw { TakenToThrow(classify, taken, more); } else { TakenOn(classify, taken, more); }
  }

  lemma TakenToThrow<I, E>(classify: I -> Verdict<E>, taken: seq<I>, more: seq<I>)
    requires LastThrows(classify, taken)
    ensures |taken| == |Delivered(classify, taken)| + MalformedCount(classify, taken) + IgnoredCount(classify, taken) + 1
    ensures var all := BeforeThrow(classify, taken + more);
      && Delivered(classify, taken) == Delivered(classify, all)
      && MalformedCount(classify, taken) == MalformedCount(classify, all)
      && !ToTheEnd(classify, taken + more)
  {
    var a, x := taken[..|taken| - 1], taken[|taken| - 1];
    assert taken == a + [x];
    FirstThrow(classify, a, x, more);
    Snoc(classify, a, x);
    NothingUnaccounted(classify, a);
    ToTheEndJoin(classify, a + [x], more);
    ToTheEndSnoc(classify, a, x);
  }

  lemma TakenOn<I, E>(classify: I -> Verdict<E>, taken: seq<I>, more: seq<I>)
    requires ToTheEnd(classify, taken)
    ensures |taken| == |Delivered(classify, taken)| + MalformedCount(classify, taken) + IgnoredCount(classify, taken)
    ensures var all := BeforeThrow(classify, taken + more);
      && Delivered(classify, taken) <= Delivered(classify, all)
      && (more == [] ==> all == taken && taken + more == taken)
  {
    NothingUnaccounted(classify, taken);
    PrefixBefore(classify, taken, more);
    PrefixDelivered(classify, taken, BeforeThrow(classify, taken + more));
    if more == [] {
      assert taken + more == taken;
      BeforeThrowWhole(classify, taken);
    }
  }

  /** Stopped earlier, the loop has handed out the first part of what it would have. */
  lemma StoppedEarlier<I, E>(classify: I -> Verdict<E>, inputs: seq<I>, n: nat)
    requires n <= |inputs|
    ensures Delivered(classify, inputs[..n]) <= Delivered(classify, inputs)
    ensures MalformedCount(classify, inputs[..n]) <= MalformedCount(classify, inputs)
  {
    SplitAt(classify, inputs, n);
  }

  lemma PrefixDelivered<I, E>(classify: I -> Verdict<E>, some: seq<I>, all: seq<I>)
    requires some <= all
    ensures Delivered(classify, some) <= Delivered(classify, all)
  {
    assert all[..|some|] == some;
    StoppedEarlier(classify, all, |some|);
  }

  // ---- written, then read ----

  function Texts<E>(write: E -> string, es: seq<E>): (ts: seq<string>)
    ensures |ts| == |es|
  {
    if es == [] then [] else Texts(write, es[..|es| - 1]) + [write(es[|es| - 1])]
  }

  predicate OneLine<E>(write: E -> string, e: E) { LineFree(write(e)) && write(e) != [] }

  /** `e` is written as one line, and that line is read as `back` says. */
  ghost predicate ReadAs<E>(write: E -> string, classify: string -> Verdict<E>, back: E -> Verdict<E>, e: E) {
    OneLine(write, e) && classify(write(e)) == back(e)
  }

  lemma TextsSnoc<E>(write: E -> string, es: seq<E>, e: E)
    ensures Texts(write, es + [e]) == Texts(write, es) + [write(e)]
  {
    assert (es + [e])[..|es|] == es;
  }

  lemma {:induction false} TextsAreLines<E>(write: E -> string, es: seq<E>)
    requires forall i :: 0 <= i < |es| ==> OneLine(write, es[i])
    ensures |Texts(write, es)| == |es|
    ensures forall i :: 0 <= i < |es| ==> LineFree(Texts(write, es)[i]) && Texts(write, es)[i] != []
    decreases |es|
  {
    if es != [] {
      TextsAreLines(write, es[..|es| - 1]);
      assert OneLine(write, es[|es| - 1]);
    }
  }

  lemma {:induction false} TextsPrefix<E>(write: E -> string, es: seq<E>, n: nat)
    requires n <= |es|
    ensures |Texts(write, es)| == |es|
    ensures Texts(write, es)[..n] == Texts(write, es[..n])
    ensures n < |es| ==> Texts(write, es)[n] == write(es[n])
    decreases |es|
  {
    if n == |es| {
      assert es[..n] == es;
      if es != [] { TextsPrefix(write, es[..|es| - 1], 0); }
    } else {
      var front := es[..|es| - 1];
      TextsPrefix(write, front, n);
      assert front[..n] == es[..n];
    }
  }

  /** Reading each line gives what `back` says of the event written. */
  lemma {:induction false} TextsReadBack<E>(write: E -> string, classify: string -> Verdict<E>, back: E -> Verdict<E>, es: seq<E>)
    requires forall i :: 0 <= i < |es| ==> classify(write(es[i])) == back(es[i])
    ensures Delivered(classify, Texts(write, es)) == Delivered(back, es)
    ensures MalformedCount(classify, Texts(write, es)) == MalformedCount(back, es)
    decreases |es|
  {
    if es != [] {
      var front, e := es[..|es| - 1], es[|es| - 1];
      TextsReadBack(write, classify, back, front);
      Snoc(classify, Texts(write, front), write(e));
    }
  }

  lemma {:induction false} DeliveredLength<I, E>(classify: I -> Verdict<E>, inputs: seq<I>)
    ensures |Delivered(classify, inputs)| <= |inputs|
    decreases |inputs|
  {
    if inputs != [] { DeliveredLength(classify, inputs[..|inputs| - 1]); }
  }

  predicate AllBack<E(==)>(back: E -> Verdict<E>, es: seq<E>) { forall i :: 0 <= i < |es| ==> back(es[i]) == Good(es[i]) }

  lemma AllBackSnoc<E>(back: E -> Verdict<E>, front: seq<E>, e: E)
    ensures AllBack(back, front + [e]) <==> AllBack(back, front) && back(e) == Good(e)
  {
    if AllBack(back, front + [e]) {
      forall i | 0 <= i < |front| ensures back(front[i]) == Good(front[i]) { assert (front + [e])[i] == front[i]; }
      assert (front + [e])[|front|] == e;
    }
  }

  /** Reading gives back the whole list if and only if it gives back each event. */
  lemma {:induction false} AllCameBack<E>(back: E -> Verdict<E>, es: seq<E>)
    ensures Delivered(back, es) == es <==> AllBack(back, es)
    decreases |es|
  {
    if es != [] {
      var front, e := es[..|es| - 1], es[|es| - 1];
      AllCameBack(back, front);
      DeliveredLength(back, front);
      assert es == front + [e];
      AllBackSnoc(back, front, e);
      LastCameBack(Delivered(back, front), Event(back(e)), front, e);
    }
  }

  lemma {:induction false} NoneMalformed<E>(back: E -> Verdict<E>, es: seq<E>)
    requires AllBack(back, es)
    ensures MalformedCount(back, es) == 0
    decreases |es|
  {
    if es != [] {
      var front, e := es[..|es| - 1], es[|es| - 1];
      assert es == front + [e];
      AllBackSnoc(back, front, e);
      NoneMalformed(back, front);
    }
  }

  lemma LastCameBack<E>(got: seq<E>, last: seq<E>, front: seq<E>, e: E)
    requires |got| <= |front| && |last| <= 1
    ensures got + last == front + [e] <==> got == front && last == [e]
  {
    if got + last == front + [e] {
      assert |got| == |front|;
      assert got == (got + last)[..|got|] && front == (front + [e])[..|got|];
      assert last == (got + last)[|got|..];
    }
  }

  // ---- with noise in between ----

  datatype Item<E> = Written(event: E) | Noise(line: string)

  function ItemLine<E>(write: E -> string, item: Item<E>): string {
    if item.Written? then write(item.event) else item.line
  }

  function ItemLines<E>(write: E -> string, items: seq<Item<E>>): seq<string> {
    if items == [] then [] else ItemLines(write, items[..|items| - 1]) + [ItemLine(write, items[|items| - 1])]
  }

  function EventsOf<E>(items: seq<Item<E>>): seq<E> {
    if items == [] then []
    else
      var last := items[|items| - 1];
      EventsOf(items[..|items| - 1]) + (if last.Written? then [last.event] else [])
  }

  function NoisyLines<E>(items: seq<Item<E>>): nat {
    if items == [] then 0
    else
      var last := items[|items| - 1];
      NoisyLines(items[..|items| - 1]) + (if last.Noise? && last.line != [] then 1 else 0)
  }

  /** What the line of each item is worth. */
  function ItemVerdict<E>(write: E -> string, classify: string -> Verdict<E>): Item<E> -> Verdict<E> {
    (item: Item<E>) => classify(ItemLine(write, item))
  }

  lemma ItemIsWorth<E>(write: E -> string, classify: string -> Verdict<E>, back: E -> Verdict<E>, item: Item<E>)
    requires item.Written? ==> classify(write(item.event)) == back(item.event)
    ensures ItemVerdict(write, classify)(item) == if item.Written? then back(item.event) else classify(item.line)
  {
    assert ItemVerdict(write, classify)(item) == classify(ItemLine(write, item));
  }

  lemma {:induction false} BeforeThrowItems<E>(write: E -> string, classify: string -> Verdict<E>, items: seq<Item<E>>)
    ensures |ItemLines(write, items)| == |items|
    ensures BeforeThrow(classify, ItemLines(write, items))
         == ItemLines(write, BeforeThrow(ItemVerdict(write, classify), items))
    decreases |items|
  {
    if items != [] {
      var front := items[..|items| - 1];
      BeforeThrowItems(write, classify, front);
      ItemLinesLength(write, BeforeThrow(ItemVerdict(write, classify), front));
    }
  }

  lemma {:induction false} ItemLinesLength<E>(write: E -> string, items: seq<Item<E>>)
    ensures |ItemLines(write, items)| == |items|
    decreases |items|
  {
    if items != [] { ItemLinesLength(write, items[..|items| - 1]); }
  }

  /** A line that holds no event: ignored if it is blank, malformed if not. */
  ghost predicate IsNoise<E>(classify: string -> Verdict<E>, line: string) {
    LineFree(line) && classify(line) == if line == [] then Ignored else Malformed
  }

  ghost predicate ItemOk<E>(write: E -> string, classify: string -> Verdict<E>, back: E -> Verdict<E>, item: Item<E>) {
    if item.Written? then ReadAs(write, classify, back, item.event) else IsNoise(classify, item.line)
  }

  lemma {:induction false} ItemsDelivered<E>(write: E -> string, classify: string -> Verdict<E>, back: E -> Verdict<E>,
                                             items: seq<Item<E>>)
    requires forall i :: 0 <= i < |items| ==> ItemOk(write, classify, back, items[i])
    ensures forall i :: 0 <= i < |ItemLines(write, items)| ==> LineFree(ItemLines(write, items)[i])
    ensures Delivered(classify, ItemLines(write, items)) == Delivered(back, EventsOf(items))
    ensures MalformedCount(classify, ItemLines(write, items)) == NoisyLines(items) + MalformedCount(back, EventsOf(items))
    decreases |items|
  {
    if items != [] {
      var front, last := items[..|items| - 1], items[|items| - 1];
      ItemsDelivered(write, classify, back, front);
      assert ItemOk(write, classify, back, last);
      ItemAdded(write, classify, back, ItemLines(write, front), EventsOf(front), last);
    }
  }

  lemma ItemAdded<E>(write: E -> string, classify: string -> Verdict<E>, back: E -> Verdict<E>,
                     lines: seq<string>, events: seq<E>, item: Item<E>)
    requires ItemOk(write, classify, back, item) && Delivered(classify, lines) == Delivered(back, events)
    ensures var lines', events' := lines + [ItemLine(write, item)], events + (if item.Written? then [item.event] else []);
      && Delivered(classify, lines') == Delivered(back, events')
      && MalformedCount(classify, lines') - MalformedCount(classify, lines)
         == MalformedCount(back, events') - MalformedCount(back, events) + (if item.Noise? && item.line != [] then 1 else 0)
  {
    Snoc(classify, lines, ItemLine(write, item));
    if item.Written? { Snoc(back, events, item.event); } else { assert events + [] == events; }
  }

  // ---- cut short ----

  /** No proper beginning of the line of `e` is read as anything. */
  ghost predicate TornIsMalformed<E>(write: E -> string, classify: string -> Verdict<E>, e: E) {
    forall p :: p <= write(e) && 0 < |p| < |write(e)| ==> classify(p) == Malformed
  }

  lemma CutIsLines<E>(write: E -> string, es: seq<E>, k: nat)
    requires forall i :: 0 <= i < |es| ==> OneLine(write, es[i])
    requires k <= |Joined(Texts(write, es))|
    ensures var lines, c, p := Texts(write, es), Complete(Texts(write, es), k), Partial(Texts(write, es), k);
      && c <= |es| == |lines|
      && lines[..c] == Texts(write, es[..c])
      && (p != [] ==> c < |es| && p <= lines[c] && lines[c] == write(es[c]))
      && LineFree(p)
      && Joined(lines)[..k] == Joined(Texts(write, es[..c])) + p
  {
    var lines := Texts(write, es);
    var c := Complete(lines, k);
    TextsAreLines(write, es);
    CutFile(lines, k);
    TextsPrefix(write, es, c);
  }

  // ---- cut short and written on ----

  lemma JoinedCons(first: string, more: seq<string>)
    ensures Joined([first] + more) == (first + "\n") + Joined(more)
  {
    assert ([first] + more)[1..] == more;
  }

  lemma JoinedMiddle(front: seq<string>, line: string, more: seq<string>)
    ensures Joined(front + [line] + more) == Joined(front) + ((line + "\n") + Joined(more))
  {
    assert front + [line] + more == front + ([line] + more);
    JoinedSplit(front, [line] + more);
    JoinedCons(line, more);
  }

  lemma Glue(a: string, p: string, f: string, m: string)
    ensures (a + p) + ((f + "\n") + m) == a + (((p + f) + "\n") + m)
  {}

  /** Writing on joins the incomplete line with the first new one. */
  lemma AppendedFile(front: seq<string>, p: string, first: string, more: seq<string>)
    ensures (Joined(front) + p) + Joined([first] + more) == Joined(front + [p + first] + more)
  {
    JoinedCons(first, more);
    JoinedMiddle(front, p + first, more);
    Glue(Joined(front), p, first, Joined(more));
  }

  lemma FirstText<E>(write: E -> string, es: seq<E>)
    requires es != []
    ensures |Texts(write, es)| == |es| && Texts(write, es) == [write(es[0])] + Texts(write, es)[1..]
    ensures Texts(write, es)[1..] == Texts(write, es[1..])
  {
    TextsPrefix(write, es, 0);
    TextsTail(write, es);
  }

  lemma {:induction false} TextsTail<E>(write: E -> string, es: seq<E>)
    requires es != []
    ensures |Texts(write, es)| == |es| && Texts(write, es)[1..] == Texts(write, es[1..])
    decreases |es|
  {
    if |es| > 1 {
      var front := es[..|es| - 1];
      TextsTail(write, front);
      assert es[1..][..|es| - 2] == front[1..];
    } else {
      assert es[1..] == [] && es[..0] == [];
    }
  }
}
