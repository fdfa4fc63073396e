/**
  A file that is written in several sessions, each of which appends lines and may be cut short
  anywhere, and is then read (src/event_recorder.cpp opens its file for appending every time).
*/
module Sessions {
  import opened Basics
  import opened LineFiles
  import opened SkipAndCount

  /** The events given to the recorder, and how many characters of them got into the file. */
  datatype Session<E> = Session(events: seq<E>, cut: nat)

  function Reached<E>(write: E -> string, s: Session<E>): nat { Min(s.cut, |Joined(Texts(write, s.events))|) }

  function Written<E>(write: E -> string, s: Session<E>): string {
    Joined(Texts(write, s.events))[..Reached(write, s)]
  }

  function File<E>(write: E -> string, ss: seq<Session<E>>): string {
    if ss == [] then [] else File(write, ss[..|ss| - 1]) + Written(write, ss[|ss| - 1])
  }

  // ---- what is in the file ----

  /** What follows the last newline: nothing, one object or a beginning of one, or several of these. */
  datatype Open<E> = Clean | Part(event: E, whole: bool) | Glued

  /** `lines`: the events on lines of their own.  `glued`: the lines that hold several objects. */
  datatype Outcome<E> = Outcome(lines: seq<E>, glued: nat, open: Open<E>)

  /** What a session leaves open, if it wrote anything after its last newline. */
  function LeftOpen<E>(write: E -> string, s: Session<E>): Open<E> {
    var texts, k := Texts(write, s.events), Reached(write, s);
    var c, p := Complete(texts, k), Partial(texts, k);
    if p == [] || c == |s.events| then Clean else Part(s.events[c], p == texts[c])
  }

  function After<E>(write: E -> string, o: Outcome<E>, s: Session<E>): Outcome<E> {
    var c, left := Complete(Texts(write, s.events), Reached(write, s)), LeftOpen(write, s);
    if o.open.Clean? then Outcome(o.lines + s.events[..c], o.glued, left)
    else if c > 0 then Outcome(o.lines + s.events[1..c], o.glued + 1, left)
    else if left.Clean? then o
    else o.(open := Glued)
  }

  function Total<E>(write: E -> string, ss: seq<Session<E>>): Outcome<E> {
    if ss == [] then Outcome([], 0, Clean) else After(write, Total(write, ss[..|ss| - 1]), ss[|ss| - 1])
  }

  /** The events that are on a line of their own, complete but for the last newline. */
  function Readable<E>(o: Outcome<E>): seq<E> {
    o.lines + (if o.open.Part? && o.open.whole then [o.open.event] else [])
  }

  function BadLines<E>(o: Outcome<E>): nat {
    o.glued + (if o.open.Glued? || (o.open.Part? && !o.open.whole) then 1 else 0)
  }

  // ---- what the reader must make of lines ----

  /**
    Every event is read as `back` says, no proper beginning of its line is read as anything,
    and a beginning with something stray after it, such as another beginning, is malformed.
  */
  ghost predicate Fit<E(!new)>(write: E -> string, classify: string -> Verdict<E>, back: E -> Verdict<E>,
                               stray: string -> bool) {
    && (forall e :: ReadAs(write, classify, back, e) && TornIsMalformed(write, classify, e) && !back(e).Throws?)
    && (forall e, p :: IsBeginning(write, e, p) ==> stray(p))
    && (forall e, p, x :: IsBeginning(write, e, p) && stray(x) ==> Spoiled(classify, stray, p + x))
  }

  predicate IsBeginning<E>(write: E -> string, e: E, p: string) { p != [] && p <= write(e) }

  predicate Spoiled<E(==)>(classify: string -> Verdict<E>, stray: string -> bool, t: string) {
    classify(t) == Malformed && stray(t)
  }

  function Flat(parts: seq<string>): string { if parts == [] then [] else parts[0] + Flat(parts[1..]) }

  ghost predicate Begins<E(!new)>(write: E -> string, p: string) { exists e :: IsBeginning(write, e, p) }

  ghost predicate Beginnings<E(!new)>(write: E -> string, parts: seq<string>) {
    forall i :: 0 <= i < |parts| ==> Begins(write, parts[i])
  }

  lemma {:induction false} FlatSpoiled<E(!new)>(write: E -> string, classify: string -> Verdict<E>, back: E -> Verdict<E>,
                                                stray: string -> bool, parts: seq<string>)
    requires Fit(write, classify, back, stray) && Beginnings(write, parts) && parts != []
    ensures stray(Flat(parts)) && LineFree(Flat(parts)) && Flat(parts) != []
    ensures |parts| > 1 ==> classify(Flat(parts)) == Malformed
    decreases |parts|
  {
    assert Begins(write, parts[0]);
    var e :| IsBeginning(write, e, parts[0]);
    var more := parts[1..];
    OnePart(write, classify, back, stray, e, parts[0]);
    if more == [] {
      assert parts[0] + [] == parts[0];
    } else {
      forall i | 0 <= i < |more| ensures Begins(write, more[i]) { assert more[i] == parts[i + 1]; }
      FlatSpoiled(write, classify, back, stray, more);
      assert Spoiled(classify, stray, parts[0] + Flat(more));
    }
  }

  lemma OnePart<E(!new)>(write: E -> string, classify: string -> Verdict<E>, back: E -> Verdict<E>,
                         stray: string -> bool, e: E, p: string)
    requires Fit(write, classify, back, stray) && IsBeginning(write, e, p)
    ensures stray(p) && LineFree(p)
  {
    assert ReadAs(write, classify, back, e);
  }

  lemma {:induction false} FlatSnoc(parts: seq<string>, p: string)
    ensures Flat(parts + [p]) == Flat(parts) + p
    decreases |parts|
  {
    if parts == [] {
      assert [] + [p] == [p] && [p][1..] == [];
    } else {
      assert (parts + [p])[1..] == parts[1..] + [p];
      FlatSnoc(parts[1..], p);
      Assoc(parts[0], Flat(parts[1..]), p);
    }
  }

  // ---- the file, line by line ----

  /** The parts of objects that make up what follows the last newline. */
  ghost predicate Describes<E(!new)>(write: E -> string, open: Open<E>, parts: seq<string>) {
    && Beginnings(write, parts)
    && match open
       case Clean => parts == []
       case Part(e, whole) => |parts| == 1 && IsBeginning(write, e, parts[0]) && (whole <==> parts[0] == write(e))
       case Glued => |parts| > 1
  }

  /** The lines before the last newline. */
  ghost predicate Front<E(!new)>(classify: string -> Verdict<E>, back: E -> Verdict<E>, o: Outcome<E>, front: seq<string>) {
    && (forall i :: 0 <= i < |front| ==> LineFree(front[i]))
    && ToTheEnd(classify, front)
    && Delivered(classify, front) == Delivered(back, o.lines)
    && MalformedCount(classify, front) == MalformedCount(back, o.lines) + o.glued
  }

  lemma TextsFront<E(!new)>(write: E -> string, classify: string -> Verdict<E>, back: E -> Verdict<E>,
                            stray: string -> bool, es: seq<E>)
    requires Fit(write, classify, back, stray)
    ensures Front(classify, back, Outcome(es, 0, Clean), Texts(write, es))
  {
    forall i | 0 <= i < |es| ensures ReadAs(write, classify, back, es[i]) && !back(es[i]).Throws? {}
    TextsAreLines(write, es);
    TextsReadBack(write, classify, back, es);
    forall i | 0 <= i < |es| ensures !classify(Texts(write, es)[i]).Throws? { TextsPrefix(write, es, i); }
  }

  lemma JoinFronts<E(!new)>(classify: string -> Verdict<E>, back: E -> Verdict<E>, o: Outcome<E>, a: seq<string>,
                            es: seq<E>, b: seq<string>, left: Open<E>)
    requires Front(classify, back, o, a) && Front(classify, back, Outcome(es, 0, Clean), b)
    ensures Front(classify, back, Outcome(o.lines + es, o.glued, left), a + b)
  {
    Split(classify, a, b);
    Split(back, o.lines, es);
    ToTheEndJoin(classify, a, b);
  }

  lemma BadLineFront<E(!new)>(classify: string -> Verdict<E>, back: E -> Verdict<E>, o: Outcome<E>, a: seq<string>, bad: string)
    requires Front(classify, back, o, a) && LineFree(bad) && classify(bad).Malformed?
    ensures Front(classify, back, o.(glued := o.glued + 1), a + [bad])
  {
    Snoc(classify, a, bad);
    ToTheEndSnoc(classify, a, bad);
  }

  /** What a session writes. */
  lemma WrittenParts<E(!new)>(write: E -> string, classify: string -> Verdict<E>, back: E -> Verdict<E>,
                              stray: string -> bool, s: Session<E>) returns (last: seq<string>)
    requires Fit(write, classify, back, stray)
    ensures var c := Complete(Texts(write, s.events), Reached(write, s));
      && c <= |s.events|
      && Written(write, s) == Joined(Texts(write, s.events[..c])) + Flat(last)
      && Describes(write, LeftOpen(write, s), last) && !LeftOpen(write, s).Glued?
  {
    var texts, k := Texts(write, s.events), Reached(write, s);
    var c, p := Complete(texts, k), Partial(texts, k);
    forall i | 0 <= i < |s.events| ensures OneLine(write, s.events[i]) {
      assert ReadAs(write, classify, back, s.events[i]);
    }
    CutIsLines(write, s.events, k);
    if p == [] {
      last := [];
    } else {
      last := [p];
      assert Flat([p]) == p by { assert [p][1..] == []; assert p + [] == p; }
      assert IsBeginning(write, s.events[c], p);
      assert Begins(write, p);
    }
  }

  lemma TwoParts<E(!new)>(write: E -> string, a: seq<string>, b: seq<string>)
    requires Beginnings(write, a) && Beginnings(write, b)
    ensures Beginnings(write, a + b)
  {
    forall i | 0 <= i < |a + b| ensures Begins(write, (a + b)[i]) {
      if i < |a| { assert (a + b)[i] == a[i]; } else { assert (a + b)[i] == b[i - |a|]; }
    }
  }

  /** The file after one more session. */
  lemma OneMoreSession<E(!new)>(write: E -> string, classify: string -> Verdict<E>, back: E -> Verdict<E>,
                                stray: string -> bool, o: Outcome<E>, front: seq<string>, parts: seq<string>, s: Session<E>)
    returns (front': seq<string>, parts': seq<string>)
    requires Fit(write, classify, back, stray)
    requires Front(classify, back, o, front) && Describes(write, o.open, parts)
    ensures (Joined(front) + Flat(parts)) + Written(write, s) == Joined(front') + Flat(parts')
    ensures Front(classify, back, After(write, o, s), front') && Describes(write, After(write, o, s).open, parts')
  {
    var c := Complete(Texts(write, s.events), Reached(write, s));
    var last := WrittenParts(write, classify, back, stray, s);
    var es := s.events[..c];
    if o.open.Clean? {
      front', parts' := front + Texts(write, es), last;
      TextsFront(write, classify, back, stray, es);
      JoinFronts(classify, back, o, front, es, Texts(write, es), LeftOpen(write, s));
      CleanGlue(front, Texts(write, es), Flat(last));
    } else if c > 0 {
      front' := GluedFront(write, classify, back, stray, o, front, parts, es, LeftOpen(write, s), Flat(last));
      parts' := last;
      assert s.events[1..c] == es[1..];
    } else {
      front', parts' := front, parts + last;
      assert Texts(write, es) == [];
      OpenGlue(write, front, parts, last);
    }
  }

  lemma CleanGlue(front: seq<string>, texts: seq<string>, p: string)
    ensures (Joined(front) + Flat([])) + (Joined(texts) + p) == Joined(front + texts) + p
  {
    JoinedSplit(front, texts);
    assert Joined(front) + [] == Joined(front);
    Assoc(Joined(front), Joined(texts), p);
  }

  lemma OpenGlue<E(!new)>(write: E -> string, front: seq<string>, parts: seq<string>, last: seq<string>)
    requires Beginnings(write, parts) && Beginnings(write, last) && |last| <= 1
    ensures (Joined(front) + Flat(parts)) + (Joined([]) + Flat(last)) == Joined(front) + Flat(parts + last)
    ensures Beginnings(write, parts + last)
  {
    TwoParts(write, parts, last);
    assert Joined([]) + Flat(last) == Flat(last);
    if last == [] {
      assert parts + last == parts;
      assert Joined(front) + Flat(parts) + [] == Joined(front) + Flat(parts);
    } else {
      assert last == [last[0]] && last[0] + [] == last[0];
      FlatSnoc(parts, last[0]);
      Assoc(Joined(front), Flat(parts), last[0]);
    }
  }

  /** The first new object ends the line that was left open. */
  lemma GluedFront<E(!new)>(write: E -> string, classify: string -> Verdict<E>, back: E -> Verdict<E>,
                            stray: string -> bool, o: Outcome<E>, front: seq<string>, parts: seq<string>,
                            es: seq<E>, left: Open<E>, p: string)
    returns (front': seq<string>)
    requires Fit(write, classify, back, stray)
    requires Front(classify, back, o, front) && Describes(write, o.open, parts) && parts != [] && es != []
    ensures (Joined(front) + Flat(parts)) + (Joined(Texts(write, es)) + p) == Joined(front') + p
    ensures Front(classify, back, Outcome(o.lines + es[1..], o.glued + 1, left), front')
  {
    var w, more := write(es[0]), Texts(write, es[1..]);
    FirstText(write, es);
    GluedLine(write, classify, back, stray, parts, es[0]);
    var bad := Flat(parts) + w;
    front' := front + [bad] + more;
    BadLineFront(classify, back, o, front, bad);
    TextsFront(write, classify, back, stray, es[1..]);
    JoinFronts(classify, back, o.(glued := o.glued + 1), front + [bad], es[1..], more, left);
    GluedText(front, Flat(parts), w, more, p);
  }

  lemma GluedLine<E(!new)>(write: E -> string, classify: string -> Verdict<E>, back: E -> Verdict<E>,
                           stray: string -> bool, parts: seq<string>, e: E)
    requires Fit(write, classify, back, stray) && Beginnings(write, parts) && parts != []
    ensures LineFree(Flat(parts) + write(e)) && classify(Flat(parts) + write(e)) == Malformed
  {
    var w := write(e);
    assert ReadAs(write, classify, back, e);
    assert IsBeginning(write, e, w);
    assert Begins(write, w);
    TwoParts(write, parts, [w]);
    FlatSnoc(parts, w);
    FlatSpoiled(write, classify, back, stray, parts + [w]);
  }

  lemma GluedText(front: seq<string>, t: string, w: string, more: seq<string>, p: string)
    ensures (Joined(front) + t) + (Joined([w] + more) + p) == Joined(front + [t + w] + more) + p
  {
    AppendedFile(front, t, w, more);
    Assoc(Joined(front) + t, Joined([w] + more), p);
  }

  lemma {:induction false} SessionsWritten<E(!new)>(write: E -> string, classify: string -> Verdict<E>, back: E -> Verdict<E>,
                                                    stray: string -> bool, ss: seq<Session<E>>)
    returns (front: seq<string>, parts: seq<string>)
    requires Fit(write, classify, back, stray)
    ensures File(write, ss) == Joined(front) + Flat(parts)
    ensures Front(classify, back, Total(write, ss), front) && Describes(write, Total(write, ss).open, parts)
    decreases |ss|
  {
    if ss == [] {
      front, parts := [], [];
    } else {
      var f, ps := SessionsWritten(write, classify, back, stray, ss[..|ss| - 1]);
      front, parts := OneMoreSession(write, classify, back, stray, Total(write, ss[..|ss| - 1]), f, ps, ss[|ss| - 1]);
    }
  }

  lemma LastLineRead<E(!new)>(write: E -> string, classify: string -> Verdict<E>, back: E -> Verdict<E>,
                              stray: string -> bool, o: Outcome<E>, parts: seq<string>)
    requires Fit(write, classify, back, stray) && Describes(write, o.open, parts) && parts != []
    ensures LineFree(Flat(parts)) && Flat(parts) != [] && !classify(Flat(parts)).Throws?
    ensures if o.open.Part? && o.open.whole then classify(Flat(parts)) == back(o.open.event) else classify(Flat(parts)) == Malformed
  {
    FlatSpoiled(write, classify, back, stray, parts);
    if o.open.Part? {
      assert Flat(parts) == parts[0] by { assert parts[1..] == []; assert parts[0] + [] == parts[0]; }
      assert ReadAs(write, classify, back, o.open.event) && TornIsMalformed(write, classify, o.open.event);
      assert !back(o.open.event).Throws?;
    }
  }

  /** What is read of a file that was written in any number of sessions, each cut short anywhere. */
  lemma SessionsRead<E(!new)>(write: E -> string, classify: string -> Verdict<E>, back: E -> Verdict<E>,
                              stray: string -> bool, ss: seq<Session<E>>)
    requires Fit(write, classify, back, stray)
    ensures var o, lines := Total(write, ss), Lines(File(write, ss));
      && ToTheEnd(classify, lines)
      && Delivered(classify, lines) == Delivered(back, Readable(o))
      && MalformedCount(classify, lines) == MalformedCount(back, Readable(o)) + BadLines(o)
  {
    var o := Total(write, ss);
    var front, parts := SessionsWritten(write, classify, back, stray, ss);
    LinesOfParts(write, classify, back, stray, o, front, parts);
    if parts != [] {
      LastLineRead(write, classify, back, stray, o, parts);
      FrontAndLast(classify, back, o, front, Flat(parts));
    } else {
      assert o.lines + [] == o.lines;
    }
  }

  lemma LinesOfParts<E(!new)>(write: E -> string, classify: string -> Verdict<E>, back: E -> Verdict<E>,
                              stray: string -> bool, o: Outcome<E>, front: seq<string>, parts: seq<string>)
    requires Fit(write, classify, back, stray)
    requires Front(classify, back, o, front) && Describes(write, o.open, parts)
    ensures Lines(Joined(front) + Flat(parts)) == if parts == [] then front else front + [Flat(parts)]
  {
    if parts == [] {
      LinesOfFile(front, []);
      assert front + [] == front;
    } else {
      FlatSpoiled(write, classify, back, stray, parts);
      LinesOfFile(front, Flat(parts));
    }
  }

  lemma FrontAndLast<E(!new)>(classify: string -> Verdict<E>, back: E -> Verdict<E>, o: Outcome<E>,
                              front: seq<string>, t: string)
    requires Front(classify, back, o, front) && !o.open.Clean? && !classify(t).Throws?
    requires if o.open.Part? && o.open.whole then classify(t) == back(o.open.event) else classify(t) == Malformed
    ensures var lines := front + [t];
      && ToTheEnd(classify, lines)
      && Delivered(classify, lines) == Delivered(back, Readable(o))
      && MalformedCount(classify, lines) == MalformedCount(back, Readable(o)) + BadLines(o)
  {
    Snoc(classify, front, t);
    ToTheEndSnoc(classify, front, t);
    if o.open.Part? && o.open.whole {
      Snoc(back, o.lines, o.open.event);
    } else {
      assert o.lines + [] == o.lines;
      assert Delivered(back, o.lines) + [] == Delivered(back, o.lines);
    }
  }

  // ---- one session, and two ----

  /** How many events a file cut after k characters still holds: the last one may lack its newline. */
  function Kept<E>(write: E -> string, es: seq<E>, k: nat): nat {
    var c, p := Complete(Texts(write, es), k), Partial(Texts(write, es), k);
    if p != [] && c < |es| && p == write(es[c]) then c + 1 else c
  }

  /** One if the cut left a line that is not a whole object, else none. */
  function Torn<E>(write: E -> string, es: seq<E>, k: nat): nat {
    if Partial(Texts(write, es), k) == [] || Kept(write, es, k) > Complete(Texts(write, es), k) then 0 else 1
  }

  lemma OnlySession<E>(write: E -> string, s: Session<E>)
    ensures File(write, [s]) == Written(write, s)
    ensures Total(write, [s])
         == Outcome(s.events[..Complete(Texts(write, s.events), Reached(write, s))], 0, LeftOpen(write, s))
  {
    assert [s][..0] == [];
    assert File(write, [s]) == File(write, []) + Written(write, s);
    assert Total(write, [s]) == After(write, Total(write, []), s);
  }

  lemma LeftByCut<E>(write: E -> string, es: seq<E>, k: nat)
    requires k <= |Joined(Texts(write, es))|
    ensures var c, left := Complete(Texts(write, es), k), LeftOpen(write, Session(es, k));
      && Kept(write, es, k) <= |es| && !left.Glued?
      && (left.Clean? ==> Kept(write, es, k) == c && Torn(write, es, k) == 0)
      && (left.Part? ==> c < |es| && left.event == es[c])
      && (left.Part? && left.whole ==> Kept(write, es, k) == c + 1 && Torn(write, es, k) == 0)
      && (left.Part? && !left.whole ==> Kept(write, es, k) == c && Torn(write, es, k) == 1)
  {
    CutFile(Texts(write, es), k);
    TextsPrefix(write, es, Complete(Texts(write, es), k));
  }

  lemma WithLast<E>(es: seq<E>, c: nat, left: Open<E>)
    requires c <= |es| && !left.Glued?
    requires left.Part? ==> c < |es| && left.event == es[c]
    ensures var o := Outcome(es[..c], 0, left);
      && (left.Part? && left.whole ==> Readable(o) == es[..c + 1] && BadLines(o) == 0)
      && (left.Part? && !left.whole ==> Readable(o) == es[..c] && BadLines(o) == 1)
      && (left.Clean? ==> Readable(o) == es[..c] && BadLines(o) == 0)
  {
    if left.Part? { assert es[..c + 1] == es[..c] + [es[c]]; }
    assert es[..c] + [] == es[..c];
  }

  lemma OneSession<E>(write: E -> string, es: seq<E>, k: nat)
    requires k <= |Joined(Texts(write, es))|
    ensures var s := Session(es, k);
      var o := Total(write, [s]);
      && File(write, [s]) == Joined(Texts(write, es))[..k]
      && Kept(write, es, k) <= |es|
      && Readable(o) == es[..Kept(write, es, k)] && BadLines(o) == Torn(write, es, k)
  {
    var s := Session(es, k);
    OnlySession(write, s);
    LeftByCut(write, es, k);
    WithLast(es, Complete(Texts(write, es), k), LeftOpen(write, s));
  }

  // ---- how much is lost ----

  /** How many objects got into the file whole. */
  function WholeObjects<E>(write: E -> string, ss: seq<Session<E>>): nat {
    if ss == [] then 0
    else
      var s := ss[|ss| - 1];
      WholeObjects(write, ss[..|ss| - 1]) + Kept(write, s.events, Reached(write, s))
  }

  lemma OneMoreLoss<E>(write: E -> string, o: Outcome<E>, s: Session<E>)
    ensures var o', kept := After(write, o, s), Kept(write, s.events, Reached(write, s));
      && |Readable(o)| + kept <= |Readable(o')| + (if o.open.Clean? then 0 else 2)
      && o'.glued + (if o'.open.Clean? then 0 else 1) <= o.glued + (if o.open.Clean? then 0 else 1) + 1
  {
    LeftByCut(write, s.events, Reached(write, s));
    assert LeftOpen(write, Session(s.events, Reached(write, s))) == LeftOpen(write, s);
  }

  /** Every restart costs at most two whole objects, and every session leaves at most one bad line. */
  lemma {:induction false} LossIsBounded<E>(write: E -> string, ss: seq<Session<E>>)
    ensures BadLines(Total(write, ss)) <= |ss|
    ensures ss != [] ==> WholeObjects(write, ss) <= |Readable(Total(write, ss))| + 2 * (|ss| - 1)
    ensures var o := Total(write, ss); o.glued + (if o.open.Clean? then 0 else 1) <= |ss|
    decreases |ss|
  {
    if ss != [] {
      var front, s := ss[..|ss| - 1], ss[|ss| - 1];
      LossIsBounded(write, front);
      OneMoreLoss(write, Total(write, front), s);
    }
  }

  lemma {:induction false} AllComplete(lines: seq<string>)
    ensures Complete(lines, |Joined(lines)|) == |lines| && Partial(lines, |Joined(lines)|) == []
    decreases |lines|
  {
    if lines != [] { AllComplete(lines[1..]); }
  }

  lemma LastOfTwo<E>(write: E -> string, a: Session<E>, b: Session<E>)
    ensures File(write, [a, b]) == Written(write, a) + Written(write, b)
    ensures Total(write, [a, b]) == After(write, Total(write, [a]), b)
  {
    assert [a, b][..1] == [a];
    OnlySession(write, a);
  }

  lemma WholeSession<E>(write: E -> string, fs: seq<E>)
    ensures var s := Session(fs, |Joined(Texts(write, fs))|);
      && Written(write, s) == Joined(Texts(write, fs))
      && Complete(Texts(write, fs), Reached(write, s)) == |fs| && LeftOpen(write, s) == Clean
  {
    AllComplete(Texts(write, fs));
  }

  lemma AfterWhole<E>(write: E -> string, o: Outcome<E>, s: Session<E>)
    requires Complete(Texts(write, s.events), Reached(write, s)) == |s.events| && LeftOpen(write, s) == Clean
    requires s.events != []
    ensures After(write, o, s)
         == if o.open.Clean? then Outcome(o.lines + s.events, o.glued, Clean)
            else Outcome(o.lines + s.events[1..], o.glued + 1, Clean)
  {
    assert s.events[..|s.events|] == s.events && s.events[1..|s.events|] == s.events[1..];
  }

  lemma CleanCut<E>(write: E -> string, es: seq<E>, k: nat)
    requires k <= |Joined(Texts(write, es))|
    ensures LeftOpen(write, Session(es, k)).Clean? <==> Partial(Texts(write, es), k) == []
  {
    CutFile(Texts(write, es), k);
  }

  /** A session that is cut short, and one that is not. */
  lemma TwoSessions<E>(write: E -> string, es: seq<E>, k: nat, fs: seq<E>)
    requires k <= |Joined(Texts(write, es))| && fs != []
    ensures var c, clean := Complete(Texts(write, es), k), Partial(Texts(write, es), k) == [];
      var ss := [Session(es, k), Session(fs, |Joined(Texts(write, fs))|)];
      var o := Total(write, ss);
      && File(write, ss) == Joined(Texts(write, es))[..k] + Joined(Texts(write, fs))
      && Readable(o) == es[..c] + (if clean then fs else fs[1..])
      && BadLines(o) == if clean then 0 else 1
  {
    var a, b := Session(es, k), Session(fs, |Joined(Texts(write, fs))|);
    LastOfTwo(write, a, b);
    OnlySession(write, a);
    CleanCut(write, es, k);
    WholeSession(write, fs);
    AfterWhole(write, Total(write, [a]), b);
    var o := Total(write, [a, b]);
    assert o.lines + [] == o.lines;
  }
}
