/** Files of lines, as std::getline reads them. */
module LineFiles {
  import opened Basics

  predicate LineFree(t: string) { '\n' !in t }

  /** Up to the first newline, or to the end. */
  function LineLen(t: string): (n: nat)
    ensures n <= |t|
  {
    if t == [] || t[0] == '\n' then 0 else 1 + LineLen(t[1..])
  }

  function AfterLine(t: string): (r: string)
    ensures t != [] ==> |r| < |t|
  {
    var n := LineLen(t);
    if n < |t| then t[n + 1..] else []
  }

  function Lines(t: string): seq<string>
    decreases |t|
  {
    if t == [] then [] else [t[..LineLen(t)]] + Lines(AfterLine(t))
  }

  /** Each line with a newline after it. */
  function Joined(lines: seq<string>): string {
    if lines == [] then [] else (lines[0] + "\n") + Joined(lines[1..])
  }

  lemma {:induction false} JoinedSplit(a: seq<string>, b: seq<string>)
    ensures Joined(a + b) == Joined(a) + Joined(b)
    decreases |a|
  {
    if a == [] {
      assert a + b == b;
    } else {
      assert (a + b)[1..] == a[1..] + b;
      JoinedSplit(a[1..], b);
    }
  }

  lemma JoinedSnoc(before: string, lines: seq<string>, line: string)
    ensures before + Joined(lines + [line]) == before + Joined(lines) + (line + "\n")
  {
    JoinedSplit(lines, [line]);
    assert [line][1..] == [];
    assert Joined([line]) == (line + "\n") + Joined([]);
    Assoc(before, Joined(lines), line + "\n");
  }

  lemma {:induction false} LineLenUpTo(line: string, rest: string)
    requires LineFree(line) && (rest == [] || rest[0] == '\n')
    ensures LineLen(line + rest) == |line|
    decreases |line|
  {
    if line == [] {
      assert line + rest == rest;
    } else {
      assert (line + rest)[1..] == line[1..] + rest;
      LineLenUpTo(line[1..], rest);
    }
  }

  lemma LinesCons(line: string, rest: string)
    requires LineFree(line)
    ensures Lines((line + "\n") + rest) == [line] + Lines(rest)
  {
    var t := (line + "\n") + rest;
    assert t == line + ("\n" + rest);
    LineLenUpTo(line, "\n" + rest);
    assert t[..|line|] == line && t[|line| + 1..] == rest;
  }

  lemma LastLine(line: string)
    requires LineFree(line) && line != []
    ensures Lines(line) == [line]
  {
    LineLenUpTo(line, []);
    assert line + [] == line;
    assert line[..|line|] == line;
  }

  lemma NoLines(last: string)
    requires LineFree(last)
    ensures Lines(Joined([]) + last) == if last == [] then [] else [last]
  {
    assert Joined([]) + last == last;
    if last != [] { LastLine(last); }
  }

  /** A file of complete lines, possibly with an incomplete one at its end. */
  lemma {:induction false} LinesOfFile(lines: seq<string>, last: string)
    requires (forall i :: 0 <= i < |lines| ==> LineFree(lines[i])) && LineFree(last)
    ensures Lines(Joined(lines) + last) == lines + (if last == [] then [] else [last])
    decreases |lines|
  {
    if lines == [] {
      NoLines(last);
    } else {
      Assoc(lines[0] + "\n", Joined(lines[1..]), last);
      LinesCons(lines[0], Joined(lines[1..]) + last);
      LinesOfFile(lines[1..], last);
      assert lines == [lines[0]] + lines[1..];
    }
  }

  lemma LinesOfWholeFile(lines: seq<string>)
    requires forall i :: 0 <= i < |lines| ==> LineFree(lines[i])
    ensures Lines(Joined(lines)) == lines
  {
    LinesOfFile(lines, []);
    assert Joined(lines) + [] == Joined(lines);
  }

  // ---- a file cut short ----

  /** How many lines are complete, with their newline, within the first k characters. */
  function Complete(lines: seq<string>, k: nat): (c: nat)
    ensures c <= |lines|
  {
    if lines == [] || k <= |lines[0]| then 0 else 1 + Complete(lines[1..], k - |lines[0]| - 1)
  }

  /** What the first k characters hold after the last newline. */
  function Partial(lines: seq<string>, k: nat): string {
    if lines == [] then []
    else if k <= |lines[0]| then lines[0][..k]
    else Partial(lines[1..], k - |lines[0]| - 1)
  }

  lemma {:induction false} CutFile(lines: seq<string>, k: nat)
    requires k <= |Joined(lines)|
    ensures Complete(lines, k) <= |lines|
    ensures Joined(lines)[..k] == Joined(lines[..Complete(lines, k)]) + Partial(lines, k)
    ensures Partial(lines, k) != [] ==> Complete(lines, k) < |lines|
    ensures Partial(lines, k) != [] ==> Partial(lines, k) <= lines[Complete(lines, k)]
    decreases |lines|
  {
    if lines != [] {
      if k <= |lines[0]| {
        assert Joined(lines)[..k] == lines[0][..k];
        assert lines[..0] == [];
      } else {
        var more, k' := lines[1..], k - |lines[0]| - 1;
        CutFile(more, k');
        var c := Complete(more, k');
        assert lines[..1 + c][1..] == more[..c];
        Assoc(lines[0] + "\n", Joined(more[..c]), Partial(more, k'));
        assert Joined(lines)[..k] == (lines[0] + "\n") + Joined(more)[..k'];
      }
    }
  }
}
