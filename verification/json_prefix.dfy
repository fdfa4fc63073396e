/**
  Cutting a text short.  A parser that succeeds on `t` with `rest` left over does the same
  on every prefix that still holds what it consumed, and fails on a shorter one.  The
  exception is a number, which may end early, but then with nothing left over.
*/
module JsonPrefix {
  import opened Json

  /** How much of the remainder `rest` of `t` is still there in the prefix `p` of `t`. */
  function Left(p: string, t: string, rest: string): nat {
    if |p| + |rest| >= |t| then |p| + |rest| - |t| else 0
  }

  function Tail(p: string, t: string, rest: string): string
    requires |p| <= |t|
  {
    rest[..Left(p, t, rest)]
  }

  predicate Holds(p: string, t: string, rest: string) { |p| + |rest| >= |t| }

  lemma TailOfTail(p: string, t: string, r: string, s: string)
    requires p <= t && |s| <= |r| <= |t|
    ensures Left(Tail(p, t, r), r, s) == Left(p, t, s)
    ensures Tail(p, t, r) <= r && Tail(Tail(p, t, r), r, s) == Tail(p, t, s)
  {}

  lemma TailOne(p: string, t: string)
    requires p <= t && p != []
    ensures p[1..] <= t[1..] && p[1..] == Tail(p, t, t[1..])
  {}

  lemma TailStep(p: string, t: string, w: string)
    requires p <= t && w != [] && |w| <= |t| && Tail(p, t, w) != []
    ensures Tail(p, t, w)[0] == w[0] && Tail(p, t, w)[1..] == Tail(p, t, w[1..])
    ensures Tail(p, t, w) <= w && Tail(p, t, w)[1..] <= w[1..]
  {}

  // ---- white space, strings ----

  lemma {:induction false} SkipPrefix(t: string, p: string)
    requires p <= t
    ensures SkipSpace(p) == Tail(p, t, SkipSpace(t))
    decreases |t|
  {
    if t != [] && IsSpace(t[0]) && p != [] {
      assert p[1..] <= t[1..];
      SkipPrefix(t[1..], p[1..]);
    }
  }

  lemma UnicodePrefix(t: string, p: string)
    requires p <= t && ParseUnicode(t).Got?
    ensures var r := ParseUnicode(t);
      if Holds(p, t, r.rest) then ParseUnicode(p) == Got(r.value, Tail(p, t, r.rest)) else ParseUnicode(p).Fail?
  {
    var r := ParseUnicode(t);
    var hi := Hex4(t).value;
    if |p| >= 4 {
      assert Hex4(p) == Hex4(t);
      if 0xD800 <= hi < 0xE000 && |p| >= 10 {
        assert p[6..] <= t[6..];
        assert Hex4(p[6..]) == Hex4(t[6..]);
      }
    }
  }

  lemma EscapePrefix(t: string, p: string)
    requires p <= t && ParseEscape(t).Got?
    ensures var r := ParseEscape(t);
      if Holds(p, t, r.rest) then ParseEscape(p) == Got(r.value, Tail(p, t, r.rest)) else ParseEscape(p).Fail?
  {
    if p != [] {
      assert p[0] == t[0];
      TailOne(p, t);
      if t[0] == 'u' { UnicodePrefix(t[1..], p[1..]); }
    }
  }

  lemma {:induction false} CharsPrefix(t: string, p: string)
    requires p <= t && ParseChars(t).Got?
    ensures var r := ParseChars(t);
      if Holds(p, t, r.rest) then ParseChars(p) == Got(r.value, Tail(p, t, r.rest)) else ParseChars(p).Fail?
    decreases |t|
  {
    if p != [] {
      assert p[0] == t[0];
      TailOne(p, t);
      if t[0] == '\\' {
        EscapePrefix(t[1..], p[1..]);
        var e := ParseEscape(t[1..]);
        if Holds(p[1..], t[1..], e.rest) {
          var q := Tail(p[1..], t[1..], e.rest);
          CharsPrefix(e.rest, q);
        }
      } else if t[0] != '\"' {
        CharsPrefix(t[1..], p[1..]);
      }
    }
  }

  // ---- numbers and words ----

  lemma {:induction false} NumberLenPrefix(t: string, p: string)
    requires p <= t
    ensures NumberLen(p) == if |p| <= NumberLen(t) then |p| else NumberLen(t)
    decreases |t|
  {
    if p != [] && IsNumberChar(t[0]) {
      assert p[1..] <= t[1..];
      NumberLenPrefix(t[1..], p[1..]);
    }
  }

  lemma NumberPrefix(t: string, p: string)
    requires p <= t && ParseNumber(t).Got?
    ensures var r := ParseNumber(t);
      if Holds(p, t, r.rest) then ParseNumber(p) == Got(r.value, Tail(p, t, r.rest))
      else ParseNumber(p).Fail? || ParseNumber(p).rest == []
  {
    NumberLenPrefix(t, p);
    var n := NumberLen(t);
    if |p| >= n {
      assert p[..n] == t[..n];
      assert p[n..] == Tail(p, t, t[n..]);
    }
  }

  lemma WordPrefix(t: string, p: string, word: string, v: Value)
    requires p <= t && |word| > 0 && ParseWord(t, word, v).Got?
    ensures var r := ParseWord(t, word, v);
      if Holds(p, t, r.rest) then ParseWord(p, word, v) == Got(r.value, Tail(p, t, r.rest))
      else ParseWord(p, word, v).Fail?
  {}

  // ---- values ----

  predicate Structured(c: char) { c == '{' || c == '[' || c == '\"' || c == 't' || c == 'f' || c == 'n' }

  ghost predicate ValueCut(t: string, p: string)
    requires p <= t && ParseValue(t).Got?
  {
    var r := ParseValue(t);
    if Holds(p, t, r.rest) then ParseValue(p) == Got(r.value, Tail(p, t, r.rest))
    else ParseValue(p).Fail? || (!Structured(t[0]) && ParseValue(p).rest == [])
  }

  ghost predicate MemberCut(t: string, p: string)
    requires p <= t && ParseMember(t).Got?
  {
    var r := ParseMember(t);
    if Holds(p, t, r.rest) then ParseMember(p) == Got(r.value, Tail(p, t, r.rest))
    else ParseMember(p).Fail? || ParseMember(p).rest == []
  }

  ghost predicate MembersCut(t: string, p: string, acc: map<string, Value>)
    requires p <= t && ParseMembers(t, acc).Got?
  {
    var r := ParseMembers(t, acc);
    if Holds(p, t, r.rest) then ParseMembers(p, acc) == Got(r.value, Tail(p, t, r.rest))
    else ParseMembers(p, acc).Fail?
  }

  ghost predicate ElementsCut(t: string, p: string, acc: seq<Value>)
    requires p <= t && ParseElements(t, acc).Got?
  {
    var r := ParseElements(t, acc);
    if Holds(p, t, r.rest) then ParseElements(p, acc) == Got(r.value, Tail(p, t, r.rest))
    else ParseElements(p, acc).Fail?
  }

  lemma {:induction false} ValuePrefix(t: string, p: string)
    requires p <= t && ParseValue(t).Got?
    ensures ValueCut(t, p)
    decreases |t|, 1
  {
    if p != [] {
      assert p[0] == t[0];
      TailOne(p, t);
      if t[0] == '{' || t[0] == '[' {
        BracketPrefix(t, p);
      } else if t[0] == '\"' {
        CharsPrefix(t[1..], p[1..]);
      } else if t[0] == 't' {
        WordPrefix(t, p, "true", JBool(true));
      } else if t[0] == 'f' {
        WordPrefix(t, p, "false", JBool(false));
      } else if t[0] == 'n' {
        WordPrefix(t, p, "null", JNull);
      } else {
        NumberPrefix(t, p);
      }
    }
  }

  lemma {:induction false} BracketPrefix(t: string, p: string)
    requires p <= t && ParseValue(t).Got? && p != [] && (t[0] == '{' || t[0] == '[')
    ensures ValueCut(t, p)
    decreases |t|, 0
  {
    TailOne(p, t);
    SkipPrefix(t[1..], p[1..]);
    var u, q := SkipSpace(t[1..]), SkipSpace(p[1..]);
    TailOfTail(p, t, t[1..], u);
    assert q == Tail(p, t, u);
    if q != [] {
      TailStep(p, t, u);
      if t[0] == '{' {
        if u[0] != '}' { MembersPrefix(u, q, map[]); TailOfTail(p, t, u, ParseMembers(u, map[]).rest); }
      } else {
        if u[0] != ']' { ElementsPrefix(u, q, []); TailOfTail(p, t, u, ParseElements(u, []).rest); }
      }
    }
  }

  lemma {:induction false} MemberPrefix(t: string, p: string)
    requires p <= t && ParseMember(t).Got?
    ensures MemberCut(t, p)
    decreases |t|, 0
  {
    if p != [] {
      assert p[0] == t[0];
      TailOne(p, t);
      CharsPrefix(t[1..], p[1..]);
      var key := ParseChars(t[1..]);
      if Holds(p[1..], t[1..], key.rest) {
        var a := Tail(p[1..], t[1..], key.rest);
        SkipPrefix(key.rest, a);
        var u, b := SkipSpace(key.rest), SkipSpace(a);
        assert b == Tail(a, key.rest, u);
        if b != [] {
          TailStep(a, key.rest, u);
          SkipPrefix(u[1..], b[1..]);
          ValuePrefix(SkipSpace(u[1..]), SkipSpace(b[1..]));
        }
      }
    }
  }

  /** From the end of one item over white space, a separator and white space to the next. */
  lemma BetweenPrefix(t: string, p: string, rest: string)
    requires p <= t && |rest| <= |t| && Holds(p, t, rest)
    ensures var w, b := SkipSpace(rest), SkipSpace(Tail(p, t, rest));
      && b == Tail(p, t, w) && b <= w
      && (b != [] ==>
           && b[0] == w[0] && b[1..] == Tail(p, t, w[1..])
           && SkipSpace(b[1..]) == Tail(p, t, SkipSpace(w[1..])) && SkipSpace(b[1..]) <= SkipSpace(w[1..]))
  {
    var a := Tail(p, t, rest);
    SkipPrefix(rest, a);
    var w, b := SkipSpace(rest), SkipSpace(a);
    TailOfTail(p, t, rest, w);
    if b != [] {
      TailStep(p, t, w);
      SkipPrefix(w[1..], b[1..]);
      TailOfTail(p, t, w[1..], SkipSpace(w[1..]));
    }
  }

  lemma {:induction false} MembersPrefix(t: string, p: string, acc: map<string, Value>)
    requires p <= t && ParseMembers(t, acc).Got?
    ensures MembersCut(t, p, acc)
    decreases |t|, 2
  {
    MemberPrefix(t, p);
    var m := ParseMember(t);
    if Holds(p, t, m.rest) {
      BetweenPrefix(t, p, m.rest);
      var w, b := SkipSpace(m.rest), SkipSpace(Tail(p, t, m.rest));
      if b != [] && w[0] == ',' {
        var u, acc' := SkipSpace(w[1..]), acc[m.value.0 := m.value.1];
        MembersPrefix(u, SkipSpace(b[1..]), acc');
        TailOfTail(p, t, u, ParseMembers(u, acc').rest);
      }
    }
  }

  lemma {:induction false} ElementsPrefix(t: string, p: string, acc: seq<Value>)
    requires p <= t && ParseElements(t, acc).Got?
    ensures ElementsCut(t, p, acc)
    decreases |t|, 2
  {
    ValuePrefix(t, p);
    var v := ParseValue(t);
    if Holds(p, t, v.rest) {
      BetweenPrefix(t, p, v.rest);
      var w, b := SkipSpace(v.rest), SkipSpace(Tail(p, t, v.rest));
      if b != [] && w[0] == ',' {
        var u, acc' := SkipSpace(w[1..]), acc + [v.value];
        ElementsPrefix(u, SkipSpace(b[1..]), acc');
        TailOfTail(p, t, u, ParseElements(u, acc').rest);
      }
    }
  }
}
