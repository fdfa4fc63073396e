/**
  A printed object, or a beginning of one, written directly after the beginning of another,
  as happens when a capture that was cut short is opened again for appending: the joined line
  is not accepted, however often that happens.
*/
module JsonAppend {
  import opened Options
  import opened Json
  import opened JsonRoundTrip
  import opened JsonPrefix

  /** Nothing that can go on an object. */
  predicate Dead(rest: string) {
    rest == [] || !(IsSpace(rest[0]) || rest[0] == ',' || rest[0] == '}' || rest[0] == ':')
  }

  /** It begins with a brace, and read as the rest of a string it leads to nothing. */
  predicate Opens(x: string) {
    x != [] && x[0] == '{' && (ParseChars(x).Fail? || Dead(ParseChars(x).rest))
  }

  /** What cannot complete anything that was cut short before it. */
  predicate Stray(x: string) { Opens(x) && (ParseValue(x).Fail? || Dead(ParseValue(x).rest)) }

  /** A prefix of `a + b` that reaches beyond `a`. */
  lemma PrefixAfter(q: string, a: string, b: string, x: string) returns (r: string)
    requires q <= a + b && |a| <= |q|
    ensures q == a + r && r <= b && q + x == a + (r + x) && |r| == |q| - |a|
  {
    r := q[|a|..];
  }

  // ---- inside a string ----

  lemma HexStops(h: string, x: string)
    requires |h| < 4 && Opens(x)
    ensures ParseUnicode(h + x).Fail?
  {
    assert (h + x)[|h|] == '{';
    assert HexValue('{') == None;
  }

  lemma EscapeStops(c: char, r: string, x: string)
    requires 0 < |r| < |EscapeChar(c)| && r <= EscapeChar(c) && Opens(x)
    ensures (r + x)[0] == '\\' && ParseEscape((r + x)[1..]).Fail?
  {
    if |r| == 1 {
      assert (r + x)[1..] == x;
    } else {
      assert (r + x)[1..][1..] == r[2..] + x;
      HexStops(r[2..], x);
    }
  }

  /** Inside a string, the quote of the appended object ends it. */
  lemma {:induction false} CharsAppended(s: string, r: string, x: string)
    requires r <= EscapeAll(s) + "\"" && |r| < |EscapeAll(s)| + 1 && Opens(x)
    ensures ParseChars(r + x).Fail? || Dead(ParseChars(r + x).rest)
    decreases |s|
  {
    if r == [] {
      assert r + x == x;
    } else {
      var esc := EscapeChar(s[0]);
      assert EscapeAll(s) + "\"" == esc + (EscapeAll(s[1..]) + "\"");
      if |r| < |esc| {
        EscapeStops(s[0], r, x);
      } else {
        var r' := PrefixAfter(r, esc, EscapeAll(s[1..]) + "\"", x);
        CharParses(s[0], r' + x);
        CharsAppended(s[1..], r', x);
      }
    }
  }

  lemma StringAppended(s: string, q: string, x: string)
    requires q <= Quote(s) && 0 < |q| < |Quote(s)| && Opens(x)
    ensures (q + x)[0] == '\"' && (ParseChars((q + x)[1..]).Fail? || Dead(ParseChars((q + x)[1..]).rest))
  {
    assert (q + x)[1..] == q[1..] + x;
    assert Quote(s)[1..] == EscapeAll(s) + "\"";
    assert q[1..] <= Quote(s)[1..];
    CharsAppended(s, q[1..], x);
  }

  // ---- inside a value ----

  lemma NumberAppended(t: string, r: string, x: string)
    requires AllNumberChars(t) && r <= t && r != [] && Opens(x) && (t[0] == '-' || IsDigit(t[0]))
    ensures ParseValue(r + x).Fail? || Dead(ParseValue(r + x).rest)
  {
    NumberLenAll(r, x);
    assert (r + x)[|r|..] == x;
    assert (r + x)[0] == t[0];
  }

  lemma ValueAppended(v: Value, r: string, x: string)
    requires Printable(v) && r <= PrintScalar(v) && 0 < |r| < |PrintScalar(v)| && Opens(x)
    ensures ParseValue(r + x).Fail? || Dead(ParseValue(r + x).rest)
  {
    match v {
      case JNull => assert (r + x)[|r|] == '{' && "null"[|r|] != '{';
      case JInt(i) => NatTextDigits(if i < 0 then -i else i); IntChars(i); NumberAppended(IntText(i), r, x);
      case JFloat(t) => NumberChars(t); NumberAppended(t, r, x);
      case JString(s) => StringAppended(s, r, x);
    }
  }

  lemma IntChars(i: int)
    ensures AllNumberChars(IntText(i)) && |IntText(i)| > 0 && (IntText(i)[0] == '-' || IsDigit(IntText(i)[0]))
  {
    NatTextDigits(if i < 0 then -i else i);
  }

  // ---- inside an object ----

  lemma ColonMissing(t: string)
    requires t != [] && t[0] == '\"' && (ParseChars(t[1..]).Fail? || Dead(ParseChars(t[1..]).rest))
    ensures ParseMember(t).Fail?
  {
    if ParseChars(t[1..]).Got? { SkipNothing(ParseChars(t[1..]).rest); }
  }

  lemma ValueAfterColon(t: string, k: string, w: string)
    requires t != [] && t[0] == '\"' && ParseChars(t[1..]) == Got(k, ":" + w)
    requires w != [] && !IsSpace(w[0]) && (ParseValue(w).Fail? || Dead(ParseValue(w).rest))
    ensures ParseMember(t).Fail? || Dead(ParseMember(t).rest)
  {
    SkipNothing(":" + w);
    SkipNothing(w);
    assert (":" + w)[1..] == w;
  }

  lemma ScalarStart(v: Value)
    requires Printable(v)
    ensures |PrintScalar(v)| > 0 && !IsSpace(PrintScalar(v)[0])
  {
    match v {
      case JNull =>
      case JInt(i) => IntChars(i);
      case JFloat(t) => NumberChars(t);
      case JString(s) =>
    }
  }

  /** The same, past a separator. */
  lemma PrefixBeyond(q: string, a: string, c: char, b: string, x: string) returns (r: string)
    requires q <= a + ([c] + b) && |a| < |q|
    ensures q == a + ([c] + r) && r <= b && q + x == a + ([c] + (r + x)) && |r| == |q| - |a| - 1
  {
    r := q[|a| + 1..];
  }

  lemma ScalarAppended(t: string, k: string, v: Value, r: string, x: string)
    requires t == Quote(k) + (":" + (r + x))
    requires Printable(v) && r <= PrintScalar(v) && |r| < |PrintScalar(v)|
    requires Stray(x)
    ensures ParseMember(t).Fail? || Dead(ParseMember(t).rest)
  {
    var w := r + x;
    QuoteParses(k, ":" + w);
    ScalarStart(v);
    if r == [] { assert w == x; } else { ValueAppended(v, r, x); }
    ValueAfterColon(t, k, w);
  }

  /** The file goes on where the key was not yet, or only just, complete. */
  lemma KeyAppended(k: string, q: string, x: string)
    requires q <= Quote(k) && Opens(x)
    ensures ParseMember(q + x).Fail?
  {
    if q == [] {
      assert q + x == x;
    } else if |q| < |Quote(k)| {
      StringAppended(k, q, x);
      ColonMissing(q + x);
    } else {
      assert q == Quote(k);
      QuoteParses(k, x);
      ColonMissing(q + x);
    }
  }

  lemma MemberText(k: string, v: Value)
    requires Printable(v)
    ensures PrintMember(k, v) == Quote(k) + (":" + PrintScalar(v))
    ensures |PrintMember(k, v)| == |Quote(k)| + 1 + |PrintScalar(v)|
  {}

  lemma PrefixOfFirst(q: string, a: string, b: string)
    requires q <= a + b && |q| <= |a|
    ensures q <= a
  {}

  lemma MemberAppended(k: string, v: Value, q: string, x: string)
    requires Printable(v) && q <= PrintMember(k, v) && |q| < |PrintMember(k, v)|
    requires Stray(x)
    ensures ParseMember(q + x).Fail? || Dead(ParseMember(q + x).rest)
  {
    var name, text := Quote(k), PrintScalar(v);
    MemberText(k, v);
    if |q| <= |name| {
      PrefixOfFirst(q, name, ":" + text);
      KeyAppended(k, q, x);
    } else {
      var r := PrefixBeyond(q, name, ':', text, x);
      ScalarAppended(q + x, k, v, r, x);
    }
  }

  lemma MembersStop(t: string, acc: map<string, Value>)
    requires ParseMember(t).Fail? || Dead(ParseMember(t).rest)
    ensures ParseMembers(t, acc).Fail?
  {
    if ParseMember(t).Got? { SkipNothing(ParseMember(t).rest); }
  }

  lemma {:induction false} MembersAppended(ms: seq<(string, Value)>, q: string, x: string, acc: map<string, Value>)
    requires |ms| > 0 && PrintableMembers(ms) && q <= PrintMembers(ms) && |q| < |PrintMembers(ms)|
    requires Stray(x)
    ensures ParseMembers(q + x, acc).Fail?
    decreases |ms|
  {
    var k, v := ms[0].0, ms[0].1;
    var m := PrintMember(k, v);
    if |q| < |m| {
      assert q <= m;
      MemberAppended(k, v, q, x);
      MembersStop(q + x, acc);
    } else if |q| == |m| {
      assert q == m;
      MemberParses(k, v, x);
      MembersStop(q + x, acc);
    } else {
      MembersTail(ms, q);
      var more := PrintMembers(ms[1..]);
      var q' := PrefixBeyond(q, m, ',', more, x);
      MembersAppended(ms[1..], q', x, acc[k := v]);
      MembersStartQuoted(ms[1..]);
      StartsSame(q', more, x);
      OneMember(q + x, k, v, q' + x, acc);
    }
  }

  lemma StartsSame(q: string, more: string, x: string)
    requires q <= more && more != [] && !IsSpace(more[0]) && x != [] && !IsSpace(x[0])
    ensures q + x != [] && !IsSpace((q + x)[0])
  {}

  lemma MembersTail(ms: seq<(string, Value)>, q: string)
    requires |ms| > 0 && PrintableMembers(ms) && q <= PrintMembers(ms)
    requires |PrintMember(ms[0].0, ms[0].1)| < |q| < |PrintMembers(ms)|
    ensures |ms| > 1
    ensures PrintMembers(ms) == PrintMember(ms[0].0, ms[0].1) + ("," + PrintMembers(ms[1..]))
  {
    if |ms| > 1 {
      MembersText(ms, []);
      assert PrintMembers(ms) + [] == PrintMembers(ms);
      assert PrintMembers(ms[1..]) + [] == PrintMembers(ms[1..]);
    }
  }

  /** Past the opening brace it is a matter of the members. */
  lemma AfterBrace(u: string, x: string)
    requires u + x != [] && !IsSpace((u + x)[0]) && (u + x)[0] != '}'
    ensures ParseValue("{" + (u + x)) == ParseMembers(u + x, map[])
    ensures ParseMembers(u + x, map[]).Fail? ==> ParseText("{" + (u + x)) == None
    ensures ParseMembers(u + x, map[]).Got? && SkipSpace(ParseMembers(u + x, map[]).rest) != [] ==>
      ParseText("{" + (u + x)) == None
  {
    var t := "{" + (u + x);
    assert t[1..] == u + x;
    SkipNothing(u + x);
    SkipNothing(t);
  }

  lemma MembersStarted(ms: seq<(string, Value)>, u: string, x: string)
    requires |ms| > 0 && PrintableMembers(ms) && u <= PrintMembers(ms) && Opens(x)
    ensures u + x != [] && !IsSpace((u + x)[0]) && (u + x)[0] != '}'
  {
    MembersStartQuoted(ms);
    if u == [] { assert u + x == x; }
  }

  lemma AfterWhole(ms: seq<(string, Value)>, x: string)
    requires |ms| > 0 && PrintableMembers(ms) && Opens(x)
    ensures ParseMembers(PrintMembers(ms) + x, map[]).Got? && ParseMembers(PrintMembers(ms) + x, map[]).rest == x
    ensures SkipSpace(x) != []
  {
    MembersParse(ms, x, map[]);
    SkipNothing(x);
  }

  lemma WithoutBrace(p: string, m: string, x: string)
    requires p <= "{" + m && p != []
    ensures p[1..] <= m && p + x == "{" + (p[1..] + x)
  {}

  /** Whatever begins as the printed event does. */
  predicate LikeAnObject(t: string) {
    && t != [] && t[0] == '{'
    && (|t| > 1 ==> t[1] == '\"')
    && (|t| > 2 ==> t[2] == 'e')
  }

  lemma PrintedLooksIt(ms: seq<(string, Value)>, p: string)
    requires |ms| > 0 && PrintableMembers(ms) && ms[0].0 != [] && ms[0].0[0] == 'e'
    requires p <= PrintObject(ms) && p != []
    ensures LikeAnObject(p)
  {
    var k := ms[0].0;
    assert EscapeAll(k)[0] == 'e';
    assert Quote(k)[0] == '\"' && Quote(k)[1] == 'e';
    QuoteFirst(ms);
  }

  lemma QuoteFirst(ms: seq<(string, Value)>)
    requires |ms| > 0 && PrintableMembers(ms)
    ensures Quote(ms[0].0) <= PrintMembers(ms)
  {}

  lemma LooksOpen(p: string)
    requires LikeAnObject(p)
    ensures Opens(p)
  {
    if |p| > 1 { assert ParseChars(p[1..]) == Got([], p[1..][1..]); }
  }

  lemma GluedOpens(p: string, x: string)
    requires LikeAnObject(p) && Opens(x)
    ensures Opens(p + x)
  {
    var t := p + x;
    if |p| == 1 {
      assert t[1..] == x;
    } else {
      assert ParseChars(t[1..]) == Got([], t[1..][1..]);
      if |p| > 2 { assert t[1..][1..][0] == 'e'; } else { assert t[1..][1..] == x; }
    }
  }

  /** A beginning of a printed object, whole or not, completes nothing before it. */
  lemma BeginningIsStray(ms: seq<(string, Value)>, p: string)
    requires |ms| > 0 && PrintableMembers(ms) && ms[0].0 != [] && ms[0].0[0] == 'e'
    requires p <= PrintObject(ms) && p != []
    ensures Stray(p)
  {
    PrintedLooksIt(ms, p);
    LooksOpen(p);
    ObjectParses(ms);
    ValuePrefix(PrintObject(ms), p);
  }

  /**
    A beginning of a printed object, whole or not, with anything stray directly after it is no
    text, and is stray again: so is any number of beginnings one after the other.
  */
  lemma AppendedIsRejected(ms: seq<(string, Value)>, p: string, x: string)
    requires |ms| > 0 && PrintableMembers(ms) && ms[0].0 != [] && ms[0].0[0] == 'e'
    requires p <= PrintObject(ms) && p != [] && Stray(x)
    ensures ParseText(p + x) == None && Stray(p + x)
  {
    var m, u := PrintMembers(ms), p[1..];
    WithoutBrace(p, m, x);
    MembersStarted(ms, u, x);
    AfterBrace(u, x);
    if |u| < |m| {
      MembersAppended(ms, u, x, map[]);
    } else {
      assert u == m;
      AfterWhole(ms, x);
    }
    PrintedLooksIt(ms, p);
    GluedOpens(p, x);
  }
}
