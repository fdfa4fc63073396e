/** Printing a flat object and parsing the text gives the object back. */
module JsonRoundTrip {
  import opened Basics
  import opened Options
  import opened Json

  // ---- numbers ----

  lemma {:induction false} DigitsLenAll(t: string, rest: string)
    requires AllDigits(t) && (rest == [] || !IsDigit(rest[0]))
    ensures DigitsLen(t + rest) == |t|
    decreases |t|
  {
    if t == [] {
      assert t + rest == rest;
    } else {
      assert (t + rest)[1..] == t[1..] + rest;
      DigitsLenAll(t[1..], rest);
    }
  }

  lemma {:induction false} NatTextDigits(n: nat)
    ensures AllDigits(NatText(n)) && |NatText(n)| > 0
    ensures NatText(n)[0] == '0' ==> n == 0
    ensures n == 0 ==> NatText(n) == "0"
    decreases n
  {
    if n >= 10 { NatTextDigits(n / 10); }
  }

  lemma {:induction false} NatTextValue(n: nat)
    ensures AllDigits(NatText(n)) && NatValue(NatText(n)) == n
    decreases n
  {
    NatTextDigits(n);
    if n >= 10 {
      NatTextValue(n / 10);
      assert NatText(n)[..|NatText(n)| - 1] == NatText(n / 10);
    } else {
      assert NatText(n)[..0] == [];
    }
  }

  lemma IntTextParses(i: int)
    requires MIN_INT64 <= i <= MAX_UINT64
    ensures NumberValue(IntText(i)) == Some(JInt(i))
  {
    var n: nat := if i < 0 then -i else i;
    NatTextDigits(n);
    NatTextValue(n);
    var t := IntText(i);
    assert Unsigned(t) == NatText(n);
    DigitsLenAll(NatText(n), []);
    assert NatText(n) + [] == NatText(n);
    assert NatText(n)[|NatText(n)|..] == [];
  }

  predicate AllNumberChars(t: string) { forall i :: 0 <= i < |t| ==> IsNumberChar(t[i]) }

  lemma {:induction false} NumberLenAll(t: string, rest: string)
    requires AllNumberChars(t) && (rest == [] || !IsNumberChar(rest[0]))
    ensures NumberLen(t + rest) == |t|
    decreases |t|
  {
    if t == [] {
      assert t + rest == rest;
    } else {
      assert (t + rest)[1..] == t[1..] + rest;
      NumberLenAll(t[1..], rest);
    }
  }

  lemma {:induction false} DigitsPrefix(t: string)
    ensures AllDigits(t[..DigitsLen(t)])
    decreases |t|
  {
    if t != [] && IsDigit(t[0]) {
      DigitsPrefix(t[1..]);
      assert t[..DigitsLen(t)] == [t[0]] + t[1..][..DigitsLen(t[1..])];
    }
  }

  lemma ExponentChars(t: string)
    requires ValidExponent(t)
    ensures AllNumberChars(t)
  {
    if t != [] {
      var k := if |t| > 1 && (t[1] == '+' || t[1] == '-') then 2 else 1;
      DigitsPrefix(t[k..]);
      forall i | 0 <= i < |t| ensures IsNumberChar(t[i]) {
        if i >= k { assert t[i] == t[k..][i - k]; }
      }
    }
  }

  lemma FractionChars(t: string)
    requires ValidFraction(t)
    ensures AllNumberChars(t)
  {
    if t != [] && t[0] == '.' {
      var n := DigitsLen(t[1..]);
      DigitsPrefix(t[1..]);
      ExponentChars(t[1 + n..]);
      forall i | 0 <= i < |t| ensures IsNumberChar(t[i]) {
        if 1 <= i < 1 + n { assert t[i] == t[1..][..n][i - 1]; }
        if 1 + n <= i { assert t[i] == t[1 + n..][i - 1 - n]; }
      }
    } else {
      ExponentChars(t);
    }
  }

  lemma NumberChars(t: string)
    requires ValidNumber(t)
    ensures AllNumberChars(t) && |t| > 0 && (t[0] == '-' || IsDigit(t[0]))
  {
    var u := Unsigned(t);
    var n := DigitsLen(u);
    DigitsPrefix(u);
    FractionChars(u[n..]);
    assert AllNumberChars(u) by {
      forall i | 0 <= i < |u| ensures IsNumberChar(u[i]) {
        if i < n { assert u[i] == u[..n][i]; } else { assert u[i] == u[n..][i - n]; }
      }
    }
    if |u| < |t| {
      forall i | 0 <= i < |t| ensures IsNumberChar(t[i]) { if i > 0 { assert t[i] == u[i - 1]; } }
    }
  }

  /** A number ends where a character follows that no number contains. */
  lemma NumberParses(t: string, v: Value, rest: string)
    requires ValidNumber(t) && NumberValue(t) == Some(v) && (rest == [] || !IsNumberChar(rest[0]))
    ensures ParseValue(t + rest) == Got(v, rest)
  {
    NumberChars(t);
    NumberLenAll(t, rest);
    assert (t + rest)[..|t|] == t && (t + rest)[|t|..] == rest;
    assert ParseNumber(t + rest) == Got(v, rest);
    assert (t + rest)[0] == t[0];
  }

  // ---- strings ----

  lemma ControlEscape(c: char, rest: string)
    requires c < ' '
    ensures ParseUnicode("00" + [HexChar(c as int / 16), HexChar(c as int % 16)] + rest) == Got(c, rest)
  {
    var a, b := HexChar(c as int / 16), HexChar(c as int % 16);
    var t := "00" + [a, b] + rest;
    assert HexValue(a) == Some(c as int / 16) && HexValue(b) == Some(c as int % 16);
    assert t[0] == '0' && t[1] == '0' && t[2] == a && t[3] == b;
    assert Hex4(t) == Some(c as int);
    assert t[4..] == rest;
  }

  /** One printed character, parsed, is that character. */
  lemma CharParses(c: char, more: string)
    ensures var t := EscapeChar(c) + more;
      if EscapeChar(c) == [c] then t[0] == c && t[1..] == more && c != '\"' && c != '\\' && !(c < ' ')
      else t[0] == '\\' && ParseEscape(t[1..]) == Got(c, more)
  {
    var t := EscapeChar(c) + more;
    if EscapeChar(c) == [c] {
      assert t[1..] == more;
    } else if |EscapeChar(c)| == 2 {
      assert t[1..] == [EscapeChar(c)[1]] + more;
    } else {
      ControlEscape(c, more);
      var hex := [HexChar(c as int / 16), HexChar(c as int % 16)];
      assert t[1..] == "u" + ("00" + hex + more);
      assert t[1..][1..] == "00" + hex + more;
    }
  }

  lemma {:induction false} CharsParse(s: string, rest: string)
    ensures ParseChars(EscapeAll(s) + "\"" + rest) == Got(s, rest)
    decreases |s|
  {
    var t := EscapeAll(s) + "\"" + rest;
    if s == [] {
      assert t == "\"" + rest;
      assert t[1..] == rest;
    } else {
      var more := EscapeAll(s[1..]) + "\"" + rest;
      assert t == EscapeChar(s[0]) + more;
      CharParses(s[0], more);
      CharsParse(s[1..], rest);
      assert [s[0]] + s[1..] == s;
    }
  }

  lemma QuoteParses(s: string, rest: string)
    ensures (Quote(s) + rest)[0] == '\"' && ParseChars((Quote(s) + rest)[1..]) == Got(s, rest)
  {
    assert (Quote(s) + rest)[1..] == EscapeAll(s) + "\"" + rest;
    CharsParse(s, rest);
  }

  // ---- scalars and objects ----

  /** Between members of an object, a printed scalar is parsed as itself. */
  lemma ScalarParses(v: Value, rest: string)
    requires Printable(v) && rest != [] && !IsNumberChar(rest[0])
    ensures ParseValue(PrintScalar(v) + rest) == Got(v, rest)
    ensures PrintScalar(v) != [] && !IsSpace(PrintScalar(v)[0])
  {
    match v {
      case JNull => NullParses(rest);
      case JInt(i) =>
        IntTextParses(i);
        NumberChars(IntText(i));
        NumberParses(IntText(i), v, rest);
      case JFloat(t) =>
        NumberChars(t);
        NumberParses(t, v, rest);
      case JString(s) => QuotedParses(s, rest);
    }
  }

  lemma NullParses(rest: string)
    ensures ParseValue("null" + rest) == Got(JNull, rest)
  {
    var t := "null" + rest;
    assert "null" <= t && t[4..] == rest && t[0] == 'n';
  }

  lemma QuotedParses(s: string, rest: string)
    ensures ParseValue(Quote(s) + rest) == Got(JString(s), rest) && Quote(s)[0] == '\"'
  {
    QuoteParses(s, rest);
    assert (Quote(s) + rest)[0] == '\"';
  }

  lemma MemberByParts(t: string, k: string, u: string, v: Value, rest: string)
    requires t != [] && t[0] == '\"' && ParseChars(t[1..]) == Got(k, u)
    requires u != [] && u[0] == ':' && ParseValue(SkipSpace(u[1..])) == Got(v, rest)
    ensures ParseMember(t) == Got((k, v), rest)
  {
    assert SkipSpace(u) == u;
  }

  lemma SkipNothing(t: string)
    requires t == [] || !IsSpace(t[0])
    ensures SkipSpace(t) == t
  {}

  lemma ScalarAfterColon(v: Value, tail: string)
    requires Printable(v) && tail != [] && !IsNumberChar(tail[0])
    ensures ParseValue(SkipSpace((":" + PrintScalar(v) + tail)[1..])) == Got(v, tail)
  {
    ScalarParses(v, tail);
    AfterColon(PrintScalar(v), tail);
  }

  lemma AfterColon(text: string, tail: string)
    requires text != [] && !IsSpace(text[0])
    ensures SkipSpace((":" + text + tail)[1..]) == text + tail
  {
    assert (":" + text + tail)[1..] == text + tail;
    SkipNothing(text + tail);
  }

  lemma MemberParses(k: string, v: Value, tail: string)
    requires Printable(v) && tail != [] && !IsNumberChar(tail[0])
    ensures ParseMember(PrintMember(k, v) + tail) == Got((k, v), tail)
  {
    var q, u := Quote(k), ":" + PrintScalar(v) + tail;
    assert PrintMember(k, v) + tail == q + u by {
      Assoc(q, ":", PrintScalar(v));
      Assoc(q, ":" + PrintScalar(v), tail);
    }
    assert (q + u)[0] == '\"' && ParseChars((q + u)[1..]) == Got(k, u) by { QuoteParses(k, u); }
    assert ParseValue(SkipSpace(u[1..])) == Got(v, tail) by { ScalarAfterColon(v, tail); }
    MemberByParts(q + u, k, u, v, tail);
  }

  lemma MembersByParts(t: string, k: string, v: Value, w: string, acc: map<string, Value>)
    requires ParseMember(t) == Got((k, v), w) && w != []
    ensures w[0] == '}' ==> ParseMembers(t, acc) == Got(JObject(acc[k := v]), w[1..])
    ensures w[0] == ',' ==> ParseMembers(t, acc) == ParseMembers(SkipSpace(w[1..]), acc[k := v])
  {
    if !IsSpace(w[0]) { SkipNothing(w); }
  }

  lemma MembersStartQuoted(ms: seq<(string, Value)>)
    requires |ms| > 0 && PrintableMembers(ms)
    ensures PrintMembers(ms) != [] && PrintMembers(ms)[0] == '\"'
  {
    assert Quote(ms[0].0)[0] == '\"';
  }

  /** The first of several printed members, with what follows it. */
  lemma MembersText(ms: seq<(string, Value)>, rest: string)
    requires |ms| > 0 && PrintableMembers(ms)
    ensures |ms| == 1 ==> PrintMembers(ms) + rest == PrintMember(ms[0].0, ms[0].1) + ("}" + rest)
    ensures |ms| > 1 ==>
      PrintMembers(ms) + rest == PrintMember(ms[0].0, ms[0].1) + ("," + (PrintMembers(ms[1..]) + rest))
  {
    var m := PrintMember(ms[0].0, ms[0].1);
    if |ms| == 1 {
      Assoc(m, "}", rest);
    } else {
      var more := PrintMembers(ms[1..]);
      assert PrintMembers(ms) == m + ("," + more);
      Assoc(m, "," + more, rest);
      Assoc(",", more, rest);
    }
  }

  lemma {:induction false} MembersParse(ms: seq<(string, Value)>, rest: string, acc: map<string, Value>)
    requires |ms| > 0 && PrintableMembers(ms)
    ensures ParseMembers(PrintMembers(ms) + rest, acc) == Got(JObject(AsMap(ms, acc)), rest)
    decreases |ms|
  {
    var k, v := ms[0].0, ms[0].1;
    MembersText(ms, rest);
    if |ms| == 1 {
      LastMember(PrintMembers(ms) + rest, k, v, rest, acc);
      assert ms[1..] == [];
    } else {
      MembersStartQuoted(ms[1..]);
      OneMember(PrintMembers(ms) + rest, k, v, PrintMembers(ms[1..]) + rest, acc);
      MembersParse(ms[1..], rest, acc[k := v]);
    }
  }

  lemma LastMember(t: string, k: string, v: Value, rest: string, acc: map<string, Value>)
    requires Printable(v) && t == PrintMember(k, v) + ("}" + rest)
    ensures ParseMembers(t, acc) == Got(JObject(acc[k := v]), rest)
  {
    var w := "}" + rest;
    MemberParses(k, v, w);
    MembersByParts(t, k, v, w, acc);
    assert w[1..] == rest;
  }

  lemma OneMember(t: string, k: string, v: Value, more: string, acc: map<string, Value>)
    requires Printable(v) && t == PrintMember(k, v) + ("," + more) && more != [] && !IsSpace(more[0])
    ensures ParseMembers(t, acc) == ParseMembers(more, acc[k := v])
  {
    var w := "," + more;
    MemberParses(k, v, w);
    MembersByParts(t, k, v, w, acc);
    assert w[1..] == more;
    SkipNothing(more);
  }

  lemma ObjectByParts(t: string, u: string)
    requires t != [] && t[0] == '{' && t[1..] == u && u != [] && u[0] == '\"'
    ensures ParseValue(t) == ParseMembers(u, map[])
  {
    SkipNothing(u);
  }

  lemma TextByParts(t: string, v: Value)
    requires t != [] && !IsSpace(t[0]) && ParseValue(t) == Got(v, [])
    ensures ParseText(t) == Some(v)
  {
    SkipNothing(t);
    SkipNothing([]);
  }

  lemma MembersAlone(ms: seq<(string, Value)>)
    requires |ms| > 0 && PrintableMembers(ms)
    ensures ParseMembers(PrintMembers(ms), map[]) == Got(JObject(AsMap(ms)), [])
  {
    assert PrintMembers(ms) + [] == PrintMembers(ms);
    MembersParse(ms, [], map[]);
  }

  /** A printed object parses, alone on its line, to that object. */
  lemma ObjectParses(ms: seq<(string, Value)>)
    requires |ms| > 0 && PrintableMembers(ms)
    ensures ParseValue(PrintObject(ms)) == Got(JObject(AsMap(ms)), [])
    ensures ParseText(PrintObject(ms)) == Some(JObject(AsMap(ms)))
  {
    var t, u := PrintObject(ms), PrintMembers(ms);
    assert t != [] && t[0] == '{' && t[1..] == u && u != [] && u[0] == '\"' by { MembersStartQuoted(ms); }
    ObjectByParts(t, u);
    MembersAlone(ms);
    TextByParts(t, JObject(AsMap(ms)));
  }
}
