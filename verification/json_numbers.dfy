/**
  The numbers that the parser of the JSON library converts to doubles while it reads, in its
  order.  It raises an exception at the first one that no finite double is near to, whether
  or not the text is well-formed further on.
*/
module JsonNumbers {
  import opened Options
  import opened Json

  // ---- the number at the beginning of a text, as far as the lexer takes it ----

  function IntegerLen(t: string): (n: nat)
    ensures n <= |t|
  {
    var n := DigitsLen(t);
    if n > 0 && t[0] == '0' then 1 else n
  }

  /** Nothing if there is a point without digits after it. */
  function FractionLen(t: string): (n: Option<nat>)
    ensures n.Some? ==> n.value <= |t|
  {
    if t == [] || t[0] != '.' then Some(0)
    else
      var n := DigitsLen(t[1..]);
      if n == 0 then None else Some(1 + n)
  }

  function SignLen(t: string): (n: nat)
    ensures n <= |t|
  {
    if t != [] && (t[0] == '+' || t[0] == '-') then 1 else 0
  }

  /** Nothing if there is an 'e' without digits after it. */
  function ScaleLen(t: string): (n: Option<nat>)
    ensures n.Some? ==> n.value <= |t|
  {
    if t == [] || (t[0] != 'e' && t[0] != 'E') then Some(0)
    else
      var u := t[1..];
      var sign := SignLen(u);
      var n := DigitsLen(u[sign..]);
      if n == 0 then None else Some(1 + sign + n)
  }

  /** The length of the number text after its sign; 0 if there is none or it is not well-formed. */
  function UnsignedLen(t: string): (n: nat)
    ensures n <= |t|
  {
    var i := IntegerLen(t);
    var f := FractionLen(t[i..]);
    if i == 0 || f.None? then 0
    else
      var e := ScaleLen(t[i + f.value..]);
      if e.None? then 0 else i + f.value + e.value
  }

  function TokenAt(t: string): string {
    var u := Unsigned(t);
    var n := UnsignedLen(u);
    if n == 0 then [] else t[..|t| - |u| + n]
  }

  /** It is stored as a double: every number but an integer of 64 bits. */
  predicate IsDouble(t: string) {
    var v := NumberValue(t);
    v.Some? && v.value.JFloat?
  }

  // ---- the numbers met by the parser ----

  function MetNumber(t: string): seq<string> { if IsDouble(TokenAt(t)) then [TokenAt(t)] else [] }

  function MetValue(t: string): seq<string>
    decreases |t|, 1
  {
    if t == [] then []
    else if t[0] == '{' then
      var u := SkipSpace(t[1..]);
      if u != [] && u[0] == '}' then [] else MetMembers(u)
    else if t[0] == '[' then
      var u := SkipSpace(t[1..]);
      if u != [] && u[0] == ']' then [] else MetElements(u)
    else if t[0] == '\"' || t[0] == 't' || t[0] == 'f' || t[0] == 'n' then []
    else MetNumber(t)
  }

  function MetMember(t: string): seq<string>
    decreases |t|, 0
  {
    if t == [] || t[0] != '\"' then []
    else
      var key := ParseChars(t[1..]);
      if key.Fail? then []
      else
        var u := SkipSpace(key.rest);
        if u == [] || u[0] != ':' then [] else MetValue(SkipSpace(u[1..]))
  }

  function MetMembers(t: string): seq<string>
    decreases |t|, 2
  {
    var m := ParseMember(t);
    MetMember(t) +
    (if m.Fail? then []
     else
       var w := SkipSpace(m.rest);
       if w != [] && w[0] == ',' then MetMembers(SkipSpace(w[1..])) else [])
  }

  function MetElements(t: string): seq<string>
    decreases |t|, 2
  {
    var v := ParseValue(t);
    MetValue(t) +
    (if v.Fail? then []
     else
       var w := SkipSpace(v.rest);
       if w != [] && w[0] == ',' then MetElements(SkipSpace(w[1..])) else [])
  }

  /** Whatever is cut off at its end, a number text fits. */
  predicate BeginningsFit(fits: string -> bool, t: string) {
    forall n :: 0 <= n <= |t| ==> (IsDouble(t[..n]) ==> fits(t[..n]))
  }

  predicate AllFit(fits: string -> bool, numbers: seq<string>) { forall i :: 0 <= i < |numbers| ==> fits(numbers[i]) }

  /** What becomes of a text: an exception, a parse error, or a value. */
  datatype Text = OutOfRange | NotJson | ParsedAs(value: Value)

  function ReadText(fits: string -> bool, t: string): Text {
    if !AllFit(fits, MetValue(SkipSpace(t))) then OutOfRange
    else
      var v := ParseText(t);
      if v.Some? then ParsedAs(v.value) else NotJson
  }
}

/** Which numbers are met in a printed object, in a beginning of one, and in what is glued to it. */
module JsonNumbersMet {
  import opened Basics
  import opened Options
  import opened Json
  import opened JsonNumbers
  import opened JsonRoundTrip
  import opened JsonPrefix
  import opened JsonAppend

  predicate ScalarFits(fits: string -> bool, v: Value) { v.JFloat? ==> BeginningsFit(fits, v.token) }

  predicate MembersFit(fits: string -> bool, ms: seq<(string, Value)>) {
    forall i :: 0 <= i < |ms| ==> ScalarFits(fits, ms[i].1)
  }

  // ---- the token is made of number characters ----

  lemma {:induction false} DigitsLenDigits(t: string)
    ensures AllNumberChars(t[..DigitsLen(t)])
    decreases |t|
  {
    if t != [] && IsDigit(t[0]) {
      DigitsLenDigits(t[1..]);
      assert t[..DigitsLen(t)] == [t[0]] + t[1..][..DigitsLen(t[1..])];
    }
  }

  lemma MoreChars(t: string, i: nat, j: nat)
    requires i + j <= |t| && AllNumberChars(t[..i]) && AllNumberChars(t[i..][..j])
    ensures AllNumberChars(t[..i + j])
  {
    assert t[..i + j] == t[..i] + t[i..][..j];
  }

  lemma FractionCharsOnly(t: string)
    requires FractionLen(t).Some?
    ensures AllNumberChars(t[..FractionLen(t).value])
  {
    if FractionLen(t).value > 0 {
      var n := DigitsLen(t[1..]);
      DigitsLenDigits(t[1..]);
      MoreChars(t, 1, n);
    }
  }

  lemma ScaleCharsOnly(t: string)
    requires ScaleLen(t).Some?
    ensures AllNumberChars(t[..ScaleLen(t).value])
  {
    if ScaleLen(t).value > 0 {
      var u := t[1..];
      var sign := SignLen(u);
      var n := DigitsLen(u[sign..]);
      DigitsLenDigits(u[sign..]);
      MoreChars(u, sign, n);
      MoreChars(t, 1, sign + n);
    }
  }

  lemma IntegerCharsOnly(t: string)
    ensures AllNumberChars(t[..IntegerLen(t)])
  {
    DigitsLenDigits(t);
    if DigitsLen(t) > 0 { assert t[..1] == t[..DigitsLen(t)][..1]; }
  }

  lemma PartsOfNumber(t: string) returns (i: nat, f: nat, e: nat)
    requires UnsignedLen(t) > 0
    ensures i == IntegerLen(t) && i + f + e == UnsignedLen(t)
    ensures FractionLen(t[i..]) == Some(f) && ScaleLen(t[i + f..]) == Some(e)
  {
    i := IntegerLen(t);
    f := FractionLen(t[i..]).value;
    e := ScaleLen(t[i + f..]).value;
  }

  lemma ThreeParts(t: string, i: nat, f: nat, e: nat)
    requires i + f + e <= |t| && AllNumberChars(t[..i])
    requires AllNumberChars(t[i..][..f]) && AllNumberChars(t[i + f..][..e])
    ensures AllNumberChars(t[..i + f + e])
  {
    MoreChars(t, i, f);
    MoreChars(t, i + f, e);
  }

  lemma PartsChars(t: string, i: nat, f: nat, e: nat)
    requires i + f + e <= |t| && i == IntegerLen(t)
    requires FractionLen(t[i..]) == Some(f) && ScaleLen(t[i + f..]) == Some(e)
    ensures AllNumberChars(t[..i + f + e])
  {
    IntegerCharsOnly(t);
    FractionCharsOnly(t[i..]);
    ScaleCharsOnly(t[i + f..]);
    ThreeParts(t, i, f, e);
  }

  lemma UnsignedCharsOnly(t: string)
    ensures AllNumberChars(t[..UnsignedLen(t)])
  {
    if UnsignedLen(t) > 0 {
      var i, f, e := PartsOfNumber(t);
      PartsChars(t, i, f, e);
    }
  }

  lemma TokenPrefix(t: string)
    ensures TokenAt(t) <= t
  {}

  lemma TokenChars(t: string)
    ensures AllNumberChars(TokenAt(t))
  {
    var u := Unsigned(t);
    UnsignedCharsOnly(u);
    if UnsignedLen(u) > 0 { SignedChars(t, UnsignedLen(u)); }
  }

  lemma SignedChars(t: string, n: nat)
    requires n <= |Unsigned(t)| && AllNumberChars(Unsigned(t)[..n])
    ensures AllNumberChars(t[..|t| - |Unsigned(t)| + n])
  {
    if |Unsigned(t)| < |t| { MoreChars(t, 1, n); }
  }

  /** What follows and cannot be part of a number is not taken. */
  lemma TokenWithin(r: string, x: string)
    requires x == [] || !IsNumberChar(x[0])
    ensures TokenAt(r + x) <= r
  {
    var s := TokenAt(r + x);
    TokenPrefix(r + x);
    assert |s| > |r| ==> s[|r|] == x[0];
    TokenChars(r + x);
  }

  // ---- a number that is parsed is met ----

  lemma {:induction false} DigitsLenBefore(t: string, rest: string)
    requires rest == [] || !IsDigit(rest[0])
    ensures DigitsLen(t + rest) == DigitsLen(t)
    decreases |t|
  {
    if t == [] {
      assert t + rest == rest;
    } else if IsDigit(t[0]) {
      assert (t + rest)[1..] == t[1..] + rest;
      DigitsLenBefore(t[1..], rest);
    }
  }

  lemma ScaleOfNumber(t: string, rest: string)
    requires ValidExponent(t) && (rest == [] || !IsNumberChar(rest[0]))
    ensures ScaleLen(t + rest) == Some(|t|)
  {
    if t == [] {
      assert t + rest == rest;
    } else {
      var u := t[1..];
      var sign := SignLen(u);
      assert (t + rest)[1..] == u + rest;
      assert SignLen(u + rest) == sign;
      assert (u + rest)[sign..] == u[sign..] + rest;
      DigitsLenBefore(u[sign..], rest);
      assert u[sign..] == if |t| > 1 && (t[1] == '+' || t[1] == '-') then t[2..] else t[1..];
    }
  }

  lemma FractionOfNumber(t: string, rest: string)
    requires ValidFraction(t) && (rest == [] || !IsNumberChar(rest[0]))
    ensures FractionLen(t + rest).Some?
    ensures var f := FractionLen(t + rest).value; f <= |t| && ScaleLen((t + rest)[f..]) == Some(|t| - f)
  {
    if t != [] && t[0] == '.' {
      assert (t + rest)[1..] == t[1..] + rest;
      DigitsLenBefore(t[1..], rest);
      var f := 1 + DigitsLen(t[1..]);
      assert (t + rest)[f..] == t[f..] + rest;
      ScaleOfNumber(t[f..], rest);
    } else {
      assert (t + rest)[0..] == t + rest;
      ScaleOfNumber(t, rest);
    }
  }

  /** A well-formed number is taken whole. */
  lemma TokenOfNumber(t: string, rest: string)
    requires ValidNumber(t) && (rest == [] || !IsNumberChar(rest[0]))
    ensures TokenAt(t + rest) == t
  {
    NumberChars(t);
    assert Unsigned(t + rest) == Unsigned(t) + rest;
    UnsignedOfNumber(Unsigned(t), rest);
    assert (t + rest)[..|t|] == t;
  }

  lemma TailOfTails(t: string, i: nat, f: nat)
    requires i + f <= |t|
    ensures t[i + f..] == t[i..][f..]
  {}

  lemma IntegerOfNumber(u: string, rest: string)
    requires DigitsLen(u) > 0 && (u[0] == '0' ==> DigitsLen(u) == 1)
    requires rest == [] || !IsDigit(rest[0])
    ensures IntegerLen(u + rest) == DigitsLen(u)
  {
    DigitsLenBefore(u, rest);
  }

  lemma FractionAfter(u: string, i: nat, rest: string) returns (f: nat)
    requires i <= |u| && ValidFraction(u[i..]) && (rest == [] || !IsNumberChar(rest[0]))
    ensures i + f <= |u|
    ensures FractionLen((u + rest)[i..]) == Some(f) && ScaleLen((u + rest)[i + f..]) == Some(|u| - i - f)
  {
    FractionOfNumber(u[i..], rest);
    f := FractionLen(u[i..] + rest).value;
    Drop(u, rest, i);
    TailOfTails(u + rest, i, f);
  }

  lemma UnsignedByParts(t: string, i: nat, f: nat, e: nat)
    requires i > 0 && i + f <= |t| && IntegerLen(t) == i
    requires FractionLen(t[i..]) == Some(f) && ScaleLen(t[i + f..]) == Some(e)
    ensures UnsignedLen(t) == i + f + e
  {}

  lemma FractionJoined(u: string, i: nat, rest: string)
    requires 0 < i <= |u| && IntegerLen(u + rest) == i && ValidFraction(u[i..])
    requires rest == [] || !IsNumberChar(rest[0])
    ensures UnsignedLen(u + rest) == |u|
  {
    var f := FractionAfter(u, i, rest);
    UnsignedByParts(u + rest, i, f, |u| - i - f);
  }

  lemma UnsignedOfNumber(u: string, rest: string)
    requires DigitsLen(u) > 0 && (u[0] == '0' ==> DigitsLen(u) == 1) && ValidFraction(u[DigitsLen(u)..])
    requires rest == [] || !IsNumberChar(rest[0])
    ensures UnsignedLen(u + rest) == |u|
  {
    IntegerOfNumber(u, rest);
    FractionJoined(u, DigitsLen(u), rest);
  }

  lemma Drop(u: string, rest: string, i: nat)
    requires i <= |u|
    ensures (u + rest)[i..] == u[i..] + rest
    ensures u != [] ==> (u + rest)[0] == u[0]
  {}

  lemma {:induction false} NumberLenStops(t: string)
    ensures NumberLen(t) == |t| || !IsNumberChar(t[NumberLen(t)])
    decreases |t|
  {
    if t != [] && IsNumberChar(t[0]) { NumberLenStops(t[1..]); }
  }

  /** Every double that the parser makes of a number text is met, with just that text. */
  lemma ParsedIsMet(t: string)
    requires ParseNumber(t).Got?
    ensures MetNumber(t) == if ParseNumber(t).value.JFloat? then [ParseNumber(t).value.token] else []
  {
    var n := NumberLen(t);
    NumberLenStops(t);
    assert t == t[..n] + t[n..];
    TokenOfNumber(t[..n], t[n..]);
  }

  // ---- integers of 64 bits stay integers when they are cut ----

  lemma {:induction false} ValueOfPrefix(t: string, k: nat)
    requires AllDigits(t) && k <= |t|
    ensures NatValue(t[..k]) <= NatValue(t)
    decreases |t|
  {
    if k < |t| {
      ValueOfPrefix(t[..|t| - 1], k);
      assert t[..|t| - 1][..k] == t[..k];
    } else {
      assert t[..k] == t;
    }
  }

  function Magnitude(i: int): nat { if i < 0 then -i else i }

  lemma CutText(i: int, s: string)
    requires s <= IntText(i) && s != []
    ensures (s[0] == '-' <==> i < 0) && Unsigned(s) <= NatText(Magnitude(i))
  {
    NatTextDigits(Magnitude(i));
  }

  lemma SmallerNumber(i: int, s: string)
    requires MIN_INT64 <= i <= MAX_UINT64 && s != [] && (s[0] == '-' <==> i < 0)
    requires AllDigits(Unsigned(s)) && NatValue(Unsigned(s)) <= Magnitude(i)
    ensures !IsDouble(s)
  {}

  lemma CutInteger(i: int, s: string)
    requires MIN_INT64 <= i <= MAX_UINT64 && s <= IntText(i)
    ensures !IsDouble(s)
  {
    if s != [] {
      var d := NatText(Magnitude(i));
      NatTextDigits(Magnitude(i));
      NatTextValue(Magnitude(i));
      CutText(i, s);
      var k := |Unsigned(s)|;
      assert Unsigned(s) == d[..k];
      ValueOfPrefix(d, k);
      SmallerNumber(i, s);
    }
  }

  // ---- scalars, members, objects ----

  lemma NumberMet(fits: string -> bool, v: Value, r: string, x: string)
    requires Printable(v) && (v.JInt? || v.JFloat?) && ScalarFits(fits, v)
    requires r <= PrintScalar(v) && (x == [] || !IsNumberChar(x[0]))
    ensures AllFit(fits, MetNumber(r + x))
  {
    TokenWithin(r, x);
    var s := TokenAt(r + x);
    if v.JInt? { CutInteger(v.i, s); } else { assert s == v.token[..|s|]; }
  }

  lemma StartOfNumber(v: Value)
    requires Printable(v) && (v.JInt? || v.JFloat?)
    ensures PrintScalar(v) != [] && (PrintScalar(v)[0] == '-' || IsDigit(PrintScalar(v)[0]))
  {
    if v.JInt? { IntChars(v.i); } else { NumberChars(v.token); }
  }

  lemma ScalarMet(fits: string -> bool, v: Value, r: string, x: string)
    requires Printable(v) && ScalarFits(fits, v)
    requires r <= PrintScalar(v) && r != [] && (x == [] || !IsNumberChar(x[0]))
    ensures AllFit(fits, MetValue(r + x))
  {
    assert (r + x)[0] == PrintScalar(v)[0];
    if v.JInt? || v.JFloat? {
      StartOfNumber(v);
      NumberMet(fits, v, r, x);
    }
  }

  /** Nothing, or what can be left over by a cut: it is glued to the beginning before it. */
  predicate Follows(fits: string -> bool, x: string) { x == [] || (Stray(x) && AllFit(fits, MetValue(x))) }

  lemma FollowsStart(fits: string -> bool, x: string)
    requires Follows(fits, x)
    ensures x == [] || (x[0] == '{' && !IsNumberChar(x[0]) && !IsSpace(x[0]))
    ensures SkipSpace(x) == x && AllFit(fits, MetValue(x)) && MetMember(x) == []
  {
    SkipNothing(x);
  }

  /** Cut inside a key, nothing is met. */
  lemma KeyMet(fits: string -> bool, k: string, q: string, x: string)
    requires q <= Quote(k) && Follows(fits, x)
    ensures MetMember(q + x) == []
  {
    FollowsStart(fits, x);
    if q == [] {
      assert q + x == x;
    } else if |q| < |Quote(k)| {
      if x == [] { CutKey(k, q); assert q + x == q; } else { StringAppended(k, q, x); DeadKey(q + x); }
    } else {
      assert q == Quote(k);
      QuoteParses(k, x);
      assert (q + x)[0] == '\"';
    }
  }

  lemma DeadKey(t: string)
    requires t != [] && t[0] == '\"' && (ParseChars(t[1..]).Fail? || Dead(ParseChars(t[1..]).rest))
    ensures MetMember(t) == []
  {
    if ParseChars(t[1..]).Got? { SkipNothing(ParseChars(t[1..]).rest); }
  }

  lemma CutKey(k: string, q: string)
    requires q <= Quote(k) && 0 < |q| < |Quote(k)|
    ensures q[0] == '\"' && ParseChars(q[1..]).Fail?
  {
    QuoteParses(k, []);
    assert Quote(k) + [] == Quote(k);
    CharsPrefix(Quote(k)[1..], q[1..]);
  }

  /** Past the colon it is a matter of the value. */
  lemma PastColon(k: string, w: string)
    requires w == [] || !IsSpace(w[0])
    ensures MetMember(Quote(k) + (":" + w)) == MetValue(w)
  {
    QuoteParses(k, ":" + w);
    SkipNothing(":" + w);
    SkipNothing(w);
    assert (":" + w)[1..] == w;
    assert (Quote(k) + (":" + w))[0] == '\"';
  }

  lemma ValueStart(v: Value, r: string, x: string)
    requires Printable(v) && r <= PrintScalar(v) && r != []
    ensures r + x != [] && !IsSpace((r + x)[0])
  {
    ScalarStart(v);
    assert (r + x)[0] == PrintScalar(v)[0];
  }

  lemma MemberMet(fits: string -> bool, k: string, v: Value, q: string, x: string)
    requires Printable(v) && ScalarFits(fits, v) && q <= PrintMember(k, v)
    requires Follows(fits, x)
    ensures AllFit(fits, MetMember(q + x))
  {
    MemberText(k, v);
    FollowsStart(fits, x);
    if |q| <= |Quote(k)| {
      PrefixOfFirst(q, Quote(k), ":" + PrintScalar(v));
      KeyMet(fits, k, q, x);
    } else {
      var r := PrefixBeyond(q, Quote(k), ':', PrintScalar(v), x);
      if r == [] {
        assert r + x == x;
      } else {
        ValueStart(v, r, x);
        ScalarMet(fits, v, r, x);
      }
      PastColon(k, r + x);
    }
  }

  lemma WholeMemberMet(fits: string -> bool, k: string, v: Value, rest: string)
    requires Printable(v) && ScalarFits(fits, v) && rest != [] && !IsNumberChar(rest[0])
    ensures AllFit(fits, MetMember(PrintMember(k, v) + rest))
  {
    MemberText(k, v);
    ScalarStart(v);
    var r := PrintScalar(v);
    MemberWithRest(Quote(k), r, rest);
    ValueStart(v, r, rest);
    ScalarMet(fits, v, r, rest);
    PastColon(k, r + rest);
  }

  lemma MemberWithRest(a: string, b: string, rest: string)
    ensures (a + (":" + b)) + rest == a + (":" + (b + rest))
  {}

  lemma {:induction false} MembersMet(fits: string -> bool, ms: seq<(string, Value)>, q: string, x: string)
    requires |ms| > 0 && PrintableMembers(ms) && MembersFit(fits, ms) && q <= PrintMembers(ms) && Follows(fits, x)
    ensures AllFit(fits, MetMembers(q + x))
    decreases |ms|
  {
    var k, v := ms[0].0, ms[0].1;
    var m := PrintMember(k, v);
    assert ScalarFits(fits, v);
    if |q| <= |m| {
      MemberMet(fits, k, v, q, x);
      MemberCutShort(fits, k, v, q, x);
      LastMet(q + x);
    } else if |ms| == 1 {
      assert q == m + "}";
      ObjectEnd(fits, k, v, x);
      Assoc(m, "}", x);
    } else {
      MembersRest(ms, q);
      var q' := PrefixBeyond(q, m, ',', PrintMembers(ms[1..]), x);
      WholeMemberMet(fits, k, v, "," + (q' + x));
      MembersMet(fits, ms[1..], q', x);
      NextMember(fits, ms[1..], q', x);
      MetPastComma(k, v, q' + x);
    }
  }

  lemma MembersRest(ms: seq<(string, Value)>, q: string)
    requires |ms| > 1 && PrintableMembers(ms) && q <= PrintMembers(ms)
    ensures q <= PrintMember(ms[0].0, ms[0].1) + ("," + PrintMembers(ms[1..]))
  {
    var m, more := PrintMember(ms[0].0, ms[0].1), PrintMembers(ms[1..]);
    assert PrintMembers(ms) == m + ("," + more);
  }

  lemma ObjectEnd(fits: string -> bool, k: string, v: Value, x: string)
    requires Printable(v) && ScalarFits(fits, v)
    ensures AllFit(fits, MetMembers(PrintMember(k, v) + ("}" + x)))
  {
    WholeMemberMet(fits, k, v, "}" + x);
    MemberParses(k, v, "}" + x);
    SkipNothing("}" + x);
  }

  lemma NextMember(fits: string -> bool, ms: seq<(string, Value)>, q: string, x: string)
    requires |ms| > 0 && PrintableMembers(ms) && q <= PrintMembers(ms) && Follows(fits, x)
    ensures q + x == [] || !IsSpace((q + x)[0])
  {
    MembersStartQuoted(ms);
    FollowsStart(fits, x);
    if q == [] { assert q + x == x; }
  }

  lemma MetPastComma(k: string, v: Value, more: string)
    requires Printable(v) && (more == [] || !IsSpace(more[0]))
    ensures var t := PrintMember(k, v) + ("," + more); MetMembers(t) == MetMember(t) + MetMembers(more)
  {
    MemberParses(k, v, "," + more);
    SkipNothing("," + more);
    assert ("," + more)[1..] == more;
    SkipNothing(more);
  }

  /** After a member that was cut short nothing more is read. */
  lemma MemberCutShort(fits: string -> bool, k: string, v: Value, q: string, x: string)
    requires Printable(v) && q <= PrintMember(k, v) && Follows(fits, x)
    ensures ParseMember(q + x).Fail? || Dead(ParseMember(q + x).rest)
  {
    var m := PrintMember(k, v);
    if x == [] {
      assert q + x == q;
      MemberParses(k, v, "}");
      assert q <= m + "}";
      MemberPrefix(m + "}", q);
    } else if |q| < |m| {
      MemberAppended(k, v, q, x);
    } else {
      assert q == m;
      FollowsStart(fits, x);
      MemberParses(k, v, x);
    }
  }

  lemma LastMet(t: string)
    requires ParseMember(t).Fail? || Dead(ParseMember(t).rest)
    ensures MetMembers(t) == MetMember(t)
  {
    if ParseMember(t).Got? { SkipNothing(ParseMember(t).rest); }
  }

  /**
    In a beginning of a printed object, alone or with such beginnings glued to it, every
    number that is met fits, if those of the objects do, however they are cut.
  */
  lemma ObjectMet(fits: string -> bool, ms: seq<(string, Value)>, p: string, x: string)
    requires |ms| > 0 && PrintableMembers(ms) && MembersFit(fits, ms) && p <= PrintObject(ms) && p != []
    requires Follows(fits, x)
    ensures AllFit(fits, MetValue(p + x)) && SkipSpace(p + x) == p + x
  {
    WithoutBrace(p, PrintMembers(ms), x);
    var u := p[1..];
    NextMember(fits, ms, u, x);
    SkipNothing(u + x);
    SkipNothing(p + x);
    MembersMet(fits, ms, u, x);
    assert (p + x)[1..] == u + x;
  }
}
