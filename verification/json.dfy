/**
  JSON text as far as captures and messages use it: values, numbers, strings, and a strict
  parser of one whole text (RFC 8259).  Characters are Unicode scalar values.
*/
module Json {
  import opened Options

  // ---- numbers ----

  predicate IsDigit(c: char) { '0' <= c <= '9' }
  predicate IsNumberChar(c: char) { IsDigit(c) || c == '+' || c == '-' || c == '.' || c == 'e' || c == 'E' }

  function DigitsLen(t: string): (n: nat)
    ensures n <= |t|
  {
    if t == [] || !IsDigit(t[0]) then 0 else 1 + DigitsLen(t[1..])
  }

  predicate ValidExponent(t: string) {
    t == [] ||
    ((t[0] == 'e' || t[0] == 'E') &&
     var u := if |t| > 1 && (t[1] == '+' || t[1] == '-') then t[2..] else t[1..];
     |u| > 0 && DigitsLen(u) == |u|)
  }

  predicate ValidFraction(t: string) {
    if t != [] && t[0] == '.' then
      var n := DigitsLen(t[1..]);
      n > 0 && ValidExponent(t[1 + n..])
    else ValidExponent(t)
  }

  /** The number grammar of section 6 of RFC 8259. */
  predicate ValidNumber(t: string) {
    var u := Unsigned(t);
    var n := DigitsLen(u);
    n > 0 && (u[0] == '0' ==> n == 1) && ValidFraction(u[n..])
  }

  function Unsigned(t: string): string { if t != [] && t[0] == '-' then t[1..] else t }

  predicate AllDigits(t: string) { forall i :: 0 <= i < |t| ==> IsDigit(t[i]) }

  /** Without fraction and exponent. */
  predicate IsIntegral(t: string) { AllDigits(Unsigned(t)) }

  type NumberToken = t: string | ValidNumber(t) witness "0"

  function DigitValue(c: char): nat
    requires IsDigit(c)
  {
    c as int - '0' as int
  }

  function DigitChar(d: nat): (c: char)
    requires d < 10
    ensures IsDigit(c) && DigitValue(c) == d
  {
    ('0' as int + d) as char
  }

  function NatValue(t: string): nat
    requires AllDigits(t)
  {
    if t == [] then 0 else NatValue(t[..|t| - 1]) * 10 + DigitValue(t[|t| - 1])
  }

  function NatText(n: nat): string {
    if n < 10 then [DigitChar(n)] else NatText(n / 10) + [DigitChar(n % 10)]
  }

  function IntText(i: int): string { if i < 0 then "-" + NatText(-i) else NatText(i) }

  const MIN_INT64: int := -0x8000_0000_0000_0000
  const MAX_INT64: int := 0x7FFF_FFFF_FFFF_FFFF
  const MAX_UINT64: int := 0xFFFF_FFFF_FFFF_FFFF

  // ---- values ----

  /** An integral number is a JInt when it fits 64 bits, signed or unsigned; else it is a JFloat. */
  datatype Value =
    | JNull
    | JBool(b: bool)
    | JInt(i: int)
    | JFloat(token: NumberToken)
    | JString(s: string)
    | JArray(elements: seq<Value>)
    | JObject(members: map<string, Value>)

  function NumberValue(t: string): Option<Value> {
    if !ValidNumber(t) then None
    else if IsIntegral(t) then
      var n := NatValue(Unsigned(t));
      var i := if t[0] == '-' then -(n as int) else n as int;
      if MIN_INT64 <= i <= MAX_UINT64 then Some(JInt(i)) else Some(JFloat(t))
    else Some(JFloat(t))
  }

  // ---- parsing ----

  datatype Parsed<T> = Fail | Got(value: T, rest: string)

  predicate IsSpace(c: char) { c == ' ' || c == '\t' || c == '\n' || c == '\r' }

  function SkipSpace(t: string): (r: string)
    ensures |r| <= |t|
  {
    if t != [] && IsSpace(t[0]) then SkipSpace(t[1..]) else t
  }

  function HexValue(c: char): Option<nat> {
    if '0' <= c <= '9' then Some(c as int - '0' as int)
    else if 'a' <= c <= 'f' then Some(c as int - 'a' as int + 10)
    else if 'A' <= c <= 'F' then Some(c as int - 'A' as int + 10)
    else None
  }

  /** Four hexadecimal digits. */
  function Hex4(t: string): (r: Option<nat>)
    ensures r.Some? ==> |t| >= 4 && r.value < 0x10000
  {
    if |t| < 4 then None
    else
      var a, b, c, d := HexValue(t[0]), HexValue(t[1]), HexValue(t[2]), HexValue(t[3]);
      if a.Some? && b.Some? && c.Some? && d.Some? && a.value < 16 && b.value < 16 && c.value < 16 && d.value < 16 then
        Some(((a.value * 16 + b.value) * 16 + c.value) * 16 + d.value)
      else None
  }

  /** What follows a backslash (section 7 of RFC 8259); surrogates must come in pairs. */
  function ParseEscape(t: string): (r: Parsed<char>)
    ensures r.Got? ==> |r.rest| < |t|
  {
    if t == [] then Fail
    else match t[0]
      case '\"' => Got('\"', t[1..])
      case '\\' => Got('\\', t[1..])
      case '/' => Got('/', t[1..])
      case 'b' => Got(8 as char, t[1..])
      case 'f' => Got(12 as char, t[1..])
      case 'n' => Got('\n', t[1..])
      case 'r' => Got('\r', t[1..])
      case 't' => Got('\t', t[1..])
      case 'u' => ParseUnicode(t[1..])
      case _ => Fail
  }

  function ParseUnicode(t: string): (r: Parsed<char>)
    ensures r.Got? ==> |r.rest| < |t|
  {
    match Hex4(t)
    case None => Fail
    case Some(hi) =>
      if hi < 0xD800 || 0xE000 <= hi then Got(hi as char, t[4..])
      else if hi < 0xDC00 && |t| >= 6 && t[4] == '\\' && t[5] == 'u' then
        (match Hex4(t[6..])
         case None => Fail
         case Some(lo) =>
           if 0xDC00 <= lo < 0xE000 then
             Got((0x10000 + (hi - 0xD800) * 0x400 + (lo - 0xDC00)) as char, t[10..])
           else Fail)
      else Fail
  }

  /** The characters of a string after its opening quote, up to and with the closing one. */
  function ParseChars(t: string): (r: Parsed<string>)
    ensures r.Got? ==> |r.rest| < |t|
    decreases |t|
  {
    if t == [] then Fail
    else if t[0] == '\"' then Got([], t[1..])
    else if t[0] == '\\' then
      var e := ParseEscape(t[1..]);
      if e.Fail? then Fail
      else
        var r := ParseChars(e.rest);
        if r.Fail? then Fail else Got([e.value] + r.value, r.rest)
    else if t[0] < ' ' then Fail
    else
      var r := ParseChars(t[1..]);
      if r.Fail? then Fail else Got([t[0]] + r.value, r.rest)
  }

  function NumberLen(t: string): (n: nat)
    ensures n <= |t|
  {
    if t == [] || !IsNumberChar(t[0]) then 0 else 1 + NumberLen(t[1..])
  }

  function ParseNumber(t: string): (r: Parsed<Value>)
    ensures r.Got? ==> |r.rest| < |t|
  {
    var n := NumberLen(t);
    var v := NumberValue(t[..n]);
    if n == 0 || v.None? then Fail else Got(v.value, t[n..])
  }

  function ParseWord(t: string, word: string, v: Value): (r: Parsed<Value>)
    requires |word| > 0
    ensures r.Got? ==> |r.rest| < |t|
  {
    if word <= t then Got(v, t[|word|..]) else Fail
  }

  function ParseValue(t: string): (r: Parsed<Value>)
    ensures r.Got? ==> |r.rest| < |t|
    decreases |t|, 1
  {
    if t == [] then Fail
    else if t[0] == '{' then
      var u := SkipSpace(t[1..]);
      if u != [] && u[0] == '}' then Got(JObject(map[]), u[1..]) else ParseMembers(u, map[])
    else if t[0] == '[' then
      var u := SkipSpace(t[1..]);
      if u != [] && u[0] == ']' then Got(JArray([]), u[1..]) else ParseElements(u, [])
    else if t[0] == '\"' then
      var r := ParseChars(t[1..]);
      if r.Fail? then Fail else Got(JString(r.value), r.rest)
    else if t[0] == 't' then ParseWord(t, "true", JBool(true))
    else if t[0] == 'f' then ParseWord(t, "false", JBool(false))
    else if t[0] == 'n' then ParseWord(t, "null", JNull)
    else ParseNumber(t)
  }

  /** A key, a colon and a value. */
  function ParseMember(t: string): (r: Parsed<(string, Value)>)
    ensures r.Got? ==> |r.rest| < |t|
    decreases |t|, 0
  {
    if t == [] || t[0] != '\"' then Fail
    else
      var key := ParseChars(t[1..]);
      if key.Fail? then Fail
      else
        var u := SkipSpace(key.rest);
        if u == [] || u[0] != ':' then Fail
        else
          var v := ParseValue(SkipSpace(u[1..]));
          if v.Fail? then Fail else Got((key.value, v.value), v.rest)
  }

  /** The members of a non-empty object and its closing brace; of equal keys the last one counts. */
  function ParseMembers(t: string, acc: map<string, Value>): (r: Parsed<Value>)
    ensures r.Got? ==> |r.rest| < |t|
    decreases |t|, 2
  {
    var m := ParseMember(t);
    if m.Fail? then Fail
    else
      var acc' := acc[m.value.0 := m.value.1];
      var w := SkipSpace(m.rest);
      if w == [] then Fail
      else if w[0] == '}' then Got(JObject(acc'), w[1..])
      else if w[0] == ',' then ParseMembers(SkipSpace(w[1..]), acc')
      else Fail
  }

  function ParseElements(t: string, acc: seq<Value>): (r: Parsed<Value>)
    ensures r.Got? ==> |r.rest| < |t|
    decreases |t|, 2
  {
    var v := ParseValue(t);
    if v.Fail? then Fail
    else
      var w := SkipSpace(v.rest);
      if w == [] then Fail
      else if w[0] == ']' then Got(JArray(acc + [v.value]), w[1..])
      else if w[0] == ',' then ParseElements(SkipSpace(w[1..]), acc + [v.value])
      else Fail
  }

  /** One whole text: a value with nothing but white space around it. */
  function ParseText(t: string): Option<Value> {
    var r := ParseValue(SkipSpace(t));
    if r.Got? && SkipSpace(r.rest) == [] then Some(r.value) else None
  }

  // ---- printing ----

  function HexChar(d: nat): char
    requires d < 16
  {
    if d < 10 then ('0' as int + d) as char else ('a' as int + (d - 10)) as char
  }

  function EscapeChar(c: char): string {
    if c == '\"' then "\\\""
    else if c == '\\' then "\\\\"
    else if c == 8 as char then "\\b"
    else if c == 12 as char then "\\f"
    else if c == '\n' then "\\n"
    else if c == '\r' then "\\r"
    else if c == '\t' then "\\t"
    else if c < ' ' then "\\u00" + [HexChar(c as int / 16), HexChar(c as int % 16)]
    else [c]
  }

  function EscapeAll(s: string): string { if s == [] then [] else EscapeChar(s[0]) + EscapeAll(s[1..]) }

  function Quote(s: string): string { "\"" + EscapeAll(s) + "\"" }

  /** The scalars a flat object is printed with. */
  predicate Printable(v: Value) {
    match v
    case JNull => true
    case JInt(i) => MIN_INT64 <= i <= MAX_UINT64
    case JFloat(t) => !IsIntegral(t)
    case JString(_) => true
    case _ => false
  }

  function PrintScalar(v: Value): string
    requires Printable(v)
  {
    match v
    case JNull => "null"
    case JInt(i) => IntText(i)
    case JFloat(t) => t
    case JString(s) => Quote(s)
  }

  predicate PrintableMembers(ms: seq<(string, Value)>) { forall i :: 0 <= i < |ms| ==> Printable(ms[i].1) }

  function PrintMember(k: string, v: Value): string
    requires Printable(v)
  {
    Quote(k) + ":" + PrintScalar(v)
  }

  function PrintMembers(ms: seq<(string, Value)>): string
    requires |ms| > 0 && PrintableMembers(ms)
  {
    PrintMember(ms[0].0, ms[0].1) + (if |ms| == 1 then "}" else "," + PrintMembers(ms[1..]))
  }

  function PrintObject(ms: seq<(string, Value)>): string
    requires |ms| > 0 && PrintableMembers(ms)
  {
    "{" + PrintMembers(ms)
  }

  /** The object whose members are listed; of equal keys the last one counts. */
  function AsMap(ms: seq<(string, Value)>, acc: map<string, Value> := map[]): map<string, Value> {
    if ms == [] then acc else AsMap(ms[1..], acc[ms[0].0 := ms[0].1])
  }
}
