/** From the configured list of symbols to the stream request (services/ingestion/main.cpp, src/live_source.cpp). */
module Symbols {
  import opened Ascii

  const PREFIX: string := "/stream?streams="
  const SUFFIX: string := "@trade"

  /** The parts of a text between separators. */
  function Fields(s: string, sep: char): (fs: seq<string>)
    ensures |fs| > 0
  {
    if s == [] then [[]]
    else
      var more := Fields(s[1..], sep);
      if s[0] == sep then [[]] + more else [[s[0]] + more[0]] + more[1..]
  }

  function Join(fs: seq<string>, sep: char): string {
    if fs == [] then [] else if |fs| == 1 then fs[0] else fs[0] + ([sep] + Join(fs[1..], sep))
  }

  predicate NoneContains(fs: seq<string>, c: char) { forall i :: 0 <= i < |fs| ==> c !in fs[i] }

  function NonEmpty(fs: seq<string>): seq<string> {
    if fs == [] then [] else (if fs[0] == [] then [] else [fs[0]]) + NonEmpty(fs[1..])
  }

  function Stream(symbol: string): string { Lowered(symbol) + SUFFIX }
  function Streams(symbols: seq<string>): seq<string> {
    seq(|symbols|, i requires 0 <= i < |symbols| => Stream(symbols[i]))
  }
  function LoweredAll(symbols: seq<string>): seq<string> {
    seq(|symbols|, i requires 0 <= i < |symbols| => Lowered(symbols[i]))
  }

  // ---- splitting and joining are inverse ----

  lemma {:induction false} FieldsJoined(s: string, sep: char)
    ensures Join(Fields(s, sep), sep) == s
    ensures NoneContains(Fields(s, sep), sep)
    decreases |s|
  {
    if s != [] {
      FieldsJoined(s[1..], sep);
      var more := Fields(s[1..], sep);
      if s[0] == sep {
        assert ([[]] + more)[1..] == more;
      } else {
        assert ([[s[0]] + more[0]] + more[1..])[1..] == more[1..];
      }
      assert s == [s[0]] + s[1..];
    }
  }

  lemma {:induction false} FirstField(f: string, rest: string, sep: char)
    requires sep !in f
    ensures Fields(f, sep) == [f]
    ensures Fields(f + ([sep] + rest), sep) == [f] + Fields(rest, sep)
    decreases |f|
  {
    var t := f + ([sep] + rest);
    if f == [] {
      assert t == [sep] + rest && t[1..] == rest;
    } else {
      assert t[1..] == f[1..] + ([sep] + rest);
      assert f == [f[0]] + f[1..];
      FirstField(f[1..], rest, sep);
    }
  }

  /** What is joined splits again into just the same parts if and only if none holds the separator. */
  lemma {:induction false} JoinedFields(fs: seq<string>, sep: char)
    requires fs != []
    ensures Fields(Join(fs, sep), sep) == fs <==> NoneContains(fs, sep)
    decreases |fs|
  {
    var t := Join(fs, sep);
    FieldsJoined(t, sep);
    if NoneContains(fs, sep) {
      FirstField(fs[0], Join(fs[1..], sep), sep);
      if |fs| > 1 { JoinedFields(fs[1..], sep); }
    }
  }

  // ---- the code ----

  /** std::getline with a separator. */
  method GetItem(t: string, sep: char) returns (item: string, rest: string)
    requires t != []
    ensures Fields(t, sep)[0] == item && |rest| < |t|
    ensures NonEmpty(Fields(t, sep)) == (if item == [] then [] else [item]) + NonEmpty(Fields(rest, sep))
  {
    var n := 0;
    while n < |t| && t[n] != sep
      invariant n <= |t| && sep !in t[..n]
    {
      n := n + 1;
    }
    item := t[..n];
    if n < |t| {
      rest := t[n + 1..];
      assert t == item + ([sep] + rest);
      FirstField(item, rest, sep);
    } else {
      rest := [];
      assert t == item;
      FirstField(item, [], sep);
    }
  }

  method SplitSymbols(csv: string) returns (symbols: seq<string>)
    ensures symbols == NonEmpty(Fields(csv, ','))
  {
    symbols := [];
    var ss := csv;
    while ss != []
      invariant symbols + NonEmpty(Fields(ss, ',')) == NonEmpty(Fields(csv, ','))
      decreases |ss|
    {
      var item, rest := GetItem(ss, ',');
      ss := rest;
      if item != [] { symbols := symbols + [item]; }
    }
  }

  lemma JoinSnoc(fs: seq<string>, f: string, sep: char)
    ensures Join(fs + [f], sep) == if fs == [] then f else Join(fs, sep) + ([sep] + f)
    decreases |fs|
  {
    if fs == [] {
      assert fs + [f] == [f];
    } else {
      assert (fs + [f])[1..] == fs[1..] + [f];
      JoinSnoc(fs[1..], f, sep);
    }
  }

  method BuildTarget(symbols: seq<string>) returns (target: string)
    ensures target == PREFIX + Join(Streams(symbols), '/')
  {
    target := PREFIX;
    for i := 0 to |symbols|
      invariant target == PREFIX + Join(Streams(symbols[..i]), '/')
    {
      assert Streams(symbols[..i + 1]) == Streams(symbols[..i]) + [Stream(symbols[i])];
      JoinSnoc(Streams(symbols[..i]), Stream(symbols[i]), '/');
      if i > 0 { target := target + "/"; }
      target := target + (Lowered(symbols[i]) + SUFFIX);
    }
    assert symbols[..|symbols|] == symbols;
  }

  // ---- the symbols can be read off the target ----

  /** Each part without its last six characters, which are the suffix. */
  function Recovered(target: string): seq<string>
    requires PREFIX <= target
  {
    var parts := Fields(target[|PREFIX|..], '/');
    seq(|parts|, i requires 0 <= i < |parts| =>
      if |parts[i]| < |SUFFIX| then parts[i] else parts[i][..|parts[i]| - |SUFFIX|])
  }

  lemma SlashInStream(symbol: string)
    ensures '/' in Stream(symbol) <==> '/' in symbol
  {
    if '/' in symbol {
      var i :| 0 <= i < |symbol| && symbol[i] == '/';
      assert Stream(symbol)[i] == '/';
    }
  }

  lemma Unsuffixed(symbol: string)
    ensures var p := Stream(symbol);
      |p| >= |SUFFIX| && p[..|p| - |SUFFIX|] == Lowered(symbol) && p[|p| - |SUFFIX|..] == SUFFIX
  {}

  lemma RecoveredIfJoined(symbols: seq<string>)
    requires symbols != [] && Fields(Join(Streams(symbols), '/'), '/') == Streams(symbols)
    ensures Recovered(PREFIX + Join(Streams(symbols), '/')) == LoweredAll(symbols)
  {
    var target := PREFIX + Join(Streams(symbols), '/');
    assert target[|PREFIX|..] == Join(Streams(symbols), '/');
    forall i | 0 <= i < |symbols| ensures Recovered(target)[i] == Lowered(symbols[i]) { Unsuffixed(symbols[i]); }
  }

  lemma {:induction false} MoreFields(s: string, t: string, sep: char)
    ensures |Fields(s + ([sep] + t), sep)| == |Fields(s, sep)| + |Fields(t, sep)|
    decreases |s|
  {
    var u := s + ([sep] + t);
    if s == [] {
      assert u[0] == sep && u[1..] == t;
    } else {
      assert u[1..] == s[1..] + ([sep] + t);
      MoreFields(s[1..], t, sep);
    }
  }

  lemma {:induction false} SeparatorSplits(s: string, sep: char)
    requires sep in s
    ensures |Fields(s, sep)| > 1
  {
    FieldsJoined(s, sep);
  }

  lemma {:induction false} FieldCount(fs: seq<string>, sep: char)
    requires fs != []
    ensures |Fields(Join(fs, sep), sep)| >= |fs|
    ensures !NoneContains(fs, sep) ==> |Fields(Join(fs, sep), sep)| > |fs|
    decreases |fs|
  {
    if sep in fs[0] { SeparatorSplits(fs[0], sep); }
    if |fs| > 1 {
      MoreFields(fs[0], Join(fs[1..], sep), sep);
      FieldCount(fs[1..], sep);
      if i :| 0 < i < |fs| && sep in fs[i] { assert fs[1..][i - 1] == fs[i]; }
    }
  }

  /**
    From a target that was built of some symbols, splitting at '/' and dropping the suffix
    gives back the lower-cased symbols if and only if no symbol contains a '/'.
  */
  lemma SymbolsFromTarget(symbols: seq<string>)
    requires symbols != []
    ensures Recovered(PREFIX + Join(Streams(symbols), '/')) == LoweredAll(symbols)
       <==> NoneContains(symbols, '/')
  {
    var parts := Streams(symbols);
    forall i | 0 <= i < |symbols| ensures '/' in parts[i] <==> '/' in symbols[i] { SlashInStream(symbols[i]); }
    JoinedFields(parts, '/');
    if NoneContains(symbols, '/') {
      RecoveredIfJoined(symbols);
    } else {
      FieldCount(parts, '/');
      assert (PREFIX + Join(parts, '/'))[|PREFIX|..] == Join(parts, '/');
    }
  }

  lemma {:induction false} NonEmptyFrom(fs: seq<string>)
    ensures forall f :: f in NonEmpty(fs) <==> f in fs && f != []
    decreases |fs|
  {
    if fs != [] {
      NonEmptyFrom(fs[1..]);
      assert fs == [fs[0]] + fs[1..];
    }
  }

  lemma {:induction false} JoinContains(fs: seq<string>, sep: char, c: char)
    requires c != sep
    ensures c !in Join(fs, sep) <==> NoneContains(fs, c)
    decreases |fs|
  {
    if |fs| > 1 {
      JoinContains(fs[1..], sep, c);
      if i :| 0 <= i < |fs| && c in fs[i] { assert i > 0 ==> fs[1..][i - 1] == fs[i]; }
    }
  }

  lemma SlashInSymbols(csv: string)
    ensures NoneContains(NonEmpty(Fields(csv, ',')), '/') <==> '/' !in csv
  {
    var fs, symbols := Fields(csv, ','), NonEmpty(Fields(csv, ','));
    FieldsJoined(csv, ',');
    NonEmptyFrom(fs);
    JoinContains(fs, ',', '/');
    if '/' in csv {
      var i :| 0 <= i < |fs| && '/' in fs[i];
      assert fs[i] in symbols;
      var j :| 0 <= j < |symbols| && symbols[j] == fs[i];
      assert '/' in symbols[j];
    } else {
      forall j | 0 <= j < |symbols| ensures '/' !in symbols[j] {
        assert symbols[j] in fs;
        var i :| 0 <= i < |fs| && fs[i] == symbols[j];
        assert '/' !in fs[i];
      }
    }
  }

  /**
    The whole way: the lower-cased non-empty fields of a comma-separated list are read off the
    target built for it if and only if the list does not contain a '/'.
  */
  method TargetFor(csv: string) returns (target: string)
    ensures var symbols := NonEmpty(Fields(csv, ','));
      && PREFIX <= target
      && (symbols == [] ==> target == PREFIX)
      && (symbols != [] ==> (Recovered(target) == LoweredAll(symbols) <==> '/' !in csv))
  {
    var symbols := SplitSymbols(csv);
    target := BuildTarget(symbols);
    if symbols != [] {
      SlashInSymbols(csv);
      SymbolsFromTarget(symbols);
    }
  }
}
