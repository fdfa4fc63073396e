module Ascii {
  /** std::tolower in the "C" locale. */
  function Lower(c: char): (l: char)
    ensures l == c <==> !('A' <= c <= 'Z')
  {
    if 'A' <= c <= 'Z' then (c as int + 32) as char else c
  }

  function Lowered(s: string): string { seq(|s|, i requires 0 <= i < |s| => Lower(s[i])) }
}
