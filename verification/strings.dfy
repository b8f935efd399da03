/** String helpers of Python's `str`: strip, find, lower. */
module Strings {
  import Text
  import opened Wrappers

  predicate IsSpace(c: char) { c == ' ' || c == '\t' || c == '\n' || c == '\r' || c == '\U{0B}' || c == '\U{0C}' }

  predicate IsLetter(c: char) { 'a' <= c <= 'z' || 'A' <= c <= 'Z' }

  function LStrip(s: string): string { if s != "" && IsSpace(s[0]) then LStrip(s[1..]) else s }

  function RStrip(s: string): string {
    if s != "" && IsSpace(s[|s| - 1]) then RStrip(s[..|s| - 1]) else s
  }

  function Strip(s: string): string { LStrip(RStrip(s)) }

  /** No white space at either end. */
  predicate Trimmed(s: string) { s == "" || (!IsSpace(s[0]) && !IsSpace(s[|s| - 1])) }

  predicate IsBlank(s: string) { forall i :: 0 <= i < |s| ==> IsSpace(s[i]) }

  /** `s.split()[0]` of a text without leading white space. */
  function FirstToken(s: string): string {
    if s == "" || IsSpace(s[0]) then "" else [s[0]] + FirstToken(s[1..])
  }

  /** The position of the first `c`, or the length. */
  function IndexOf(s: string, c: char): (i: nat)
    ensures i <= |s| && (i < |s| ==> s[i] == c)
  {
    if s == "" || s[0] == c then 0 else 1 + IndexOf(s[1..], c)
  }

  /** The position of the first occurrence of `part`, if any. */
  function Find(s: string, part: string): Option<nat> {
    if part <= s then Some(0)
    else if s == "" then None
    else
      match Find(s[1..], part)
      case None => None
      case Some(i) => Some(i + 1)
  }

  predicate StartsWith(s: string, prefix: string) { |prefix| <= |s| && s[..|prefix|] == prefix }

  function LowerChar(c: char): char { if 'A' <= c <= 'Z' then (c as int + 32) as char else c }

  function Lower(s: string): string { seq(|s|, i requires 0 <= i < |s| => LowerChar(s[i])) }

  function Underscored(s: string): string {
    seq(|s|, i requires 0 <= i < |s| => if s[i] == ' ' then '_' else s[i])
  }

  /** `key.strip().lower().replace(" ", "_")`. */
  function NormKey(name: string): string { Underscored(Lower(Strip(name))) }

  /** `[p.strip() for p in parts if p.strip()]` */
  function Stripped(parts: seq<string>): seq<string> {
    if parts == [] then []
    else if Strip(parts[0]) == "" then Stripped(parts[1..])
    else [Strip(parts[0])] + Stripped(parts[1..])
  }

  lemma {:induction false} LStripShorter(s: string)
    ensures |LStrip(s)| <= |s| && (LStrip(s) != "" ==> !IsSpace(LStrip(s)[0]))
  {
    if s != "" && IsSpace(s[0]) { LStripShorter(s[1..]); }
  }

  lemma {:induction false} LStripTrimmed(s: string, n: nat)
    requires n <= |s| && (forall i :: 0 <= i < n ==> IsSpace(s[i])) && (n < |s| ==> !IsSpace(s[n]))
    ensures LStrip(s) == s[n..]
  {
    if n > 0 {
      LStripTrimmed(s[1..], n - 1);
      assert s[1..][n - 1..] == s[n..];
    }
  }

  lemma StripTrimmed(s: string)
    requires Trimmed(s)
    ensures LStrip(s) == s && RStrip(s) == s && Strip(s) == s
  {
  }

  lemma {:induction false} IndexOfFirst(s: string, c: char, rest: string)
    requires c !in s
    ensures IndexOf(s + [c] + rest, c) == |s|
  {
    var whole := s + [c] + rest;
    if s != "" {
      assert whole[1..] == s[1..] + [c] + rest;
      IndexOfFirst(s[1..], c, rest);
    }
  }

  lemma {:induction false} IndexOfNone(s: string, c: char)
    requires c !in s
    ensures IndexOf(s, c) == |s|
  {
    if s != "" { IndexOfNone(s[1..], c); }
  }

  lemma {:induction false} FirstLine(s: string)
    ensures StartsWith(s, Text.Split(s, '\n')[0])
  {
    if s != "" && s[0] != '\n' {
      FirstLine(s[1..]);
      var l := Text.Split(s[1..], '\n')[0];
      assert s[1..][..|l|] == l;
      assert s[..|l| + 1] == [s[0]] + l;
    }
  }

  /** A line that starts with a phrase makes the text contain it. */
  lemma {:induction false} LineMakesPhrase(s: string, k: nat, phrase: string)
    requires phrase != "" && k < |Text.Split(s, '\n')| && StartsWith(Text.Split(s, '\n')[k], phrase)
    ensures Find(s, phrase).Some?
  {
    var parts := Text.Split(s, '\n');
    if k == 0 {
      FirstLine(s);
      var l := parts[0];
      assert s[..|phrase|] == s[..|l|][..|phrase|] == phrase;
      assert phrase <= s;
    } else {
      var rest := Text.Split(s[1..], '\n');
      if s[0] == '\n' {
        assert parts[k] == rest[k - 1];
        LineMakesPhrase(s[1..], k - 1, phrase);
      } else {
        assert parts[k] == rest[k];
        LineMakesPhrase(s[1..], k, phrase);
      }
    }
  }

  lemma {:induction false} FindShorter(s: string, n: nat, phrase: string)
    requires n <= |s| && Find(s[n..], phrase).Some?
    ensures Find(s, phrase).Some?
  {
    if n > 0 {
      assert s[1..][n - 1..] == s[n..];
      FindShorter(s[1..], n - 1, phrase);
    } else {
      assert s[0..] == s;
    }
  }

  /** Code point order on strings. */
  predicate AtMost(a: string, b: string) {
    a == "" || (b != "" && (a[0] < b[0] || (a[0] == b[0] && AtMost(a[1..], b[1..]))))
  }

  lemma {:induction false} AtMostTotal(a: string, b: string)
    ensures AtMost(a, b) || AtMost(b, a)
    ensures AtMost(a, b) && AtMost(b, a) ==> a == b
  {
    if a != "" && b != "" {
      AtMostTotal(a[1..], b[1..]);
      assert a == [a[0]] + a[1..] && b == [b[0]] + b[1..];
    }
  }

  lemma {:induction false} AtMostTransitive(a: string, b: string, c: string)
    requires AtMost(a, b) && AtMost(b, c)
    ensures AtMost(a, c)
  {
    if a != "" && a[0] == b[0] == c[0] { AtMostTransitive(a[1..], b[1..], c[1..]); }
  }

  // ── What a strip leaves ──────────────────────────────────────────

  /** What is left of a text without the white space around it. */
  ghost predicate IsStripped(s: string, core: string) {
    Trimmed(core) && exists a, b :: s == a + core + b && IsBlank(a) && IsBlank(b)
  }

  lemma {:induction false} LStripCuts(s: string)
    ensures var n := |s| - |LStrip(s)|;
      n >= 0 && s[n..] == LStrip(s) && IsBlank(s[..n]) && (LStrip(s) != "" ==> !IsSpace(LStrip(s)[0]))
  {
    if s != "" && IsSpace(s[0]) {
      LStripCuts(s[1..]);
      var n := |s[1..]| - |LStrip(s[1..])|;
      assert s[..n + 1] == [s[0]] + s[1..][..n];
    }
  }

  lemma {:induction false} RStripCuts(s: string)
    ensures var n := |RStrip(s)|;
      n <= |s| && s[..n] == RStrip(s) && IsBlank(s[n..]) && (n > 0 ==> !IsSpace(RStrip(s)[n - 1]))
  {
    if s != "" && IsSpace(s[|s| - 1]) {
      RStripCuts(s[..|s| - 1]);
      var n := |RStrip(s[..|s| - 1])|;
      assert s[n..] == s[..|s| - 1][n..] + [s[|s| - 1]];
    }
  }

  lemma StripCuts(s: string)
    ensures IsStripped(s, Strip(s)) && (Strip(s) == "" <==> IsBlank(s))
  {
    var r := RStrip(s);
    LStripCuts(r);
    RStripCuts(s);
    var n := |r| - |LStrip(r)|;
    assert s == r[..n] + Strip(s) + s[|r|..];
  }
}
