/** Strings as Python's text helpers see them: split and join on one separator,
    and `splitlines` with `\n` as the only line break. */
module Text {

  /** `s.split(c)` for a one-character separator: always at least one part. */
  function Split(s: string, c: char): (parts: seq<string>)
    ensures |parts| >= 1
    ensures forall i :: 0 <= i < |parts| ==> c !in parts[i]
  {
    if s == "" then [""]
    else
      var rest := Split(s[1..], c);
      if s[0] == c then [""] + rest else [[s[0]] + rest[0]] + rest[1..]
  }

  /** `c.join(parts)`. */
  function Join(parts: seq<string>, c: char): string {
    if |parts| == 0 then ""
    else if |parts| == 1 then parts[0]
    else parts[0] + [c] + Join(parts[1..], c)
  }

  lemma {:induction false} JoinSplit(s: string, c: char)
    ensures Join(Split(s, c), c) == s
  {
    if s != "" {
      var rest, parts := Split(s[1..], c), Split(s, c);
      JoinSplit(s[1..], c);
      assert s == [s[0]] + s[1..];
      if s[0] == c {
        assert parts[1..] == rest;
      } else {
        JoinFirst(s[0], rest, c);
      }
    }
  }

  /** A character in front of the first part comes out in front. */
  lemma JoinFirst(x: char, rest: seq<string>, c: char)
    requires rest != []
    ensures Join([[x] + rest[0]] + rest[1..], c) == [x] + Join(rest, c)
  {
    var parts := [[x] + rest[0]] + rest[1..];
    assert parts[1..] == rest[1..];
    if |rest| > 1 {
      var more := [c] + Join(rest[1..], c);
      assert Join(parts, c) == [x] + rest[0] + more;
      assert [x] + rest[0] + more == [x] + (rest[0] + more);
    }
  }

  lemma {:induction false} SplitPrefix(p: string, s: string, c: char)
    requires c !in p
    ensures Split(p + s, c) == [p + Split(s, c)[0]] + Split(s, c)[1..]
  {
    if p == "" {
      assert p + s == s;
      assert p + Split(s, c)[0] == Split(s, c)[0];
    } else {
      assert (p + s)[1..] == p[1..] + s;
      SplitPrefix(p[1..], s, c);
      assert p == [p[0]] + p[1..];
      assert [p[0]] + (p[1..] + Split(s, c)[0]) == p + Split(s, c)[0];
    }
  }

  lemma {:induction false} SplitJoin(parts: seq<string>, c: char)
    requires |parts| >= 1
    requires forall i :: 0 <= i < |parts| ==> c !in parts[i]
    ensures Split(Join(parts, c), c) == parts
  {
    if |parts| == 1 {
      SplitPrefix(parts[0], "", c);
      assert parts[0] + "" == parts[0];
    } else {
      var rest := [c] + Join(parts[1..], c);
      assert Join(parts, c) == parts[0] + rest;
      SplitPrefix(parts[0], rest, c);
      assert rest[1..] == Join(parts[1..], c);
      SplitJoin(parts[1..], c);
      assert Split(rest, c) == [""] + parts[1..];
      assert parts[0] + "" == parts[0];
      assert parts == [parts[0]] + parts[1..];
    }
  }

  /** `c.join` is a homomorphism on non-empty lists. */
  lemma {:induction false} JoinConcat(a: seq<string>, b: seq<string>, c: char)
    requires |a| >= 1 && |b| >= 1
    ensures Join(a + b, c) == Join(a, c) + [c] + Join(b, c)
  {
    if |a| == 1 {
      assert (a + b)[1..] == b;
    } else {
      assert (a + b)[1..] == a[1..] + b;
      JoinConcat(a[1..], b, c);
      assert Join(a + b, c) == a[0] + [c] + (Join(a[1..], c) + [c] + Join(b, c));
      assert Join(a, c) == a[0] + [c] + Join(a[1..], c);
    }
  }

  /** A line: no line break inside. */
  predicate IsLine(s: string) { '\n' !in s }

  predicate AllLines(ls: seq<string>) { forall i :: 0 <= i < |ls| ==> IsLine(ls[i]) }

  /** `content.endswith("\n")`. */
  predicate EndsNl(s: string) { s != "" && s[|s| - 1] == '\n' }

  /** `content.splitlines()`: a final line break ends the last line, it opens no new one. */
  function Lines(s: string): (ls: seq<string>)
    ensures AllLines(ls)
  {
    var parts := Split(s, '\n');
    if parts[|parts| - 1] == "" then parts[..|parts| - 1] else parts
  }

  /** `"\n".join(ls)`, plus the final line break when asked. */
  function Unlines(ls: seq<string>, nl: bool): string {
    Join(ls, '\n') + if nl then "\n" else ""
  }

  /** The lists of lines a text can have, given whether it ends in a line break. */
  predicate Printable(ls: seq<string>, nl: bool) {
    && AllLines(ls)
    && (if nl then ls != [] else ls == [] || ls[|ls| - 1] != "")
  }

  lemma {:induction false} SplitLast(s: string, c: char)
    ensures var parts := Split(s, c);
            (parts[|parts| - 1] == "") <==> (s == "" || s[|s| - 1] == c)
  {
    if s != "" {
      var tail := s[1..];
      var rest := Split(tail, c);
      SplitLast(tail, c);
      if tail == "" {
        assert rest == [""];
      } else {
        assert tail[|tail| - 1] == s[|s| - 1];
        SplitLastPart(s, c);
      }
    }
  }

  lemma SplitLastPart(s: string, c: char)
    requires |s| > 1
    ensures var parts, rest := Split(s, c), Split(s[1..], c);
      if |rest| == 1 && s[0] != c then parts == [[s[0]] + rest[0]] && rest == [s[1..]]
      else parts[|parts| - 1] == rest[|rest| - 1]
  {
    JoinSplit(s[1..], c);
  }

  lemma {:induction false} LinesUnlines(ls: seq<string>, nl: bool)
    requires Printable(ls, nl)
    ensures Lines(Unlines(ls, nl)) == ls
    ensures EndsNl(Unlines(ls, nl)) <==> nl
  {
    if nl {
      JoinConcat(ls, [""], '\n');
      assert Join(ls, '\n') + "\n" + "" == Unlines(ls, nl);
      SplitJoin(ls + [""], '\n');
      assert (ls + [""])[..|ls|] == ls;
    } else if ls == [] {
      assert Unlines(ls, nl) == "";
    } else {
      assert Unlines(ls, nl) == Join(ls, '\n');
      SplitJoin(ls, '\n');
      SplitLast(Join(ls, '\n'), '\n');
    }
  }

  lemma UnlinesLines(s: string)
    ensures Printable(Lines(s), EndsNl(s)) && Unlines(Lines(s), EndsNl(s)) == s
  {
    var parts := Split(s, '\n');
    JoinSplit(s, '\n');
    SplitLast(s, '\n');
    if parts[|parts| - 1] == "" {
      var front := parts[..|parts| - 1];
      assert parts == front + [""];
      if front != [] {
        JoinConcat(front, [""], '\n');
        assert Join([""], '\n') == "";
        assert s == Join(front, '\n') + "\n" + "";
      }
    } else {
      assert Join(parts, '\n') + "" == s;
    }
  }
}
