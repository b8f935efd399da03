/** Item ids in names (server/spec_backend.py): putting an id in front of a name exactly once, and reading it
    back. */
module ItemIds {
  import opened Decimals
  import opened Strings
  import opened Wrappers

  predicate IsAlnum(c: char) { IsLetter(c) || IsDigit(c) }

  /** What follows an id: an optional `]`, blanks, an optional `:` and blanks are skipped. */
  function AfterId(s: string): string {
    var a := LStrip(if StartsWith(s, "]") then s[1..] else s);
    LStrip(if StartsWith(a, ":") then a[1..] else a)
  }

  /** `s` starts with the id, in any case, and not with a longer one. */
  predicate HasId(s: string, id: string) {
    |id| <= |s| && Lower(s[..|id|]) == Lower(id) && (|s| > |id| ==> !IsAlnum(s[|id|]))
  }

  /** The pattern of `with_item_id`, once: the rest, if the text starts with the id, perhaps in brackets. */
  function WithoutId(s: string, id: string): Option<string> {
    if StartsWith(s, "[") && HasId(s[1..], id) then Some(AfterId(s[1..][|id|..]))
    else if HasId(s, id) then Some(AfterId(s[|id|..]))
    else None
  }

  lemma AfterIdShorter(s: string)
    ensures |AfterId(s)| <= |s|
    ensures AfterId(s) != "" ==> !IsSpace(AfterId(s)[0]) && AfterId(s)[|AfterId(s)| - 1] == s[|s| - 1]
  {
    var b := if StartsWith(s, "]") then s[1..] else s;
    var a := LStrip(b);
    var c := if StartsWith(a, ":") then a[1..] else a;
    LStripSuffix(b);
    LStripSuffix(c);
    LStripShorter(c);
  }

  lemma {:induction false} LStripSuffix(s: string)
    ensures |LStrip(s)| <= |s| && (LStrip(s) != "" ==> LStrip(s)[|LStrip(s)| - 1] == s[|s| - 1])
  {
    if s != "" && IsSpace(s[0]) { LStripSuffix(s[1..]); }
  }

  lemma WithoutIdShorter(s: string, id: string)
    requires id != "" && WithoutId(s, id).Some?
    ensures |WithoutId(s, id).value| < |s|
    ensures Trimmed(s) ==> Trimmed(WithoutId(s, id).value)
  {
    var t := if StartsWith(s, "[") && HasId(s[1..], id) then s[1..] else s;
    AfterIdShorter(t[|id|..]);
  }

  /** The name without any copy of the id in front. */
  function Bare(s: string, id: string): string
    requires id != ""
    decreases |s|
  {
    if WithoutId(s, id).None? then s
    else
      WithoutIdShorter(s, id);
      Bare(WithoutId(s, id).value, id)
  }

  function Prefixed(id: string, rest: string): string { if rest != "" then id + ": " + rest else id }

  /** `with_item_id` */
  method WithItemId(id: string, name: string) returns (r: string)
    requires id != ""
    ensures r == Prefixed(id, Bare(Strip(name), id))
  {
    var rest := Strip(name);
    while WithoutId(rest, id).Some?
      invariant Bare(rest, id) == Bare(Strip(name), id)
      decreases |rest|
    {
      WithoutIdShorter(rest, id);
      rest := WithoutId(rest, id).value;
    }
    r := Prefixed(id, rest);
  }

  // ── Exactly once ─────────────────────────────────────────────────

  lemma {:induction false} StripTrims(s: string)
    ensures Trimmed(Strip(s))
  {
    RStripEnds(s);
    var t := RStrip(s);
    LStripSuffix(t);
    LStripShorter(t);
  }

  lemma {:induction false} RStripEnds(s: string)
    ensures RStrip(s) != "" ==> !IsSpace(RStrip(s)[|RStrip(s)| - 1])
  {
    if s != "" && IsSpace(s[|s| - 1]) { RStripEnds(s[..|s| - 1]); }
  }

  lemma {:induction false} BareIsBare(s: string, id: string)
    requires id != "" && Trimmed(s)
    ensures WithoutId(Bare(s, id), id) == None && Trimmed(Bare(s, id))
    decreases |s|
  {
    if WithoutId(s, id).Some? {
      WithoutIdShorter(s, id);
      BareIsBare(WithoutId(s, id).value, id);
    }
  }

  /** An id starts and ends with a letter or digit. */
  predicate Solid(id: string) { id != "" && IsAlnum(id[0]) && IsAlnum(id[|id| - 1]) }

  lemma ColonSkipped(rest: string)
    requires rest != "" && !IsSpace(rest[0])
    ensures AfterId(": " + rest) == rest
  {
    var s := ": " + rest;
    LStripTrimmed(s, 0);
    assert s[1..] == " " + rest;
    LStripTrimmed(" " + rest, 1);
    assert (" " + rest)[1..] == rest;
  }

  lemma PrefixedOnce(id: string, rest: string)
    requires Solid(id) && Trimmed(rest)
    ensures WithoutId(Prefixed(id, rest), id) == Some(rest) && Trimmed(Prefixed(id, rest))
  {
    var s := Prefixed(id, rest);
    assert s[..|id|] == id;
    assert !StartsWith(s, "[") by { assert s[0] == id[0]; }
    if rest != "" {
      assert s[|id|..] == ": " + rest;
      ColonSkipped(rest);
      assert s[|s| - 1] == rest[|rest| - 1];
    } else {
      assert s[|id|..] == "";
    }
  }

  /** However often a name is given its id, it carries it in front exactly once: what follows does not start with
      it, and giving it again changes nothing. */
  lemma IdOnce(id: string, name: string)
    requires Solid(id)
    ensures var rest := Bare(Strip(name), id);
      WithoutId(rest, id) == None && Prefixed(id, Bare(Strip(Prefixed(id, rest)), id)) == Prefixed(id, rest)
  {
    var rest := Bare(Strip(name), id);
    StripTrims(name);
    BareIsBare(Strip(name), id);
    PrefixedOnce(id, rest);
    StripTrimmed(Prefixed(id, rest));
  }

  // ── Reading the id back ──────────────────────────────────────────

  /** `US-78`, `UC-004b`: a prefix, digits and perhaps a letter. */
  function IdAt(s: string, prefix: string): Option<string> {
    if !StartsWith(s, prefix + "-") then None
    else
      var n := |prefix| + 1;
      var digits := LeadingDigits(s[n..]);
      var m := n + |digits|;
      if digits == "" || m > |s| then None
      else if m < |s| && IsLetter(s[m]) then Some(s[..m + 1])
      else Some(s[..m])
  }

  /** `parse_item_id` */
  function ParseItemId(name: string, prefix: string): (string, string) {
    var s := if StartsWith(name, "[") && IdAt(name[1..], prefix).Some? then name[1..] else name;
    match IdAt(s, prefix)
    case None => ("", name)
    case Some(id) => if |id| > |s| then ("", name) else (id, Strip(FirstLine(AfterId(s[|id|..]))))
  }

  /** `.` stops at a line break. */
  function FirstLine(s: string): string { s[..IndexOf(s, '\n')] }

  /** An id as `parse_item_id` reads it. */
  predicate IsItemId(id: string, prefix: string) { IdAt(id, prefix) == Some(id) }

  lemma {:induction false} DigitsThen(s: string, t: string)
    requires LeadingDigits(s) == s || (s != "" && LeadingDigits(s) == s[..|s| - 1])
    requires t == "" || !IsDigit(t[0])
    requires LeadingDigits(s) != s ==> !IsDigit(s[|s| - 1])
    ensures LeadingDigits(s + t) == LeadingDigits(s)
  {
    if s == "" {
      assert s + t == t;
    } else {
      assert (s + t)[1..] == s[1..] + t;
      if IsDigit(s[0]) {
        assert LeadingDigits(s) == [s[0]] + LeadingDigits(s[1..]);
        if LeadingDigits(s) != s {
          assert LeadingDigits(s)[1..] == s[..|s| - 1][1..] == s[1..][..|s| - 2];
        } else {
          assert LeadingDigits(s)[1..] == s[1..];
        }
        DigitsThen(s[1..], t);
      }
    }
  }

  lemma {:induction false} LeadingSplit(s: string)
    ensures |LeadingDigits(s)| <= |s| && s[..|LeadingDigits(s)|] == LeadingDigits(s)
    ensures |LeadingDigits(s)| < |s| ==> !IsDigit(s[|LeadingDigits(s)|])
  {
    if s != "" && IsDigit(s[0]) { LeadingSplit(s[1..]); }
  }

  /** An id followed by something that cannot continue it is read as that id. */
  lemma IdThen(id: string, prefix: string, tail: string)
    requires IsItemId(id, prefix) && (tail == "" || !IsAlnum(tail[0]))
    ensures IdAt(id + tail, prefix) == Some(id)
  {
    var n := |prefix| + 1;
    var s := id + tail;
    assert s[..n] == id[..n];
    assert s[n..] == id[n..] + tail;
    LeadingSplit(id[n..]);
    var digits := LeadingDigits(id[n..]);
    assert |id| == n + |digits| || (|id| == n + |digits| + 1 && IsLetter(id[|id| - 1]));
    if |id| == n + |digits| { assert id[n..] == digits; } else { assert id[n..][..|digits|] == digits; }
    DigitsThen(id[n..], tail);
    assert s[..|id|] == id;
  }

  lemma OneLine(s: string)
    requires '\n' !in s && Trimmed(s)
    ensures Strip(FirstLine(s)) == s
  {
    IndexOfNone(s, '\n');
    assert s[..|s|] == s;
    StripTrimmed(s);
  }

  lemma ParseParts(s: string, prefix: string, id: string, tail: string)
    requires s != "" && s[0] != '[' && IdAt(s, prefix) == Some(id) && |id| <= |s| && s[|id|..] == tail
    ensures ParseItemId(s, prefix) == (id, Strip(FirstLine(AfterId(tail))))
  {
    hide IdAt;
    hide AfterId;
    hide FirstLine;
    hide Strip;
    assert !StartsWith(s, "[");
  }

  lemma TailReads(rest: string)
    requires Trimmed(rest)
    ensures AfterId(if rest != "" then ": " + rest else "") == rest
  {
    if rest != "" { ColonSkipped(rest); }
  }

  lemma PrefixedReads(id: string, prefix: string, rest: string)
    requires IsItemId(id, prefix) && Solid(id) && Trimmed(rest) && '\n' !in rest
    ensures ParseItemId(Prefixed(id, rest), prefix) == (id, rest)
  {
    hide AfterId;
    hide ParseItemId;
    hide FirstLine;
    hide IdAt;
    var tail := if rest != "" then ": " + rest else "";
    var s := Prefixed(id, rest);
    assert s == id + tail && s[|id|..] == tail && s[0] == id[0];
    IdThen(id, prefix, tail);
    TailReads(rest);
    OneLine(rest);
    ParseParts(s, prefix, id, tail);
  }

  /** A name that was given an id reads back as that id and the rest of the name. */
  lemma IdReadsBack(id: string, prefix: string, name: string)
    requires IsItemId(id, prefix) && Solid(id)
    requires '\n' !in Bare(Strip(name), id)
    ensures var rest := Bare(Strip(name), id); ParseItemId(Prefixed(id, rest), prefix) == (id, rest)
  {
    StripTrims(name);
    BareIsBare(Strip(name), id);
    PrefixedReads(id, prefix, Bare(Strip(name), id));
  }
}
