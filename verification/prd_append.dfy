/** Appending an implementation status to a PRD (server/prd_writer.py): what the parser finds afterwards is what
    it found before and the new use case. */
module PrdAppend {
  import Text
  import opened Strings
  import opened PrdText
  import opened PrdRoundTrip
  import opened Wrappers

  // ── Lines of texts put together ──────────────────────────────────

  lemma TrimConcat(a: seq<string>, b: seq<string>)
    ensures TrimAll(a + b) == TrimAll(a) + TrimAll(b)
  {
  }

  lemma LinesConcat(a: string, b: string)
    ensures TrimmedLines(a + "\n" + b) == TrimmedLines(a) + TrimmedLines(b)
  {
    var p, q := Text.Split(a, '\n'), Text.Split(b, '\n');
    Text.JoinSplit(a, '\n');
    Text.JoinSplit(b, '\n');
    Text.JoinConcat(p, q, '\n');
    Text.SplitJoin(p + q, '\n');
    TrimConcat(p, q);
  }

  lemma {:induction false} JoinLast(parts: seq<string>, c: char, x: string)
    requires parts != []
    ensures var n := |parts| - 1; Text.Join(parts[..n] + [parts[n] + x], c) == Text.Join(parts, c) + x
  {
    var n := |parts| - 1;
    var more := parts[..n] + [parts[n] + x];
    if n == 0 {
      assert more == [parts[0] + x];
    } else {
      JoinLast(parts[1..], c, x);
      assert more[1..] == parts[1..][..n - 1] + [parts[1..][n - 1] + x];
    }
  }

  lemma SplitLastChar(s: string, x: char)
    requires x != '\n'
    ensures var p := Text.Split(s, '\n'); Text.Split(s + [x], '\n') == p[..|p| - 1] + [p[|p| - 1] + [x]]
  {
    var p := Text.Split(s, '\n');
    Text.JoinSplit(s, '\n');
    JoinLast(p, '\n', [x]);
    Text.SplitJoin(p[..|p| - 1] + [p[|p| - 1] + [x]], '\n');
  }

  lemma OneBlankChar(s: string, x: char)
    requires IsSpace(x)
    ensures TrimmedLines(s + [x]) == TrimmedLines(s) + if x == '\n' then [""] else []
  {
    if x == '\n' {
      LinesConcat(s, "");
      assert s + "\n" + "" == s + [x];
    } else {
      SplitLastChar(s, x);
      var p := Text.Split(s, '\n');
      var last := p[|p| - 1];
      assert (last + [x])[..|last|] == last;
      assert TrimmedLines(s + [x]) == TrimmedLines(s);
    }
  }

  function Blanks(n: nat): seq<string> { if n == 0 then [] else Blanks(n - 1) + [""] }

  /** The line breaks in the white space at the end. */
  function TailBreaks(s: string): nat {
    if s != "" && IsSpace(s[|s| - 1]) then TailBreaks(s[..|s| - 1]) + (if s[|s| - 1] == '\n' then 1 else 0) else 0
  }

  /** Stripping the end of a text takes away blank lines and nothing else. */
  lemma {:induction false} RStripLines(s: string)
    ensures TrimmedLines(s) == TrimmedLines(RStrip(s)) + Blanks(TailBreaks(s))
  {
    if s != "" && IsSpace(s[|s| - 1]) {
      var front := s[..|s| - 1];
      RStripLines(front);
      OneBlankChar(front, s[|s| - 1]);
      assert s == front + [s[|s| - 1]];
    } else {
      assert Blanks(0) == [];
    }
  }

  // ── Blocks ───────────────────────────────────────────────────────

  lemma BlocksMore(isHead: string -> bool, lines: seq<string>, x: string)
    ensures var bs := Blocks(isHead, lines);
      Blocks(isHead, lines + [x]) ==
        if isHead(x) then bs + [[x]]
        else if bs == [] then [] else bs[..|bs| - 1] + [bs[|bs| - 1] + [x]]
  {
    assert (lines + [x])[..|lines|] == lines;
  }

  lemma {:induction false} BlocksOfHeaded(isHead: string -> bool, lines: seq<string>)
    requires lines != [] && isHead(lines[0])
    ensures Blocks(isHead, lines) != []
  {
    var n := |lines| - 1;
    assert lines == lines[..n] + [lines[n]];
    BlocksMore(isHead, lines[..n], lines[n]);
    if n > 0 { BlocksOfHeaded(isHead, lines[..n]); }
  }

  lemma BlocksNone(isHead: string -> bool)
    ensures Blocks(isHead, []) == []
  {
  }

  /** Lines that begin with a head start blocks of their own. */
  lemma {:induction false} BlocksConcat(isHead: string -> bool, a: seq<string>, b: seq<string>)
    requires b != [] && isHead(b[0])
    ensures Blocks(isHead, a + b) == Blocks(isHead, a) + Blocks(isHead, b)
  {
    hide Blocks;
    var n := |b| - 1;
    var front, x := b[..n], b[n];
    assert b == front + [x];
    assert a + b == a + front + [x];
    BlocksMore(isHead, a + front, x);
    BlocksMore(isHead, front, x);
    if n == 0 {
      BlocksNone(isHead);
      assert a + front == a && front == [];
    } else {
      BlocksConcat(isHead, a, front);
      BlocksOfHeaded(isHead, front);
      var bs, cs := Blocks(isHead, a), Blocks(isHead, front);
      if !isHead(x) {
        assert (bs + cs)[..|bs + cs| - 1] == bs + cs[..|cs| - 1];
      }
    }
  }

  ghost predicate Headless(isHead: string -> bool, lines: seq<string>) {
    forall i :: 0 <= i < |lines| ==> !isHead(lines[i])
  }

  lemma {:induction false} NoBlocks(isHead: string -> bool, lines: seq<string>)
    requires Headless(isHead, lines)
    ensures Blocks(isHead, lines) == []
  {
    if lines != [] {
      var n := |lines| - 1;
      NoBlocks(isHead, lines[..n]);
    }
  }

  lemma {:induction false} OneBlock(isHead: string -> bool, lines: seq<string>)
    requires lines != [] && isHead(lines[0]) && Headless(isHead, lines[1..])
    ensures Blocks(isHead, lines) == [lines]
  {
    var n := |lines| - 1;
    var front, x := lines[..n], lines[n];
    assert lines == front + [x];
    BlocksMore(isHead, front, x);
    if n > 0 {
      assert x == lines[1..][n - 1];
      forall i | 0 <= i < |front[1..]| ensures !isHead(front[1..][i]) { assert front[1..][i] == lines[1..][i]; }
      OneBlock(isHead, front);
    } else {
      assert Blocks(isHead, front) == [];
    }
  }

  lemma {:induction false} ParseUcsConcat(a: seq<seq<string>>, b: seq<seq<string>>)
    requires forall i :: 0 <= i < |a| ==> a[i] != []
    requires forall i :: 0 <= i < |b| ==> b[i] != []
    ensures forall i :: 0 <= i < |a + b| ==> (a + b)[i] != []
    ensures ParseUcs(a + b) == ParseUcs(a) + ParseUcs(b)
  {
    hide ParseUc;
    if b == [] {
      assert a + b == a;
    } else {
      assert (a + b)[..|a + b| - 1] == a + b[..|b| - 1];
      ParseUcsConcat(a, b[..|b| - 1]);
    }
  }

  lemma {:induction false} ParsePhasesConcat(a: seq<seq<string>>, b: seq<seq<string>>)
    requires forall i :: 0 <= i < |a| ==> a[i] != []
    requires forall i :: 0 <= i < |b| ==> b[i] != []
    ensures forall i :: 0 <= i < |a + b| ==> (a + b)[i] != []
    ensures ParsePhases(a + b) == ParsePhases(a) + ParsePhases(b)
  {
    hide ParsePhase;
    if b == [] {
      assert a + b == a;
    } else {
      assert (a + b)[..|a + b| - 1] == a + b[..|b| - 1];
      ParsePhasesConcat(a, b[..|b| - 1]);
    }
  }

  // ── Blank lines at the end do not matter ─────────────────────────

  lemma BlankIsNothing()
    ensures !IsPhaseHead("") && !IsUcHead("") && !IsSectionHead("") && FieldOf("") == None
    ensures forall mark: string :: mark != "" ==> Find(Lower(""), mark) == None
  {
    NotHead("");
    NotField("");
    forall mark: string | mark != "" ensures Find(Lower(""), mark) == None { assert Lower("") == ""; }
  }

  lemma PhaseBlank(block: seq<string>)
    requires block != []
    ensures ParsePhase(block + [""]) == ParsePhase(block)
  {
    BlankIsNothing();
    assert (block + [""])[..|block|] == block;
  }

  lemma ExtendedPhases(bs: seq<seq<string>>)
    requires bs != [] && forall i :: 0 <= i < |bs| ==> bs[i] != []
    ensures var n := |bs| - 1; ParsePhases(bs[..n] + [bs[n] + [""]]) == ParsePhases(bs)
  {
    hide ParsePhase;
    var n := |bs| - 1;
    PhaseBlank(bs[n]);
    var more := bs[..n] + [bs[n] + [""]];
    assert more[..n] == bs[..n];
  }

  lemma {:induction false} MarkBlank(lines: seq<string>, mark: string)
    requires mark != ""
    ensures MarkedText(lines + [""], mark) == MarkedText(lines, mark)
  {
    BlankIsNothing();
    if lines == [] {
      assert lines + [""] == [""] && [""][1..] == [];
    } else {
      assert (lines + [""])[1..] == lines[1..] + [""];
      MarkBlank(lines[1..], mark);
    }
  }

  lemma UcBlank(block: seq<string>)
    requires block != []
    ensures ParseUc(block + [""]) == ParseUc(block)
  {
    BlankIsNothing();
    MarkBlank(block, "**timestamp:**");
    MarkBlank(block, "**branch:**");
    BlocksMore(IsPhaseHead, block, "");
    if Blocks(IsPhaseHead, block) != [] { ExtendedPhases(Blocks(IsPhaseHead, block)); }
  }

  lemma {:induction false} SectionConcat(a: seq<string>, b: seq<string>)
    ensures Section(a + b) == if Section(a) != [] then Section(a) + b else Section(b)
  {
    if a == [] {
      assert a + b == b;
    } else {
      assert (a + b)[1..] == a[1..] + b;
      SectionConcat(a[1..], b);
    }
  }

  predicate HasSection(lines: seq<string>) { Section(lines) != [] }

  lemma OneBlankLine(lines: seq<string>)
    ensures ParseLines(lines + [""]) == ParseLines(lines)
    ensures HasSection(lines + [""]) == HasSection(lines)
  {
    BlankIsNothing();
    SectionConcat(lines, [""]);
    assert Section([""]) == [] by { assert [""][1..] == []; }
    var s := Section(lines);
    if s != [] {
      BlocksMore(IsUcHead, s, "");
      var bs := Blocks(IsUcHead, s);
      if bs != [] {
        var n := |bs| - 1;
        UcBlank(bs[n]);
        var more := bs[..n] + [bs[n] + [""]];
        assert more[..n] == bs[..n];
      }
    }
  }

  lemma {:induction false} BlankLines(lines: seq<string>, n: nat)
    ensures ParseLines(lines + Blanks(n)) == ParseLines(lines)
    ensures HasSection(lines + Blanks(n)) == HasSection(lines)
  {
    hide ParseLines;
    hide HasSection;
    if n == 0 {
      assert lines + Blanks(0) == lines;
    } else {
      var before, after := lines + Blanks(n - 1), lines + Blanks(n);
      BlankLines(lines, n - 1);
      assert after == before + [""];
      BlankStep(before, after);
    }
  }

  lemma BlankStep(before: seq<string>, after: seq<string>)
    requires after == before + [""]
    ensures ParseLines(after) == ParseLines(before) && HasSection(after) == HasSection(before)
  {
    OneBlankLine(before);
  }

  // ── The section and the phrase ───────────────────────────────────

  lemma {:induction false} RStripPrefix(s: string)
    ensures StartsWith(s, RStrip(s))
  {
    if s != "" && IsSpace(s[|s| - 1]) { RStripPrefix(s[..|s| - 1]); }
  }

  lemma {:induction false} SectionLine(lines: seq<string>) returns (k: nat)
    requires Section(lines) != []
    ensures k < |lines| && IsSectionHead(lines[k])
  {
    if IsSectionHead(lines[0]) {
      k := 0;
    } else {
      var j := SectionLine(lines[1..]);
      k := j + 1;
    }
  }

  /** A section head puts the phrase into the text. */
  lemma SectionHasPhrase(content: string)
    requires HasSection(TrimmedLines(content))
    ensures Find(content, PHRASE).Some?
  {
    var k := SectionLine(TrimmedLines(content));
    var l := Text.Split(content, '\n')[k];
    RStripPrefix(l);
    var t := RStrip(l);
    assert l[..|PHRASE|] == l[..|t|][..|PHRASE|] == PHRASE;
    LineMakesPhrase(content, k, PHRASE);
  }

  // ── Appending ────────────────────────────────────────────────────

  /** The lines of one use case's status: its head and no other head. */
  ghost predicate OneUcBlock(lines: seq<string>) {
    && lines != [] && IsUcHead(lines[0]) && Headless(IsUcHead, lines[1..])
    && Headless(SectionHeadOf, lines)
  }

  function SectionHeadOf(line: string): bool { IsSectionHead(line) }

  lemma {:induction false} NoSection(lines: seq<string>)
    requires Headless(SectionHeadOf, lines)
    ensures Section(lines) == []
  {
    if lines != [] {
      assert SectionHeadOf(lines[0]) == IsSectionHead(lines[0]);
      forall i | 0 <= i < |lines[1..]| ensures !SectionHeadOf(lines[1..][i]) { assert lines[1..][i] == lines[i + 1]; }
      NoSection(lines[1..]);
    }
  }

  lemma AppendToSection(lines: seq<string>, block: seq<string>)
    requires Section(lines) != [] && OneUcBlock(block)
    ensures ParseLines(lines + [""] + block) == ParseLines(lines) + [ParseUc(block)]
  {
    OneBlankLine(lines);
    SectionConcat(lines + [""], block);
    var s := Section(lines + [""]);
    BlocksConcat(IsUcHead, s, block);
    OneBlock(IsUcHead, block);
    ParseUcsConcat(Blocks(IsUcHead, s), [block]);
    OneUc(block);
  }

  lemma OneUc(block: seq<string>)
    requires block != []
    ensures ParseUcs([block]) == [ParseUc(block)]
  {
    assert [block][..0] == [];
  }

  const NEW_SECTION := ["", "---", "", PHRASE, ""]

  lemma NewSectionFound(lines: seq<string>, block: seq<string>)
    requires !HasSection(lines)
    ensures Section(lines + NEW_SECTION + block) == [PHRASE, ""] + block
  {
    hide Blocks;
    NotHead("");
    NotHead("---");
    var before, s := ["", "---", ""], [PHRASE, ""] + block;
    assert lines + NEW_SECTION + block == lines + (before + s);
    SectionConcat(lines, before + s);
    SectionConcat(before, s);
    assert before[1..] == ["---", ""] && ["---", ""][1..] == [""] && [""][1..] == [];
    assert Section(before) == [] && IsSectionHead(s[0]);
  }

  lemma PhraseIsNoUc()
    ensures Headless(IsUcHead, [PHRASE, ""])
  {
    NotHead("");
    assert PHRASE[2] == ' ' && "###"[2] == '#';
  }

  lemma NewSection(lines: seq<string>, block: seq<string>)
    requires !HasSection(lines) && OneUcBlock(block)
    ensures ParseLines(lines + NEW_SECTION + block) == [ParseUc(block)]
  {
    NewSectionFound(lines, block);
    PhraseIsNoUc();
    NoBlocks(IsUcHead, [PHRASE, ""]);
    BlocksConcat(IsUcHead, [PHRASE, ""], block);
    OneBlock(IsUcHead, block);
    OneUc(block);
    assert Blocks(IsUcHead, [PHRASE, ""] + block) == [block];
  }

  lemma EmptyLine()
    ensures TrimmedLines("") == [""]
  {
  }

  lemma BlockLines(block: string)
    ensures TrimmedLines(block + "\n") == TrimmedLines(block) + [""]
  {
    LinesConcat(block, "");
    EmptyLine();
    assert block + "\n" + "" == block + "\n";
  }

  lemma AppendedToPhrase(content: string, block: string)
    requires Find(content, PHRASE).Some?
    ensures TrimmedLines(Append(content, block)) == TrimmedLines(RStrip(content)) + [""] + TrimmedLines(block) + [""]
  {
    hide Find;
    hide RStrip;
    hide TrimmedLines;
    var tail := block + "\n";
    var base := RStrip(content);
    assert Append(content, block) == base + "\n" + ("" + "\n" + tail);
    BlockLines(block);
    EmptyLine();
    LinesConcat("", tail);
    LinesConcat(base, "" + "\n" + tail);
  }

  lemma JoinMore(first: string, rest: seq<string>)
    requires rest != []
    ensures Text.Join([first] + rest, '\n') == first + "\n" + Text.Join(rest, '\n')
  {
    assert ([first] + rest)[1..] == rest;
  }

  lemma NewSectionText()
    ensures Neat(NEW_SECTION) && Text.Join(NEW_SECTION, '\n') == "\n---\n\n" + PHRASE + "\n"
  {
    NewSectionJoined(PHRASE);
  }

  lemma NewSectionJoined(phrase: string)
    ensures Text.Join(["", "---", "", phrase, ""], '\n') == "\n---\n\n" + phrase + "\n"
  {
    JoinMore(phrase, [""]);
    JoinMore("", [phrase] + [""]);
    JoinMore("---", [""] + ([phrase] + [""]));
    JoinMore("", ["---"] + ([""] + ([phrase] + [""])));
    assert Text.Join([""], '\n') == "";
    assert ["", "---", "", phrase, ""] == [""] + (["---"] + ([""] + ([phrase] + [""])));
  }

  lemma Regrouped(base: string, phrase: string, block: string)
    ensures base + "\n\n---\n\n" + phrase + "\n\n" + block + "\n"
      == base + "\n" + (("\n---\n\n" + phrase + "\n") + "\n" + (block + "\n"))
  {
    assert "\n\n---\n\n" == "\n" + "\n---\n\n" && "\n\n" == "\n" + "\n";
  }

  lemma AppendedNew(content: string, block: string)
    requires Find(content, PHRASE).None?
    ensures TrimmedLines(Append(content, block))
      == TrimmedLines(RStrip(content)) + NEW_SECTION + TrimmedLines(block) + [""]
  {
    hide Find;
    hide RStrip;
    hide TrimmedLines;
    hide Neat;
    var base, tail, middle := RStrip(content), block + "\n", Text.Join(NEW_SECTION, '\n');
    NewSectionText();
    NeatLines(NEW_SECTION);
    Regrouped(base, PHRASE, block);
    assert Append(content, block) == base + "\n" + (middle + "\n" + tail);
    BlockLines(block);
    LinesConcat(middle, tail);
    LinesConcat(base, middle + "\n" + tail);
  }

  lemma AppendWithPhrase(content: string, block: string)
    requires OneUcBlock(TrimmedLines(block)) && Find(content, PHRASE).Some?
    ensures var base, b := TrimmedLines(RStrip(content)), TrimmedLines(block);
      ParseAll(Append(content, block)) == if HasSection(base) then ParseLines(base) + [ParseUc(b)] else []
  {
    var base, b := TrimmedLines(RStrip(content)), TrimmedLines(block);
    AppendedToPhrase(content, block);
    OneBlankLine(base + [""] + b);
    if HasSection(base) {
      AppendToSection(base, b);
    } else {
      OneBlankLine(base);
      SectionConcat(base + [""], b);
      NoSection(b);
    }
  }

  lemma AppendWithoutPhrase(content: string, block: string)
    requires OneUcBlock(TrimmedLines(block)) && Find(content, PHRASE).None?
    requires !HasSection(TrimmedLines(RStrip(content)))
    ensures ParseAll(Append(content, block)) == [ParseUc(TrimmedLines(block))]
  {
    var base, b := TrimmedLines(RStrip(content)), TrimmedLines(block);
    AppendedNew(content, block);
    OneBlankLine(base + NEW_SECTION + b);
    NewSection(base, b);
  }

  lemma StrippedAlike(content: string)
    ensures ParseLines(TrimmedLines(RStrip(content))) == ParseAll(content)
    ensures HasSection(TrimmedLines(RStrip(content))) == HasSection(TrimmedLines(content))
  {
    RStripLines(content);
    BlankLines(TrimmedLines(RStrip(content)), TailBreaks(content));
  }

  /** Appending keeps every use case parsed before and adds exactly the new one, when the document has the
      section head at the start of a line or does not contain its phrase; otherwise the parser finds nothing,
      before or after. */
  lemma AppendAddsOne(content: string, block: string)
    requires OneUcBlock(TrimmedLines(block))
    ensures ParseAll(Append(content, block)) ==
      if HasSection(TrimmedLines(content)) || Find(content, PHRASE).None?
      then ParseAll(content) + [ParseUc(TrimmedLines(block))]
      else []
    ensures !HasSection(TrimmedLines(content)) ==> ParseAll(content) == []
  {
    hide Append;
    hide Find;
    StrippedAlike(content);
    if Find(content, PHRASE).Some? {
      AppendWithPhrase(content, block);
    } else {
      if HasSection(TrimmedLines(content)) { SectionHasPhrase(content); }
      AppendWithoutPhrase(content, block);
    }
  }

  /** A document that only mentions the heading: the status appended to it is not found. */
  lemma MentionedIsNotFound(block: string)
    requires OneUcBlock(TrimmedLines(block))
    ensures ParseAll(Append("See " + PHRASE, block)) == []
  {
    var content := "See " + PHRASE;
    hide Append;
    hide OneUcBlock;
    MentionShape(PHRASE);
    AppendAddsOne(content, block);
  }

  lemma MentionShape(phrase: string)
    requires phrase == PHRASE
    ensures Find("See " + phrase, PHRASE).Some? && !HasSection(TrimmedLines("See " + phrase))
  {
    var content := "See " + phrase;
    assert content[4..] == phrase;
    FindShorter(content, 4, phrase);
    assert Text.IsLine(content);
    Text.SplitJoin([content], '\n');
    assert Text.Join([content], '\n') == content;
    RStripKeepsFirst(content);
    var line := RStrip(content);
    assert TrimmedLines(content) == [line] && line[0] == 'S';
    NoSection([line]);
  }

  /** Appending loses nothing of the document but white space at its end, and ends with the status; between the two
      there is nothing, or a rule and the section's heading in a document that lacks its phrase. */
  lemma AppendKeepsText(content: string, block: string) returns (gap: string, between: string)
    ensures content == RStrip(content) + gap && IsBlank(gap)
    ensures Append(content, block) == RStrip(content) + between + "\n\n" + block + "\n"
    ensures Find(content, PHRASE).Some? ==> between == ""
    ensures Find(content, PHRASE).None? ==> between == "\n\n---\n\n" + PHRASE
  {
    RStripCuts(content);
    var kept := RStrip(content);
    gap := content[|kept|..];
    between := if Find(content, PHRASE).Some? then "" else "\n\n---\n\n" + PHRASE;
    Together(kept, "\n\n---\n\n", PHRASE);
    hide Find;
    hide RStrip;
    assert kept + "" == kept;
  }

  lemma Together(a: string, b: string, c: string)
    ensures a + (b + c) == a + b + c
  {
  }
}
