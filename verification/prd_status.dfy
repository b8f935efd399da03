/** The whole path: phases are written, compiled into a use case's status, appended to a PRD and parsed. */
module PrdStatus {
  import Text
  import opened Decimals
  import opened Strings
  import opened PrdText
  import opened PrdRoundTrip
  import opened PrdAppend
  import opened Wrappers

  /** A use case id: UC- and digits. */
  predicate IsUcId(uc: string) { |uc| > 3 && uc[..3] == "UC-" && AllDigits(uc[3..]) }

  lemma HeadingSplits(rest: string, uc: string)
    requires IsUcId(uc) && rest == "Implementation Status" + (" — " + uc)
    ensures |rest| >= 21 && Lower(rest[..21]) == "implementation status" && LStrip(rest[21..]) == "— " + uc
  {
    LowerLabel("Implementation Status", "implementation status");
    assert rest[..21] == "Implementation Status";
    var t := " — " + uc;
    assert rest[21..] == t;
    LStripTrimmed(t, 1);
    assert t[1..] == "— " + uc;
  }

  lemma UcIdReads(u: string)
    requires IsUcId(u)
    ensures Lower(u[..3]) == "uc-" && LeadingDigits(u[3..]) == u[3..] && u[..3] + u[3..] == u
  {
    LeadingDigitsOfDigits(u[3..]);
    LowerLabel("UC-", "uc-");
  }

  lemma UcHeadingReads(uc: string)
    requires IsUcId(uc)
    ensures UcHead(UcHeading(uc)) == Some(uc)
  {
    var rest := "Implementation Status" + (" — " + uc);
    assert UcHeading(uc) == "###" + " " + rest;
    AfterWordReads("###", rest);
    HeadingSplits(rest, uc);
    var t := "— " + uc;
    assert t[1..] == " " + uc;
    LStripTrimmed(" " + uc, 1);
    UcIdReads(uc);
  }

  lemma UcHeadingShape(uc: string)
    requires IsUcId(uc)
    ensures var line := UcHeading(uc);
      RStrip(line) == line && Text.IsLine(line) && '*' !in line && !IsPhaseHead(line) && !IsSectionHead(line)
  {
    var line := UcHeading(uc);
    assert uc == "UC-" + uc[3..];
    assert forall i :: 0 <= i < |uc[3..]| ==> IsDigit(uc[3..][i]);
    assert '\n' !in uc && '*' !in uc;
    assert '\n' !in "Implementation Status" && '*' !in "Implementation Status";
    assert line[|line| - 1] == uc[|uc| - 1] == uc[3..][|uc| - 4];
    assert line[2] == '#' && line[3] == ' ' && "####"[3] == '#' && PHRASE[2] == ' ';
  }

  // ── The lines of a compiled status ───────────────────────────────

  function PhasesLines(phases: seq<Phase>): seq<string> {
    if phases == [] then []
    else PhasesLines(phases[..|phases| - 1]) + (PhaseLines(phases[|phases| - 1]) + [""])
  }

  function PhaseTexts(phases: seq<Phase>): seq<string> {
    if phases == [] then [] else PhaseTexts(phases[..|phases| - 1]) + [PhaseText(phases[|phases| - 1])]
  }

  /** A phase that reads back. */
  ghost predicate Good(p: Phase) {
    CleanPhase(p) && p.decisions != ["ninguna"] && |Words(Text.Join(PhaseLines(p), '\n'))| <= MAX_PHASE_TOKENS
  }

  ghost predicate AllGood(phases: seq<Phase>) { forall i :: 0 <= i < |phases| ==> Good(phases[i]) }

  lemma JoinTwo(d: string)
    ensures Text.Join([d, ""], '\n') == d + "\n" + ""
  {
    assert [d, ""][1..] == [""] && Text.Join([""], '\n') == "";
  }

  lemma JoinedLines(a: seq<string>, d: string)
    requires a != []
    ensures TrimmedLines(Text.Join(a + [d, ""], '\n')) == TrimmedLines(Text.Join(a, '\n')) + (TrimmedLines(d) + [""])
  {
    Text.JoinConcat(a, [d, ""], '\n');
    JoinTwo(d);
    LinesConcat(d, "");
    EmptyLine();
    LinesConcat(Text.Join(a, '\n'), Text.Join([d, ""], '\n'));
  }

  lemma Reassociated(a: seq<string>, b: seq<string>, c: seq<string>)
    ensures a + (b + c) == a + b + c
  {
  }

  lemma StatusStep(before: seq<string>, after: seq<string>, lines: seq<string>, p: Phase)
    requires Good(p) && before != [] && after == before + [PhaseText(p), ""]
    requires TrimmedLines(Text.Join(before, '\n')) == lines
    ensures TrimmedLines(Text.Join(after, '\n')) == lines + (PhaseLines(p) + [""])
  {
    PhaseReadsBack(p);
    JoinedLines(before, PhaseText(p));
  }

  lemma TextsMore(head: seq<string>, phases: seq<Phase>)
    requires phases != []
    ensures var n := |phases| - 1;
      head + DeltaLines(PhaseTexts(phases)) == head + DeltaLines(PhaseTexts(phases[..n])) + [PhaseText(phases[n]), ""]
  {
    hide PhaseText;
    OneTextMore(PhaseTexts(phases[..|phases| - 1]), PhaseText(phases[|phases| - 1]));
    hide DeltaLines;
    Reassociated(head, DeltaLines(PhaseTexts(phases[..|phases| - 1])), [PhaseText(phases[|phases| - 1]), ""]);
  }

  lemma OneTextMore(texts: seq<string>, text: string)
    ensures DeltaLines(texts + [text]) == DeltaLines(texts) + [text, ""]
  {
    assert (texts + [text])[..|texts|] == texts;
  }

  lemma {:induction false} StatusLines(head: seq<string>, phases: seq<Phase>)
    requires Neat(head) && head != [] && AllGood(phases)
    ensures TrimmedLines(Text.Join(head + DeltaLines(PhaseTexts(phases)), '\n')) == head + PhasesLines(phases)
  {
    if phases == [] {
      assert head + DeltaLines(PhaseTexts(phases)) == head;
      assert head + PhasesLines(phases) == head;
      NeatLines(head);
    } else {
      var front, p := phases[..|phases| - 1], phases[|phases| - 1];
      StatusLines(head, front);
      var before, after := head + DeltaLines(PhaseTexts(front)), head + DeltaLines(PhaseTexts(phases));
      TextsMore(head, phases);
      Reassociated(head, PhasesLines(front), PhaseLines(p) + [""]);
      StatusStep(before, after, head + PhasesLines(front), p);
    }
  }

  // ── Its phases ───────────────────────────────────────────────────

  function ReadBackAll(phases: seq<Phase>): seq<PhaseStatus> {
    if phases == [] then [] else ReadBackAll(phases[..|phases| - 1]) + [ReadBack(phases[|phases| - 1])]
  }

  lemma PhaseHeadShape(p: Phase)
    requires CleanPhase(p)
    ensures var line := PhaseHead(p.number, p.name);
      IsPhaseHead(line) && !IsUcHead(line) && !IsSectionHead(line)
  {
    var line := PhaseHead(p.number, p.name);
    HeadReads(p.number, p.name);
    assert line[3] == '#' && line[2] == '#' && PHRASE[2] == ' ';
  }

  lemma PhaseIsBlock(p: Phase)
    requires CleanPhase(p) && p.decisions != ["ninguna"]
    ensures var block := PhaseLines(p) + [""];
      IsPhaseHead(block[0]) && Headless(IsPhaseHead, block[1..])
    ensures Headless(IsUcHead, PhaseLines(p) + [""]) && Headless(SectionHeadOf, PhaseLines(p) + [""])
  {
    hide PhaseHeadOf;
    hide UcHead;
    hide FieldLines;
    hide Fields;
    hide FieldOf;
    hide CleanPhase;
    hide AllReadable;
    var block := PhaseLines(p) + [""];
    PhaseHeadShape(p);
    AllFieldsReadable(p);
    FieldsNeat(Fields(p));
    forall i | 1 <= i < |block| ensures !IsPhaseHead(block[i]) && !IsUcHead(block[i]) && !IsSectionHead(block[i]) {
      NotHead(block[i]);
    }
  }

  lemma {:induction false} PhasesParsed(head: seq<string>, phases: seq<Phase>)
    requires Headless(IsPhaseHead, head) && AllGood(phases)
    ensures ParsePhases(Blocks(IsPhaseHead, head + PhasesLines(phases))) == ReadBackAll(phases)
  {
    if phases == [] {
      assert head + PhasesLines(phases) == head;
      NoBlocks(IsPhaseHead, head);
    } else {
      var front, p := phases[..|phases| - 1], phases[|phases| - 1];
      PhasesParsed(head, front);
      var before, after := head + PhasesLines(front), head + PhasesLines(phases);
      Reassociated(head, PhasesLines(front), PhaseLines(p) + [""]);
      OnePhaseMore(before, after, p, ReadBackAll(front));
    }
  }

  lemma PhaseBlockParsed(p: Phase)
    requires Good(p)
    ensures Blocks(IsPhaseHead, PhaseLines(p) + [""]) == [PhaseLines(p) + [""]]
    ensures ParsePhases([PhaseLines(p) + [""]]) == [ReadBack(p)]
  {
    var block := PhaseLines(p) + [""];
    PhaseIsBlock(p);
    OneBlock(IsPhaseHead, block);
    PhaseBlank(PhaseLines(p));
    PhaseReadsBack(p);
    assert [block][..0] == [];
  }

  lemma OnePhaseMore(before: seq<string>, after: seq<string>, p: Phase, read: seq<PhaseStatus>)
    requires Good(p) && after == before + (PhaseLines(p) + [""])
    requires ParsePhases(Blocks(IsPhaseHead, before)) == read
    ensures ParsePhases(Blocks(IsPhaseHead, after)) == read + [ReadBack(p)]
  {
    PhaseIsBlock(p);
    PhaseBlockParsed(p);
    BlocksConcat(IsPhaseHead, before, PhaseLines(p) + [""]);
    ParsePhasesConcat(Blocks(IsPhaseHead, before), [PhaseLines(p) + [""]]);
  }

  lemma {:induction false} PhasesHeadless(phases: seq<Phase>)
    requires AllGood(phases)
    ensures Headless(IsUcHead, PhasesLines(phases)) && Headless(SectionHeadOf, PhasesLines(phases))
  {
    if phases != [] {
      PhasesHeadless(phases[..|phases| - 1]);
      PhaseIsBlock(phases[|phases| - 1]);
    }
  }

  // ── Timestamp and branch ─────────────────────────────────────────

  predicate MarkText(s: string) { Clean(s) && '*' !in s }

  lemma NoMark(line: string, mark: string)
    requires '*' !in line && mark != "" && mark[0] == '*'
    ensures Find(Lower(line), mark) == None
  {
    FindNone(Lower(line), '*', mark);
  }

  lemma MarkReads(caption: string, mark: string, value: string)
    requires |caption| == |mark| && mark != "" && Clean(value)
    requires forall i :: 0 <= i < |mark| ==> mark[i] == LowerChar(caption[i])
    ensures var line := caption + " " + value;
      Find(Lower(line), mark) == Some(0) && |mark| < |line| && LStrip(line[|mark|..]) == value
  {
    var line := caption + " " + value;
    assert Lower(line)[..|mark|] == mark;
    assert line[|mark|..] == " " + value;
    LStripTrimmed(" " + value, 1);
  }

  /** A mark is not found in a line whose only stars belong to another one. */
  lemma OtherMark(timestamp: string)
    requires '*' !in timestamp
    ensures Find(Lower("**Timestamp:** " + timestamp), "**branch:**") == None
  {
    var low := "**timestamp:**" + (" " + Lower(timestamp));
    assert Lower("**Timestamp:** " + timestamp) == low;
    FindNone(" " + Lower(timestamp), '*', "**branch:**");
    SkipMark(low, "**timestamp:**", " " + Lower(timestamp));
  }

  lemma SkipMark(low: string, mark: string, rest: string)
    requires mark == "**timestamp:**" && low == mark + rest && '*' !in rest && Find(rest, "**branch:**") == None
    ensures Find(low, "**branch:**") == None
  {
    var b := "**branch:**";
    assert b[0] == '*' && b[1] == '*' && b[2] == 'b';
    assert low[2] == 't';
    assert !(b <= low);
    var s1 := low[1..];
    assert s1[1] == 't' && !(b <= s1);
    var s2 := s1[1..];
    assert s2[0] == 't' && !(b <= s2);
    assert s2 == "timestamp:**" + rest;
    StarTail(s2, "timestamp:", rest);
  }

  lemma StarTail(s: string, front: string, rest: string)
    requires '*' !in front && s == front + "**" + rest && '*' !in rest
    ensures Find(s, "**branch:**") == None
    decreases |front|
  {
    var b := "**branch:**";
    if front == "" {
      assert s[0] == '*' && s[1] == '*' && s[1..] == "*" + rest && s[1..][1..] == rest;
      assert b[2] == 'b' && b[8] == ':' && b[9] == '*';
      FindNone(rest, '*', b);
    } else {
      assert s[0] == front[0] != '*' && s[1..] == front[1..] + "**" + rest;
      StarTail(s[1..], front[1..], rest);
    }
  }

  lemma MarksRead(uc: string, branch: string, timestamp: string, more: seq<string>)
    requires IsUcId(uc) && MarkText(branch) && MarkText(timestamp)
    ensures MarkedText(Preamble(uc, branch, timestamp) + more, "**timestamp:**") == Some(timestamp)
    ensures MarkedText(Preamble(uc, branch, timestamp) + more, "**branch:**") == Some(branch)
  {
    hide MarkedText;
    hide Find;
    hide Lower;
    hide LStrip;
    UcHeadingShape(uc);
    NoMark(UcHeading(uc), "**timestamp:**");
    NoMark(UcHeading(uc), "**branch:**");
    MarkReads("**Timestamp:**", "**timestamp:**", timestamp);
    MarkReads("**Branch:**", "**branch:**", branch);
    OtherMark(timestamp);
    var l0, l1, l2 := UcHeading(uc), "**Timestamp:** " + timestamp, "**Branch:** " + branch;
    assert "**Timestamp:**" + " " + timestamp == l1 && "**Branch:**" + " " + branch == l2;
    var lines := Preamble(uc, branch, timestamp) + more;
    MarkOnSecond(lines, l0, l1, "**timestamp:**", timestamp);
    MarkOnThird(lines, l0, l1, l2, "**branch:**", branch);
  }

  lemma MarkOnSecond(lines: seq<string>, l0: string, l1: string, mark: string, value: string)
    requires |lines| >= 2 && lines[0] == l0 && lines[1] == l1 && value != ""
    requires Find(Lower(l0), mark) == None && Find(Lower(l1), mark) == Some(0)
    requires |mark| < |l1| && LStrip(l1[|mark|..]) == value
    ensures MarkedText(lines, mark) == Some(value)
  {
    assert MarkedText(lines[1..], mark) == Some(value);
  }

  lemma MarkOnThird(lines: seq<string>, l0: string, l1: string, l2: string, mark: string, value: string)
    requires |lines| >= 3 && lines[0] == l0 && lines[1] == l1 && lines[2] == l2 && value != ""
    requires Find(Lower(l0), mark) == None && Find(Lower(l1), mark) == None && Find(Lower(l2), mark) == Some(0)
    requires |mark| < |l2| && LStrip(l2[|mark|..]) == value
    ensures MarkedText(lines, mark) == Some(value)
  {
    MarkOnSecond(lines[1..], l1, l2, mark, value);
  }

  // ── The status ───────────────────────────────────────────────────

  function StatusOf(uc: string, branch: string, timestamp: string, phases: seq<PhaseStatus>): UcStatus {
    UcStatus(uc, Some(timestamp), Some(branch), phases, Overall(phases), CountDeltas(phases))
  }

  lemma PreambleShape(uc: string, branch: string, timestamp: string)
    requires IsUcId(uc) && MarkText(branch) && MarkText(timestamp)
    ensures var head := Preamble(uc, branch, timestamp);
      Neat(head) && IsUcHead(head[0]) && Headless(IsPhaseHead, head) && Headless(IsUcHead, head[1..])
      && Headless(SectionHeadOf, head)
  {
    hide PhaseHeadOf;
    hide UcHead;
    var head := Preamble(uc, branch, timestamp);
    UcHeadingReads(uc);
    UcHeadingShape(uc);
    MarkLine("**Timestamp:** ", timestamp);
    MarkLine("**Branch:** ", branch);
    NotHead("");
    assert head[1..] == [head[1], head[2], ""];
  }

  lemma MarkLine(caption: string, value: string)
    requires caption != "" && caption[0] == '*' && Text.IsLine(caption) && Clean(value)
    ensures var line := caption + value;
      RStrip(line) == line && Text.IsLine(line) && !IsPhaseHead(line) && !IsUcHead(line) && !IsSectionHead(line)
  {
    var line := caption + value;
    assert line[|line| - 1] == value[|value| - 1] && line[0] == '*';
    NotHead(line);
  }

  lemma UcBlankStep(before: seq<string>, after: seq<string>)
    requires before != [] && after == before + [""]
    ensures ParseUc(after) == ParseUc(before)
  {
    UcBlank(before);
  }

  lemma {:induction false} UcBlanks(lines: seq<string>, n: nat)
    requires lines != []
    ensures ParseUc(lines + Blanks(n)) == ParseUc(lines)
  {
    hide ParseUc;
    if n == 0 {
      assert lines + Blanks(0) == lines;
    } else {
      var before, after := lines + Blanks(n - 1), lines + Blanks(n);
      UcBlanks(lines, n - 1);
      assert after == before + [""];
      UcBlankStep(before, after);
    }
  }

  lemma FullParses(uc: string, branch: string, timestamp: string, phases: seq<Phase>)
    requires IsUcId(uc) && MarkText(branch) && MarkText(timestamp) && AllGood(phases)
    ensures ParseUc(Preamble(uc, branch, timestamp) + PhasesLines(phases))
      == StatusOf(uc, branch, timestamp, ReadBackAll(phases))
  {
    PreambleShape(uc, branch, timestamp);
    UcHeadingReads(uc);
    MarksRead(uc, branch, timestamp, PhasesLines(phases));
    PhasesParsed(Preamble(uc, branch, timestamp), phases);
  }

  lemma FullIsOneBlock(uc: string, branch: string, timestamp: string, phases: seq<Phase>)
    requires IsUcId(uc) && MarkText(branch) && MarkText(timestamp) && AllGood(phases)
    ensures OneUcBlock(Preamble(uc, branch, timestamp) + PhasesLines(phases))
  {
    hide PhasesLines;
    hide UcHead;
    hide IsSectionHead;
    var head, rest := Preamble(uc, branch, timestamp), PhasesLines(phases);
    PreambleShape(uc, branch, timestamp);
    PhasesHeadless(phases);
    assert (head + rest)[1..] == head[1..] + rest;
  }

  lemma BlockPrefix(lines: seq<string>, more: seq<string>)
    requires lines != [] && OneUcBlock(lines + more)
    ensures OneUcBlock(lines)
  {
    assert (lines + more)[1..] == lines[1..] + more;
    assert (lines + more)[0] == lines[0];
    forall i | 0 <= i < |lines[1..]| ensures !IsUcHead(lines[1..][i]) {
      assert (lines[1..] + more)[i] == lines[1..][i];
    }
    forall i | 0 <= i < |lines| ensures !SectionHeadOf(lines[i]) { assert (lines + more)[i] == lines[i]; }
  }

  /** A compiled status is one use case's block and reads back: id, timestamp, branch and every phase. */
  lemma CompiledReadsBack(uc: string, branch: string, timestamp: string, phases: seq<Phase>)
    requires IsUcId(uc) && MarkText(branch) && MarkText(timestamp) && AllGood(phases)
    ensures var lines := TrimmedLines(CompileUcStatus(uc, branch, PhaseTexts(phases), timestamp));
      OneUcBlock(lines) && ParseUc(lines) == StatusOf(uc, branch, timestamp, ReadBackAll(phases))
  {
    var head := Preamble(uc, branch, timestamp);
    var text := Text.Join(head + DeltaLines(PhaseTexts(phases)), '\n');
    PreambleShape(uc, branch, timestamp);
    StatusLines(head, phases);
    RStripLines(text);
    var lines := TrimmedLines(RStrip(text));
    FullIsOneBlock(uc, branch, timestamp, phases);
    FullParses(uc, branch, timestamp, phases);
    BlockPrefix(lines, Blanks(TailBreaks(text)));
    UcBlanks(lines, TailBreaks(text));
  }

  /** The whole path: after appending, the parser finds the use cases it found before and the new one with its
      phases, exactly when the PRD has the section head at the start of a line or lacks its phrase. */
  lemma StatusReadsBack(content: string, uc: string, branch: string, timestamp: string, phases: seq<Phase>)
    requires IsUcId(uc) && MarkText(branch) && MarkText(timestamp) && AllGood(phases)
    ensures ParseAll(Append(content, CompileUcStatus(uc, branch, PhaseTexts(phases), timestamp))) ==
      if HasSection(TrimmedLines(content)) || Find(content, PHRASE).None?
      then ParseAll(content) + [StatusOf(uc, branch, timestamp, ReadBackAll(phases))]
      else []
  {
    CompiledReadsBack(uc, branch, timestamp, phases);
    AppendAddsOne(content, CompileUcStatus(uc, branch, PhaseTexts(phases), timestamp));
  }
}
