/** A phase written to a PRD reads back: what the parser finds in a generated phase, whatever the limits cut. */
module PrdRoundTrip {
  import Text
  import opened Decimals
  import opened Strings
  import opened PrdText
  import opened Wrappers

  /** A field of one line. */
  predicate Clean(s: string) { s != "" && Trimmed(s) && Text.IsLine(s) }

  // ── One field ────────────────────────────────────────────────────

  predicate Readable(f: Labelled) {
    Clean(f.caption) && ':' !in f.caption && KeyOf(Lower(f.caption)) == f.key && Clean(f.value)
  }

  lemma {:induction false} FindAfter(s: string, c: char, part: string, rest: string)
    requires c !in s && part != "" && part[0] == c
    ensures Find(s + part + rest, part) == Some(|s|)
  {
    var whole := s + part + rest;
    if s == "" {
      assert whole[..|part|] == part;
    } else {
      assert whole[0] == s[0] != part[0];
      assert whole[1..] == s[1..] + part + rest;
      FindAfter(s[1..], c, part, rest);
    }
  }

  lemma {:induction false} FindNone(s: string, c: char, part: string)
    requires c !in s && part != "" && part[0] == c
    ensures Find(s, part) == None
  {
    if s != "" { FindNone(s[1..], c, part); }
  }

  lemma AfterWordReads(prefix: string, rest: string)
    requires rest == "" || !IsSpace(rest[0])
    ensures AfterWord(prefix + " " + rest, prefix) == Some(rest)
  {
    var s := prefix + " " + rest;
    assert s[..|prefix|] == prefix;
    assert s[|prefix|..] == " " + rest;
    LStripTrimmed(" " + rest, 1);
  }

  lemma FieldSplits(r: string, name: string, value: string)
    requires Clean(name) && ':' !in name && Clean(value) && r == name + ":**" + (" " + value)
    ensures r[..|name|] == name && |r| == |name| + 4 + |value|
    ensures Find(r[1..], ":**") == Some(|name| - 1) && LStrip(r[|name| + 3..]) == value
  {
    var tail := " " + value;
    assert r[1..] == name[1..] + ":**" + tail;
    FindAfter(name[1..], ':', ":**", tail);
    assert r[|name| + 3..] == tail;
    LStripTrimmed(tail, 1);
  }

  lemma BoldReads(body: string, r: string, name: string, value: string)
    requires Clean(name) && ':' !in name && Clean(value) && r == name + ":**" + (" " + value)
    requires |body| == |r| + 2 && body[..2] == "**" && body[2..] == r
    ensures BoldLabel(body) == Some((name, value))
  {
    FieldSplits(r, name, value);
  }

  lemma FieldReads(f: Labelled)
    requires Clean(f.caption) && ':' !in f.caption && Clean(f.value)
    ensures FieldOf(FieldLine(f)) == Some((f.caption, f.value))
  {
    var r := f.caption + ":**" + (" " + f.value);
    var body := "**" + r;
    assert FieldLine(f) == "-" + " " + body;
    AfterWordReads("-", body);
    BoldReads(body, r, f.caption, f.value);
  }

  lemma FieldLineShape(f: Labelled)
    requires Clean(f.caption) && Clean(f.value)
    ensures var line := FieldLine(f);
      line != "" && line[0] == '-' && RStrip(line) == line && Text.IsLine(line)
  {
    var line := FieldLine(f);
    assert line[|line| - 1] == f.value[|f.value| - 1];
  }

  lemma NotHead(line: string)
    requires line == "" || line[0] != '#'
    ensures !IsPhaseHead(line) && !IsUcHead(line) && !IsSectionHead(line)
  {
    assert "####"[0] == '#' && "###"[0] == '#' && PHRASE[0] == '#';
  }

  // ── All fields ───────────────────────────────────────────────────

  function ReadAll(fs: seq<Labelled>): Raw {
    if fs == [] then map[] else ReadAll(fs[..|fs| - 1])[fs[|fs| - 1].key := fs[|fs| - 1].value]
  }

  predicate AllReadable(fs: seq<Labelled>) { forall i :: 0 <= i < |fs| ==> Readable(fs[i]) }

  lemma {:induction false} FieldsRead(head: string, fs: seq<Labelled>)
    requires AllReadable(fs) && FieldOf(head) == None
    ensures FieldsOf([head] + FieldLines(fs)) == ReadAll(fs)
  {
    hide FieldOf;
    hide FieldLine;
    hide KeyOf;
    hide Lower;
    hide Strip;
    var block := [head] + FieldLines(fs);
    if fs == [] {
      assert block == [head] && [head][..0] == [];
    } else {
      var n := |fs| - 1;
      FieldsRead(head, fs[..n]);
      assert block[..|block| - 1] == [head] + FieldLines(fs[..n]);
      FieldReads(fs[n]);
      StripTrimmed(fs[n].caption);
    }
  }

  lemma {:induction false} ReadConcat(a: seq<Labelled>, b: seq<Labelled>)
    ensures ReadAll(a + b) == ReadAll(a) + ReadAll(b)
  {
    if b == [] {
      assert a + b == a;
    } else {
      assert (a + b)[..|a + b| - 1] == a + b[..|b| - 1];
      ReadConcat(a, b[..|b| - 1]);
    }
  }

  lemma ReadOne(f: Labelled)
    ensures ReadAll([f]) == map[f.key := f.value]
  {
    assert [f][..0] == [];
  }

  lemma ReadFirst(p: Phase)
    ensures ReadAll(FirstFields(p)) == map[
      Estado := p.status, Creados := FormatFileList(p.created), Modificados := FormatFileList(p.modified),
      Deltas := DeltasOf(p), Decisiones := DecisionsText(p.decisions)]
  {
    var f0 := [Labelled("Estado", Estado, p.status)];
    var f1 := [Labelled("Archivos creados", Creados, FormatFileList(p.created))];
    var f2 := [Labelled("Archivos modificados", Modificados, FormatFileList(p.modified))];
    var f3 := [Labelled("Deltas vs plan", Deltas, DeltasOf(p))];
    var f4 := [Labelled("Decisiones", Decisiones, DecisionsText(p.decisions))];
    ReadOne(f0[0]);
    ReadOne(f1[0]);
    ReadOne(f2[0]);
    ReadOne(f3[0]);
    ReadOne(f4[0]);
    ReadConcat(f0, f1);
    ReadConcat(f0 + f1, f2);
    ReadConcat(f0 + f1 + f2, f3);
    ReadConcat(f0 + f1 + f2 + f3, f4);
  }

  lemma {:induction false} ReadHealing(hs: seq<Healing>)
    ensures ReadAll(HealingFields(hs)) == if hs == [] then map[] else map[SelfHealing := HealingText(hs[|hs| - 1])]
  {
    if hs != [] {
      var n := |hs| - 1;
      ReadHealing(hs[..n]);
      ReadConcat(HealingFields(hs[..n]), [Labelled("Self-healing", SelfHealing, HealingText(hs[n]))]);
      ReadOne(Labelled("Self-healing", SelfHealing, HealingText(hs[n])));
    }
  }

  // ── Labels ───────────────────────────────────────────────────────

  lemma LowerLabel(name: string, lower: string)
    requires |name| == |lower| && forall i :: 0 <= i < |name| ==> lower[i] == LowerChar(name[i])
    ensures Lower(name) == lower
  {
  }

  predicate LabelReads(name: string, key: Key) { Clean(name) && ':' !in name && KeyOf(Lower(name)) == key }

  lemma EstadoReads()
    ensures LabelReads("Estado", Estado)
  {
    LowerLabel("Estado", "estado");
  }

  lemma CreadosReads()
    ensures LabelReads("Archivos creados", Creados)
  {
    LowerLabel("Archivos creados", "archivos creados");
  }

  lemma ModificadosReads()
    ensures LabelReads("Archivos modificados", Modificados)
  {
    LowerLabel("Archivos modificados", "archivos modificados");
  }

  lemma DeltasReads()
    ensures LabelReads("Deltas vs plan", Deltas)
  {
    LowerLabel("Deltas vs plan", "deltas vs plan");
  }

  lemma DecisionesReads()
    ensures LabelReads("Decisiones", Decisiones)
  {
    LowerLabel("Decisiones", "decisiones");
  }

  lemma HealingReads()
    ensures LabelReads("Self-healing", SelfHealing)
  {
    LowerLabel("Self-healing", "self-healing");
  }

  lemma ErrorReads()
    ensures LabelReads("Error", Error)
  {
    LowerLabel("Error", "error");
  }

  // ── File lists ───────────────────────────────────────────────────

  predicate FileName(s: string) { s != "" && '`' !in s && Text.IsLine(s) }

  predicate FileNames(files: seq<string>) { forall i :: 0 <= i < |files| ==> FileName(files[i]) }

  lemma {:induction false} NoBackticks(s: string)
    requires '`' !in s
    ensures Backticked(s) == []
  {
    if s != "" { NoBackticks(s[1..]); }
  }

  lemma {:induction false} SkipTo(s: string, rest: string)
    requires '`' !in s
    ensures Backticked(s + rest) == Backticked(rest)
  {
    if s == "" {
      assert s + rest == rest;
    } else {
      assert (s + rest)[1..] == s[1..] + rest;
      SkipTo(s[1..], rest);
    }
  }

  lemma OneBackticked(file: string, rest: string)
    requires FileName(file)
    ensures Backticked(Quoted(file) + rest) == [file] + Backticked(rest)
  {
    var s := Quoted(file) + rest;
    assert s[1..] == file + ['`'] + rest;
    IndexOfFirst(file, '`', rest);
    assert s[1..1 + |file|] == file;
    assert s[|file| + 2..] == rest;
  }

  lemma {:induction false} QuotedReads(files: seq<string>, rest: string)
    requires FileNames(files) && '`' !in rest
    ensures Backticked(QuotedList(files) + rest) == files
  {
    if files == [] {
      assert QuotedList(files) + rest == rest;
      NoBackticks(rest);
    } else if |files| == 1 {
      OneBackticked(files[0], rest);
      NoBackticks(rest);
    } else {
      var more := QuotedList(files[1..]) + rest;
      assert QuotedList(files) + rest == Quoted(files[0]) + (", " + more);
      OneBackticked(files[0], ", " + more);
      SkipTo(", ", more);
      QuotedReads(files[1..], rest);
    }
  }

  lemma {:induction false} QuotedShape(files: seq<string>)
    requires FileNames(files) && files != []
    ensures var s := QuotedList(files);
      |s| >= 2 && s[0] == '`' && s[|s| - 1] == '`' && Text.IsLine(s)
  {
    if |files| > 1 {
      QuotedShape(files[1..]);
      assert QuotedList(files) == "`" + files[0] + "`" + ", " + QuotedList(files[1..]);
    }
  }

  lemma MoreShape(n: nat)
    ensures var s := More(n);
      Text.IsLine(s) && '`' !in s && ';' !in s && |s| > 1 && s[0] == ' ' && s[|s| - 1] == 's'
  {
    DigitsRead(n);
    var d := Digits(n);
    assert forall i :: 0 <= i < |d| ==> IsDigit(d[i]);
  }

  /** A file list reads back as its first ten names. */
  lemma FilesRead(files: seq<string>)
    requires FileNames(files)
    ensures Clean(FormatFileList(files))
    ensures ParseFileList(FormatFileList(files)) == files[..Least(|files|, MAX_FILES)]
  {
    var text := FormatFileList(files);
    if files == [] {
      StripTrimmed("ninguno");
      LowerLabel("ninguno", "ninguno");
    } else {
      var shown := files[..Least(|files|, MAX_FILES)];
      var rest := if |files| <= MAX_FILES then "" else More(|files| - MAX_FILES);
      MoreShape(if |files| <= MAX_FILES then 0 else |files| - MAX_FILES);
      assert text == QuotedList(shown) + rest by {
        if |files| <= MAX_FILES {
          assert shown == files;
          assert QuotedList(files) + "" == QuotedList(files);
        }
      }
      QuotedShape(shown);
      QuotedReads(shown, rest);
      StripTrimmed(text);
      assert Lower(text)[0] == '`' != "ninguno"[0];
    }
  }

  // ── Decisions ────────────────────────────────────────────────────

  predicate Decision(s: string) { Clean(s) && ';' !in s }

  predicate Decisions(ds: seq<string>) { forall i :: 0 <= i < |ds| ==> Decision(ds[i]) }

  lemma {:induction false} JoinedShape(ds: seq<string>)
    requires Decisions(ds) && ds != []
    ensures Clean(Joined(ds)) && Joined(ds)[0] == ds[0][0]
  {
    if |ds| > 1 {
      JoinedShape(ds[1..]);
      var rest := Joined(ds[1..]);
      assert Joined(ds) == ds[0] + "; " + rest;
      assert Joined(ds)[|Joined(ds)| - 1] == rest[|rest| - 1];
    }
  }

  lemma StripSpaced(s: string)
    requires Clean(s)
    ensures Strip(" " + s) == s
  {
    var t := " " + s;
    assert t[|t| - 1] == s[|s| - 1];
    assert RStrip(t) == t;
    LStripTrimmed(t, 1);
  }

  lemma {:induction false} DecisionsSplit(ds: seq<string>, lead: string)
    requires Decisions(ds) && ds != [] && lead in {"", " "}
    ensures Stripped(Text.Split(lead + Joined(ds), ';')) == ds
  {
    if |ds| == 1 {
      assert lead + Joined(ds) == lead + ds[0];
      NoSemicolon(lead + ds[0]);
      OneStripped(ds[0], lead, []);
      assert ds == [ds[0]];
    } else {
      var first := lead + ds[0];
      var rest := " " + Joined(ds[1..]);
      assert lead + Joined(ds) == first + (";" + rest);
      Text.SplitPrefix(first, ";" + rest, ';');
      assert (";" + rest)[1..] == rest;
      assert Text.Split(";" + rest, ';') == [""] + Text.Split(rest, ';');
      assert first + "" == first;
      assert Text.Split(first + (";" + rest), ';') == [first] + Text.Split(rest, ';');
      DecisionsSplit(ds[1..], " ");
      OneStripped(ds[0], lead, Text.Split(rest, ';'));
    }
  }

  lemma NoSemicolon(s: string)
    requires ';' !in s
    ensures Text.Split(s, ';') == [s]
  {
    Text.SplitPrefix(s, "", ';');
    assert s + "" == s;
  }

  lemma OneStripped(d: string, lead: string, rest: seq<string>)
    requires Clean(d) && lead in {"", " "}
    ensures Stripped([lead + d] + rest) == [d] + Stripped(rest)
  {
    if lead == "" {
      assert lead + d == d;
      StripTrimmed(d);
    } else {
      StripSpaced(d);
    }
    assert ([lead + d] + rest)[1..] == rest;
  }

  /** The decisions a reader sees: of more than three, the third carries the note about the rest. */
  function ShownDecisions(ds: seq<string>): seq<string> {
    if |ds| <= MAX_DECISIONS then ds else [ds[0], ds[1], ds[2] + More(|ds| - MAX_DECISIONS)]
  }

  lemma JoinThree(a: string, b: string, c: string)
    ensures Joined([a, b, c]) == a + "; " + (b + "; " + c)
  {
    assert [a, b, c][1..] == [b, c];
    assert [b, c][1..] == [c];
    assert Joined([c]) == c;
    assert Joined([b, c]) == b + "; " + c;
  }

  lemma ShownJoined(ds: seq<string>)
    requires Decisions(ds)
    ensures Decisions(ShownDecisions(ds))
    ensures ds != [] ==> DecisionsText(ds) == Joined(ShownDecisions(ds))
  {
    if |ds| > MAX_DECISIONS {
      var more := More(|ds| - MAX_DECISIONS);
      MoreShape(|ds| - MAX_DECISIONS);
      var third := ds[2] + more;
      assert third[|third| - 1] == 's' && third[0] == ds[2][0];
      var shown := ShownDecisions(ds);
      assert ds[..3] == [ds[0], ds[1], ds[2]];
      JoinThree(ds[0], ds[1], ds[2]);
      JoinThree(ds[0], ds[1], third);
      assert Joined(ds[..3]) + more == Joined(shown);
    }
  }

  /** Decisions read back as they are shown, unless they are the one word that stands for none. */
  lemma DecisionsRead(ds: seq<string>)
    requires Decisions(ds) && ds != ["ninguna"]
    ensures Clean(DecisionsText(ds)) && ParseDecisions(DecisionsText(ds)) == ShownDecisions(ds)
  {
    if ds != [] {
      var shown := ShownDecisions(ds);
      ShownJoined(ds);
      JoinedShape(shown);
      DecisionsSplit(shown, "");
      assert "" + Joined(shown) == Joined(shown);
      if Joined(shown) == "ninguna" {
        NoSemicolon("ninguna");
        OneStripped("ninguna", "", []);
      }
    }
  }

  /** The one exception: a single decision "ninguna" reads back as no decision. */
  lemma NingunaIsLost()
    ensures ParseDecisions(DecisionsText(["ninguna"])) == []
  {
  }

  // ── The comparison with the plan ─────────────────────────────────

  lemma {:induction false} InsertNameIn(names: seq<string>, name: string, x: string)
    ensures x in InsertName(names, name) <==> x in names || x == name
  {
    if names != [] {
      var n := |names| - 1;
      assert names == names[..n] + [names[n]];
      if names[n] != name && !AtMost(names[n], name) { InsertNameIn(names[..n], name, x); }
    }
  }

  lemma {:induction false} SortedWithoutIn(files: seq<string>, others: seq<string>, x: string)
    ensures x in SortedWithout(files, others) <==> x in files && x !in others
  {
    if files != [] {
      var n := |files| - 1;
      assert files == files[..n] + [files[n]];
      SortedWithoutIn(files[..n], others, x);
      InsertNameIn(SortedWithout(files[..n], others), files[n], x);
    }
  }

  lemma WithoutAreNames(files: seq<string>, others: seq<string>)
    requires FileNames(files)
    ensures FileNames(SortedWithout(files, others))
  {
    var names := SortedWithout(files, others);
    forall i | 0 <= i < |names| ensures FileName(names[i]) {
      SortedWithoutIn(files, others, names[i]);
      var k :| 0 <= k < |files| && files[k] == names[i];
    }
  }

  lemma PartClean(caption: string, names: seq<string>)
    requires caption in {EXTRA, MISSING} && FileNames(names) && names != []
    ensures Clean(caption + QuotedList(Listed(names)))
  {
    QuotedShape(Listed(names));
    var s := caption + QuotedList(Listed(names));
    assert s[0] == 'A' && s[|s| - 1] == '`';
  }

  lemma PartsClean(a: string, b: string)
    requires Clean(a) && Clean(b)
    ensures Joined([a]) == a && Joined([a, b]) == a + "; " + b && Clean(a + "; " + b)
  {
    assert [a, b][1..] == [b];
  }

  lemma FixedClean()
    ensures Clean(NO_PLAN) && Clean(AS_PLANNED)
  {
    var a, b := "Comparación no disponible ", "referencia al plan";
    assert NO_PLAN[0] == a[0] && NO_PLAN[|NO_PLAN| - 1] == b[|b| - 1];
    var c, d := "Sin deltas", "conforme al plan";
    assert AS_PLANNED[0] == c[0] && AS_PLANNED[|AS_PLANNED| - 1] == d[|d| - 1];
  }

  /** The comparison of clean lists of files is one line. */
  lemma DeltasClean(p: Phase)
    requires FileNames(p.created) && FileNames(p.modified) && (p.plan.Some? ==> FileNames(p.plan.value))
    ensures Clean(DeltasOf(p))
  {
    FixedClean();
    if p.plan.Some? {
      var extra, missing := ExtraFiles(p), MissingFiles(p);
      WithoutAreNames(p.created + p.modified, p.plan.value);
      WithoutAreNames(p.plan.value, p.created + p.modified);
      hide QuotedList;
      var a, b := EXTRA + QuotedList(Listed(extra)), MISSING + QuotedList(Listed(missing));
      if extra != [] { PartClean(EXTRA, extra); }
      if missing != [] { PartClean(MISSING, missing); }
      if extra != [] && missing != [] {
        PartsClean(a, b);
        assert [a] + [b] == [a, b];
      } else if extra != [] {
        PartsClean(a, a);
        assert [a] + [] == [a];
      } else if missing != [] {
        PartsClean(b, b);
        assert [] + [b] == [b];
      }
    }
  }

  // ── The phase ────────────────────────────────────────────────────

  /** Single-line fields without the writer's own separators. */
  ghost predicate CleanPhase(p: Phase) {
    && Clean(p.name) && Clean(p.status)
    && FileNames(p.created) && FileNames(p.modified) && Decisions(p.decisions)
    && (p.plan.Some? ==> FileNames(p.plan.value))
    && (forall i :: 0 <= i < |p.healing| ==> Clean(p.healing[i].what))
    && (p.errorSummary.Some? && p.errorSummary.value != "" ==> Clean(p.errorSummary.value))
  }

  lemma HealingClean(h: Healing)
    requires Clean(h.what)
    ensures Clean(HealingText(h))
  {
    var s := HealingText(h);
    var ending := if h.resolved then "resuelto" else "no resuelto";
    assert s[0] == h.what[0] && s[|s| - 1] == ending[|ending| - 1];
  }

  lemma ErrorClean(summary: Option<string>)
    requires summary.Some? && summary.value != "" ==> Clean(summary.value)
    ensures Clean(ErrorText(summary))
  {
    var fallback := "Error no especificado";
    assert fallback[0] == 'E' && fallback[|fallback| - 1] == 'o';
    var text := if summary.Some? && summary.value != "" then summary.value else fallback;
    if |text| > MAX_ERROR_CHARS {
      var cut := text[..MAX_ERROR_CHARS] + "...";
      assert cut[0] == text[0] && cut[|cut| - 1] == '.';
    }
  }

  lemma FirstReadable(p: Phase)
    requires CleanPhase(p) && p.decisions != ["ninguna"]
    ensures AllReadable(FirstFields(p))
  {
    hide KeyOf;
    hide Lower;
    hide FormatFileList;
    hide DecisionsText;
    hide DeltasOf;
    hide ParseFileList;
    hide ParseDecisions;
    EstadoReads();
    CreadosReads();
    ModificadosReads();
    DeltasReads();
    DecisionesReads();
    FilesRead(p.created);
    FilesRead(p.modified);
    DecisionsRead(p.decisions);
    OneReadable(Labelled("Estado", Estado, p.status));
    OneReadable(Labelled("Archivos creados", Creados, FormatFileList(p.created)));
    OneReadable(Labelled("Archivos modificados", Modificados, FormatFileList(p.modified)));
    DeltasClean(p);
    OneReadable(Labelled("Deltas vs plan", Deltas, DeltasOf(p)));
    OneReadable(Labelled("Decisiones", Decisiones, DecisionsText(p.decisions)));
  }

  lemma OneReadable(f: Labelled)
    requires LabelReads(f.caption, f.key) && Clean(f.value)
    ensures Readable(f) && AllReadable([f])
  {
  }

  lemma {:induction false} EventsReadable(hs: seq<Healing>)
    requires forall i :: 0 <= i < |hs| ==> Clean(hs[i].what)
    ensures AllReadable(HealingFields(hs))
  {
    if hs != [] {
      var n := |hs| - 1;
      EventsReadable(hs[..n]);
      HealingReads();
      HealingClean(hs[n]);
      OneReadable(Labelled("Self-healing", SelfHealing, HealingText(hs[n])));
    }
  }

  lemma AllFieldsReadable(p: Phase)
    requires CleanPhase(p) && p.decisions != ["ninguna"]
    ensures AllReadable(Fields(p))
  {
    FirstReadable(p);
    EventsReadable(p.healing);
    ErrorReads();
    ErrorClean(p.errorSummary);
  }

  lemma ReadLast(p: Phase)
    ensures ReadAll(LastFields(p)) == if p.status == "failed" then map[Error := ErrorText(p.errorSummary)] else map[]
  {
    if p.status == "failed" { ReadOne(Labelled("Error", Error, ErrorText(p.errorSummary))); }
  }

  lemma {:induction false} LeadingThen(d: string, rest: string)
    requires AllDigits(d) && (rest == "" || !IsDigit(rest[0]))
    ensures LeadingDigits(d + rest) == d
  {
    if d == "" {
      assert d + rest == rest;
    } else {
      assert (d + rest)[1..] == d[1..] + rest;
      LeadingThen(d[1..], rest);
    }
  }

  lemma HeadReads(number: nat, name: string)
    requires Clean(name)
    ensures PhaseHeadOf(PhaseHead(number, name)) == Some((number, name))
  {
    var digits := Digits(number);
    DigitsRead(number);
    var tail := ":" + " " + name;
    var line := PhaseHead(number, name);
    assert line == "####" + " " + ("Fase" + " " + (digits + tail));
    AfterWordReads("####", "Fase" + " " + (digits + tail));
    assert !IsSpace(digits[0]);
    AfterWordReads("Fase", digits + tail);
    LeadingThen(digits, tail);
    assert (digits + tail)[|digits|..] == tail;
    AfterWordReads(":", name);
  }

  lemma HeadShape(number: nat, name: string)
    requires Clean(name)
    ensures var line := PhaseHead(number, name);
      line[0] == '#' && RStrip(line) == line && Text.IsLine(line) && FieldOf(line) == None
  {
    var line := PhaseHead(number, name);
    DigitsRead(number);
    assert line[|line| - 1] == name[|name| - 1];
    var d := Digits(number);
    assert forall i :: 0 <= i < |d| ==> IsDigit(d[i]);
    NotField(line);
  }

  lemma NotField(line: string)
    requires line == "" || line[0] != '-'
    ensures FieldOf(line) == None
  {
    assert "-"[0] == '-';
  }

  /** Lines that need no trimming and hold no line break. */
  predicate Neat(lines: seq<string>) {
    forall i :: 0 <= i < |lines| ==> RStrip(lines[i]) == lines[i] && Text.IsLine(lines[i])
  }

  lemma NeatLines(lines: seq<string>)
    requires Neat(lines) && lines != []
    ensures TrimmedLines(Text.Join(lines, '\n')) == lines
  {
    Text.SplitJoin(lines, '\n');
  }

  lemma {:induction false} FieldsNeat(fs: seq<Labelled>)
    requires AllReadable(fs)
    ensures Neat(FieldLines(fs))
    ensures forall i :: 0 <= i < |FieldLines(fs)| ==> FieldLines(fs)[i] != "" && FieldLines(fs)[i][0] == '-'
  {
    if fs != [] {
      FieldsNeat(fs[..|fs| - 1]);
      FieldLineShape(fs[|fs| - 1]);
    }
  }

  lemma PhaseNeat(p: Phase)
    requires CleanPhase(p) && p.decisions != ["ninguna"]
    ensures Neat(PhaseLines(p))
  {
    AllFieldsReadable(p);
    FieldsNeat(Fields(p));
    HeadShape(p.number, p.name);
  }

  /** What a reader gets of a phase. */
  function ReadBack(p: Phase): PhaseStatus {
    PhaseStatus(
      p.number, p.name, p.status, p.created[..Least(|p.created|, MAX_FILES)],
      p.modified[..Least(|p.modified|, MAX_FILES)], DeltasOf(p), ShownDecisions(p.decisions),
      if p.healing == [] then None else Some(HealingText(p.healing[|p.healing| - 1])),
      if p.status == "failed" then Some(ErrorText(p.errorSummary)) else None)
  }

  lemma RawOfPhase(p: Phase)
    ensures ReadAll(Fields(p)) == ReadAll(FirstFields(p)) + ReadAll(HealingFields(p.healing)) + ReadAll(LastFields(p))
  {
    ReadConcat(FirstFields(p), HealingFields(p.healing));
    ReadConcat(FirstFields(p) + HealingFields(p.healing), LastFields(p));
  }

  lemma FirstLookups(p: Phase)
    ensures var raw := ReadAll(Fields(p));
      Get(raw, Estado, "complete") == p.status && Get(raw, Creados, "") == FormatFileList(p.created)
      && Get(raw, Modificados, "") == FormatFileList(p.modified) && Get(raw, Deltas, "") == DeltasOf(p)
      && Get(raw, Decisiones, "") == DecisionsText(p.decisions)
  {
    hide ReadAll;
    hide FormatFileList;
    hide DecisionsText;
    hide FirstFields;
    RawOfPhase(p);
    ReadFirst(p);
    ReadHealing(p.healing);
    ReadLast(p);
  }

  lemma LastLookups(p: Phase)
    ensures var raw := ReadAll(Fields(p));
      (SelfHealing in raw <==> p.healing != []) && (Error in raw <==> p.status == "failed")
      && (p.healing != [] ==> raw[SelfHealing] == HealingText(p.healing[|p.healing| - 1]))
      && (p.status == "failed" ==> raw[Error] == ErrorText(p.errorSummary))
  {
    hide ReadAll;
    hide FormatFileList;
    hide DecisionsText;
    hide FirstFields;
    RawOfPhase(p);
    ReadFirst(p);
    ReadHealing(p.healing);
    ReadLast(p);
  }

  lemma FieldsOfPhase(p: Phase)
    requires CleanPhase(p) && p.decisions != ["ninguna"]
    ensures PhaseOfFields((p.number, p.name), ReadAll(Fields(p))) == ReadBack(p)
  {
    FirstLookups(p);
    LastLookups(p);
    FilesRead(p.created);
    FilesRead(p.modified);
    DecisionsRead(p.decisions);
  }

  /** A generated phase within the word budget reads back: number, name, status and deltas as they were, the
      first ten files of each list, the decisions as shown, the last healing event and the error. */
  lemma PhaseReadsBack(p: Phase)
    requires CleanPhase(p) && p.decisions != ["ninguna"]
    requires |Words(Text.Join(PhaseLines(p), '\n'))| <= MAX_PHASE_TOKENS
    ensures TrimmedLines(PhaseText(p)) == PhaseLines(p)
    ensures ParsePhase(PhaseLines(p)) == ReadBack(p)
  {
    PhaseNeat(p);
    NeatLines(PhaseLines(p));
    HeadReads(p.number, p.name);
    HeadShape(p.number, p.name);
    AllFieldsReadable(p);
    FieldsRead(PhaseHead(p.number, p.name), Fields(p));
    FieldsOfPhase(p);
  }

  // ── Over the budget ──────────────────────────────────────────────

  predicate Word(s: string) { s != "" && forall i :: 0 <= i < |s| ==> !IsSpace(s[i]) }

  lemma {:induction false} FirstTokenIsWord(s: string)
    ensures forall i :: 0 <= i < |FirstToken(s)| ==> !IsSpace(FirstToken(s)[i])
  {
    if s != "" && !IsSpace(s[0]) { FirstTokenIsWord(s[1..]); }
  }

  lemma {:induction false} WordsAreWords(s: string)
    ensures forall i :: 0 <= i < |Words(s)| ==> Word(Words(s)[i])
    decreases |s|
  {
    var rest := LStrip(s);
    LStripShorter(s);
    if rest != "" {
      FirstTokenIsWord(rest);
      FirstTokenLength(rest);
      WordsAreWords(rest[|FirstToken(rest)|..]);
    }
  }

  lemma FirstWord(s: string)
    requires s != "" && !IsSpace(s[0])
    ensures Words(s) != [] && Words(s)[0] != "" && Words(s)[0][0] == s[0]
  {
    LStripTrimmed(s, 0);
    FirstTokenLength(s);
  }

  lemma {:induction false} JoinedWords(ws: seq<string>)
    requires ws != [] && forall i :: 0 <= i < |ws| ==> Word(ws[i])
    ensures var s := Text.Join(ws, ' ');
      Text.IsLine(s) && s != "" && ws[0] != "" && s[0] == ws[0][0]
  {
    if |ws| > 1 { JoinedWords(ws[1..]); }
  }

  lemma {:induction false} RStripKeepsFirst(s: string)
    requires s != "" && !IsSpace(s[0])
    ensures RStrip(s) != "" && RStrip(s)[0] == s[0]
  {
    if IsSpace(s[|s| - 1]) { RStripKeepsFirst(s[..|s| - 1]); }
  }

  lemma NoLabel(body: string)
    requires ':' !in body
    ensures BoldLabel(body) == None
  {
    if |body| >= 3 { FindNone(body[2..][1..], ':', ":**"); }
  }

  lemma NoticeShape(a: string, b: string, c: string, body: string)
    requires a == "**[truncado " && b == "por budget de 500 " && c == "tokens]**" && body == a + b + c
    ensures ':' !in body && Text.IsLine(body) && body != "" && body[0] == '*' && body[|body| - 1] == '*'
  {
    assert ':' !in a && ':' !in b && ':' !in c;
    assert '\n' !in a && '\n' !in b && '\n' !in c;
    assert body[|body| - 1] == c[|c| - 1];
  }

  lemma TruncatedIsNoField()
    ensures Text.IsLine(TRUNCATED) && FieldOf(RStrip(TRUNCATED)) == None
  {
    var body := "**[truncado " + "por budget de 500 " + "tokens]**";
    NoticeShape("**[truncado ", "por budget de 500 ", "tokens]**", body);
    assert TRUNCATED == "-" + " " + body;
    AfterWordReads("-", body);
    NoLabel(body);
  }

  /** Over the budget a phase loses all its fields: whatever they were, it reads back as complete, without
      files or decisions. */
  lemma OverBudgetLosesFields(p: Phase)
    requires |Words(Text.Join(PhaseLines(p), '\n'))| > MAX_PHASE_TOKENS
    ensures TrimmedLines(PhaseText(p)) != []
    ensures var read := ParsePhase(TrimmedLines(PhaseText(p)));
      read.status == "complete" && read.created == [] && read.modified == [] && read.decisions == []
      && read.deltas == "" && read.healing == None && read.error == None
  {
    var raw := Text.Join(PhaseLines(p), '\n');
    var ws := Words(raw)[..MAX_PHASE_TOKENS];
    assert PhaseHead(p.number, p.name)[0] == '#';
    assert raw[0] == '#';
    FirstWord(raw);
    WordsAreWords(raw);
    JoinedWords(ws);
    var line := Text.Join(ws, ' ');
    TruncatedIsNoField();
    TwoLines(line, TRUNCATED);
    RStripKeepsFirst(line);
    NotField(RStrip(line));
    TwoFieldless(RStrip(line), RStrip(TRUNCATED));
  }

  lemma TwoLines(a: string, b: string)
    requires Text.IsLine(a) && Text.IsLine(b)
    ensures TrimmedLines(a + "\n" + b) == [RStrip(a), RStrip(b)]
  {
    assert Text.Join([b], '\n') == b;
    assert [a, b][1..] == [b];
    assert Text.Join([a, b], '\n') == a + "\n" + b;
    Text.SplitJoin([a, b], '\n');
  }

  lemma TwoFieldless(a: string, b: string)
    requires FieldOf(a) == None && FieldOf(b) == None
    ensures FieldsOf([a, b]) == map[]
  {
    assert [a][..0] == [];
    assert FieldsOf([a]) == map[];
    assert [a, b][..1] == [a];
  }

  /** As many words as it has `x`. */
  function Chatter(n: nat): string { if n == 0 then "" else "x " + Chatter(n - 1) }

  lemma OneMoreChar(c: char, s: string)
    ensures |Words([c] + s)| >= |Words(s)|
    ensures !IsSpace(c) && s != "" && IsSpace(s[0]) ==> |Words([c] + s)| == |Words(s)| + 1
  {
    var t := [c] + s;
    assert t[1..] == s;
    if !IsSpace(c) {
      var word := FirstToken(t);
      FirstTokenLength(s);
      FirstTokenLength(t);
      assert word == [c] + FirstToken(s) && t[|word|..] == s[|word| - 1..];
    }
  }

  lemma {:induction false} MoreChars(a: string, s: string)
    ensures |Words(a + s)| >= |Words(s)|
  {
    if a == "" {
      assert a + s == s;
    } else {
      assert a + s == [a[0]] + (a[1..] + s);
      OneMoreChar(a[0], a[1..] + s);
      MoreChars(a[1..], s);
    }
  }

  lemma {:induction false} ChatterWords(n: nat, s: string)
    ensures |Words(Chatter(n) + s)| >= n
    ensures Text.IsLine(Chatter(n))
  {
    if n > 0 {
      var rest := Chatter(n - 1) + s;
      ChatterWords(n - 1, s);
      assert Chatter(n) + s == ['x'] + ([' '] + rest);
      OneMoreChar(' ', rest);
      OneMoreChar('x', [' '] + rest);
    }
  }

  /** A failed phase with a very long name reads back as complete, without its files. */
  lemma FailureIsLost()
    ensures var p := Phase(1, Chatter(501), "failed", ["a.py"], [], None, [], [], Some("boom"));
      && TrimmedLines(PhaseText(p)) != []
      && var read := ParsePhase(TrimmedLines(PhaseText(p)));
         read.status == "complete" && read.created == [] && read.error == None
  {
    var p := Phase(1, Chatter(501), "failed", ["a.py"], [], None, [], [], Some("boom"));
    var fields := FieldLines(Fields(p));
    var head := "#### Fase " + Digits(p.number) + ": ";
    var raw := Text.Join(PhaseLines(p), '\n');
    assert raw == Text.Join([head + p.name] + fields, '\n');
    hide *;
    var tail := JoinHead(head + p.name, fields);
    assert raw == head + (Chatter(501) + tail);
    ChatterWords(501, tail);
    MoreChars(head, Chatter(501) + tail);
    OverBudgetLosesFields(p);
  }

  lemma JoinHead(first: string, rest: seq<string>) returns (tail: string)
    ensures Text.Join([first] + rest, '\n') == first + tail
  {
    tail := if rest == [] then "" else "\n" + Text.Join(rest, '\n');
    assert ([first] + rest)[1..] == rest;
  }
}
