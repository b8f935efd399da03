/** Parsing what was rendered: the file reads back as the two lists it was rendered from. */
module QueueRoundTrip {
  import Text
  import opened Strings
  import opened QueueText
  import opened Wrappers

  lemma {:induction false} FoldConcat(a: seq<string>, b: seq<string>, st: State)
    ensures Fold(a + b, st) == Fold(b, Fold(a, st))
  {
    if b == [] {
      assert a + b == a;
    } else {
      assert (a + b)[..|a + b| - 1] == a + b[..|b| - 1];
      FoldConcat(a, b[..|b| - 1], st);
    }
  }

  lemma FoldOne(line: string, st: State)
    ensures Fold([line], st) == ParseLine(st, line)
  {
    assert [line][..0] == [];
  }

  lemma FieldReadsBack(name: string, value: string)
    requires name != "" && ':' !in name && Trimmed(value)
    ensures var line := RStrip(FieldLine(name, value));
      ParseField(line) == Some((name, value)) && ParseHeading(line) == None
      && !("## Pendientes" <= line) && !("## Resueltas" <= line)
  {
    var full := FieldLine(name, value);
    var line := RStrip(full);
    if value == "" {
      var short := "- **" + name + ":**";
      assert full == short + " ";
      assert full[..|full| - 1] == short;
      assert line == RStrip(short) == short;
    } else {
      assert full[|full| - 1] == value[|value| - 1];
      assert line == full;
    }
    FieldParts(name, value, line);
  }

  lemma NotHeading(line: string)
    requires line != "" && line[0] == '-'
    ensures ParseHeading(line) == None && !("## Pendientes" <= line) && !("## Resueltas" <= line)
  {
    assert "### ["[0] == '#' && "## Pendientes"[0] == '#' && "## Resueltas"[0] == '#';
  }

  lemma FieldSplits(name: string, tail: string, line: string)
    requires name != "" && ':' !in name && line == "- **" + name + ":**" + tail
    ensures ParseField(line) == Some((name, LStrip(tail)))
  {
    var rest := line[4..];
    assert rest == name + [':'] + ("**" + tail);
    IndexOfFirst(name, ':', "**" + tail);
    assert rest[..|name|] == name;
    assert rest[|name|..] == ":**" + tail;
    assert rest[|name| + 3..] == tail;
  }

  lemma FieldParts(name: string, value: string, line: string)
    requires name != "" && ':' !in name && Trimmed(value)
    requires line == (if value == "" then "- **" + name + ":**" else "- **" + name + ":** " + value)
    ensures ParseField(line) == Some((name, value)) && ParseHeading(line) == None
      && !("## Pendientes" <= line) && !("## Resueltas" <= line)
  {
    assert line[0] == '-';
    NotHeading(line);
    if value == "" {
      assert line == "- **" + name + ":**" + "";
      FieldSplits(name, "", line);
    } else {
      var tail := " " + value;
      assert line == "- **" + name + ":**" + tail;
      FieldSplits(name, tail, line);
      LStripTrimmed(tail, 1);
      assert tail[1..] == value;
    }
  }

  /** Fields of one line that survive a trip through the file. */
  predicate Clean(s: string) { Trimmed(s) && Text.IsLine(s) }

  predicate CleanFeature(s: string) { Clean(s) && s != "" && '[' !in s && ']' !in s }

  predicate OneToken(s: string) { s != "" && forall i :: 0 <= i < |s| ==> !IsSpace(s[i]) }

  lemma HeadingSplits(line: string, scope: string, key: string)
    requires OneToken(key) && scope != "" && ']' !in scope && line == "### [" + scope + ("]" + (" " + key))
    ensures ParseHeading(line) == Some((scope, key))
  {
    var rest := line[5..];
    assert rest == scope + [']'] + (" " + key);
    IndexOfFirst(scope, ']', " " + key);
    assert rest[..|scope|] == scope && rest[|scope| + 1..] == " " + key;
    LStripTrimmed(" " + key, 1);
    assert (" " + key)[1..] == key;
  }

  lemma HeadingReadsBack(feature: string, key: string)
    requires CleanFeature(feature) && OneToken(key)
    ensures var line := "### [feature: " + feature + "] " + key;
      RStrip(line) == line && ParseHeading(line) == Some(("feature: " + feature, key))
      && !("## Pendientes" <= line) && !("## Resueltas" <= line)
  {
    hide ParseHeading;
    var line := "### [feature: " + feature + "] " + key;
    var scope := "feature: " + feature;
    assert line == "### [" + scope + ("]" + (" " + key));
    assert ']' !in "feature: ";
    HeadingSplits(line, scope, key);
    assert line[|line| - 1] == key[|key| - 1];
    assert line[2] == '#' && "## Pendientes"[2] == ' ' && "## Resueltas"[2] == ' ';
  }

  lemma FeatureReadsBack(feature: string)
    requires CleanFeature(feature)
    ensures FeatureOf("feature: " + feature) == feature
  {
    var scope := "feature: " + feature;
    assert "feature:" <= scope && Find(scope, "feature:") == Some(0);
    var rest := scope[8..];
    assert rest == " " + feature;
    IndexOfNone(rest, ']');
    IndexOfNone(rest, '[');
    assert rest[..|rest|] == rest;
    assert RStrip(rest) == rest by { assert rest[|rest| - 1] == feature[|feature| - 1]; }
    LStripTrimmed(rest, 1);
    assert rest[1..] == feature;
  }

  lemma {:induction false} TokenReadsBack(key: string)
    requires OneToken(key)
    ensures FirstToken(key) == key && Strip(key) == key
  {
    TokenWhole(key);
    StripTrimmed(key);
  }

  lemma {:induction false} TokenWhole(s: string)
    requires forall i :: 0 <= i < |s| ==> !IsSpace(s[i])
    ensures FirstToken(s) == s
  {
    if s != "" {
      TokenWhole(s[1..]);
      assert s == [s[0]] + s[1..];
    }
  }

  lemma LabelKey(name: string, key: string)
    requires Trimmed(name) && |name| == |key|
    requires forall i :: 0 <= i < |key| ==> key[i] == if name[i] == ' ' then '_' else LowerChar(name[i])
    ensures NormKey(name) == key
  {
    StripTrimmed(name);
  }

  /** A label without colon, and the key it is read under. */
  predicate ReadsAs(name: string, key: Key) {
    name != "" && ':' !in name && Text.IsLine(name) && KeyOf(NormKey(name)) == key
  }

  lemma EngineIdReads()
    ensures ReadsAs("Engine ID", EngineId)
  {
    LabelKey("Engine ID", "engine_id");
  }

  lemma GeneradoReads()
    ensures ReadsAs("Generado", Generado)
  {
    LabelKey("Generado", "generado");
  }

  lemma DefaultReads()
    ensures ReadsAs("Default aplicado", DefaultAplicado)
  {
    LabelKey("Default aplicado", "default_aplicado");
  }

  lemma BloqueaReads()
    ensures ReadsAs("Bloquea", Bloquea)
  {
    LabelKey("Bloquea", "bloquea");
  }

  lemma AccionReads()
    ensures ReadsAs("Acción", AccionAccented)
  {
    LabelKey("Acción", "acción");
  }

  lemma EvidenciaReads()
    ensures ReadsAs("Evidencia", Evidencia)
  {
    LabelKey("Evidencia", "evidencia");
  }

  lemma ResueltoReads()
    ensures ReadsAs("Resuelto", Resuelto)
  {
    LabelKey("Resuelto", "resuelto");
  }

  lemma ResolucionReads()
    ensures ReadsAs("Resolución", ResolucionAccented)
  {
    LabelKey("Resolución", "resolución");
  }

  lemma AutoReads()
    ensures ReadsAs("Auto_resolved", AutoResolved)
  {
    LabelKey("Auto_resolved", "auto_resolved");
  }

  /** A field line sets its key. */
  lemma FieldFolds(lines: seq<string>, st: State, mid: State, raw: Raw, f: Labelled)
    requires Fold(lines, st) == mid.(current := Some(raw)) && !mid.section.NoSection?
    requires Readable(f)
    ensures Fold(lines + [FieldLine(f.name, f.value)], st) == mid.(current := Some(raw[f.key := f.value]))
  {
    FoldConcat(lines, [FieldLine(f.name, f.value)], st);
    FoldOne(FieldLine(f.name, f.value), Fold(lines, st));
    FieldReadsBack(f.name, f.value);
    StripTrimmed(f.value);
  }

  /** What reading the shown fields adds to what was read before. */
  function ReadFields(raw: Raw, fields: seq<Labelled>): Raw {
    if fields == [] then raw
    else
      var last := fields[|fields| - 1];
      var before := ReadFields(raw, fields[..|fields| - 1]);
      if last.value != "" then before[last.key := last.value] else before
  }

  predicate Readable(f: Labelled) { ReadsAs(f.name, f.key) && Clean(f.value) }

  lemma {:induction false} FieldsFold(lines: seq<string>, st: State, mid: State, raw: Raw, fields: seq<Labelled>)
    requires Fold(lines, st) == mid.(current := Some(raw)) && !mid.section.NoSection?
    requires forall i :: 0 <= i < |fields| ==> Readable(fields[i])
    ensures Fold(lines + RenderFields(fields), st) == mid.(current := Some(ReadFields(raw, fields)))
  {
    if fields == [] {
      assert lines + [] == lines;
    } else {
      var front, last := fields[..|fields| - 1], fields[|fields| - 1];
      FieldsFold(lines, st, mid, raw, front);
      assert Readable(last);
      var so := lines + RenderFields(front);
      if last.value != "" {
        FieldFolds(so, st, mid, ReadFields(raw, front), last);
        assert lines + RenderFields(fields) == so + [FieldLine(last.name, last.value)];
      } else {
        assert lines + RenderFields(fields) == so;
      }
    }
  }

  lemma BlankFolds(lines: seq<string>, st: State)
    ensures Fold(lines + [""], st) == Fold(lines, st)
  {
    FoldConcat(lines, [""], st);
    FoldOne("", Fold(lines, st));
  }

  /** An entry that survives a trip through the file. */
  predicate ValidEntry(e: Entry) {
    && CleanFeature(e.feature) && OneToken(e.decisionKey)
    && Clean(e.engineId) && Clean(e.generatedAt) && Clean(e.defaultApplied) && Clean(e.blocks) && Clean(e.action)
    && ValidOption(e.evidence) && ValidOption(e.resolvedAt) && ValidOption(e.resolution)
  }

  /** Absent, or clean and not empty. */
  predicate ValidOption(o: Option<string>) { o.Some? ==> Clean(o.value) && o.value != "" }

  predicate Unresolved(e: Entry) { e.resolvedAt.None? && e.resolution.None? && !e.autoResolved }

  function HeadRaw(e: Entry): Raw {
    map[Scope := "feature: " + e.feature, Title := e.decisionKey, EngineId := e.engineId]
  }

  function RawOf(e: Entry, resolved: bool): Raw { ReadFields(HeadRaw(e), Shown(e, resolved)) }

  lemma HeadFolds(e: Entry, st: State)
    requires ValidEntry(e) && !st.section.NoSection?
    ensures Fold([Heading(e), ""] + [FieldLine("Engine ID", e.engineId)], st)
      == Commit(st).(current := Some(HeadRaw(e)))
  {
    EngineIdReads();
    HeadingReadsBack(e.feature, e.decisionKey);
    FoldOne(Heading(e), st);
    BlankFolds([Heading(e)], st);
    assert [Heading(e)] + [""] == [Heading(e), ""];
    var raw: Raw := map[Scope := "feature: " + e.feature, Title := e.decisionKey];
    FieldFolds([Heading(e), ""], st, Commit(st), raw, Labelled("Engine ID", EngineId, e.engineId));
    assert raw[EngineId := e.engineId] == HeadRaw(e);
  }

  lemma DetailsReadable(e: Entry)
    requires ValidEntry(e)
    ensures forall i :: 0 <= i < |Details(e)| ==> Readable(Details(e)[i])
  {
    GeneradoReads();
    DefaultReads();
    BloqueaReads();
    AccionReads();
    EvidenciaReads();
    forall i | 0 <= i < |Details(e)| ensures Readable(Details(e)[i]) {
      if i == 0 {} else if i == 1 {} else if i == 2 {} else if i == 3 {} else {}
    }
  }

  lemma OutcomeReadable(e: Entry)
    requires ValidEntry(e)
    ensures forall i :: 0 <= i < |Outcome(e)| ==> Readable(Outcome(e)[i])
  {
    ResueltoReads();
    ResolucionReads();
    AutoReads();
    assert Clean("true");
    forall i | 0 <= i < |Outcome(e)| ensures Readable(Outcome(e)[i]) {
      if i == 0 {} else if i == 1 {} else {}
    }
  }

  lemma ShownReadable(e: Entry, resolved: bool)
    requires ValidEntry(e)
    ensures forall i :: 0 <= i < |Shown(e, resolved)| ==> Readable(Shown(e, resolved)[i])
  {
    DetailsReadable(e);
    if resolved { OutcomeReadable(e); }
  }

  /** Reading a rendered entry commits the one before and leaves this one to be committed. */
  lemma EntryFolds(e: Entry, resolved: bool, st: State)
    requires ValidEntry(e) && !st.section.NoSection?
    ensures Fold(RenderEntry(e, resolved), st) == Commit(st).(current := Some(RawOf(e, resolved)))
  {
    var head := [Heading(e), ""] + [FieldLine("Engine ID", e.engineId)];
    HeadFolds(e, st);
    ShownReadable(e, resolved);
    FieldsFold(head, st, Commit(st), HeadRaw(e), Shown(e, resolved));
    BlankFolds(head + RenderFields(Shown(e, resolved)), st);
  }

  lemma {:induction false} LookupOther(raw: Raw, fields: seq<Labelled>, key: Key)
    requires forall i :: 0 <= i < |fields| ==> fields[i].key != key
    ensures key in ReadFields(raw, fields) <==> key in raw
    ensures Field(ReadFields(raw, fields), key) == Field(raw, key)
  {
    if fields != [] { LookupOther(raw, fields[..|fields| - 1], key); }
  }

  ghost predicate DistinctKeys(fields: seq<Labelled>) {
    forall i, j :: 0 <= i < j < |fields| ==> fields[i].key != fields[j].key
  }

  lemma {:induction false} LookupShown(raw: Raw, fields: seq<Labelled>, i: nat)
    requires i < |fields| && fields[i].key !in raw && DistinctKeys(fields)
    ensures Field(ReadFields(raw, fields), fields[i].key) == fields[i].value
    ensures fields[i].key in ReadFields(raw, fields) <==> fields[i].value != ""
  {
    var n := |fields| - 1;
    if i < n {
      LookupShown(raw, fields[..n], i);
    } else {
      LookupOther(raw, fields[..n], fields[i].key);
    }
  }

  predicate IsHeadKey(key: Key) { key.Scope? || key.Title? || key.EngineId? }

  predicate IsShownKey(key: Key) {
    key.Generado? || key.DefaultAplicado? || key.Bloquea? || key.AccionAccented? || key.Evidencia?
  }

  predicate IsOutcomeKey(key: Key) { key.Resuelto? || key.ResolucionAccented? || key.AutoResolved? }

  /** A key that was not rendered is not found. */
  lemma RawUnused(e: Entry, resolved: bool, key: Key)
    requires !IsShownKey(key) && !(resolved && IsOutcomeKey(key))
    ensures key in RawOf(e, resolved) <==> IsHeadKey(key)
    ensures Field(RawOf(e, resolved), key) == Field(HeadRaw(e), key)
  {
    LookupOther(HeadRaw(e), Shown(e, resolved), key);
  }

  lemma ShownDistinct(e: Entry, resolved: bool)
    ensures DistinctKeys(Shown(e, resolved)) && |Shown(e, resolved)| >= 5
    ensures forall i :: 0 <= i < |Shown(e, resolved)| ==> Shown(e, resolved)[i].key !in HeadRaw(e)
  {
  }

  lemma RawDetail(e: Entry, resolved: bool, i: nat)
    requires i < |Shown(e, resolved)|
    ensures Field(RawOf(e, resolved), Shown(e, resolved)[i].key) == Shown(e, resolved)[i].value
  {
    ShownDistinct(e, resolved);
    LookupShown(HeadRaw(e), Shown(e, resolved), i);
  }

  /** The lookups of the rendered details find what was rendered. */
  lemma RawDetails(e: Entry, resolved: bool)
    ensures var raw := RawOf(e, resolved);
      && Field(raw, Generado) == e.generatedAt && Field(raw, DefaultAplicado) == e.defaultApplied
      && Field(raw, Bloquea) == e.blocks && Field(raw, AccionAccented) == e.action
      && Field(raw, Evidencia) == OrEmpty(e.evidence)
  {
    ShownDistinct(e, resolved);
    RawDetail(e, resolved, 0);
    RawDetail(e, resolved, 1);
    RawDetail(e, resolved, 2);
    RawDetail(e, resolved, 3);
    RawDetail(e, resolved, 4);
  }

  lemma RawOutcome(e: Entry)
    ensures var raw := RawOf(e, true);
      && Field(raw, Resuelto) == OrEmpty(e.resolvedAt) && Field(raw, ResolucionAccented) == OrEmpty(e.resolution)
      && Field(raw, AutoResolved) == if e.autoResolved then "true" else ""
  {
    RawDetail(e, true, 5);
    RawDetail(e, true, 6);
    RawDetail(e, true, 7);
  }

  lemma EitherAbsent(raw: Raw, a: Key, b: Key, o: Option<string>)
    requires b !in raw && Field(raw, a) == OrEmpty(o) && (o.Some? ==> o.value != "")
    ensures Either(raw, a, b) == Field(raw, a) && EitherOpt(raw, a, b) == o
  {
  }

  lemma HeadReadsBack(e: Entry, resolved: bool)
    requires ValidEntry(e)
    ensures var back := EntryOf(RawOf(e, resolved));
      back.engineId == e.engineId && back.feature == e.feature && back.decisionKey == e.decisionKey
  {
    RawUnused(e, resolved, Scope);
    RawUnused(e, resolved, Title);
    RawUnused(e, resolved, EngineId);
    FeatureReadsBack(e.feature);
    TokenReadsBack(e.decisionKey);
  }

  lemma DetailsReadBack(e: Entry, resolved: bool)
    requires ValidEntry(e)
    ensures var back := EntryOf(RawOf(e, resolved));
      && back.generatedAt == e.generatedAt && back.defaultApplied == e.defaultApplied
      && back.blocks == e.blocks && back.action == e.action && back.evidence == e.evidence
  {
    hide RawOf;
    var raw := RawOf(e, resolved);
    RawDetails(e, resolved);
    RawUnused(e, resolved, Generated);
    RawUnused(e, resolved, DefaultApplied);
    RawUnused(e, resolved, Blocks);
    RawUnused(e, resolved, Accion);
    RawUnused(e, resolved, Action);
    RawUnused(e, resolved, Evidence);
    EitherAbsent(raw, Evidencia, Evidence, e.evidence);
  }

  lemma OutcomeReadsBack(e: Entry, resolved: bool)
    requires ValidEntry(e) && (!resolved ==> Unresolved(e))
    ensures var back := EntryOf(RawOf(e, resolved));
      back.resolvedAt == e.resolvedAt && back.resolution == e.resolution && back.autoResolved == e.autoResolved
  {
    hide RawOf;
    var raw := RawOf(e, resolved);
    assert Lower("true") == "true" && Lower("") == "";
    RawUnused(e, resolved, ResolvedOn);
    RawUnused(e, resolved, Resolucion);
    RawUnused(e, resolved, Resolution);
    if resolved {
      RawOutcome(e);
    } else {
      RawUnused(e, resolved, Resuelto);
      RawUnused(e, resolved, ResolucionAccented);
      RawUnused(e, resolved, AutoResolved);
    }
    EitherAbsent(raw, Resuelto, ResolvedOn, e.resolvedAt);
    EitherAbsent(raw, ResolucionAccented, Resolucion, e.resolution);
  }

  /** Committing what was read of a rendered entry gives the entry. */
  lemma EntryReadsBack(e: Entry, resolved: bool)
    requires ValidEntry(e) && (!resolved ==> Unresolved(e))
    ensures EntryOf(RawOf(e, resolved)) == e
  {
    HeadReadsBack(e, resolved);
    DetailsReadBack(e, resolved);
    OutcomeReadsBack(e, resolved);
  }

  // ── The whole file ───────────────────────────────────────────────

  function MoreIn(section: Section, out: Queue, entries: seq<Entry>): Queue {
    if section.Pending? then out.(pending := out.pending + entries) else out.(resolved := out.resolved + entries)
  }

  ghost predicate ValidList(entries: seq<Entry>, resolved: bool) {
    forall i :: 0 <= i < |entries| ==> ValidEntry(entries[i]) && (!resolved ==> Unresolved(entries[i]))
  }

  lemma EntryFoldsAfter(lines: seq<string>, st: State, mid: State, e: Entry)
    requires Commit(Fold(lines, st)) == mid && Fold(lines, st).section == mid.section && !mid.section.NoSection?
    requires ValidEntry(e) && (mid.section.Pending? ==> Unresolved(e))
    ensures var after := Fold(lines + RenderEntry(e, mid.section.Resolved?), st);
      Commit(after) == State(MoreIn(mid.section, mid.out, [e]), mid.section, None) && after.section == mid.section
  {
    FoldConcat(lines, RenderEntry(e, mid.section.Resolved?), st);
    EntryFolds(e, mid.section.Resolved?, Fold(lines, st));
    EntryReadsBack(e, mid.section.Resolved?);
  }

  lemma MoreInTwice(section: Section, out: Queue, a: seq<Entry>, b: seq<Entry>)
    ensures MoreIn(section, MoreIn(section, out, a), b) == MoreIn(section, out, a + b)
    ensures MoreIn(section, out, []) == out
  {
    assert out.pending + (a + b) == (out.pending + a) + b && out.resolved + (a + b) == (out.resolved + a) + b;
    assert out.pending + [] == out.pending && out.resolved + [] == out.resolved;
  }

  lemma ListEnd(section: Section, out: Queue)
    requires !section.NoSection?
    ensures var st := Fold(RenderList([], section.Resolved?), State(out, section, None));
      Commit(st) == State(MoreIn(section, out, []), section, None) && st.section == section
  {
    MoreInTwice(section, out, [], []);
  }

  lemma ListStep(section: Section, out: Queue, front: seq<Entry>, last: Entry)
    requires !section.NoSection? && ValidEntry(last) && (section.Pending? ==> Unresolved(last))
    requires var st := Fold(RenderList(front, section.Resolved?), State(out, section, None));
      Commit(st) == State(MoreIn(section, out, front), section, None) && st.section == section
    ensures var lines := RenderList(front, section.Resolved?) + RenderEntry(last, section.Resolved?);
      var st := Fold(lines, State(out, section, None));
      Commit(st) == State(MoreIn(section, out, front + [last]), section, None) && st.section == section
  {
    hide Fold;
    hide MoreIn;
    hide Commit;
    hide RenderEntry;
    var mid := State(MoreIn(section, out, front), section, None);
    EntryFoldsAfter(RenderList(front, section.Resolved?), State(out, section, None), mid, last);
    MoreInTwice(section, out, front, [last]);
  }

  lemma {:induction false} ListFolds(entries: seq<Entry>, section: Section, out: Queue)
    requires !section.NoSection? && ValidList(entries, section.Resolved?)
    ensures var st := Fold(RenderList(entries, section.Resolved?), State(out, section, None));
      Commit(st) == State(MoreIn(section, out, entries), section, None) && st.section == section
  {
    hide Fold;
    hide MoreIn;
    hide Commit;
    hide RenderEntry;
    if entries == [] {
      ListEnd(section, out);
    } else {
      var front, last := entries[..|entries| - 1], entries[|entries| - 1];
      ListFolds(front, section, out);
      ListStep(section, out, front, last);
      assert entries == front + [last];
    }
  }

  lemma VacioFolds(st: State)
    requires !st.section.NoSection? && st.current.None?
    ensures Fold(["_(vacío)_"], st) == st
  {
    var line := "_(vacío)_";
    FoldOne(line, st);
    assert line[|line| - 1] == '_' && line[0] == '_';
    assert RStrip(line) == line;
    assert "### ["[0] == '#' && "## Pendientes"[0] == '#' && "## Resueltas"[0] == '#';
  }

  lemma SectionFolds(entries: seq<Entry>, section: Section, out: Queue)
    requires !section.NoSection? && ValidList(entries, section.Resolved?)
    ensures var st := Fold(RenderSection(entries, section.Resolved?), State(out, section, None));
      Commit(st) == State(MoreIn(section, out, entries), section, None) && st.section == section
  {
    if entries == [] {
      VacioFolds(State(out, section, None));
      MoreInTwice(section, out, [], []);
    } else {
      ListFolds(entries, section, out);
    }
  }

  lemma HeaderFolds(st: State)
    ensures Fold(["## Pendientes", ""], st) == State(st.out, Pending, None)
    ensures Fold(["", "## Resueltas", ""], st) == Commit(st).(section := Resolved)
  {
    var p, r := "## Pendientes", "## Resueltas";
    assert RStrip(p) == p by { assert p[|p| - 1] == 's'; }
    assert RStrip(r) == r by { assert r[|r| - 1] == 's'; }
    assert p[3] == 'P' && r[3] == 'R';
    FoldOne(p, st);
    BlankFolds([p], st);
    assert [p] + [""] == [p, ""];
    BlankFolds([], st);
    assert [] + [""] == [""];
    FoldConcat([""], [r], st);
    FoldOne(r, st);
    assert [""] + [r] == ["", r];
    BlankFolds(["", r], st);
    assert ["", r] + [""] == ["", r, ""];
  }

  lemma PrefaceLine(line: string)
    requires PlainText(line)
    ensures ParseLine(START, line) == START
  {
    assert "## Pendientes"[1] == '#' && "## Resueltas"[1] == '#';
    assert |"## Pendientes"| > 3 && |"## Resueltas"| > 3;
    assert RStrip(line) == line;
  }

  lemma {:induction false} PrefaceFolds(lines: seq<string>)
    requires forall i :: 0 <= i < |lines| ==> PlainText(lines[i])
    ensures Fold(lines, START) == START
  {
    if lines != [] {
      PrefaceFolds(lines[..|lines| - 1]);
      PrefaceLine(lines[|lines| - 1]);
    }
  }

  ghost predicate ValidQueue(q: Queue) { ValidList(q.pending, false) && ValidList(q.resolved, true) }

  lemma PartsFold(preface: seq<string>, h1: seq<string>, h2: seq<string>, q: Queue)
    requires ValidQueue(q) && Fold(preface, START) == START
    requires forall st :: Fold(h1, st) == State(st.out, Pending, None)
    requires forall st :: Fold(h2, st) == Commit(st).(section := Resolved)
    ensures var lines := preface + h1 + RenderSection(q.pending, false) + h2 + RenderSection(q.resolved, true);
      Commit(Fold(lines, START)).out == q
  {
    var s1, s2 := RenderSection(q.pending, false), RenderSection(q.resolved, true);
    FoldConcat(preface, h1, START);
    FoldConcat(preface + h1, s1, START);
    SectionFolds(q.pending, Pending, Queue([], []));
    assert [] + q.pending == q.pending && [] + q.resolved == q.resolved;
    FoldConcat(preface + h1 + s1, h2, START);
    FoldConcat(preface + h1 + s1 + h2, s2, START);
    SectionFolds(q.resolved, Resolved, Queue(q.pending, []));
  }

  lemma HeadersFold(h1: seq<string>, h2: seq<string>)
    requires h1 == ["## Pendientes", ""] && h2 == ["", "## Resueltas", ""]
    ensures forall st :: Fold(h1, st) == State(st.out, Pending, None)
    ensures forall st :: Fold(h2, st) == Commit(st).(section := Resolved)
  {
    forall st ensures Fold(h1, st) == State(st.out, Pending, None) && Fold(h2, st) == Commit(st).(section := Resolved) {
      HeaderFolds(st);
    }
  }

  /** A line of the preface: it ends in no white space and is no section header. */
  predicate PlainText(line: string) {
    Text.IsLine(line) && (line == "" || !IsSpace(line[|line| - 1])) && (|line| < 3 || line[1] != '#')
  }

  lemma FourPieces(a: string, b: string, c: string, d: string)
    requires |a| > 2 && a[1] != '#' && d != "" && !IsSpace(d[|d| - 1])
    requires Text.IsLine(a) && Text.IsLine(b) && Text.IsLine(c) && Text.IsLine(d)
    ensures PlainText(a + b + c + d)
  {
    var s := a + b + c + d;
    assert s[1] == a[1] && s[|s| - 1] == d[|d| - 1];
  }

  lemma IntroIsText()
    ensures PlainText(INTRO_1) && PlainText(INTRO_2) && PlainText(INTRO_3)
  {
    FourPieces("Esta cola acumula", " decisiones que el", " engine pudo continuar", " con un default");
    FourPieces("razonable pero que", " requieren tu visto", " bueno antes de", " marcar el UC como");
    FourPieces("ACCEPTED. Las acciones", " destructivas y la", " calidad de specs", " nunca entran aquí.");
  }

  lemma PrefaceIsText()
    ensures forall i :: 0 <= i < |PREFACE| ==> PlainText(PREFACE[i])
  {
    IntroIsText();
    assert PlainText("# Decisions Queue") && PlainText("");
    forall i | 0 <= i < |PREFACE| ensures PlainText(PREFACE[i]) {
      if i == 0 {} else if i == 1 {} else if i == 2 {} else if i == 3 {} else if i == 4 {} else {}
    }
  }

  lemma RenderFolds(q: Queue)
    requires ValidQueue(q)
    ensures Commit(Fold(RenderLines(q), START)).out == q
  {
    var h1, h2 := ["## Pendientes", ""], ["", "## Resueltas", ""];
    HeadersFold(h1, h2);
    PrefaceIsText();
    PrefaceFolds(PREFACE);
    PartsFold(PREFACE, h1, h2, q);
  }

  lemma {:induction false} FieldsLines(fields: seq<Labelled>)
    requires forall i :: 0 <= i < |fields| ==> Readable(fields[i])
    ensures Text.AllLines(RenderFields(fields))
  {
    if fields != [] {
      FieldsLines(fields[..|fields| - 1]);
      assert Readable(fields[|fields| - 1]);
    }
  }

  lemma HeadLines(e: Entry)
    requires ValidEntry(e)
    ensures Text.IsLine(Heading(e)) && Text.IsLine(FieldLine("Engine ID", e.engineId))
  {
    assert Text.IsLine(e.decisionKey);
  }

  lemma EntryLines(e: Entry, resolved: bool)
    requires ValidEntry(e)
    ensures Text.AllLines(RenderEntry(e, resolved))
  {
    hide Shown;
    hide Heading;
    ShownReadable(e, resolved);
    FieldsLines(Shown(e, resolved));
    HeadLines(e);
  }

  lemma {:induction false} ListLines(entries: seq<Entry>, resolved: bool)
    requires ValidList(entries, resolved)
    ensures Text.AllLines(RenderList(entries, resolved))
  {
    if entries != [] {
      ListLines(entries[..|entries| - 1], resolved);
      EntryLines(entries[|entries| - 1], resolved);
    }
  }

  lemma SectionLines(entries: seq<Entry>, resolved: bool)
    requires ValidList(entries, resolved)
    ensures Text.AllLines(RenderSection(entries, resolved))
  {
    ListLines(entries, resolved);
    assert Text.IsLine("_(vacío)_");
  }

  lemma FixedLines()
    ensures Text.AllLines(PREFACE) && Text.AllLines(["## Pendientes", ""]) && Text.AllLines(["", "## Resueltas", ""])
  {
    PrefaceIsText();
  }

  lemma LinesConcat(a: seq<string>, b: seq<string>)
    requires Text.AllLines(a) && Text.AllLines(b)
    ensures Text.AllLines(a + b)
  {
  }

  lemma RenderedLines(q: Queue)
    requires ValidQueue(q)
    ensures Text.AllLines(RenderLines(q)) && RenderLines(q) != []
  {
    var h1, h2 := ["## Pendientes", ""], ["", "## Resueltas", ""];
    FixedLines();
    SectionLines(q.pending, false);
    SectionLines(q.resolved, true);
    LinesConcat(PREFACE, h1);
    LinesConcat(PREFACE + h1, RenderSection(q.pending, false));
    LinesConcat(PREFACE + h1 + RenderSection(q.pending, false), h2);
    LinesConcat(PREFACE + h1 + RenderSection(q.pending, false) + h2, RenderSection(q.resolved, true));
  }

  /** Parse after render is the identity on valid queues. */
  lemma ParseRender(q: Queue)
    requires ValidQueue(q)
    ensures Parse(Render(q)) == q
  {
    var lines := RenderLines(q);
    RenderedLines(q);
    Text.LinesUnlines(lines, true);
    RenderFolds(q);
  }
}
