/** Implementation status in a PRD: the writer (server/delta_generator.py) and the parser
    (server/prd_parser.py). */
module PrdText {
  import Text
  import opened Decimals
  import opened Strings
  import opened Wrappers

  // ── Writing a phase ──────────────────────────────────────────────

  /** A self-healing event of a phase. */
  datatype Healing = Healing(what: string, resolved: bool)

  /** A phase to report; `plan` is the files its plan expected, if there was one. */
  datatype Phase = Phase(
    number: nat, name: string, status: string, created: seq<string>, modified: seq<string>,
    plan: Option<seq<string>>, decisions: seq<string>, healing: seq<Healing>, errorSummary: Option<string>)

  const MAX_PHASE_TOKENS := 500
  const MAX_FILES := 10
  const MAX_DECISIONS := 3
  const MAX_ERROR_CHARS := 150

  /** The labels of a phase's fields, and any other label. */
  datatype Key = Estado | Creados | Modificados | Deltas | Decisiones | SelfHealing | Error | Other(name: string)

  function KeyOf(name: string): Key {
    match name
    case "estado" => Estado
    case "archivos creados" => Creados
    case "archivos modificados" => Modificados
    case "deltas vs plan" => Deltas
    case "decisiones" => Decisiones
    case "self-healing" => SelfHealing
    case "error" => Error
    case _ => Other(name)
  }

  /** A field as it is written, and the key it should be read under. */
  datatype Labelled = Labelled(caption: string, key: Key, value: string)

  function FieldLine(f: Labelled): string { "- **" + f.caption + ":** " + f.value }

  function Quoted(file: string): string { "`" + file + "`" }

  /** `", ".join(...)` of quoted names. */
  function QuotedList(files: seq<string>): string {
    if files == [] then ""
    else if |files| == 1 then Quoted(files[0])
    else Quoted(files[0]) + ", " + QuotedList(files[1..])
  }

  function More(n: nat): string { " ... y " + Digits(n) + " más" }

  /** `_format_file_list` */
  function FormatFileList(files: seq<string>): string {
    if files == [] then "ninguno"
    else if |files| <= MAX_FILES then QuotedList(files)
    else QuotedList(files[..MAX_FILES]) + More(|files| - MAX_FILES)
  }

  /** `"; ".join(...)` */
  function Joined(parts: seq<string>): string {
    if parts == [] then "" else if |parts| == 1 then parts[0] else parts[0] + "; " + Joined(parts[1..])
  }

  function DecisionsText(decisions: seq<string>): string {
    if decisions == [] then "ninguna"
    else if |decisions| <= MAX_DECISIONS then Joined(decisions)
    else Joined(decisions[..MAX_DECISIONS]) + More(|decisions| - MAX_DECISIONS)
  }

  // ── The comparison with the plan ─────────────────────────────────

  function Least(a: nat, b: nat): nat { if a < b then a else b }

  const MAX_DELTAS := 5
  const NO_PLAN := "Comparación no disponible " + ("— archivos listados sin " + "referencia al plan")
  const EXTRA := "Archivos adicionales: "
  const MISSING := "Archivos esperados no tocados: "
  const AS_PLANNED := "Sin deltas" + (" — implementación " + "conforme al plan")

  /** A sorted list of names with one more, which is in it only once. */
  function InsertName(names: seq<string>, name: string): seq<string> {
    if names == [] then [name]
    else
      var front, last := names[..|names| - 1], names[|names| - 1];
      if last == name then names
      else if AtMost(last, name) then names + [name]
      else InsertName(front, name) + [last]
  }

  /** `sorted(set(files) - set(others))` */
  function SortedWithout(files: seq<string>, others: seq<string>): seq<string> {
    if files == [] then []
    else
      var front := SortedWithout(files[..|files| - 1], others);
      if files[|files| - 1] in others then front else InsertName(front, files[|files| - 1])
  }

  function Listed(names: seq<string>): seq<string> { names[..Least(|names|, MAX_DELTAS)] }

  function DeltaPart(caption: string, names: seq<string>): seq<string> {
    if names == [] then [] else [caption + QuotedList(Listed(names))]
  }

  function ExtraFiles(p: Phase): seq<string>
    requires p.plan.Some?
  {
    SortedWithout(p.created + p.modified, p.plan.value)
  }

  function MissingFiles(p: Phase): seq<string>
    requires p.plan.Some?
  {
    SortedWithout(p.plan.value, p.created + p.modified)
  }

  /** `_compute_deltas` */
  function DeltasOf(p: Phase): string {
    if p.plan.None? then NO_PLAN
    else
      var parts := DeltaPart(EXTRA, ExtraFiles(p))
        + DeltaPart(MISSING, MissingFiles(p));
      if parts == [] then AS_PLANNED else Joined(parts)
  }

  // ── The fields ───────────────────────────────────────────────────

  function HealingText(h: Healing): string { h.what + " — " + if h.resolved then "resuelto" else "no resuelto" }

  function HealingFields(hs: seq<Healing>): seq<Labelled> {
    if hs == [] then []
    else HealingFields(hs[..|hs| - 1]) + [Labelled("Self-healing", SelfHealing, HealingText(hs[|hs| - 1]))]
  }

  function ErrorText(summary: Option<string>): string {
    var text := if summary.Some? && summary.value != "" then summary.value else "Error no especificado";
    if |text| > MAX_ERROR_CHARS then text[..MAX_ERROR_CHARS] + "..." else text
  }

  function FirstFields(p: Phase): seq<Labelled> {
    [Labelled("Estado", Estado, p.status)]
    + [Labelled("Archivos creados", Creados, FormatFileList(p.created))]
    + [Labelled("Archivos modificados", Modificados, FormatFileList(p.modified))]
    + [Labelled("Deltas vs plan", Deltas, DeltasOf(p))]
    + [Labelled("Decisiones", Decisiones, DecisionsText(p.decisions))]
  }

  function LastFields(p: Phase): seq<Labelled> {
    if p.status == "failed" then [Labelled("Error", Error, ErrorText(p.errorSummary))] else []
  }

  function Fields(p: Phase): seq<Labelled> { FirstFields(p) + HealingFields(p.healing) + LastFields(p) }

  function FieldLines(fields: seq<Labelled>): seq<string> {
    if fields == [] then [] else FieldLines(fields[..|fields| - 1]) + [FieldLine(fields[|fields| - 1])]
  }

  function PhaseHead(number: nat, name: string): string { "#### Fase " + Digits(number) + ": " + name }

  function PhaseLines(p: Phase): seq<string> { [PhaseHead(p.number, p.name)] + FieldLines(Fields(p)) }

  // ── The token budget ─────────────────────────────────────────────

  /** `text.split()` */
  function Words(s: string): seq<string>
    decreases |s|
  {
    var rest := LStrip(s);
    LStripShorter(s);
    if rest == "" then []
    else
      var word := FirstToken(rest);
      FirstTokenLength(rest);
      [word] + Words(rest[|word|..])
  }

  lemma {:induction false} FirstTokenLength(s: string)
    ensures |FirstToken(s)| <= |s|
    ensures s != "" && !IsSpace(s[0]) ==> FirstToken(s) != "" && FirstToken(s)[0] == s[0]
  {
    if s != "" && !IsSpace(s[0]) { FirstTokenLength(s[1..]); }
  }

  const TRUNCATED := "- " + ("**[truncado " + "por budget de 500 " + "tokens]**")

  /** `_enforce_token_budget`: the words kept are joined by blanks, so no line break is left among them. */
  function EnforceTokenBudget(text: string): string {
    var words := Words(text);
    if |words| <= MAX_PHASE_TOKENS then text
    else Text.Join(words[..MAX_PHASE_TOKENS], ' ') + "\n" + TRUNCATED
  }

  /** `generate_phase_delta` */
  function PhaseText(p: Phase): string { EnforceTokenBudget(Text.Join(PhaseLines(p), '\n')) }

  lemma {:induction false} FieldLinesConcat(a: seq<Labelled>, b: seq<Labelled>)
    ensures FieldLines(a + b) == FieldLines(a) + FieldLines(b)
  {
    if b == [] {
      assert a + b == a;
    } else {
      assert (a + b)[..|a + b| - 1] == a + b[..|b| - 1];
      FieldLinesConcat(a, b[..|b| - 1]);
    }
  }

  lemma OneField(f: Labelled)
    ensures FieldLines([f]) == [FieldLine(f)]
  {
    assert [f][..0] == [];
  }

  method AppendField(lines: seq<string>, ghost head: string, ghost fields: seq<Labelled>, f: Labelled)
    returns (more: seq<string>, ghost all: seq<Labelled>)
    requires lines == [head] + FieldLines(fields)
    ensures all == fields + [f] && more == [head] + FieldLines(all)
  {
    FieldLinesConcat(fields, [f]);
    OneField(f);
    more, all := lines + [FieldLine(f)], fields + [f];
  }

  /** The function as the program runs it: the lines are appended one after another. */
  method GeneratePhaseDelta(p: Phase) returns (text: string)
    ensures text == PhaseText(p)
  {
    var lines := AppendFirst(p);
    lines := AppendEvents(lines, p);
    ghost var fs := FirstFields(p) + HealingFields(p.healing);
    if p.status == "failed" {
      var error := Labelled("Error", Error, ErrorText(p.errorSummary));
      lines, fs := AppendField(lines, PhaseHead(p.number, p.name), fs, error);
    } else {
      assert fs + [] == fs;
    }
    assert fs == Fields(p);
    text := EnforceTokenBudget(Text.Join(lines, '\n'));
  }

  method AppendFirst(p: Phase) returns (lines: seq<string>)
    ensures lines == [PhaseHead(p.number, p.name)] + FieldLines(FirstFields(p))
  {
    var head := PhaseHead(p.number, p.name);
    lines := [head];
    ghost var fs: seq<Labelled> := [];
    lines, fs := AppendField(lines, head, fs, Labelled("Estado", Estado, p.status));
    assert fs == [Labelled("Estado", Estado, p.status)];
    lines, fs := AppendField(lines, head, fs, Labelled("Archivos creados", Creados, FormatFileList(p.created)));
    var modified := Labelled("Archivos modificados", Modificados, FormatFileList(p.modified));
    lines, fs := AppendField(lines, head, fs, modified);
    lines, fs := AppendField(lines, head, fs, Labelled("Deltas vs plan", Deltas, DeltasOf(p)));
    lines, fs := AppendField(lines, head, fs, Labelled("Decisiones", Decisiones, DecisionsText(p.decisions)));
  }

  method AppendEvents(lines: seq<string>, p: Phase) returns (more: seq<string>)
    requires lines == [PhaseHead(p.number, p.name)] + FieldLines(FirstFields(p))
    ensures more == [PhaseHead(p.number, p.name)] + FieldLines(FirstFields(p) + HealingFields(p.healing))
  {
    more := lines;
    ghost var first := FirstFields(p);
    ghost var fs := first;
    for i := 0 to |p.healing|
      invariant fs == first + HealingFields(p.healing[..i])
      invariant more == [PhaseHead(p.number, p.name)] + FieldLines(fs)
    {
      assert p.healing[..i + 1][..i] == p.healing[..i];
      var f := Labelled("Self-healing", SelfHealing, HealingText(p.healing[i]));
      more, fs := AppendField(more, PhaseHead(p.number, p.name), fs, f);
    }
    assert p.healing[..|p.healing|] == p.healing;
  }

  // ── Parsing lines ────────────────────────────────────────────────

  /** What follows a prefix and at least one blank. */
  function AfterWord(s: string, prefix: string): Option<string> {
    if StartsWith(s, prefix) && |s| > |prefix| && IsSpace(s[|prefix|]) then Some(LStrip(s[|prefix|..])) else None
  }

  /** `## Implementation Status` at the start of a line. */
  predicate IsSectionHead(line: string) { StartsWith(line, "## Implementation Status") }

  /** `### Implementation Status — UC-001`: the id. */
  function UcHead(line: string): Option<string> {
    match AfterWord(line, "###")
    case None => None
    case Some(s) =>
      if |s| < 21 || Lower(s[..21]) != "implementation status" then None
      else
        var t := LStrip(s[21..]);
        if t == "" || t[0] !in {'-', '—'} then None
        else
          var u := LStrip(t[1..]);
          if |u| < 3 || Lower(u[..3]) != "uc-" || LeadingDigits(u[3..]) == "" then None
          else Some(u[..3] + LeadingDigits(u[3..]))
  }

  /** `#### Fase 1: DB Schema`: number and name. */
  function PhaseHeadOf(line: string): Option<(nat, string)> {
    match AfterWord(line, "####")
    case None => None
    case Some(s) =>
      match AfterWord(s, "Fase")
      case None => None
      case Some(t) =>
        var digits := LeadingDigits(t);
        if digits == "" || |digits| > |t| then None
        else
          match AfterWord(t[|digits|..], ":")
          case None => None
          case Some(name) => if name == "" then None else Some((Number(digits), name))
  }

  /** `**Estado:** complete`: label and value. */
  function BoldLabel(s: string): Option<(string, string)> {
    if !StartsWith(s, "**") || |s| < 3 then None
    else
      var r := s[2..];
      match Find(r[1..], ":**")
      case None => None
      case Some(i) => if i + 4 > |r| then None else Some((r[..i + 1], LStrip(r[i + 4..])))
  }

  /** `- **Estado:** complete` */
  function FieldOf(line: string): Option<(string, string)> {
    var item := AfterWord(line, "-");
    if item.None? then None else BoldLabel(item.value)
  }

  /** The lines of a text without trailing blanks: no pattern depends on those. */
  function TrimmedLines(text: string): seq<string> { TrimAll(Text.Split(text, '\n')) }

  function TrimAll(lines: seq<string>): seq<string> { seq(|lines|, i requires 0 <= i < |lines| => RStrip(lines[i])) }

  // ── Parsing a phase ──────────────────────────────────────────────

  /** A phase as read back. */
  datatype PhaseStatus = PhaseStatus(
    number: nat, name: string, status: string, created: seq<string>, modified: seq<string>, deltas: string,
    decisions: seq<string>, healing: Option<string>, error: Option<string>)

  type Raw = map<Key, string>

  /** The fields of a block; the last one with a label counts. */
  function FieldsOf(block: seq<string>): Raw {
    if block == [] then map[]
    else
      var before := FieldsOf(block[..|block| - 1]);
      match FieldOf(block[|block| - 1])
      case None => before
      case Some(f) => before[KeyOf(Lower(Strip(f.0))) := f.1]
  }

  function Get(raw: Raw, key: Key, fallback: string): string { if key in raw then raw[key] else fallback }

  /** The texts between pairs of backticks. */
  function Backticked(s: string): seq<string>
    decreases |s|
  {
    if s == "" then []
    else if s[0] != '`' then Backticked(s[1..])
    else
      var j := IndexOf(s[1..], '`');
      if 0 < j < |s| - 1 then [s[1..1 + j]] + Backticked(s[j + 2..]) else Backticked(s[1..])
  }

  /** `_parse_file_list` */
  function ParseFileList(text: string): seq<string> {
    if text == "" || Lower(Strip(text)) == "ninguno" then []
    else if Backticked(text) != [] then Backticked(text)
    else Stripped(Text.Split(text, ','))
  }

  function ParseDecisions(text: string): seq<string> {
    if text == "" || text == "ninguna" then [] else Stripped(Text.Split(text, ';'))
  }

  /** `_parse_phase_block` */
  function PhaseOfFields(head: (nat, string), raw: Raw): PhaseStatus {
    PhaseStatus(head.0, head.1, Get(raw, Estado, "complete"),
                ParseFileList(Get(raw, Creados, "")), ParseFileList(Get(raw, Modificados, "")),
                Get(raw, Deltas, ""), ParseDecisions(Get(raw, Decisiones, "")),
                if SelfHealing in raw then Some(raw[SelfHealing]) else None,
                if Error in raw then Some(raw[Error]) else None)
  }

  function ParsePhase(block: seq<string>): PhaseStatus
    requires block != []
  {
    var head := PhaseHeadOf(block[0]);
    PhaseOfFields(if head.Some? then head.value else (0, ""), FieldsOf(block))
  }

  // ── Blocks and whole documents ───────────────────────────────────

  /** The stretches of lines that begin with a head; lines before the first head are in none. */
  function Blocks(isHead: string -> bool, lines: seq<string>): (bs: seq<seq<string>>)
    ensures forall i :: 0 <= i < |bs| ==> bs[i] != []
  {
    if lines == [] then []
    else
      var bs, last := Blocks(isHead, lines[..|lines| - 1]), lines[|lines| - 1];
      if isHead(last) then bs + [[last]]
      else if bs == [] then []
      else bs[..|bs| - 1] + [bs[|bs| - 1] + [last]]
  }

  function IsPhaseHead(line: string): bool { PhaseHeadOf(line).Some? }

  function IsUcHead(line: string): bool { UcHead(line).Some? }

  datatype UcStatus = UcStatus(
    uc: string, timestamp: Option<string>, branch: Option<string>, phases: seq<PhaseStatus>, overall: string,
    deltaCount: nat)

  /** The text after a bold label, on the first line that has one. */
  function MarkedText(lines: seq<string>, mark: string): Option<string> {
    if lines == [] then None
    else
      match Find(Lower(lines[0]), mark)
      case Some(i) =>
        if i + |mark| < |lines[0]| && LStrip(lines[0][i + |mark|..]) != "" then Some(LStrip(lines[0][i + |mark|..]))
        else MarkedText(lines[1..], mark)
      case None => MarkedText(lines[1..], mark)
  }

  function ParsePhases(blocks: seq<seq<string>>): seq<PhaseStatus>
    requires forall i :: 0 <= i < |blocks| ==> blocks[i] != []
  {
    if blocks == [] then [] else ParsePhases(blocks[..|blocks| - 1]) + [ParsePhase(blocks[|blocks| - 1])]
  }

  /** A phase differs from the plan. */
  predicate HasDeltas(p: PhaseStatus) { p.deltas != "" && !SaysNone(p.deltas) }

  predicate SaysNone(text: string) { Find(Lower(text), "sin deltas").Some? }

  function CountDeltas(phases: seq<PhaseStatus>): nat {
    if phases == [] then 0
    else
      var p := phases[|phases| - 1];
      CountDeltas(phases[..|phases| - 1]) + (if HasDeltas(p) then 1 else 0)
        + (if p.healing.Some? && p.healing.value != "" then 1 else 0)
  }

  function Overall(phases: seq<PhaseStatus>): string {
    if exists p :: p in phases && p.status == "failed" then "parcial"
    else if exists p :: p in phases && HasDeltas(p) then "con_deltas"
    else if phases != [] then "conforme"
    else "not_implemented"
  }

  /** `_parse_uc_block` */
  function ParseUc(block: seq<string>): UcStatus
    requires block != []
  {
    var phases := ParsePhases(Blocks(IsPhaseHead, block));
    var id := UcHead(block[0]);
    UcStatus(if id.Some? then id.value else "", MarkedText(block, "**timestamp:**"), MarkedText(block, "**branch:**"),
             phases, Overall(phases), CountDeltas(phases))
  }

  function ParseUcs(blocks: seq<seq<string>>): seq<UcStatus>
    requires forall i :: 0 <= i < |blocks| ==> blocks[i] != []
  {
    if blocks == [] then [] else ParseUcs(blocks[..|blocks| - 1]) + [ParseUc(blocks[|blocks| - 1])]
  }

  /** The lines from the section head on. */
  function Section(lines: seq<string>): seq<string> {
    if lines == [] then [] else if IsSectionHead(lines[0]) then lines else Section(lines[1..])
  }

  function ParseLines(lines: seq<string>): seq<UcStatus> { ParseUcs(Blocks(IsUcHead, Section(lines))) }

  /** `_extract_all_uc_statuses` */
  function ParseAll(content: string): seq<UcStatus> { ParseLines(TrimmedLines(content)) }

  /** The loop of `_parse_uc_block` over the phases. */
  method SummarizePhases(phases: seq<PhaseStatus>) returns (overall: string, deltaCount: nat)
    ensures overall == Overall(phases) && deltaCount == CountDeltas(phases)
  {
    deltaCount := 0;
    var hasFailed, hasDeltas := false, false;
    for i := 0 to |phases|
      invariant deltaCount == CountDeltas(phases[..i])
      invariant hasFailed <==> exists k :: 0 <= k < i && phases[k].status == "failed"
      invariant hasDeltas <==> exists k :: 0 <= k < i && HasDeltas(phases[k])
    {
      var p := phases[i];
      assert phases[..i + 1][..i] == phases[..i];
      if p.status == "failed" { hasFailed := true; }
      if HasDeltas(p) {
        hasDeltas := true;
        deltaCount := deltaCount + 1;
      }
      if p.healing.Some? && p.healing.value != "" { deltaCount := deltaCount + 1; }
    }
    assert phases[..|phases|] == phases;
    overall := if hasFailed then "parcial" else if hasDeltas then "con_deltas"
               else if phases != [] then "conforme" else "not_implemented";
  }

  // ── Writing ──────────────────────────────────────────────────────

  function DeltaLines(deltas: seq<string>): seq<string> {
    if deltas == [] then [] else DeltaLines(deltas[..|deltas| - 1]) + [deltas[|deltas| - 1], ""]
  }

  function UcHeading(uc: string): string { "### " + "Implementation Status" + " — " + uc }

  function Preamble(uc: string, branch: string, timestamp: string): seq<string> {
    [UcHeading(uc), "**Timestamp:** " + timestamp, "**Branch:** " + branch, ""]
  }

  /** `compile_uc_status` */
  function CompileUcStatus(uc: string, branch: string, deltas: seq<string>, timestamp: string): string {
    RStrip(Text.Join(Preamble(uc, branch, timestamp) + DeltaLines(deltas), '\n'))
  }

  const PHRASE := "## Implementation Status"

  /** The content `append_implementation_status` writes. */
  function Append(content: string, block: string): string {
    if Find(content, PHRASE).Some? then RStrip(content) + "\n\n" + block + "\n"
    else RStrip(content) + "\n\n---\n\n" + PHRASE + "\n\n" + block + "\n"
  }
}
