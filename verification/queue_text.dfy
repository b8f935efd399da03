/** The text of the decisions queue (server/app_docs/queue.py): a Markdown file is the database, so every
    operation parses it, edits two lists and renders it again. */
module QueueText {
  import Text
  import opened Strings
  import opened Wrappers

  datatype Entry = Entry(
    engineId: string, feature: string, decisionKey: string, generatedAt: string, defaultApplied: string,
    blocks: string, action: string, evidence: Option<string>,
    resolvedAt: Option<string>, resolution: Option<string>, autoResolved: bool)

  datatype Queue = Queue(pending: seq<Entry>, resolved: seq<Entry>)

  // ── Lines ────────────────────────────────────────────────────────

  /** `### [scope] title`, on a line without trailing white space. */
  function ParseHeading(line: string): Option<(string, string)> {
    if !("### [" <= line) then None
    else
      var rest := line[5..];
      var close := IndexOf(rest, ']');
      if close == 0 || close == |rest| then None
      else
        var title := LStrip(rest[close + 1..]);
        if title == "" then None else Some((rest[..close], title))
  }

  /** `- **name:** value`. */
  function ParseField(line: string): Option<(string, string)> {
    if !("- **" <= line) then None
    else
      var rest := line[4..];
      var colon := IndexOf(rest, ':');
      if colon == 0 || !(":**" <= rest[colon..]) then None
      else Some((rest[..colon], LStrip(rest[colon + 3..])))
  }

  /** The keys `_commit_entry` looks up, and all others. */
  datatype Key =
    | Scope | Title | EngineId | Generado | Generated | DefaultAplicado | DefaultApplied | Bloquea | Blocks
    | AccionAccented | Accion | Action | Evidencia | Evidence | Resuelto | ResolvedOn | ResolucionAccented
    | Resolucion | Resolution | AutoResolved | Other(name: string)

  function KeyOf(name: string): Key {
    match name
    case "scope" => Scope
    case "title" => Title
    case "engine_id" => EngineId
    case "generado" => Generado
    case "generated" => Generated
    case "default_aplicado" => DefaultAplicado
    case "default_applied" => DefaultApplied
    case "bloquea" => Bloquea
    case "blocks" => Blocks
    case "acción" => AccionAccented
    case "accion" => Accion
    case "action" => Action
    case "evidencia" => Evidencia
    case "evidence" => Evidence
    case "resuelto" => Resuelto
    case "resolved" => ResolvedOn
    case "resolución" => ResolucionAccented
    case "resolucion" => Resolucion
    case "resolution" => Resolution
    case "auto_resolved" => AutoResolved
    case _ => Other(name)
  }

  type Raw = map<Key, string>

  datatype Section = NoSection | Pending | Resolved

  /** The parser between two lines. */
  datatype State = State(out: Queue, section: Section, current: Option<Raw>)

  function Field(raw: Raw, key: Key): string { if key in raw then raw[key] else "" }

  /** `raw.get(a, "") or raw.get(b, "")`. */
  function Either(raw: Raw, a: Key, b: Key): string {
    if Field(raw, a) != "" then Field(raw, a) else Field(raw, b)
  }

  /** `raw.get(a) or raw.get(b)`. */
  function EitherOpt(raw: Raw, a: Key, b: Key): Option<string> {
    if Field(raw, a) != "" then Some(raw[a]) else if b in raw then Some(raw[b]) else None
  }

  function FeatureOf(scope: string): string {
    match Find(scope, "feature:")
    case None => ""
    case Some(i) =>
      if i + 8 > |scope| then ""
      else
        var rest := scope[i + 8..];
        var upTo := rest[..IndexOf(rest, ']')];
        Strip(upTo[..IndexOf(upTo, '[')])
  }

  /** `_commit_entry`. */
  function EntryOf(raw: Raw): Entry {
    var scope := Field(raw, Scope);
    var action := Either(raw, AccionAccented, Accion);
    var resolution := EitherOpt(raw, ResolucionAccented, Resolucion);
    Entry(
      Field(raw, EngineId),
      if FeatureOf(scope) != "" then FeatureOf(scope) else scope,
      FirstToken(Strip(Field(raw, Title))),
      Either(raw, Generado, Generated),
      Either(raw, DefaultAplicado, DefaultApplied),
      Either(raw, Bloquea, Blocks),
      if action != "" then action else Field(raw, Action),
      EitherOpt(raw, Evidencia, Evidence),
      EitherOpt(raw, Resuelto, ResolvedOn),
      if resolution.Some? && resolution.value != "" then resolution
      else if Resolution in raw then Some(raw[Resolution]) else None,
      Lower(Field(raw, AutoResolved)) == "true")
  }

  function Commit(st: State): State {
    if st.current.None? then st
    else
      match st.section
      case NoSection => st
      case Pending => State(st.out.(pending := st.out.pending + [EntryOf(st.current.value)]), st.section, None)
      case Resolved => State(st.out.(resolved := st.out.resolved + [EntryOf(st.current.value)]), st.section, None)
  }

  function ParseLine(st: State, text: string): State {
    var line := RStrip(text);
    if "## Pendientes" <= line then State(st.out, Pending, None)
    else if "## Resueltas" <= line then Commit(st).(section := Resolved)
    else if st.section.NoSection? then st
    else
      match ParseHeading(line)
      case Some(head) => Commit(st).(current := Some(map[Scope := head.0, Title := head.1]))
      case None =>
        if st.current.None? then st
        else
          match ParseField(line)
          case None => st
          case Some(field) => st.(current := Some(st.current.value[KeyOf(NormKey(field.0)) := Strip(field.1)]))
  }

  function Fold(lines: seq<string>, st: State): State {
    if lines == [] then st else ParseLine(Fold(lines[..|lines| - 1], st), lines[|lines| - 1])
  }

  const START := State(Queue([], []), NoSection, None)

  /** `_parse_entries`. */
  function Parse(text: string): Queue { Commit(Fold(Text.Lines(text), START)).out }

  method ParseEntries(text: string) returns (queue: Queue)
    ensures queue == Parse(text)
  {
    var lines := Text.Lines(text);
    var st := START;
    for i := 0 to |lines|
      invariant st == Fold(lines[..i], START)
    {
      assert lines[..i + 1][..i] == lines[..i];
      st := ParseLine(st, lines[i]);
    }
    assert lines[..|lines|] == lines;
    queue := Commit(st).out;
  }

  // ── Rendering ────────────────────────────────────────────────────

  function FieldLine(name: string, value: string): string { "- **" + name + ":** " + value }

  function OrEmpty(o: Option<string>): string { if o.Some? then o.value else "" }

  /** A labelled field of an entry, and the key it is read back under. */
  datatype Labelled = Labelled(name: string, key: Key, value: string)

  /** The fields shown when they are not empty, in order. */
  function Details(e: Entry): seq<Labelled> {
    [Labelled("Generado", Generado, e.generatedAt),
     Labelled("Default aplicado", DefaultAplicado, e.defaultApplied),
     Labelled("Bloquea", Bloquea, e.blocks),
     Labelled("Acción", AccionAccented, e.action),
     Labelled("Evidencia", Evidencia, OrEmpty(e.evidence))]
  }

  /** The fields of a resolved entry that follow. */
  function Outcome(e: Entry): seq<Labelled> {
    [Labelled("Resuelto", Resuelto, OrEmpty(e.resolvedAt)),
     Labelled("Resolución", ResolucionAccented, OrEmpty(e.resolution)),
     Labelled("Auto_resolved", AutoResolved, if e.autoResolved then "true" else "")]
  }

  function Shown(e: Entry, resolved: bool): seq<Labelled> {
    if resolved then Details(e) + Outcome(e) else Details(e)
  }

  function RenderFields(fields: seq<Labelled>): seq<string> {
    if fields == [] then []
    else
      var last := fields[|fields| - 1];
      RenderFields(fields[..|fields| - 1]) + if last.value != "" then [FieldLine(last.name, last.value)] else []
  }

  function Heading(e: Entry): string { "### [feature: " + e.feature + "] " + e.decisionKey }

  /** `_render_entry`. */
  function RenderEntry(e: Entry, resolved: bool): seq<string> {
    [Heading(e), ""] + [FieldLine("Engine ID", e.engineId)] + RenderFields(Shown(e, resolved)) + [""]
  }

  function RenderList(entries: seq<Entry>, resolved: bool): seq<string> {
    if entries == [] then []
    else RenderList(entries[..|entries| - 1], resolved) + RenderEntry(entries[|entries| - 1], resolved)
  }

  function RenderSection(entries: seq<Entry>, resolved: bool): seq<string> {
    if entries == [] then ["_(vacío)_"] else RenderList(entries, resolved)
  }

  const INTRO_1 := "Esta cola acumula" + " decisiones que el" + " engine pudo continuar" + " con un default"
  const INTRO_2 := "razonable pero que" + " requieren tu visto" + " bueno antes de" + " marcar el UC como"
  const INTRO_3 := "ACCEPTED. Las acciones" + " destructivas y la" + " calidad de specs" + " nunca entran aquí."

  const PREFACE := [
    "# Decisions Queue",
    "",
    INTRO_1,
    INTRO_2,
    INTRO_3,
    ""]

  function RenderLines(q: Queue): seq<string> {
    PREFACE + ["## Pendientes", ""] + RenderSection(q.pending, false)
    + ["", "## Resueltas", ""] + RenderSection(q.resolved, true)
  }

  /** `_render`. */
  function Render(q: Queue): string { Text.Unlines(RenderLines(q), true) }
}
