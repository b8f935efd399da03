/** Zone documents (server/app_docs/zones.py): the line parser with its error states, and the splice
    that rewrites the body of one zone. Every statement holds for every way of reading markers in a
    line (`Marker`); module Markers has the one of the program. */
module Zones {
  import Text
  import opened Lists
  import opened Wrappers

  datatype Kind = Manual | Auto | Hybrid

  function KindName(kind: Kind): string {
    match kind
    case Manual => "manual"
    case Auto => "auto"
    case Hybrid => "hybrid"
  }

  /** What one line says: a start and an end marker on it are `Both`, a start marker whose kind is
      unknown or whose id is missing is `BadStart`. */
  datatype Mark =
    | Plain
    | Start(kind: Kind, id: string, autoSyncOn: seq<string>, merge: Option<string>, status: Option<string>)
    | BadStart(reason: string)
    | End
    | Both

  type Marker = string -> Mark

  /** Lines count from 1; `endLine` is 0 while the zone is open. */
  datatype Zone = Zone(
    kind: Kind, id: string, autoSyncOn: seq<string>, merge: Option<string>, status: Option<string>,
    startLine: int, endLine: int, body: string)

  datatype Chunk = Chunk(first: int, last: int, text: string)

  datatype Fault =
    | MarkersOnOneLine(line: int)
    | NestedStart(line: int, id: string, since: int)
    | InvalidStart(line: int, reason: string)
    | StrayEnd(line: int)
    | Unclosed(id: string, since: int)

  /** The parser between two lines. */
  datatype State = State(
    zones: seq<Zone>, chunks: seq<Chunk>, faults: seq<Fault>,
    open: Option<Zone>, body: seq<string>, emitted: nat)

  datatype ParsedDoc = ParsedDoc(zones: seq<Zone>, chunks: seq<Chunk>, faults: seq<Fault>)

  function Fresh(): State { State([], [], [], None, [], 0) }

  function Opened(m: Mark, line: int): Zone
    requires m.Start?
  {
    Zone(m.kind, m.id, m.autoSyncOn, m.merge, m.status, line, 0, "")
  }

  /** A zone start while another zone is open drops the open one. */
  function DropOpen(st: State, line: int): State {
    if st.open.Some? then
      st.(faults := st.faults + [NestedStart(line, st.open.value.id, st.open.value.startLine)],
          open := None, body := [])
    else st
  }

  /** The text between the last closed zone and line `line`. */
  function Preamble(lines: seq<string>, st: State, line: nat): seq<Chunk>
    requires st.emitted < line <= |lines|
  {
    if st.emitted < line - 1 then
      [Chunk(st.emitted + 1, line - 1, Text.Join(lines[st.emitted..line - 1], '\n'))]
    else []
  }

  function ParseLine(mark: Marker, lines: seq<string>, line: nat, st: State): (st': State)
    requires st.emitted < line <= |lines|
    ensures st'.emitted <= line
  {
    match mark(lines[line - 1])
    case Both => st.(faults := st.faults + [MarkersOnOneLine(line)])
    case BadStart(reason) =>
      var dropped := DropOpen(st, line);
      dropped.(faults := dropped.faults + [InvalidStart(line, reason)])
    case Start(_, _, _, _, _) =>
      var dropped := DropOpen(st, line);
      dropped.(chunks := st.chunks + Preamble(lines, st, line),
               open := Some(Opened(mark(lines[line - 1]), line)), body := [])
    case End =>
      if st.open.None? then st.(faults := st.faults + [StrayEnd(line)])
      else
        var zone := st.open.value.(endLine := line, body := Text.Join(st.body, '\n'));
        st.(zones := st.zones + [zone], emitted := line, open := None, body := [])
    case Plain =>
      if st.open.Some? then st.(body := st.body + [lines[line - 1]]) else st
  }

  /** The parser after the first `n` lines. */
  function ParseTo(mark: Marker, lines: seq<string>, n: nat): (st: State)
    requires n <= |lines|
    ensures st.emitted <= n
  {
    if n == 0 then Fresh() else ParseLine(mark, lines, n, ParseTo(mark, lines, n - 1))
  }

  function Finish(lines: seq<string>, st: State): ParsedDoc
    requires st.emitted <= |lines|
  {
    var trailing := Text.Join(lines[st.emitted..], '\n');
    ParsedDoc(
      st.zones,
      st.chunks + (if trailing != "" then [Chunk(st.emitted + 1, |lines|, trailing)] else []),
      st.faults + (if st.open.Some? then [Unclosed(st.open.value.id, st.open.value.startLine)] else []))
  }

  function ParseLines(mark: Marker, lines: seq<string>): ParsedDoc {
    Finish(lines, ParseTo(mark, lines, |lines|))
  }

  function Parse(mark: Marker, content: string): ParsedDoc {
    ParseLines(mark, Text.Lines(content))
  }

  /** One turn of the loop over the lines. */
  method ParseNext(mark: Marker, lines: seq<string>, line: nat, st: State) returns (next: State)
    requires st.emitted < line <= |lines|
    ensures next == ParseLine(mark, lines, line, st)
  {
    var zones, chunks, faults := st.zones, st.chunks, st.faults;
    var open, body, emitted := st.open, st.body, st.emitted;
    match mark(lines[line - 1]) {
      case Both => faults := faults + [MarkersOnOneLine(line)];
      case BadStart(reason) =>
        if open.Some? {
          faults := faults + [NestedStart(line, open.value.id, open.value.startLine)];
          open, body := None, [];
        }
        faults := faults + [InvalidStart(line, reason)];
      case Start(kind, id, autoSyncOn, merge, status) =>
        if open.Some? {
          faults := faults + [NestedStart(line, open.value.id, open.value.startLine)];
        }
        if emitted < line - 1 {
          chunks := chunks + [Chunk(emitted + 1, line - 1, Text.Join(lines[emitted..line - 1], '\n'))];
        }
        open, body := Some(Zone(kind, id, autoSyncOn, merge, status, line, 0, "")), [];
      case End =>
        if open.None? {
          faults := faults + [StrayEnd(line)];
        } else {
          zones := zones + [open.value.(endLine := line, body := Text.Join(body, '\n'))];
          open, body, emitted := None, [], line;
        }
      case Plain =>
        if open.Some? { body := body + [lines[line - 1]]; }
    }
    next := State(zones, chunks, faults, open, body, emitted);
  }

  /** `parse_document`: one pass over the lines. */
  method ParseDocument(mark: Marker, content: string) returns (doc: ParsedDoc)
    ensures doc == Parse(mark, content)
  {
    var lines := Text.Lines(content);
    var st := Fresh();
    for line := 1 to |lines| + 1
      invariant st == ParseTo(mark, lines, line - 1)
    {
      st := ParseNext(mark, lines, line, st);
    }
    var chunks, faults := st.chunks, st.faults;
    if st.open.Some? {
      faults := faults + [Unclosed(st.open.value.id, st.open.value.startLine)];
    }
    var trailing := Text.Join(lines[st.emitted..], '\n');
    if trailing != "" {
      chunks := chunks + [Chunk(st.emitted + 1, |lines|, trailing)];
    }
    doc := ParsedDoc(st.zones, chunks, faults);
  }

  // ── Where a zone lies ────────────────────────────────────────────

  /** The lines that end up in a body: a line with both markers is a fault and is left out. */
  function PlainOnly(mark: Marker, lines: seq<string>): seq<string> {
    if lines == [] then []
    else
      var last := lines[|lines| - 1];
      PlainOnly(mark, lines[..|lines| - 1]) + if mark(last).Plain? then [last] else []
  }

  ghost predicate NoZoneMark(mark: Marker, lines: seq<string>, from: int, to: int) {
    forall k :: 0 <= from <= k < to && k < |lines| ==> mark(lines[k]).Plain? || mark(lines[k]).Both?
  }

  /** Zone `z` was opened at its start line, with exactly `before` closed by then. */
  ghost predicate OpenedAt(mark: Marker, lines: seq<string>, z: Zone, before: seq<Zone>) {
    && 1 <= z.startLine <= |lines|
    && var m := mark(lines[z.startLine - 1]);
    && m.Start?
    && z == Opened(m, z.startLine).(endLine := z.endLine, body := z.body)
    && var st := ParseTo(mark, lines, z.startLine);
    && st.zones == before && st.open == Some(Opened(m, z.startLine)) && st.body == []
  }

  /** Zone `i` of the list lies where it says: after the zones before it, from a start marker to the
      next end marker, and its body is the lines in between. */
  ghost predicate Placed(mark: Marker, lines: seq<string>, zones: seq<Zone>, i: nat)
    requires i < |zones|
  {
    var z := zones[i];
    && OpenedAt(mark, lines, z, zones[..i])
    && z.startLine < z.endLine <= |lines|
    && (i > 0 ==> zones[i - 1].endLine < z.startLine)
    && mark(lines[z.endLine - 1]).End?
    && NoZoneMark(mark, lines, z.startLine, z.endLine - 1)
    && z.body == Text.Join(PlainOnly(mark, lines[z.startLine..z.endLine - 1]), '\n')
  }

  ghost predicate OpenPlaced(mark: Marker, lines: seq<string>, n: nat, st: State)
    requires n <= |lines|
  {
    st.open.Some? ==>
      var z := st.open.value;
      && OpenedAt(mark, lines, z, st.zones)
      && z.endLine == 0 && z.body == ""
      && st.emitted < z.startLine <= n
      && NoZoneMark(mark, lines, z.startLine, n)
      && st.body == PlainOnly(mark, lines[z.startLine..n])
  }

  /** A start marker opens a zone on its own line. */
  lemma OpenStart(mark: Marker, lines: seq<string>, n: nat, before: State)
    requires 0 < n <= |lines| && before == ParseTo(mark, lines, n - 1) && mark(lines[n - 1]).Start?
    ensures OpenPlaced(mark, lines, n, ParseTo(mark, lines, n))
  {
    var st := ParseTo(mark, lines, n);
    assert lines[n..n] == [];
    assert OpenedAt(mark, lines, st.open.value, st.zones);
  }

  /** A line without a zone marker leaves the open zone open. */
  lemma OpenGoesOn(mark: Marker, lines: seq<string>, n: nat, before: State)
    requires 0 < n <= |lines| && before == ParseTo(mark, lines, n - 1) && OpenPlaced(mark, lines, n - 1, before)
    requires before.open.Some? && (mark(lines[n - 1]).Plain? || mark(lines[n - 1]).Both?)
    ensures OpenPlaced(mark, lines, n, ParseTo(mark, lines, n))
  {
    var s := before.open.value.startLine;
    assert lines[s..n][..n - s - 1] == lines[s..n - 1] && lines[s..n][n - s - 1] == lines[n - 1];
  }

  lemma OpenStep(mark: Marker, lines: seq<string>, n: nat, before: State, st: State)
    requires 0 < n <= |lines| && before == ParseTo(mark, lines, n - 1) && st == ParseTo(mark, lines, n)
    requires OpenPlaced(mark, lines, n - 1, before)
    ensures OpenPlaced(mark, lines, n, st)
  {
    var m := mark(lines[n - 1]);
    if m.Start? {
      OpenStart(mark, lines, n, before);
    } else if st.open.Some? {
      OpenGoesOn(mark, lines, n, before);
    }
  }

  /** Where everything the parser knows after `n` lines lies. */
  ghost predicate Layout(mark: Marker, lines: seq<string>, n: nat, st: State)
    requires n <= |lines|
  {
    && st.emitted == (if st.zones == [] then 0 else st.zones[|st.zones| - 1].endLine)
    && OpenPlaced(mark, lines, n, st)
    && forall i :: 0 <= i < |st.zones| ==> Placed(mark, lines, st.zones, i)
  }

  lemma PlacedKept(mark: Marker, lines: seq<string>, zones: seq<Zone>, more: seq<Zone>, i: nat)
    requires i < |zones| && Placed(mark, lines, zones, i)
    ensures Placed(mark, lines, zones + more, i)
  {
    assert (zones + more)[..i] == zones[..i];
    assert (zones + more)[i] == zones[i];
  }

  lemma ClosedPlaced(mark: Marker, lines: seq<string>, n: nat, before: State, zone: Zone)
    requires 0 < n <= |lines| && OpenPlaced(mark, lines, n - 1, before)
    requires before.emitted == (if before.zones == [] then 0 else before.zones[|before.zones| - 1].endLine)
    requires mark(lines[n - 1]).End? && before.open.Some?
    requires zone == before.open.value.(endLine := n, body := Text.Join(before.body, '\n'))
    ensures Placed(mark, lines, before.zones + [zone], |before.zones|)
  {
    assert (before.zones + [zone])[..|before.zones|] == before.zones;
  }

  lemma LayoutStep(mark: Marker, lines: seq<string>, n: nat, before: State, st: State)
    requires 0 < n <= |lines| && before == ParseTo(mark, lines, n - 1) && st == ParseTo(mark, lines, n)
    requires Layout(mark, lines, n - 1, before)
    ensures Layout(mark, lines, n, st)
  {
    hide OpenPlaced;
    OpenStep(mark, lines, n, before, st);
    if mark(lines[n - 1]).End? && before.open.Some? {
      var zone := st.zones[|before.zones|];
      assert st.zones == before.zones + [zone];
      ClosedPlaced(mark, lines, n, before, zone);
      forall i | 0 <= i < |before.zones| ensures Placed(mark, lines, st.zones, i) {
        PlacedKept(mark, lines, before.zones, [zone], i);
      }
    } else {
      assert st.zones == before.zones && st.emitted == before.emitted;
    }
  }

  lemma {:induction false} ParsePlaces(mark: Marker, lines: seq<string>, n: nat)
    requires n <= |lines|
    ensures Layout(mark, lines, n, ParseTo(mark, lines, n))
  {
    if n > 0 {
      ParsePlaces(mark, lines, n - 1);
      LayoutStep(mark, lines, n, ParseTo(mark, lines, n - 1), ParseTo(mark, lines, n));
    }
  }

  // ── The splice ───────────────────────────────────────────────────

  datatype SpliceError = ZoneNotFound | ZoneMalformed

  /** `zone_by_id`: the first zone with that id. */
  function FindZone(zones: seq<Zone>, id: string): (i: Option<nat>)
    ensures i.Some? ==> i.value < |zones| && zones[i.value].id == id
    ensures i.Some? ==> forall k :: 0 <= k < i.value ==> zones[k].id != id
    ensures i.None? ==> forall k :: 0 <= k < |zones| ==> zones[k].id != id
  {
    if zones == [] then None
    else
      var front := FindZone(zones[..|zones| - 1], id);
      if front.Some? then front
      else if zones[|zones| - 1].id == id then Some(|zones| - 1) else None
  }

  function SpliceLines(lines: seq<string>, z: Zone, body: seq<string>): seq<string>
    requires 0 <= z.startLine < z.endLine <= |lines|
  {
    lines[..z.startLine] + body + lines[z.endLine - 1..]
  }

  function Region(lines: seq<string>, z: Zone): seq<string>
    requires 0 <= z.startLine < z.endLine <= |lines|
  {
    lines[z.startLine..z.endLine - 1]
  }

  /** `replace_zone_body`. */
  function Replace(mark: Marker, content: string, id: string, newBody: string): Result<string, SpliceError> {
    var lines := Text.Lines(content);
    var doc := ParseLines(mark, lines);
    match FindZone(doc.zones, id)
    case None => Err(ZoneNotFound)
    case Some(i) =>
      var z := doc.zones[i];
      if z.startLine == 0 || z.endLine == 0 then Err(ZoneMalformed)
      else
        ParsePlaces(mark, lines, |lines|);
        assert Placed(mark, lines, doc.zones, i);
        Ok(Text.Unlines(SpliceLines(lines, z, Text.Lines(newBody)), Text.EndsNl(content)))
  }

  lemma {:induction false} SamePrefixSameParse(mark: Marker, a: seq<string>, b: seq<string>, n: nat)
    requires n <= |a| && n <= |b| && a[..n] == b[..n]
    ensures ParseTo(mark, a, n) == ParseTo(mark, b, n)
  {
    if n > 0 {
      assert a[..n - 1] == a[..n][..n - 1] == b[..n - 1];
      SamePrefixSameParse(mark, a, b, n - 1);
      var st := ParseTo(mark, a, n - 1);
      assert a[n - 1] == a[..n][n - 1] == b[n - 1];
      assert a[st.emitted..n - 1] == a[..n][st.emitted..n - 1] == b[st.emitted..n - 1];
    }
  }

  lemma PlainOnlyMore(mark: Marker, lines: seq<string>, x: string)
    ensures PlainOnly(mark, lines + [x]) == PlainOnly(mark, lines) + if mark(x).Plain? then [x] else []
  {
    assert (lines + [x])[..|lines|] == lines;
  }

  /** The faults of the lines with both markers among lines `s + 1` to `n`. */
  function DoubleFaults(mark: Marker, lines: seq<string>, s: nat, n: nat): seq<Fault>
    requires s <= n <= |lines|
  {
    if n == s then []
    else DoubleFaults(mark, lines, s, n - 1) + if mark(lines[n - 1]).Both? then [MarkersOnOneLine(n)] else []
  }

  /** Plain lines inside an open zone go to its body and change nothing else. */
  lemma {:induction false} PlainRun(mark: Marker, lines: seq<string>, s: nat, n: nat)
    requires s <= n <= |lines|
    requires ParseTo(mark, lines, s).open.Some? && ParseTo(mark, lines, s).body == []
    requires NoZoneMark(mark, lines, s, n)
    ensures var st := ParseTo(mark, lines, s);
      var after := ParseTo(mark, lines, n);
      after == st.(body := PlainOnly(mark, lines[s..n]), faults := st.faults + DoubleFaults(mark, lines, s, n))
  {
    if n == s {
      assert lines[s..n] == [] && ParseTo(mark, lines, s).faults + [] == ParseTo(mark, lines, s).faults;
    } else {
      PlainRun(mark, lines, s, n - 1);
      hide Preamble;
      hide DropOpen;
      assert lines[s..n] == lines[s..n - 1] + [lines[n - 1]];
      PlainOnlyMore(mark, lines[s..n - 1], lines[n - 1]);
    }
  }

  function ShiftZone(z: Zone, shift: int): Zone {
    z.(startLine := z.startLine + shift, endLine := z.endLine + shift)
  }

  /** Zones `from` on are the same zones `shift` lines further down. */
  ghost predicate ZonesShifted(a: seq<Zone>, b: seq<Zone>, from: nat, shift: int) {
    |a| == |b| && forall i :: from <= i < |a| ==> b[i] == ShiftZone(a[i], shift)
  }

  ghost predicate ChunksShifted(a: seq<Chunk>, b: seq<Chunk>, from: nat, shift: int) {
    && |a| == |b|
    && forall i :: from <= i < |a| ==> b[i] == Chunk(a[i].first + shift, a[i].last + shift, a[i].text)
  }

  function ShiftFault(f: Fault, shift: int): Fault {
    match f
    case MarkersOnOneLine(line) => MarkersOnOneLine(line + shift)
    case NestedStart(line, id, since) => NestedStart(line + shift, id, since + shift)
    case InvalidStart(line, reason) => InvalidStart(line + shift, reason)
    case StrayEnd(line) => StrayEnd(line + shift)
    case Unclosed(id, since) => Unclosed(id, since + shift)
  }

  /** `gone` faults of the first list are missing in the second at `from`; those behind are shifted. */
  ghost predicate FaultsShifted(a: seq<Fault>, b: seq<Fault>, from: nat, gone: nat, shift: int) {
    && from + gone <= |a| && |b| == |a| - gone
    && forall k :: from <= k < |b| ==> b[k] == ShiftFault(a[k + gone], shift)
  }

  /** Where two documents part: the spliced zone, the chunks and the faults before its end, and how many faults
      the first has inside it. */
  datatype Seam = Seam(zone: nat, chunk: nat, fault: nat, gone: nat)

  /** The parser runs on two documents that agree from line `at` of the first on, `shift` lines apart. */
  ghost predicate Parallel(st: State, st': State, at: nat, shift: int, seam: Seam) {
    && at <= st.emitted && st'.emitted == st.emitted + shift
    && seam.zone < |st.zones| && ZonesShifted(st.zones, st'.zones, seam.zone + 1, shift)
    && seam.chunk <= |st.chunks| && ChunksShifted(st.chunks, st'.chunks, seam.chunk, shift)
    && FaultsShifted(st.faults, st'.faults, seam.fault, seam.gone, shift)
    && st'.open == (if st.open.None? then None
                    else Some(st.open.value.(startLine := st.open.value.startLine + shift)))
    && st'.body == st.body
    && (st.open.Some? ==> st.open.value.endLine == 0)
  }

  lemma SameGap(a: seq<string>, b: seq<string>, at: nat, n: nat, shift: int, from: nat)
    requires at < n <= |a| && 0 <= at + shift && n + shift <= |b| && a[at..n] == b[at + shift..n + shift]
    requires at <= from < n
    ensures a[from..n - 1] == b[from + shift..n - 1 + shift]
  {
    forall k | from <= k < n - 1 ensures a[k] == b[k + shift] {
      assert a[at..n][k - at] == b[at + shift..n + shift][k - at];
    }
  }

  lemma FaultsStep(mark: Marker, a: seq<string>, b: seq<string>, n: nat, st: State, st': State,
                   at: nat, shift: int, seam: Seam)
    requires 0 < n <= |a| && 0 < n + shift <= |b| && a[n - 1] == b[n - 1 + shift]
    requires Parallel(st, st', at, shift, seam)
    requires st.emitted < n && st'.emitted < n + shift
    ensures FaultsShifted(ParseLine(mark, a, n, st).faults, ParseLine(mark, b, n + shift, st').faults,
                          seam.fault, seam.gone, shift)
  {
    hide ZonesShifted;
    hide ChunksShifted;
    hide Preamble;
  }

  lemma ParallelStep(mark: Marker, a: seq<string>, b: seq<string>, n: nat, st: State, st': State,
                     at: nat, shift: int, seam: Seam)
    requires at < n <= |a| && 0 <= at + shift && n + shift <= |b| && a[at..n] == b[at + shift..n + shift]
    requires Parallel(st, st', at, shift, seam)
    requires st.emitted < n && st'.emitted < n + shift
    ensures Parallel(ParseLine(mark, a, n, st), ParseLine(mark, b, n + shift, st'), at, shift, seam)
  {
    assert a[n - 1] == a[at..n][n - 1 - at] == b[n - 1 + shift];
    FaultsStep(mark, a, b, n, st, st', at, shift, seam);
    hide FaultsShifted;
    SameGap(a, b, at, n, shift, st.emitted);
  }

  /** The parser only adds zones, chunks and faults. */
  ghost predicate Longer(st: State, after: State) {
    Grown(st.zones, after.zones) && Grown(st.chunks, after.chunks) && Grown(st.faults, after.faults)
  }

  lemma {:induction false} RunGrows(mark: Marker, lines: seq<string>, from: nat, to: nat)
    requires from <= to <= |lines|
    ensures Longer(ParseTo(mark, lines, from), ParseTo(mark, lines, to))
  {
    if from < to {
      RunGrows(mark, lines, from, to - 1);
      LineGrows(mark, lines, to, ParseTo(mark, lines, to - 1));
      var a, b, c := ParseTo(mark, lines, from), ParseTo(mark, lines, to - 1), ParseTo(mark, lines, to);
      GrownTwice(a.zones, b.zones, c.zones);
      GrownTwice(a.chunks, b.chunks, c.chunks);
      GrownTwice(a.faults, b.faults, c.faults);
    }
  }

  lemma LineGrows(mark: Marker, lines: seq<string>, line: nat, st: State)
    requires st.emitted < line <= |lines|
    ensures Longer(st, ParseLine(mark, lines, line, st))
  {
  }

  lemma {:induction false} ParallelRun(mark: Marker, a: seq<string>, b: seq<string>, at: nat, n: nat,
                                       shift: int, seam: Seam)
    requires 0 <= at + shift && at <= n <= |a| && n + shift <= |b| && a[at..n] == b[at + shift..n + shift]
    requires Parallel(ParseTo(mark, a, at), ParseTo(mark, b, at + shift), at, shift, seam)
    ensures Parallel(ParseTo(mark, a, n), ParseTo(mark, b, n + shift), at, shift, seam)
  {
    if n > at {
      assert a[at..n - 1] == a[at..n][..n - 1 - at];
      assert b[at + shift..n - 1 + shift] == b[at + shift..n + shift][..n - 1 - at];
      ParallelRun(mark, a, b, at, n - 1, shift, seam);
      ParallelStep(mark, a, b, n, ParseTo(mark, a, n - 1), ParseTo(mark, b, n - 1 + shift),
                   at, shift, seam);
    }
  }

  /** The zone with another body, as the parser finds it. */
  function Rebodied(z: Zone, body: seq<string>): Zone {
    z.(endLine := z.startLine + |body| + 1, body := Text.Join(body, '\n'))
  }

  /** The document `b` is `a` with the body of the zone at the seam replaced: the zones before are the same, the
      zones after are the same `shift` lines further down, and so are the texts around them and the faults; the
      only faults that went are `inside`, those of the old body. */
  ghost predicate Respliced(a: ParsedDoc, b: ParsedDoc, body: seq<string>, seam: Seam, inside: seq<Fault>)
    requires seam.zone < |a.zones|
  {
    var z := a.zones[seam.zone];
    var shift := z.startLine + |body| + 1 - z.endLine;
    && |b.zones| == |a.zones|
    && b.zones[..seam.zone] == a.zones[..seam.zone]
    && b.zones[seam.zone] == Rebodied(z, body)
    && ZonesShifted(a.zones, b.zones, seam.zone + 1, shift)
    && seam.chunk <= |a.chunks| && |b.chunks| == |a.chunks| && b.chunks[..seam.chunk] == a.chunks[..seam.chunk]
    && ChunksShifted(a.chunks, b.chunks, seam.chunk, shift)
    && FaultsShifted(a.faults, b.faults, seam.fault, seam.gone, shift)
    && b.faults[..seam.fault] == a.faults[..seam.fault]
    && a.faults[seam.fault..seam.fault + seam.gone] == inside
  }

  lemma {:induction false} PlainOnlyAll(mark: Marker, lines: seq<string>)
    requires forall k :: 0 <= k < |lines| ==> mark(lines[k]).Plain?
    ensures PlainOnly(mark, lines) == lines
  {
    if lines != [] { PlainOnlyAll(mark, lines[..|lines| - 1]); }
  }

  /** From a start marker to its end marker, the parser closes one zone and nothing else. */
  lemma ThroughBody(mark: Marker, lines: seq<string>, s: nat, end: nat)
    requires s < end <= |lines|
    requires ParseTo(mark, lines, s).open.Some? && ParseTo(mark, lines, s).body == []
    requires NoZoneMark(mark, lines, s, end - 1) && mark(lines[end - 1]).End?
    ensures var st := ParseTo(mark, lines, s);
      var after := ParseTo(mark, lines, end);
      var body := PlainOnly(mark, lines[s..end - 1]);
      && after == State(st.zones + [st.open.value.(endLine := end, body := Text.Join(body, '\n'))],
                        st.chunks, st.faults + DoubleFaults(mark, lines, s, end - 1), None, [], end)
  {
    PlainRun(mark, lines, s, end - 1);
  }

  lemma FinishParallel(a: seq<string>, b: seq<string>, st: State, st': State, at: nat, shift: int, seam: Seam)
    requires st.emitted <= |a| && st'.emitted <= |b| && |b| == |a| + shift
    requires a[st.emitted..] == b[st'.emitted..]
    requires Parallel(st, st', at, shift, seam)
    ensures var d, d' := Finish(a, st), Finish(b, st');
      && ZonesShifted(d.zones, d'.zones, seam.zone + 1, shift)
      && ChunksShifted(d.chunks, d'.chunks, seam.chunk, shift)
      && FaultsShifted(d.faults, d'.faults, seam.fault, seam.gone, shift)
  {
  }

  /** What the end of two parallel runs makes of the two documents. */
  lemma ParallelEnd(mark: Marker, a: seq<string>, b: seq<string>, at: nat, shift: int, seam: Seam)
    requires 0 <= at + shift && at <= |a| && |a| + shift == |b| && a[at..] == b[at + shift..]
    requires Parallel(ParseTo(mark, a, at), ParseTo(mark, b, at + shift), at, shift, seam)
    ensures var d, d' := ParseLines(mark, a), ParseLines(mark, b);
      && ZonesShifted(d.zones, d'.zones, seam.zone + 1, shift)
      && ChunksShifted(d.chunks, d'.chunks, seam.chunk, shift)
      && FaultsShifted(d.faults, d'.faults, seam.fault, seam.gone, shift)
  {
    assert a[at..|a|] == a[at..] && b[at + shift..|b|] == b[at + shift..];
    ParallelRun(mark, a, b, at, |a|, shift, seam);
    var f, f' := ParseTo(mark, a, |a|), ParseTo(mark, b, |b|);
    assert a[f.emitted..] == a[at..][f.emitted - at..] == b[at + shift..][f.emitted - at..] == b[f'.emitted..];
    FinishParallel(a, b, f, f', at, shift, seam);
  }

  /** A document begins with the zones and chunks of the state. */
  ghost predicate Has(d: ParsedDoc, st: State) {
    Grown(st.zones, d.zones) && Grown(st.chunks, d.chunks) && Grown(st.faults, d.faults)
  }

  /** What a document has of the parser in the middle of it. */
  lemma EndGrows(mark: Marker, lines: seq<string>, at: nat)
    requires at <= |lines|
    ensures Has(ParseLines(mark, lines), ParseTo(mark, lines, at))
  {
    RunGrows(mark, lines, at, |lines|);
  }

  /** The faults inside a zone. */
  function Inside(mark: Marker, lines: seq<string>, z: Zone): seq<Fault>
    requires 0 <= z.startLine < z.endLine <= |lines|
  {
    DoubleFaults(mark, lines, z.startLine, z.endLine - 1)
  }

  lemma {:induction false} NoDoubles(mark: Marker, lines: seq<string>, s: nat, n: nat)
    requires s <= n <= |lines| && forall k :: s <= k < n ==> mark(lines[k]).Plain?
    ensures DoubleFaults(mark, lines, s, n) == []
  {
    if s < n { NoDoubles(mark, lines, s, n - 1); }
  }

  /** A zone as the parser closes it. */
  lemma ClosedZone(mark: Marker, lines: seq<string>, z: Zone, before: seq<Zone>)
    requires OpenedAt(mark, lines, z, before) && z.startLine < z.endLine <= |lines|
    requires NoZoneMark(mark, lines, z.startLine, z.endLine - 1) && mark(lines[z.endLine - 1]).End?
    requires z.body == Text.Join(PlainOnly(mark, lines[z.startLine..z.endLine - 1]), '\n')
    ensures var st, after := ParseTo(mark, lines, z.startLine), ParseTo(mark, lines, z.endLine);
      after == State(before + [z], st.chunks, st.faults + Inside(mark, lines, z), None, [], z.endLine)
  {
    hide ParseTo;
    ThroughBody(mark, lines, z.startLine, z.endLine);
  }

  lemma SplicedLines(lines: seq<string>, z: Zone, body: seq<string>)
    requires 0 <= z.startLine < z.endLine <= |lines|
    ensures var out, s, end := SpliceLines(lines, z, body), z.startLine, z.startLine + |body| + 1;
      end <= |out| && |lines| - z.endLine == |out| - end && out[..s] == lines[..s] && out[s..end - 1] == body
      && out[end - 1] == lines[z.endLine - 1] && out[end..] == lines[z.endLine..]
  {
    var out, s, end := SpliceLines(lines, z, body), z.startLine, z.startLine + |body| + 1;
    assert out[..s] == lines[..s];
    assert out[s..end - 1] == body;
    assert out[end..] == lines[z.endLine..];
  }

  lemma SplicedPlain(mark: Marker, out: seq<string>, s: nat, body: seq<string>)
    requires s + |body| <= |out| && out[s..s + |body|] == body
    requires forall k :: 0 <= k < |body| ==> mark(body[k]).Plain?
    ensures NoZoneMark(mark, out, s, s + |body|) && DoubleFaults(mark, out, s, s + |body|) == []
  {
    forall k | s <= k < s + |body| ensures mark(out[k]).Plain? { assert out[s..s + |body|][k - s] == body[k - s]; }
    NoDoubles(mark, out, s, s + |body|);
  }

  /** Plain lines and an end marker close the open zone. */
  lemma ClosedBody(mark: Marker, out: seq<string>, s: nat, body: seq<string>, st: State, open: Zone)
    requires s + |body| < |out| && out[s..s + |body|] == body && mark(out[s + |body|]).End?
    requires forall k :: 0 <= k < |body| ==> mark(body[k]).Plain?
    requires ParseTo(mark, out, s) == st && st.open == Some(open) && st.body == []
    ensures var end := s + |body| + 1;
      ParseTo(mark, out, end) == State(st.zones + [open.(endLine := end, body := Text.Join(body, '\n'))],
                                       st.chunks, st.faults, None, [], end)
  {
    hide ParseTo;
    SplicedPlain(mark, out, s, body);
    PlainOnlyAll(mark, body);
    hide PlainOnly;
    hide DoubleFaults;
    ThroughBody(mark, out, s, s + |body| + 1);
    assert st.faults + [] == st.faults;
  }

  /** The zone with its new body as the parser closes it. */
  lemma ClosedSplice(mark: Marker, lines: seq<string>, out: seq<string>, z: Zone, before: seq<Zone>, body: seq<string>)
    requires OpenedAt(mark, lines, z, before) && z.startLine < z.endLine <= |lines|
    requires mark(lines[z.endLine - 1]).End? && out == SpliceLines(lines, z, body)
    requires forall k :: 0 <= k < |body| ==> mark(body[k]).Plain?
    ensures z.startLine + |body| + 1 <= |out|
    ensures var end := z.startLine + |body| + 1;
      var st := ParseTo(mark, lines, z.startLine);
      ParseTo(mark, out, end) == State(before + [Rebodied(z, body)], st.chunks, st.faults, None, [], end)
  {
    hide ParseTo;
    SplicedLines(lines, z, body);
    SamePrefixSameParse(mark, lines, out, z.startLine);
    hide SpliceLines;
    var st := ParseTo(mark, lines, z.startLine);
    ClosedBody(mark, out, z.startLine, body, st, st.open.value);
  }

  /** Right after the end marker of the spliced zone, the two parsers are parallel. */
  lemma AfterSplice(mark: Marker, lines: seq<string>, z: Zone, before: seq<Zone>, body: seq<string>)
    returns (st: State, st': State)
    requires OpenedAt(mark, lines, z, before) && z.startLine < z.endLine <= |lines|
    requires NoZoneMark(mark, lines, z.startLine, z.endLine - 1) && mark(lines[z.endLine - 1]).End?
    requires z.body == Text.Join(PlainOnly(mark, lines[z.startLine..z.endLine - 1]), '\n')
    requires forall k :: 0 <= k < |body| ==> mark(body[k]).Plain?
    ensures var out := SpliceLines(lines, z, body);
      var end := z.startLine + |body| + 1;
      && end <= |out| && st == ParseTo(mark, lines, z.endLine) && st' == ParseTo(mark, out, end)
      && st == State(before + [z], st.chunks, st.faults, None, [], z.endLine)
      && st' == State(before + [Rebodied(z, body)], st.chunks, st'.faults, None, [], end)
      && st.faults == st'.faults + Inside(mark, lines, z)
  {
    var out := SpliceLines(lines, z, body);
    SplicedLines(lines, z, body);
    st, st' := ParseTo(mark, lines, z.endLine), ParseTo(mark, out, z.startLine + |body| + 1);
    ClosedZone(mark, lines, z, before);
    ClosedSplice(mark, lines, out, z, before, body);
  }

  /** Splice locality, for any document, even a malformed one: re-parsing after the body of a zone
      was replaced by lines without markers finds the same zones, and the new body in that one. */
  lemma SpliceLocality(mark: Marker, lines: seq<string>, i: nat, body: seq<string>) returns (seam: Seam)
    requires i < |ParseLines(mark, lines).zones|
    requires forall k :: 0 <= k < |body| ==> mark(body[k]).Plain?
    ensures seam.zone == i
    ensures var a := ParseLines(mark, lines);
      && 1 <= a.zones[i].startLine < a.zones[i].endLine <= |lines|
      && Respliced(a, ParseLines(mark, SpliceLines(lines, a.zones[i], body)), body, seam,
                   Inside(mark, lines, a.zones[i]))
  {
    hide ParseTo;
    ParsePlaces(mark, lines, |lines|);
    var zones := ParseLines(mark, lines).zones;
    assert Placed(mark, lines, zones, i);
    var z := zones[i];
    var out := SpliceLines(lines, z, body);
    var st, st' := AfterSplice(mark, lines, z, zones[..i], body);
    var inside := Inside(mark, lines, z);
    seam := Seam(i, |st.chunks|, |st'.faults|, |inside|);
    SplicedLines(lines, z, body);
    SpliceEnd(mark, lines, out, body, st, st', seam, inside);
  }

  lemma ParallelStart(st: State, st': State, front: seq<Zone>, z: Zone, body: seq<string>, inside: seq<Fault>)
    requires 0 <= z.endLine && 0 <= z.startLine
    requires st == State(front + [z], st.chunks, st.faults, None, [], z.endLine)
    requires st' == State(front + [Rebodied(z, body)], st.chunks, st'.faults, None, [], z.startLine + |body| + 1)
    requires st.faults == st'.faults + inside
    ensures Parallel(st, st', z.endLine, z.startLine + |body| + 1 - z.endLine,
                     Seam(|front|, |st.chunks|, |st'.faults|, |inside|))
  {
  }

  /** What the parsers had after the zone and what they made of the rest, put together. */
  lemma RespliceParts(a: ParsedDoc, b: ParsedDoc, body: seq<string>, st: State, st': State, shift: int,
                      seam: Seam, inside: seq<Fault>)
    requires seam.zone < |a.zones| && seam == Seam(seam.zone, |st.chunks|, |st'.faults|, |inside|)
    requires shift == a.zones[seam.zone].startLine + |body| + 1 - a.zones[seam.zone].endLine
    requires Has(a, st) && Has(b, st') && st'.chunks == st.chunks && st.faults == st'.faults + inside
    requires st'.zones == a.zones[..seam.zone] + [Rebodied(a.zones[seam.zone], body)]
    requires ZonesShifted(a.zones, b.zones, seam.zone + 1, shift)
    requires ChunksShifted(a.chunks, b.chunks, |st.chunks|, shift)
    requires FaultsShifted(a.faults, b.faults, seam.fault, seam.gone, shift)
    ensures Respliced(a, b, body, seam, inside)
  {
    var i := seam.zone;
    assert |st'.zones| == i + 1;
    assert b.zones[..i] == b.zones[..i + 1][..i];
    assert b.zones[i] == b.zones[..i + 1][i];
    assert a.faults[..seam.fault] == a.faults[..|st.faults|][..seam.fault];
    assert a.faults[seam.fault..|st.faults|] == a.faults[..|st.faults|][seam.fault..];
  }

  lemma SpliceEnd(mark: Marker, lines: seq<string>, out: seq<string>, body: seq<string>, st: State, st': State,
                  seam: Seam, inside: seq<Fault>)
    requires seam.zone < |ParseLines(mark, lines).zones|
    requires seam == Seam(seam.zone, |st.chunks|, |st'.faults|, |inside|)
    requires var zones := ParseLines(mark, lines).zones;
      var z := zones[seam.zone];
      var end := z.startLine + |body| + 1;
      && 0 <= z.startLine && 0 <= z.endLine <= |lines|
      && end <= |out| && |lines| - z.endLine == |out| - end && lines[z.endLine..] == out[end..]
      && st == ParseTo(mark, lines, z.endLine) && st' == ParseTo(mark, out, end)
      && st == State(zones[..seam.zone] + [z], st.chunks, st.faults, None, [], z.endLine)
      && st' == State(zones[..seam.zone] + [Rebodied(z, body)], st.chunks, st'.faults, None, [], end)
      && st.faults == st'.faults + inside
    ensures Respliced(ParseLines(mark, lines), ParseLines(mark, out), body, seam, inside)
  {
    hide *;
    var a, b := ParseLines(mark, lines), ParseLines(mark, out);
    var z := a.zones[seam.zone];
    var end := z.startLine + |body| + 1;
    EndGrows(mark, lines, z.endLine);
    EndGrows(mark, out, end);
    ParallelStart(st, st', a.zones[..seam.zone], z, body, inside);
    ParallelEnd(mark, lines, out, z.endLine, end - z.endLine, seam);
    RespliceParts(a, b, body, st, st', end - z.endLine, seam, inside);
  }

  // ── The splice on texts ──────────────────────────────────────────

  lemma {:induction false} SplicePrintable(lines: seq<string>, z: Zone, body: seq<string>, nl: bool)
    requires 0 <= z.startLine < z.endLine <= |lines|
    requires Text.Printable(lines, nl) && Text.AllLines(body)
    ensures Text.Printable(SpliceLines(lines, z, body), nl)
  {
    var out := SpliceLines(lines, z, body);
    assert out[|out| - 1] == lines[|lines| - 1];
    forall k | 0 <= k < |out| ensures Text.IsLine(out[k]) {
      if z.startLine <= k < z.startLine + |body| { assert out[k] == body[k - z.startLine]; }
    }
  }

  lemma SpliceSame(lines: seq<string>, z: Zone, body: seq<string>)
    requires 0 <= z.startLine < z.endLine <= |lines|
    ensures SpliceLines(lines, z, body) == lines <==> Region(lines, z) == body
  {
    var spliced := SpliceLines(lines, z, body);
    SplicedLines(lines, z, body);
    if Region(lines, z) == body { assert spliced == lines; }
    if spliced == lines { assert Region(lines, z) == spliced[z.startLine..z.startLine + |body|]; }
  }

  /** Splicing lines in a text, and when it changes nothing. */
  lemma SpliceText(content: string, z: Zone, body: seq<string>)
    requires 0 <= z.startLine < z.endLine <= |Text.Lines(content)| && Text.AllLines(body)
    ensures var lines := Text.Lines(content);
      var out := Text.Unlines(SpliceLines(lines, z, body), Text.EndsNl(content));
      && Text.Lines(out) == SpliceLines(lines, z, body)
      && Text.EndsNl(out) == Text.EndsNl(content)
      && (out == content <==> Region(lines, z) == body)
  {
    var lines := Text.Lines(content);
    Text.UnlinesLines(content);
    SplicePrintable(lines, z, body, Text.EndsNl(content));
    Text.LinesUnlines(SpliceLines(lines, z, body), Text.EndsNl(content));
    SpliceSame(lines, z, body);
  }

  lemma ZoneRange(mark: Marker, lines: seq<string>, i: nat)
    requires i < |ParseLines(mark, lines).zones|
    ensures var z := ParseLines(mark, lines).zones[i]; 1 <= z.startLine < z.endLine <= |lines|
  {
    ParsePlaces(mark, lines, |lines|);
    assert Placed(mark, lines, ParseLines(mark, lines).zones, i);
  }

  lemma ZonesOrdered(mark: Marker, lines: seq<string>, i: nat, k: nat)
    requires i < k < |ParseLines(mark, lines).zones|
    ensures ParseLines(mark, lines).zones[i].endLine < ParseLines(mark, lines).zones[k].startLine
  {
    ParsePlaces(mark, lines, |lines|);
    Ordered(mark, lines, ParseLines(mark, lines).zones, i, k);
  }

  /** `replace_zone_body` fails only when no zone has the id; otherwise it splices the first one. */
  lemma ReplaceSplices(mark: Marker, content: string, id: string, newBody: string)
    ensures var lines := Text.Lines(content);
      var zones := ParseLines(mark, lines).zones;
      match FindZone(zones, id)
      case None => Replace(mark, content, id, newBody) == Err(ZoneNotFound)
      case Some(i) =>
        && 1 <= zones[i].startLine < zones[i].endLine <= |lines|
        && Replace(mark, content, id, newBody).Ok?
        && var out := Replace(mark, content, id, newBody).value;
        && Text.Lines(out) == SpliceLines(lines, zones[i], Text.Lines(newBody))
        && Text.EndsNl(out) == Text.EndsNl(content)
        && (out == content <==> Region(lines, zones[i]) == Text.Lines(newBody))
  {
    var lines := Text.Lines(content);
    var zones := ParseLines(mark, lines).zones;
    if FindZone(zones, id).Some? {
      var i := FindZone(zones, id).value;
      ZoneRange(mark, lines, i);
      SpliceText(content, zones[i], Text.Lines(newBody));
    }
  }

  lemma {:induction false} SameIdsSameFind(a: seq<Zone>, b: seq<Zone>, id: string)
    requires |a| == |b| && forall k :: 0 <= k < |a| ==> a[k].id == b[k].id
    ensures FindZone(a, id) == FindZone(b, id)
  {
    if a != [] { SameIdsSameFind(a[..|a| - 1], b[..|b| - 1], id); }
  }

  lemma RegionShifts(lines: seq<string>, z: Zone, body: seq<string>, other: Zone, moved: Zone)
    requires 1 <= z.startLine < z.endLine <= |lines| && 1 <= other.startLine < other.endLine <= |lines|
    requires var shift := z.startLine + |body| + 1 - z.endLine;
      || (other.endLine < z.startLine && moved == other)
      || (z.endLine < other.startLine && moved == ShiftZone(other, shift))
    ensures var out := SpliceLines(lines, z, body);
      && 1 <= moved.startLine < moved.endLine <= |out|
      && Region(out, moved) == Region(lines, other)
  {
  }

  /** A zone outside the splice keeps its lines, and the spliced zone has the new ones. */
  lemma RegionKept(mark: Marker, lines: seq<string>, i: nat, k: nat, body: seq<string>)
    requires i < |ParseLines(mark, lines).zones| && k < |ParseLines(mark, lines).zones|
    requires forall j :: 0 <= j < |body| ==> mark(body[j]).Plain?
    ensures var a := ParseLines(mark, lines).zones;
      && 1 <= a[i].startLine < a[i].endLine <= |lines| && 1 <= a[k].startLine < a[k].endLine <= |lines|
      && var out := SpliceLines(lines, a[i], body);
      var b := ParseLines(mark, out).zones;
      && |b| == |a| && 1 <= b[k].startLine < b[k].endLine <= |out|
      && Region(out, b[k]) == if k == i then body else Region(lines, a[k])
  {
    ZoneRange(mark, lines, i);
    ZoneRange(mark, lines, k);
    var a := ParseLines(mark, lines);
    var out := SpliceLines(lines, a.zones[i], body);
    var b := ParseLines(mark, out);
    var seam := SpliceLocality(mark, lines, i, body);
    if k == i {
      assert b.zones[k].startLine == a.zones[i].startLine;
      assert b.zones[k].endLine == a.zones[i].startLine + |body| + 1;
    } else {
      if k < i {
        ZonesOrdered(mark, lines, k, i);
        assert b.zones[k] == b.zones[..i][k] == a.zones[..i][k];
      } else {
        ZonesOrdered(mark, lines, i, k);
      }
      RegionShifts(lines, a.zones[i], body, a.zones[k], b.zones[k]);
    }
  }

  lemma {:induction false} Ordered(mark: Marker, lines: seq<string>, zones: seq<Zone>, i: nat, k: nat)
    requires i < k < |zones|
    requires forall j :: 0 <= j < |zones| ==> Placed(mark, lines, zones, j)
    ensures zones[i].endLine < zones[k].startLine
  {
    assert Placed(mark, lines, zones, k);
    if i < k - 1 {
      Ordered(mark, lines, zones, i, k - 1);
      assert Placed(mark, lines, zones, k - 1);
    }
  }
}
