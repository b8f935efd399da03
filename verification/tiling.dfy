/** The zones and preamble chunks of a well-formed document tile its lines. */
module Tiling {
  import Text
  import opened Wrappers
  import opened Zones

  /** The text between lines `from` and `to`, when there is any. */
  function Gap(lines: seq<string>, from: int, to: int): seq<Chunk> {
    if 0 <= from < to <= |lines| then [Chunk(from + 1, to, Text.Join(lines[from..to], '\n'))] else []
  }

  /** The text before each zone, after the zone before it. */
  function Gaps(lines: seq<string>, zones: seq<Zone>): seq<Chunk> {
    if zones == [] then []
    else Gaps(lines, zones[..|zones| - 1]) + Gap(lines, LastEnd(zones[..|zones| - 1]), zones[|zones| - 1].startLine - 1)
  }

  function LastEnd(zones: seq<Zone>): int {
    if zones == [] then 0 else zones[|zones| - 1].endLine
  }

  ghost predicate BodyIsRegion(lines: seq<string>, z: Zone, n: nat) {
    1 <= z.startLine < z.endLine <= n <= |lines|
    && z.body == Text.Join(lines[z.startLine..z.endLine - 1], '\n')
  }

  ghost predicate InOrder(zones: seq<Zone>, limit: int) {
    zones == [] ||
    var front, z := zones[..|zones| - 1], zones[|zones| - 1];
    0 <= LastEnd(front) < z.startLine < z.endLine <= limit && InOrder(front, limit)
  }

  lemma {:induction false} InOrderMonotone(zones: seq<Zone>, limit: int, more: int)
    requires InOrder(zones, limit) && limit <= more
    ensures InOrder(zones, more)
  {
    if zones != [] { InOrderMonotone(zones[..|zones| - 1], limit, more); }
  }

  /** The chunks are the gaps and every body, also the open one, is every line since the start. */
  ghost predicate Faithful(lines: seq<string>, n: nat, st: State)
    requires n <= |lines|
  {
    && st.emitted == LastEnd(st.zones) <= n && InOrder(st.zones, n)
    && (forall i :: 0 <= i < |st.zones| ==> BodyIsRegion(lines, st.zones[i], n))
    && match st.open
       case None => st.chunks == Gaps(lines, st.zones)
       case Some(z) =>
         && st.emitted < z.startLine <= n && st.body == lines[z.startLine..n]
         && st.chunks == Gaps(lines, st.zones) + Gap(lines, st.emitted, z.startLine - 1)
  }

  lemma ZoneMore(lines: seq<string>, zones: seq<Zone>, z: Zone, limit: int)
    requires InOrder(zones, limit - 1) && 0 <= LastEnd(zones) < z.startLine < z.endLine == limit
    ensures InOrder(zones + [z], limit) && LastEnd(zones + [z]) == limit
    ensures Gaps(lines, zones + [z]) == Gaps(lines, zones) + Gap(lines, LastEnd(zones), z.startLine - 1)
  {
    assert (zones + [z])[..|zones|] == zones;
    InOrderMonotone(zones, limit - 1, limit);
  }

  lemma FaithfulWider(lines: seq<string>, n: nat, st: State)
    requires 0 < n <= |lines| && Faithful(lines, n - 1, st)
    ensures InOrder(st.zones, n) && forall i :: 0 <= i < |st.zones| ==> BodyIsRegion(lines, st.zones[i], n)
  {
    InOrderMonotone(st.zones, n - 1, n);
    forall i | 0 <= i < |st.zones| ensures BodyIsRegion(lines, st.zones[i], n) {
      assert BodyIsRegion(lines, st.zones[i], n - 1);
    }
  }

  lemma BodiesMore(lines: seq<string>, zones: seq<Zone>, z: Zone, n: nat)
    requires BodyIsRegion(lines, z, n) && forall i :: 0 <= i < |zones| ==> BodyIsRegion(lines, zones[i], n)
    ensures forall i :: 0 <= i < |zones + [z]| ==> BodyIsRegion(lines, (zones + [z])[i], n)
  {
  }

  lemma FaithfulClose(lines: seq<string>, n: nat, before: State, z: Zone)
    requires 0 < n <= |lines| && Faithful(lines, n - 1, before) && before.open.Some?
    requires z == before.open.value.(endLine := n, body := Text.Join(before.body, '\n'))
    ensures Faithful(lines, n, State(before.zones + [z], before.chunks, before.faults, None, [], n))
  {
    var zones := before.zones + [z];
    ZoneMore(lines, before.zones, z, n);
    FaithfulWider(lines, n, before);
    assert BodyIsRegion(lines, z, n);
    BodiesMore(lines, before.zones, z, n);
    assert before.chunks == Gaps(lines, zones);
    hide Gaps;
    hide InOrder;
    hide LastEnd;
    hide BodyIsRegion;
  }

  lemma FaithfulOpen(lines: seq<string>, n: nat, before: State, z: Zone)
    requires 0 < n <= |lines| && Faithful(lines, n - 1, before) && before.open.None? && z.startLine == n
    ensures Faithful(lines, n, before.(open := Some(z), body := [],
                                       chunks := before.chunks + Gap(lines, before.emitted, n - 1)))
  {
    FaithfulWider(lines, n, before);
    assert lines[n..n] == [];
  }

  lemma FaithfulPlain(lines: seq<string>, n: nat, before: State)
    requires 0 < n <= |lines| && Faithful(lines, n - 1, before)
    ensures Faithful(lines, n, if before.open.Some? then before.(body := before.body + [lines[n - 1]]) else before)
  {
    FaithfulWider(lines, n, before);
    hide InOrder;
    hide BodyIsRegion;
    hide Gaps;
    if before.open.Some? {
      var s := before.open.value.startLine;
      assert lines[s..n] == lines[s..n - 1] + [lines[n - 1]];
    }
  }

  lemma FaithfulEnd(mark: Marker, lines: seq<string>, n: nat, before: State)
    requires 0 < n <= |lines| && Faithful(lines, n - 1, before) && mark(lines[n - 1]).End? && before.open.Some?
    ensures Faithful(lines, n, ParseLine(mark, lines, n, before))
  {
    var z := before.open.value.(endLine := n, body := Text.Join(before.body, '\n'));
    FaithfulClose(lines, n, before, z);
  }

  lemma FaithfulStart(mark: Marker, lines: seq<string>, n: nat, before: State)
    requires 0 < n <= |lines| && Faithful(lines, n - 1, before) && mark(lines[n - 1]).Start? && before.open.None?
    ensures Faithful(lines, n, ParseLine(mark, lines, n, before))
  {
    hide InOrder;
    hide BodyIsRegion;
    hide Gaps;
    FaithfulOpen(lines, n, before, Opened(mark(lines[n - 1]), n));
  }

  lemma FaithfulStep(mark: Marker, lines: seq<string>, n: nat, before: State)
    requires 0 < n <= |lines| && Faithful(lines, n - 1, before)
    requires ParseLine(mark, lines, n, before).faults == []
    ensures Faithful(lines, n, ParseLine(mark, lines, n, before))
  {
    match mark(lines[n - 1])
    case End => FaithfulEnd(mark, lines, n, before);
    case Start(_, _, _, _, _) => FaithfulStart(mark, lines, n, before);
    case Plain => FaithfulPlain(lines, n, before);
    case _ =>
  }

  lemma {:induction false} ChunksAreGaps(mark: Marker, lines: seq<string>, n: nat)
    requires n <= |lines| && ParseTo(mark, lines, n).faults == []
    ensures Faithful(lines, n, ParseTo(mark, lines, n))
  {
    if n > 0 {
      var before := ParseTo(mark, lines, n - 1);
      assert before.faults == [];
      ChunksAreGaps(mark, lines, n - 1);
      FaithfulStep(mark, lines, n, before);
    }
  }

  function Covers(line: int, first: int, last: int): nat { if first <= line <= last then 1 else 0 }

  /** How many zones contain a line, markers included. */
  function InZones(zones: seq<Zone>, line: int): nat {
    if zones == [] then 0
    else
      var z := zones[|zones| - 1];
      InZones(zones[..|zones| - 1], line) + Covers(line, z.startLine, z.endLine)
  }

  function InChunks(chunks: seq<Chunk>, line: int): nat {
    if chunks == [] then 0
    else
      var c := chunks[|chunks| - 1];
      InChunks(chunks[..|chunks| - 1], line) + Covers(line, c.first, c.last)
  }

  lemma InChunksMore(chunks: seq<Chunk>, c: Chunk, line: int)
    ensures InChunks(chunks + [c], line) == InChunks(chunks, line) + Covers(line, c.first, c.last)
  {
    assert (chunks + [c])[..|chunks|] == chunks;
  }

  lemma InChunksGap(lines: seq<string>, chunks: seq<Chunk>, from: int, to: int, line: int)
    requires 0 <= from <= to <= |lines|
    ensures InChunks(chunks + Gap(lines, from, to), line) == InChunks(chunks, line) + Covers(line, from + 1, to)
  {
    var gap := Gap(lines, from, to);
    if gap != [] {
      InChunksMore(chunks, gap[0], line);
    } else {
      assert chunks + gap == chunks;
    }
  }

  lemma GapsUnfold(lines: seq<string>, zones: seq<Zone>)
    requires zones != []
    ensures var front, z := zones[..|zones| - 1], zones[|zones| - 1];
      Gaps(lines, zones) == Gaps(lines, front) + Gap(lines, LastEnd(front), z.startLine - 1)
  {
    hide Gap;
  }

  lemma GapsMore(lines: seq<string>, zones: seq<Zone>, line: int)
    requires zones != [] && InOrder(zones, |lines|)
    ensures var front, z := zones[..|zones| - 1], zones[|zones| - 1];
      && InOrder(front, |lines|) && 0 <= LastEnd(front) < z.startLine < z.endLine <= |lines|
      && LastEnd(zones) == z.endLine
      && InZones(zones, line) == InZones(front, line) + Covers(line, z.startLine, z.endLine)
      && InChunks(Gaps(lines, zones), line)
        == InChunks(Gaps(lines, front), line) + Covers(line, LastEnd(front) + 1, z.startLine - 1)
  {
    var front, z := zones[..|zones| - 1], zones[|zones| - 1];
    GapsUnfold(lines, zones);
    hide Gaps;
    hide Gap;
    hide InChunks;
    InChunksGap(lines, Gaps(lines, front), LastEnd(front), z.startLine - 1, line);
  }

  lemma {:induction false} GapsCover(lines: seq<string>, zones: seq<Zone>, line: int)
    requires InOrder(zones, |lines|)
    ensures InZones(zones, line) + InChunks(Gaps(lines, zones), line) == Covers(line, 1, LastEnd(zones))
  {
    if zones != [] {
      GapsMore(lines, zones, line);
      hide InZones;
      hide InChunks;
      hide Gaps;
      hide InOrder;
      hide LastEnd;
      GapsCover(lines, zones[..|zones| - 1], line);
    }
  }

  ghost predicate ChunkIsLines(lines: seq<string>, c: Chunk) {
    1 <= c.first <= c.last <= |lines| && c.text == Text.Join(lines[c.first - 1..c.last], '\n')
  }

  lemma {:induction false} GapTexts(lines: seq<string>, zones: seq<Zone>)
    ensures forall i :: 0 <= i < |Gaps(lines, zones)| ==> ChunkIsLines(lines, Gaps(lines, zones)[i])
  {
    if zones != [] { GapTexts(lines, zones[..|zones| - 1]); }
  }

  /** The last line of a document is blank and belongs to no zone. */
  ghost predicate LoneBlank(lines: seq<string>, doc: ParsedDoc, line: int) {
    line == |lines| && lines != [] && lines[|lines| - 1] == "" && LastEnd(doc.zones) == |lines| - 1
  }

  lemma JoinBlank(rest: seq<string>)
    ensures Text.Join(rest, '\n') == "" <==> rest == [] || rest == [""]
  {
    if |rest| > 1 { assert Text.Join(rest, '\n') == rest[0] + ['\n'] + Text.Join(rest[1..], '\n'); }
  }

  /** With text after the last zone, a last chunk reaches the last line. */
  lemma FinishWithChunk(lines: seq<string>, st: State, line: int)
    requires Faithful(lines, |lines|, st) && st.open.None? && 1 <= line <= |lines|
    requires Text.Join(lines[st.emitted..], '\n') != ""
    ensures var doc := Finish(lines, st);
      InZones(doc.zones, line) + InChunks(doc.chunks, line) == 1 && !LoneBlank(lines, doc, line)
  {
    hide InOrder;
    hide BodyIsRegion;
    hide Gaps;
    hide InZones;
    hide InChunks;
    hide Text.Join;
    var rest := lines[st.emitted..];
    GapsCover(lines, st.zones, line);
    InChunksMore(st.chunks, Chunk(st.emitted + 1, |lines|, Text.Join(rest, '\n')), line);
    JoinBlank(rest);
    if st.emitted == |lines| - 1 { assert rest == [lines[|lines| - 1]]; }
  }

  lemma FinishWithoutChunk(lines: seq<string>, st: State, line: int)
    requires Faithful(lines, |lines|, st) && st.open.None? && 1 <= line <= |lines|
    requires Text.Join(lines[st.emitted..], '\n') == ""
    ensures var doc := Finish(lines, st);
      InZones(doc.zones, line) + InChunks(doc.chunks, line) == if LoneBlank(lines, doc, line) then 0 else 1
  {
    hide InOrder;
    hide BodyIsRegion;
    hide Gaps;
    hide InZones;
    hide InChunks;
    hide Text.Join;
    var rest := lines[st.emitted..];
    GapsCover(lines, st.zones, line);
    JoinBlank(rest);
    assert st.chunks + [] == st.chunks;
    if rest == [""] { assert lines[|lines| - 1] == rest[0]; }
  }

  lemma FinishTiles(lines: seq<string>, st: State, line: int)
    requires Faithful(lines, |lines|, st) && st.open.None? && 1 <= line <= |lines|
    ensures var doc := Finish(lines, st);
      InZones(doc.zones, line) + InChunks(doc.chunks, line) == if LoneBlank(lines, doc, line) then 0 else 1
  {
    if Text.Join(lines[st.emitted..], '\n') != "" {
      FinishWithChunk(lines, st, line);
    } else {
      FinishWithoutChunk(lines, st, line);
    }
  }

  /** Every line of a well-formed document is in exactly one zone or chunk, except a lone blank last
      line, which is in none. */
  lemma ParseTiles(mark: Marker, lines: seq<string>, line: int)
    requires ParseLines(mark, lines).faults == [] && 1 <= line <= |lines|
    ensures var doc := ParseLines(mark, lines);
      InZones(doc.zones, line) + InChunks(doc.chunks, line) == if LoneBlank(lines, doc, line) then 0 else 1
  {
    ChunksAreGaps(mark, lines, |lines|);
    FinishTiles(lines, ParseTo(mark, lines, |lines|), line);
  }

  /** Zones follow each other, every body is the lines between its markers, and every chunk the lines
      it spans, word for word. */
  lemma PiecesAreText(mark: Marker, lines: seq<string>)
    requires ParseLines(mark, lines).faults == []
    ensures var doc := ParseLines(mark, lines);
      && InOrder(doc.zones, |lines|)
      && (forall i :: 0 <= i < |doc.zones| ==> BodyIsRegion(lines, doc.zones[i], |lines|))
      && (forall i :: 0 <= i < |doc.chunks| ==> ChunkIsLines(lines, doc.chunks[i]))
  {
    hide ParseTo;
    hide Gaps;
    hide InOrder;
    hide BodyIsRegion;
    var st := ParseTo(mark, lines, |lines|);
    ChunksAreGaps(mark, lines, |lines|);
    GapTexts(lines, st.zones);
    assert lines[st.emitted..] == lines[st.emitted..|lines|];
  }
}
