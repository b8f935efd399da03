/** What the parser of zone documents finds, told from the marks of the lines alone (server/app_docs/zones.py). */
module ZoneMarks {
  import Text
  import opened Wrappers
  import opened Zones

  /** Line `line`, which counts from 1. */
  function MarkAt(mark: Marker, lines: seq<string>, line: int): Mark
    requires 1 <= line <= |lines|
  {
    mark(lines[line - 1])
  }

  predicate Quiet(m: Mark) { m.Plain? || m.Both? }

  /** Before line `line`, the zone that starts on line `since` is open: since then no line was a start, an end or an
      attempt at a start. */
  ghost predicate OpenSince(mark: Marker, lines: seq<string>, since: int, line: int)
    requires line <= |lines| + 1
  {
    && 1 <= since < line && MarkAt(mark, lines, since).Start?
    && forall k :: since < k < line ==> Quiet(MarkAt(mark, lines, k))
  }

  /** The zone that starts on line `first` ends on line `last`. */
  ghost predicate Spans(mark: Marker, lines: seq<string>, first: int, last: int) {
    last <= |lines| && OpenSince(mark, lines, first, last) && MarkAt(mark, lines, last).End?
  }

  ghost predicate NoneOpen(mark: Marker, lines: seq<string>, line: int)
    requires line <= |lines| + 1
  {
    forall s :: !OpenSince(mark, lines, s, line)
  }

  // ── The open zone ────────────────────────────────────────────────

  lemma OneOpen(mark: Marker, lines: seq<string>, s: int, t: int, line: int)
    requires line <= |lines| + 1 && OpenSince(mark, lines, s, line) && OpenSince(mark, lines, t, line)
    ensures s == t
  {
  }

  /** The parser has a zone open exactly when the marks say so, and that zone. */
  ghost predicate OpenTold(mark: Marker, lines: seq<string>, n: nat, open: Option<Zone>)
    requires n <= |lines|
  {
    match open
    case None => NoneOpen(mark, lines, n + 1)
    case Some(zone) =>
      && OpenSince(mark, lines, zone.startLine, n + 1)
      && zone == Opened(MarkAt(mark, lines, zone.startLine), zone.startLine)
  }

  lemma OpenMore(mark: Marker, lines: seq<string>, s: int, line: int)
    requires line <= |lines|
    ensures OpenSince(mark, lines, s, line + 1) <==>
      (OpenSince(mark, lines, s, line) && Quiet(MarkAt(mark, lines, line)))
      || (s == line >= 1 && MarkAt(mark, lines, line).Start?)
  {
  }

  lemma {:induction false} OpenIsTold(mark: Marker, lines: seq<string>, n: nat)
    requires n <= |lines|
    ensures OpenTold(mark, lines, n, ParseTo(mark, lines, n).open)
  {
    if n > 0 {
      OpenIsTold(mark, lines, n - 1);
      OpenStep(mark, lines, n, ParseTo(mark, lines, n - 1));
    }
  }

  lemma OpenStep(mark: Marker, lines: seq<string>, n: nat, before: State)
    requires 0 < n <= |lines| && before.emitted < n && OpenTold(mark, lines, n - 1, before.open)
    ensures OpenTold(mark, lines, n, ParseLine(mark, lines, n, before).open)
  {
    hide Preamble;
    var m, after := MarkAt(mark, lines, n), ParseLine(mark, lines, n, before).open;
    forall s ensures OpenSince(mark, lines, s, n + 1) <==>
      (OpenSince(mark, lines, s, n) && Quiet(m)) || (s == n && m.Start?)
    {
      OpenMore(mark, lines, s, n);
    }
    if m.Start? {
      assert after == Some(Opened(m, n)) && OpenSince(mark, lines, n, n + 1);
    } else if Quiet(m) {
      assert after == before.open;
      if after.Some? {
        assert OpenSince(mark, lines, after.value.startLine, n + 1);
      } else {
        var next := n + 1;
        forall s ensures !OpenSince(mark, lines, s, next) { assert !OpenSince(mark, lines, s, n); }
      }
    } else {
      assert after.None? && NoneOpen(mark, lines, n + 1);
    }
  }

  // ── The faults ───────────────────────────────────────────────────

  /** A document that ends with its zones closed: what a fault is about, line by line. */
  ghost predicate FaultAt(mark: Marker, lines: seq<string>, f: Fault) {
    match f
    case MarkersOnOneLine(line) => 1 <= line <= |lines| && MarkAt(mark, lines, line).Both?
    case InvalidStart(line, reason) => 1 <= line <= |lines| && MarkAt(mark, lines, line) == BadStart(reason)
    case StrayEnd(line) =>
      1 <= line <= |lines| && MarkAt(mark, lines, line).End? && NoneOpen(mark, lines, line)
    case NestedStart(line, id, since) =>
      && 1 <= line <= |lines| && (MarkAt(mark, lines, line).Start? || MarkAt(mark, lines, line).BadStart?)
      && OpenSince(mark, lines, since, line) && MarkAt(mark, lines, since).id == id
    case Unclosed(id, since) =>
      OpenSince(mark, lines, since, |lines| + 1) && MarkAt(mark, lines, since).id == id
  }

  /** The line a fault is reported on. */
  function LineOf(f: Fault, end: int): int {
    match f
    case MarkersOnOneLine(line) => line
    case InvalidStart(line, _) => line
    case StrayEnd(line) => line
    case NestedStart(line, _, _) => line
    case Unclosed(_, _) => end
  }

  /** The faults among the first `n` lines: in the order of the lines, and just those. */
  ghost predicate FaultsTold(mark: Marker, lines: seq<string>, n: nat, faults: seq<Fault>)
    requires n <= |lines|
  {
    && (forall f :: f in faults <==> !f.Unclosed? && LineOf(f, 0) <= n && FaultAt(mark, lines, f))
    && (forall i, j :: 0 <= i < j < |faults| ==> LineOf(faults[i], 0) <= LineOf(faults[j], 0) && faults[i] != faults[j])
  }

  /** What one line adds. */
  ghost predicate Adds(mark: Marker, lines: seq<string>, line: int, faults: seq<Fault>) {
    && (forall f :: f in faults <==> !f.Unclosed? && LineOf(f, 0) == line && FaultAt(mark, lines, f))
    && (forall i, j :: 0 <= i < j < |faults| ==> faults[i] != faults[j])
  }

  lemma FaultsMore(mark: Marker, lines: seq<string>, n: nat, faults: seq<Fault>, more: seq<Fault>)
    requires 0 < n <= |lines| && FaultsTold(mark, lines, n - 1, faults) && Adds(mark, lines, n, more)
    ensures FaultsTold(mark, lines, n, faults + more)
  {
    hide FaultAt;
    var all := faults + more;
    forall f ensures f in all <==> !f.Unclosed? && LineOf(f, 0) <= n && FaultAt(mark, lines, f) {
      assert f in all <==> f in faults || f in more;
    }
    forall i, j | 0 <= i < j < |all|
      ensures LineOf(all[i], 0) <= LineOf(all[j], 0) && all[i] != all[j]
    {
      if i < |faults| { assert all[i] in faults; } else { assert all[i] in more; }
      if j < |faults| { assert all[j] in faults; } else { assert all[j] in more; }
    }
  }

  function Nested(n: nat, open: Option<Zone>): seq<Fault> {
    if open.Some? then [NestedStart(n, open.value.id, open.value.startLine)] else []
  }

  lemma NestedTold(mark: Marker, lines: seq<string>, n: nat, open: Option<Zone>, f: Fault)
    requires 0 < n <= |lines| && OpenTold(mark, lines, n - 1, open)
    requires MarkAt(mark, lines, n).Start? || MarkAt(mark, lines, n).BadStart?
    requires f.NestedStart? && f.line == n
    ensures f in Nested(n, open) <==> FaultAt(mark, lines, f)
  {
    if open.Some? && OpenSince(mark, lines, f.since, n) { OneOpen(mark, lines, f.since, open.value.startLine, n); }
  }

  lemma BadStartAdds(mark: Marker, lines: seq<string>, n: nat, open: Option<Zone>, reason: string)
    requires 0 < n <= |lines| && OpenTold(mark, lines, n - 1, open) && MarkAt(mark, lines, n) == BadStart(reason)
    ensures Adds(mark, lines, n, Nested(n, open) + [InvalidStart(n, reason)])
  {
    var more := Nested(n, open) + [InvalidStart(n, reason)];
    forall f ensures f in more <==> !f.Unclosed? && LineOf(f, 0) == n && FaultAt(mark, lines, f) {
      if f.NestedStart? && f.line == n { NestedTold(mark, lines, n, open, f); }
    }
  }

  lemma StartAdds(mark: Marker, lines: seq<string>, n: nat, open: Option<Zone>)
    requires 0 < n <= |lines| && OpenTold(mark, lines, n - 1, open) && MarkAt(mark, lines, n).Start?
    ensures Adds(mark, lines, n, Nested(n, open))
  {
    var more := Nested(n, open);
    forall f ensures f in more <==> !f.Unclosed? && LineOf(f, 0) == n && FaultAt(mark, lines, f) {
      if f.NestedStart? && f.line == n { NestedTold(mark, lines, n, open, f); }
    }
  }

  lemma OtherAdds(mark: Marker, lines: seq<string>, n: nat, open: Option<Zone>)
    requires 0 < n <= |lines| && OpenTold(mark, lines, n - 1, open)
    ensures MarkAt(mark, lines, n).Both? ==> Adds(mark, lines, n, [MarkersOnOneLine(n)])
    ensures MarkAt(mark, lines, n).Plain? ==> Adds(mark, lines, n, [])
    ensures MarkAt(mark, lines, n).End? ==> Adds(mark, lines, n, if open.None? then [StrayEnd(n)] else [])
  {
  }

  lemma FaultsStep(mark: Marker, lines: seq<string>, n: nat, before: State)
    requires 0 < n <= |lines| && before.emitted < n
    requires OpenTold(mark, lines, n - 1, before.open) && FaultsTold(mark, lines, n - 1, before.faults)
    ensures FaultsTold(mark, lines, n, ParseLine(mark, lines, n, before).faults)
  {
    hide Preamble;
    hide Adds;
    hide FaultsTold;
    hide OpenTold;
    var open, faults := before.open, before.faults;
    OtherAdds(mark, lines, n, open);
    var m := MarkAt(mark, lines, n);
    var after := ParseLine(mark, lines, n, before).faults;
    var more := match m
      case Both => [MarkersOnOneLine(n)]
      case BadStart(reason) => Nested(n, open) + [InvalidStart(n, reason)]
      case Start(_, _, _, _, _) => Nested(n, open)
      case End => (if open.None? then [StrayEnd(n)] else [])
      case Plain => [];
    if m.BadStart? { BadStartAdds(mark, lines, n, open, m.reason); }
    if m.Start? { StartAdds(mark, lines, n, open); }
    FaultsMore(mark, lines, n, faults, more);
    assert after == faults + more;
  }

  lemma {:induction false} FaultsAreTold(mark: Marker, lines: seq<string>, n: nat)
    requires n <= |lines|
    ensures FaultsTold(mark, lines, n, ParseTo(mark, lines, n).faults)
  {
    if n > 0 {
      FaultsAreTold(mark, lines, n - 1);
      OpenIsTold(mark, lines, n - 1);
      hide FaultsTold;
      hide OpenTold;
      FaultsStep(mark, lines, n, ParseTo(mark, lines, n - 1));
    }
  }

  /** The faults of a document are exactly those its marks have, each once and in the order of the lines, the zone
      left open at the end last. */
  lemma FaultsByMarks(mark: Marker, lines: seq<string>)
    ensures forall f :: f in ParseLines(mark, lines).faults <==> FaultAt(mark, lines, f)
    ensures var faults := ParseLines(mark, lines).faults;
      forall i, j :: 0 <= i < j < |faults| ==>
        LineOf(faults[i], |lines| + 1) <= LineOf(faults[j], |lines| + 1) && faults[i] != faults[j]
  {
    var st, faults := ParseTo(mark, lines, |lines|), ParseLines(mark, lines).faults;
    FaultsAreTold(mark, lines, |lines|);
    OpenIsTold(mark, lines, |lines|);
    forall f ensures f in faults <==> FaultAt(mark, lines, f) { LastTold(mark, lines, st, faults, f); }
    forall i, j | 0 <= i < j < |faults|
      ensures LineOf(faults[i], |lines| + 1) <= LineOf(faults[j], |lines| + 1) && faults[i] != faults[j]
    {
      assert faults[i] == st.faults[i] && faults[i] in st.faults;
      if j < |st.faults| { assert faults[j] == st.faults[j] && faults[j] in st.faults; }
    }
  }

  lemma LastTold(mark: Marker, lines: seq<string>, st: State, faults: seq<Fault>, f: Fault)
    requires FaultsTold(mark, lines, |lines|, st.faults) && OpenTold(mark, lines, |lines|, st.open)
    requires faults == st.faults + if st.open.Some? then [Unclosed(st.open.value.id, st.open.value.startLine)] else []
    ensures f in faults <==> FaultAt(mark, lines, f)
  {
    if f.Unclosed? && st.open.Some? && OpenSince(mark, lines, f.since, |lines| + 1) {
      OneOpen(mark, lines, f.since, st.open.value.startLine, |lines| + 1);
    }
  }

  // ── Well-formed documents ────────────────────────────────────────

  /** The starts and ends of the first `n` lines, in order: true for a start. */
  function Brackets(mark: Marker, lines: seq<string>, n: nat): seq<bool>
    requires n <= |lines|
  {
    if n == 0 then []
    else
      var m := MarkAt(mark, lines, n);
      Brackets(mark, lines, n - 1) + if m.Start? then [true] else if m.End? then [false] else []
  }

  predicate Alternate(bs: seq<bool>) { forall i :: 0 <= i < |bs| ==> bs[i] == (i % 2 == 0) }

  ghost predicate Tidy(mark: Marker, lines: seq<string>, n: nat)
    requires n <= |lines|
  {
    forall k :: 1 <= k <= n ==> !MarkAt(mark, lines, k).Both? && !MarkAt(mark, lines, k).BadStart?
  }

  lemma AlternateMore(bs: seq<bool>, b: bool)
    ensures Alternate(bs + [b]) <==> Alternate(bs) && b == (|bs| % 2 == 0)
  {
    var more := bs + [b];
    if Alternate(more) {
      assert more[|bs|] == b;
      forall i | 0 <= i < |bs| ensures bs[i] == (i % 2 == 0) { assert more[i] == bs[i]; }
    }
  }

  lemma {:induction false} FaultlessSoFar(mark: Marker, lines: seq<string>, n: nat)
    requires n <= |lines|
    ensures var st, bs := ParseTo(mark, lines, n), Brackets(mark, lines, n);
      && (st.faults == [] <==> Tidy(mark, lines, n) && Alternate(bs))
      && (st.faults == [] ==> (st.open.Some? <==> |bs| % 2 == 1))
  {
    if n > 0 {
      FaultlessSoFar(mark, lines, n - 1);
      var st, bs := ParseTo(mark, lines, n - 1), Brackets(mark, lines, n - 1);
      AlternateMore(bs, true);
      AlternateMore(bs, false);
      assert bs + [] == bs;
      hide Alternate;
      hide Preamble;
      assert Tidy(mark, lines, n) <==>
        Tidy(mark, lines, n - 1) && !MarkAt(mark, lines, n).Both? && !MarkAt(mark, lines, n).BadStart?;
      hide Tidy;
    }
  }

  /** A document is well formed exactly when no line carries both markers or an invalid start, and its starts and
      ends alternate, first a start and last an end. */
  lemma WellFormedExact(mark: Marker, lines: seq<string>)
    ensures var bs := Brackets(mark, lines, |lines|);
      ParseLines(mark, lines).faults == [] <==> Tidy(mark, lines, |lines|) && Alternate(bs) && |bs| % 2 == 0
  {
    FaultlessSoFar(mark, lines, |lines|);
  }

  // ── The zones and the text between them ──────────────────────────

  /** The zone has the attributes of its start marker, and its body is the lines up to its end that are no marker. */
  ghost predicate ZoneAt(mark: Marker, lines: seq<string>, z: Zone) {
    && Spans(mark, lines, z.startLine, z.endLine)
    && var m := MarkAt(mark, lines, z.startLine);
    && z.kind == m.kind && z.id == m.id && z.autoSyncOn == m.autoSyncOn && z.merge == m.merge && z.status == m.status
    && z.body == Text.Join(PlainOnly(mark, lines[z.startLine..z.endLine - 1]), '\n')
  }

  ghost predicate ZonesTold(mark: Marker, lines: seq<string>, n: nat, zones: seq<Zone>) {
    forall z :: z in zones <==> z.endLine <= n && ZoneAt(mark, lines, z)
  }

  lemma ZonesStep(mark: Marker, lines: seq<string>, n: nat, before: State)
    requires 0 < n <= |lines| && before.emitted < n && OpenTold(mark, lines, n - 1, before.open)
    requires before.open.Some? ==> before.body == PlainOnly(mark, lines[before.open.value.startLine..n - 1])
    requires ZonesTold(mark, lines, n - 1, before.zones)
    ensures ZonesTold(mark, lines, n, ParseLine(mark, lines, n, before).zones)
  {
    hide Preamble;
    var m, zones := MarkAt(mark, lines, n), ParseLine(mark, lines, n, before).zones;
    if m.End? && before.open.Some? {
      var first := before.open.value.startLine;
      var zone := before.open.value.(endLine := n, body := Text.Join(before.body, '\n'));
      assert zones == before.zones + [zone] && ZoneAt(mark, lines, zone);
      forall z ensures z in zones <==> z.endLine <= n && ZoneAt(mark, lines, z) {
        if z.endLine == n && ZoneAt(mark, lines, z) {
          OneOpen(mark, lines, z.startLine, first, n);
          assert z == zone;
        }
      }
    } else {
      assert zones == before.zones;
      forall z ensures z in zones <==> z.endLine <= n && ZoneAt(mark, lines, z) {
        if z.endLine == n && ZoneAt(mark, lines, z) {
          assert false;
        }
      }
    }
  }

  lemma {:induction false} ZonesAreTold(mark: Marker, lines: seq<string>, n: nat)
    requires n <= |lines|
    ensures ZonesTold(mark, lines, n, ParseTo(mark, lines, n).zones)
  {
    if n > 0 {
      ZonesAreTold(mark, lines, n - 1);
      OpenIsTold(mark, lines, n - 1);
      ParsePlaces(mark, lines, n - 1);
      hide ZonesTold;
      hide OpenTold;
      hide Placed;
      ZonesStep(mark, lines, n, ParseTo(mark, lines, n - 1));
    }
  }

  /** The lines up to `e` are dealt with before line `line`: a zone ends there, the last one to do so. */
  ghost predicate ClosedBefore(mark: Marker, lines: seq<string>, e: int, line: int) {
    && 0 <= e < line
    && (e == 0 || exists s :: Spans(mark, lines, s, e))
    && forall s, k :: e < k < line ==> !Spans(mark, lines, s, k)
  }

  lemma ClosedStep(mark: Marker, lines: seq<string>, n: nat, before: State)
    requires 0 < n <= |lines| && before.emitted < n && OpenTold(mark, lines, n - 1, before.open)
    requires ClosedBefore(mark, lines, before.emitted, n)
    ensures ClosedBefore(mark, lines, ParseLine(mark, lines, n, before).emitted, n + 1)
  {
    hide Preamble;
    if MarkAt(mark, lines, n).End? && before.open.Some? {
      assert Spans(mark, lines, before.open.value.startLine, n);
    } else {
      forall s ensures !Spans(mark, lines, s, n) {
        if Spans(mark, lines, s, n) { assert false; }
      }
    }
  }

  lemma {:induction false} ClosedIsTold(mark: Marker, lines: seq<string>, n: nat)
    requires n <= |lines|
    ensures ClosedBefore(mark, lines, ParseTo(mark, lines, n).emitted, n + 1)
  {
    if n > 0 {
      ClosedIsTold(mark, lines, n - 1);
      OpenIsTold(mark, lines, n - 1);
      hide ClosedBefore;
      hide OpenTold;
      ClosedStep(mark, lines, n, ParseTo(mark, lines, n - 1));
    }
  }

  lemma ClosedOnce(mark: Marker, lines: seq<string>, a: int, b: int, line: int)
    requires ClosedBefore(mark, lines, a, line) && ClosedBefore(mark, lines, b, line)
    ensures a == b
  {
  }

  /** The text before a start line, from the end of the last zone on. */
  ghost predicate BeforeStart(mark: Marker, lines: seq<string>, c: Chunk) {
    && 1 <= c.first <= c.last < |lines| && MarkAt(mark, lines, c.last + 1).Start?
    && ClosedBefore(mark, lines, c.first - 1, c.last + 1)
    && c.text == Text.Join(lines[c.first - 1..c.last], '\n')
  }

  ghost predicate Trailing(mark: Marker, lines: seq<string>, c: Chunk) {
    && 1 <= c.first <= |lines| == c.last && ClosedBefore(mark, lines, c.first - 1, |lines| + 1)
    && c.text == Text.Join(lines[c.first - 1..], '\n') != ""
  }

  ghost predicate ChunksTold(mark: Marker, lines: seq<string>, n: nat, chunks: seq<Chunk>) {
    && (forall c :: c in chunks <==> c.last < n && BeforeStart(mark, lines, c))
    && (forall i, j :: 0 <= i < j < |chunks| ==> chunks[i].last < chunks[j].last)
  }

  lemma ChunksMore(mark: Marker, lines: seq<string>, n: nat, chunks: seq<Chunk>, more: seq<Chunk>)
    requires n > 0 && ChunksTold(mark, lines, n - 1, chunks) && |more| <= 1
    requires forall c :: c in more <==> c.last == n - 1 && BeforeStart(mark, lines, c)
    ensures ChunksTold(mark, lines, n, chunks + more)
  {
    hide BeforeStart;
    var all := chunks + more;
    forall c ensures c in all <==> c.last < n && BeforeStart(mark, lines, c) {
      assert c in all <==> c in chunks || c in more;
    }
    forall i, j | 0 <= i < j < |all| ensures all[i].last < all[j].last {
      assert all[i] in chunks;
      if j < |chunks| { assert all[j] in chunks; } else { assert all[j] in more; }
    }
  }

  lemma ChunksStep(mark: Marker, lines: seq<string>, n: nat, before: State)
    requires 0 < n <= |lines| && before.emitted < n && ClosedBefore(mark, lines, before.emitted, n)
    requires ChunksTold(mark, lines, n - 1, before.chunks)
    ensures ChunksTold(mark, lines, n, ParseLine(mark, lines, n, before).chunks)
  {
    hide ClosedBefore;
    hide ChunksTold;
    var more := if MarkAt(mark, lines, n).Start? then Preamble(lines, before, n) else [];
    assert ParseLine(mark, lines, n, before).chunks == before.chunks + more;
    forall c ensures c in more <==> c.last == n - 1 && BeforeStart(mark, lines, c) {
      if c.last == n - 1 && BeforeStart(mark, lines, c) {
        ClosedOnce(mark, lines, before.emitted, c.first - 1, n);
      }
    }
    ChunksMore(mark, lines, n, before.chunks, more);
  }

  lemma {:induction false} ChunksAreTold(mark: Marker, lines: seq<string>, n: nat)
    requires n <= |lines|
    ensures ChunksTold(mark, lines, n, ParseTo(mark, lines, n).chunks)
  {
    if n > 0 {
      ChunksAreTold(mark, lines, n - 1);
      ClosedIsTold(mark, lines, n - 1);
      hide ChunksTold;
      hide ClosedBefore;
      ChunksStep(mark, lines, n, ParseTo(mark, lines, n - 1));
    }
  }

  /** Any document, malformed or not: its zones and its chunks are those its marks have, each once and in the order of
      the lines. */
  lemma ZonesByMarks(mark: Marker, lines: seq<string>)
    ensures forall z :: z in ParseLines(mark, lines).zones <==> ZoneAt(mark, lines, z)
    ensures var zones := ParseLines(mark, lines).zones;
      forall i, j :: 0 <= i < j < |zones| ==> zones[i].endLine < zones[j].startLine
  {
    ZonesAreTold(mark, lines, |lines|);
    var zones := ParseLines(mark, lines).zones;
    forall i, j | 0 <= i < j < |zones| ensures zones[i].endLine < zones[j].startLine {
      ZonesOrdered(mark, lines, i, j);
    }
  }

  lemma ChunksByMarks(mark: Marker, lines: seq<string>)
    ensures forall c :: c in ParseLines(mark, lines).chunks <==>
      BeforeStart(mark, lines, c) || Trailing(mark, lines, c)
    ensures var chunks := ParseLines(mark, lines).chunks;
      forall i, j :: 0 <= i < j < |chunks| ==> chunks[i].last < chunks[j].last
  {
    var st := ParseTo(mark, lines, |lines|);
    ChunksAreTold(mark, lines, |lines|);
    ClosedIsTold(mark, lines, |lines|);
    ChunksEnd(mark, lines, st);
  }

  lemma ChunksEnd(mark: Marker, lines: seq<string>, st: State)
    requires st.emitted <= |lines| && ChunksTold(mark, lines, |lines|, st.chunks)
    requires ClosedBefore(mark, lines, st.emitted, |lines| + 1)
    ensures forall c :: c in Finish(lines, st).chunks <==> BeforeStart(mark, lines, c) || Trailing(mark, lines, c)
    ensures var chunks := Finish(lines, st).chunks;
      forall i, j :: 0 <= i < j < |chunks| ==> chunks[i].last < chunks[j].last
  {
    hide ClosedBefore;
    var all := Finish(lines, st).chunks;
    var more := all[|st.chunks|..];
    assert all == st.chunks + more;
    forall c ensures c in all <==> BeforeStart(mark, lines, c) || Trailing(mark, lines, c) {
      if Trailing(mark, lines, c) { ClosedOnce(mark, lines, st.emitted, c.first - 1, |lines| + 1); }
    }
    forall i, j | 0 <= i < j < |all| ensures all[i].last < all[j].last {
      assert all[i] == st.chunks[i] && st.chunks[i] in st.chunks;
    }
  }
}
