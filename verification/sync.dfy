/** The synchroniser of the canonical documents (server/app_docs/sync.py): an event rewrites the zones
    mapped to it, and a lock file of signatures tells later whether somebody else did. */
module Sync {
  import Markers
  import Text
  import opened Wrappers
  import opened Zones
  import opened Registry
  import opened Signature
  import opened Validation

  /** Path to text. */
  type Files = map<string, string>

  /** `_render_zone_body` for one payload: `None` when no renderer produces the zone. */
  type Renderer = string -> Option<string>

  /** The hash function of the signatures. */
  type Digest = string

  datatype Env = Env(docs: seq<CanonicalDoc>, mark: Marker, render: Renderer, hash: string -> Digest)

  datatype Outcome = Touched | UnknownDoc | NotPresent | NoRenderer | ZoneMissing | NoChange

  function SyncOne(env: Env, files: Files, t: Target): (Files, Outcome) {
    match GetDoc(env.docs, t.0)
    case None => (files, UnknownDoc)
    case Some(doc) =>
      if doc.path !in files then (files, NotPresent)
      else
        match env.render(t.1)
        case None => (files, NoRenderer)
        case Some(body) =>
          match Replace(env.mark, files[doc.path], t.1, body)
          case Err(_) => (files, ZoneMissing)
          case Ok(text) =>
            if text == files[doc.path] then (files, NoChange) else (files[doc.path := text], Touched)
  }

  function SyncAll(env: Env, files: Files, targets: seq<Target>): Files {
    if targets == [] then files
    else SyncOne(env, SyncAll(env, files, targets[..|targets| - 1]), targets[|targets| - 1]).0
  }

  function Outcomes(env: Env, files: Files, targets: seq<Target>): (out: seq<Outcome>)
    ensures |out| == |targets|
  {
    if targets == [] then []
    else
      var before := targets[..|targets| - 1];
      Outcomes(env, files, before) + [SyncOne(env, SyncAll(env, files, before), targets[|targets| - 1]).1]
  }

  /** What is rendered holds no zone marker. */
  ghost predicate RendersPlain(env: Env) {
    forall id :: env.render(id).Some? ==> PlainLines(env.mark, Text.Lines(env.render(id).value))
  }

  ghost predicate PlainLines(mark: Marker, lines: seq<string>) {
    forall k :: 0 <= k < |lines| ==> mark(lines[k]).Plain?
  }

  /** With the program's markers, payloads render plain lines if none of their lines opens a comment and names
      the zone marker; other comments, like the one of the decisions renderer, do not matter. */
  lemma InnocentRendersPlain(env: Env)
    requires env.mark == Markers.Read
    requires forall id :: env.render(id).Some? ==>
      forall k :: 0 <= k < |Text.Lines(env.render(id).value)| ==> Markers.Innocent(Text.Lines(env.render(id).value)[k])
    ensures RendersPlain(env)
  {
    forall id | env.render(id).Some? ensures PlainLines(env.mark, Text.Lines(env.render(id).value)) {
      var lines := Text.Lines(env.render(id).value);
      forall k | 0 <= k < |lines| ensures env.mark(lines[k]).Plain? { Markers.InnocentIsPlain(lines[k]); }
    }
  }

  // ── Only the mapped zones change ─────────────────────────────────

  /** The same zone, perhaps on other lines and perhaps with another body. */
  ghost predicate SameZone(z: Zone, z': Zone, rewritten: bool) {
    z' == z.(startLine := z'.startLine, endLine := z'.endLine, body := if rewritten then z'.body else z.body)
  }

  /** A fault without its place. */
  function Placeless(f: Fault): Fault {
    match f
    case MarkersOnOneLine(_) => MarkersOnOneLine(0)
    case NestedStart(_, id, _) => NestedStart(0, id, 0)
    case InvalidStart(_, reason) => InvalidStart(0, reason)
    case StrayEnd(_) => StrayEnd(0)
    case Unclosed(id, _) => Unclosed(id, 0)
  }

  /** The faults, without their places, but for lines with two markers. */
  function Serious(faults: seq<Fault>): seq<Fault> {
    if faults == [] then []
    else
      var last := faults[|faults| - 1];
      Serious(faults[..|faults| - 1]) + if last.MarkersOnOneLine? then [] else [Placeless(last)]
  }

  /** The same faults in the same order, but for lines with two markers, of which some may be gone. */
  ghost predicate FaultsKept(a: seq<Fault>, b: seq<Fault>) { Serious(b) == Serious(a) && |b| <= |a| }

  /** `q` is `p` with nothing but the bodies of the zones `ids` rewritten: what was parsed. */
  ghost predicate RetouchedDoc(p: ParsedDoc, q: ParsedDoc, ids: set<string>) {
    && |q.zones| == |p.zones|
    && (forall k :: 0 <= k < |p.zones| ==> SameZone(p.zones[k], q.zones[k], p.zones[k].id in ids))
    && |q.chunks| == |p.chunks| && (forall k :: 0 <= k < |p.chunks| ==> q.chunks[k].text == p.chunks[k].text)
    && FaultsKept(p.faults, q.faults)
  }

  /** `b` is `a` with nothing but the bodies of the zones `ids` rewritten. */
  ghost predicate Retouched(mark: Marker, a: string, b: string, ids: set<string>) {
    RetouchedDoc(Parse(mark, a), Parse(mark, b), ids) && (ids == {} ==> a == b)
  }

  lemma {:induction false} SeriousConcat(a: seq<Fault>, b: seq<Fault>)
    ensures Serious(a + b) == Serious(a) + Serious(b)
  {
    if b == [] {
      assert a + b == a;
    } else {
      assert (a + b)[..|a + b| - 1] == a + b[..|b| - 1];
      SeriousConcat(a, b[..|b| - 1]);
    }
  }

  lemma {:induction false} DoublesNotSerious(mark: Marker, lines: seq<string>, s: nat, n: nat)
    requires s <= n <= |lines|
    ensures Serious(DoubleFaults(mark, lines, s, n)) == []
  {
    if s < n {
      var front := DoubleFaults(mark, lines, s, n - 1);
      DoublesNotSerious(mark, lines, s, n - 1);
      assert (front + [MarkersOnOneLine(n)])[..|front|] == front && front + [] == front;
    }
  }

  lemma {:induction false} ShiftedSerious(a: seq<Fault>, b: seq<Fault>, shift: int)
    requires |a| == |b| && forall k :: 0 <= k < |a| ==> b[k] == ShiftFault(a[k], shift)
    ensures Serious(b) == Serious(a)
  {
    if a != [] { ShiftedSerious(a[..|a| - 1], b[..|b| - 1], shift); }
  }

  lemma SeriousParts(front: seq<Fault>, inside: seq<Fault>, rest: seq<Fault>, rest': seq<Fault>)
    requires Serious(inside) == [] && Serious(rest') == Serious(rest)
    ensures Serious(front + rest') == Serious(front + inside + rest)
  {
    SeriousConcat(front + inside, rest);
    SeriousConcat(front, inside);
    SeriousConcat(front, rest');
    assert Serious(front) + [] == Serious(front);
  }

  lemma SplicedFaults(a: seq<Fault>, b: seq<Fault>, seam: Seam, shift: int)
    requires FaultsShifted(a, b, seam.fault, seam.gone, shift) && b[..seam.fault] == a[..seam.fault]
    requires Serious(a[seam.fault..seam.fault + seam.gone]) == []
    ensures FaultsKept(a, b)
  {
    hide Serious;
    var front, inside := a[..seam.fault], a[seam.fault..seam.fault + seam.gone];
    var rest, rest' := a[seam.fault + seam.gone..], b[seam.fault..];
    assert a == front + inside + rest && b == front + rest';
    ShiftedSerious(rest, rest', shift);
    SeriousParts(front, inside, rest, rest');
  }

  lemma RetouchedBySplice(p: ParsedDoc, q: ParsedDoc, body: seq<string>, seam: Seam, inside: seq<Fault>, id: string)
    requires seam.zone < |p.zones| && Respliced(p, q, body, seam, inside) && Serious(inside) == []
    requires p.zones[seam.zone].id == id
    ensures RetouchedDoc(p, q, {id})
  {
    var z := p.zones[seam.zone];
    SplicedFaults(p.faults, q.faults, seam, z.startLine + |body| + 1 - z.endLine);
    hide FaultsKept;
    forall k | 0 <= k < |p.zones| ensures SameZone(p.zones[k], q.zones[k], p.zones[k].id in {id}) {
      if k < seam.zone { assert q.zones[..seam.zone][k] == p.zones[..seam.zone][k]; }
    }
    forall k | 0 <= k < |p.chunks| ensures q.chunks[k].text == p.chunks[k].text {
      if k < seam.chunk { assert q.chunks[..seam.chunk][k] == p.chunks[..seam.chunk][k]; }
    }
  }

  lemma ReplaceRetouches(mark: Marker, content: string, id: string, body: string)
    requires Replace(mark, content, id, body).Ok? && PlainLines(mark, Text.Lines(body))
    ensures Retouched(mark, content, Replace(mark, content, id, body).value, {id})
  {
    hide Replace;
    hide ParseLines;
    hide Respliced;
    hide SpliceLines;
    hide RetouchedDoc;
    var lines := Text.Lines(content);
    ReplaceSplices(mark, content, id, body);
    var p, q := Parse(mark, content), Parse(mark, Replace(mark, content, id, body).value);
    var i := FindZone(p.zones, id).value;
    var seam := SpliceLocality(mark, lines, i, Text.Lines(body));
    DoublesNotSerious(mark, lines, p.zones[i].startLine, p.zones[i].endLine - 1);
    RetouchedBySplice(p, q, Text.Lines(body), seam, Inside(mark, lines, p.zones[i]), id);
  }

  lemma RetouchedTwice(mark: Marker, a: string, b: string, c: string, ids: set<string>, more: set<string>)
    requires Retouched(mark, a, b, ids) && Retouched(mark, b, c, more)
    ensures Retouched(mark, a, c, ids + more)
  {
    var p, q, r := Parse(mark, a), Parse(mark, b), Parse(mark, c);
    forall k | 0 <= k < |p.zones| ensures SameZone(p.zones[k], r.zones[k], p.zones[k].id in ids + more) {
      assert SameZone(p.zones[k], q.zones[k], p.zones[k].id in ids);
      assert SameZone(q.zones[k], r.zones[k], q.zones[k].id in more);
    }
  }

  /** The zones of the file at `path` that the targets name. */
  ghost function MappedIds(docs: seq<CanonicalDoc>, targets: seq<Target>, path: string): set<string> {
    if targets == [] then {}
    else
      var t := targets[|targets| - 1];
      MappedIds(docs, targets[..|targets| - 1], path) + OwnId(docs, t, path)
  }

  ghost function OwnId(docs: seq<CanonicalDoc>, t: Target, path: string): set<string> {
    var doc := GetDoc(docs, t.0);
    if doc.Some? && doc.value.path == path then {t.1} else {}
  }

  /** What a target may write: where, and the text its zone becomes. */
  ghost function Attempt(env: Env, files: Files, t: Target): Option<(string, string)> {
    var doc := GetDoc(env.docs, t.0);
    if doc.None? || doc.value.path !in files || env.render(t.1).None? then None
    else
      match Replace(env.mark, files[doc.value.path], t.1, env.render(t.1).value)
      case Err(_) => None
      case Ok(text) => Some((doc.value.path, text))
  }

  lemma SyncOneAttempts(env: Env, files: Files, t: Target)
    ensures var (after, outcome) := SyncOne(env, files, t);
      match Attempt(env, files, t)
      case None => after == files && !outcome.Touched?
      case Some((path, text)) =>
        path in files && after == files[path := text] && (outcome.Touched? <==> text != files[path])
  {
  }

  lemma RetouchedNot(mark: Marker, a: string, ids: set<string>)
    ensures Retouched(mark, a, a, ids)
  {
  }

  lemma SyncOneRetouches(env: Env, files: Files, t: Target, path: string)
    requires RendersPlain(env) && path in files
    ensures SyncOne(env, files, t).0.Keys == files.Keys
    ensures Retouched(env.mark, files[path], SyncOne(env, files, t).0[path], OwnId(env.docs, t, path))
  {
    SyncOneAttempts(env, files, t);
    RetouchedNot(env.mark, files[path], OwnId(env.docs, t, path));
    var attempt := Attempt(env, files, t);
    if attempt.Some? && attempt.value.0 == path {
      ReplaceRetouches(env.mark, files[path], t.1, env.render(t.1).value);
    }
  }

  /** Sync safety: whatever the documents, an event rewrites bodies of the zones mapped to it, creates
      and deletes no file, and leaves every other zone, preamble and file as it was. */
  lemma {:induction false} SyncTouchesMappedOnly(env: Env, files: Files, targets: seq<Target>, path: string)
    requires RendersPlain(env)
    ensures SyncAll(env, files, targets).Keys == files.Keys
    ensures path in files ==>
      Retouched(env.mark, files[path], SyncAll(env, files, targets)[path], MappedIds(env.docs, targets, path))
  {
    if targets != [] {
      var before := targets[..|targets| - 1];
      var mid := SyncAll(env, files, before);
      var t := targets[|targets| - 1];
      SyncTouchesMappedOnly(env, files, before, path);
      if path in files {
        SyncOneRetouches(env, mid, t, path);
        RetouchedTwice(env.mark, files[path], mid[path], SyncAll(env, files, targets)[path],
                       MappedIds(env.docs, before, path), OwnId(env.docs, t, path));
      }
    }
  }

  // ── A second identical event writes nothing ──────────────────────

  /** Handling the target would change nothing. */
  ghost predicate Quiet(env: Env, files: Files, t: Target) {
    SyncOne(env, files, t).0 == files && !SyncOne(env, files, t).1.Touched?
  }

  function RegionAt(mark: Marker, content: string, i: nat): seq<string>
    requires i < |Parse(mark, content).zones|
  {
    ZoneRange(mark, Text.Lines(content), i);
    Region(Text.Lines(content), Parse(mark, content).zones[i])
  }

  /** Replacing is a no-op exactly when the zone already holds those lines. */
  lemma ReplaceNoOp(mark: Marker, content: string, id: string, body: string)
    requires FindZone(Parse(mark, content).zones, id).Some?
    ensures Replace(mark, content, id, body).Ok?
    ensures Replace(mark, content, id, body).value == content
      <==> RegionAt(mark, content, FindZone(Parse(mark, content).zones, id).value) == Text.Lines(body)
  {
    ReplaceSplices(mark, content, id, body);
  }

  /** Replacing a body moves no zone in the order of ids. */
  lemma SameFind(mark: Marker, content: string, id: string, body: string, other: string)
    requires Replace(mark, content, id, body).Ok? && PlainLines(mark, Text.Lines(body))
    ensures FindZone(Parse(mark, Replace(mark, content, id, body).value).zones, other)
      == FindZone(Parse(mark, content).zones, other)
  {
    var zones, after := Parse(mark, content).zones, Parse(mark, Replace(mark, content, id, body).value).zones;
    ReplaceRetouches(mark, content, id, body);
    forall k | 0 <= k < |zones| ensures zones[k].id == after[k].id {
      assert SameZone(zones[k], after[k], zones[k].id in {id});
    }
    SameIdsSameFind(zones, after, other);
  }

  /** After a splice every zone is found where it was, with its own lines or the new ones. */
  lemma ReplaceRegions(mark: Marker, content: string, id: string, body: string, other: string)
    requires Replace(mark, content, id, body).Ok? && PlainLines(mark, Text.Lines(body))
    ensures var out := Replace(mark, content, id, body).value;
      var at := FindZone(Parse(mark, content).zones, other);
      && FindZone(Parse(mark, out).zones, other) == at
      && (at.Some? ==>
            RegionAt(mark, out, at.value)
            == if other == id then Text.Lines(body) else RegionAt(mark, content, at.value))
  {
    var lines := Text.Lines(content);
    var zones := Parse(mark, content).zones;
    ReplaceSplices(mark, content, id, body);
    SameFind(mark, content, id, body, other);
    var at := FindZone(zones, other);
    if at.Some? { RegionKept(mark, lines, FindZone(zones, id).value, at.value, Text.Lines(body)); }
  }

  /** `replace_zone_body` twice with the same body is the same as once. */
  lemma ReplaceTwice(mark: Marker, content: string, id: string, body: string)
    requires Replace(mark, content, id, body).Ok? && PlainLines(mark, Text.Lines(body))
    ensures var out := Replace(mark, content, id, body).value; Replace(mark, out, id, body) == Ok(out)
  {
    var out := Replace(mark, content, id, body).value;
    ReplaceSplices(mark, content, id, body);
    ReplaceRegions(mark, content, id, body, id);
    ReplaceNoOp(mark, out, id, body);
  }

  lemma QuietAfter(env: Env, files: Files, t: Target)
    requires RendersPlain(env)
    ensures Quiet(env, SyncOne(env, files, t).0, t)
  {
    if SyncOne(env, files, t).1.Touched? {
      ReplaceTwice(env.mark, files[GetDoc(env.docs, t.0).value.path], t.1, env.render(t.1).value);
    }
  }

  /** Replacing the zone changes nothing. */
  ghost predicate Settled(mark: Marker, content: string, id: string, body: string) {
    Replace(mark, content, id, body).Ok? ==> Replace(mark, content, id, body).value == content
  }

  lemma QuietMeans(env: Env, files: Files, t: Target)
    ensures var doc := GetDoc(env.docs, t.0);
      Quiet(env, files, t) <==>
        (doc.Some? && doc.value.path in files && env.render(t.1).Some? ==>
          Settled(env.mark, files[doc.value.path], t.1, env.render(t.1).value))
  {
    SyncOneAttempts(env, files, t);
  }

  /** A zone that is settled stays so when another zone, or the same with the same body, is replaced. */
  lemma SettledStays(mark: Marker, content: string, other: string, text: string, id: string, body: string)
    requires Replace(mark, content, other, text).Ok? && PlainLines(mark, Text.Lines(text))
    requires (id == other ==> body == text) && Settled(mark, content, id, body)
    ensures Settled(mark, Replace(mark, content, other, text).value, id, body)
  {
    var out := Replace(mark, content, other, text).value;
    ReplaceRegions(mark, content, other, text, id);
    if FindZone(Parse(mark, content).zones, id).Some? {
      ReplaceNoOp(mark, content, id, body);
      ReplaceNoOp(mark, out, id, body);
    } else {
      ReplaceSplices(mark, out, id, body);
    }
  }

  lemma QuietStays(env: Env, files: Files, t: Target, u: Target)
    requires RendersPlain(env) && Quiet(env, files, t)
    ensures Quiet(env, SyncOne(env, files, u).0, t)
  {
    var after := SyncOne(env, files, u).0;
    SyncOneAttempts(env, files, u);
    QuietMeans(env, files, t);
    QuietMeans(env, after, t);
    var attempt, doc := Attempt(env, files, u), GetDoc(env.docs, t.0);
    if attempt.Some? && doc.Some? && doc.value.path == attempt.value.0 && env.render(t.1).Some? {
      SettledStays(env.mark, files[doc.value.path], u.1, env.render(u.1).value, t.1, env.render(t.1).value);
    }
  }

  ghost predicate AllQuiet(env: Env, files: Files, targets: seq<Target>) {
    forall k :: 0 <= k < |targets| ==> Quiet(env, files, targets[k])
  }

  lemma AllQuietStays(env: Env, files: Files, targets: seq<Target>, u: Target)
    requires RendersPlain(env) && AllQuiet(env, files, targets)
    ensures AllQuiet(env, SyncOne(env, files, u).0, targets + [u])
  {
    QuietAfter(env, files, u);
    forall k | 0 <= k < |targets| ensures Quiet(env, SyncOne(env, files, u).0, targets[k]) {
      QuietStays(env, files, targets[k], u);
    }
  }

  lemma {:induction false} AllQuietAfter(env: Env, files: Files, targets: seq<Target>)
    requires RendersPlain(env)
    ensures AllQuiet(env, SyncAll(env, files, targets), targets)
  {
    hide Quiet;
    hide SyncOne;
    if targets != [] {
      var n := |targets| - 1;
      AllQuietAfter(env, files, targets[..n]);
      AllQuietStays(env, SyncAll(env, files, targets[..n]), targets[..n], targets[n]);
      assert targets == targets[..n] + [targets[n]];
    }
  }

  lemma {:induction false} QuietRun(env: Env, files: Files, targets: seq<Target>)
    requires AllQuiet(env, files, targets)
    ensures SyncAll(env, files, targets) == files
    ensures forall k :: 0 <= k < |targets| ==> !Outcomes(env, files, targets)[k].Touched?
  {
    if targets != [] {
      QuietRun(env, files, targets[..|targets| - 1]);
    }
  }

  /** Idempotence: the same event again changes no file and touches no zone. */
  lemma SyncTwice(env: Env, files: Files, targets: seq<Target>)
    requires RendersPlain(env)
    ensures var once := SyncAll(env, files, targets);
      && SyncAll(env, once, targets) == once
      && forall k :: 0 <= k < |targets| ==> !Outcomes(env, once, targets)[k].Touched?
  {
    AllQuietAfter(env, files, targets);
    QuietRun(env, SyncAll(env, files, targets), targets);
  }

  // ── Manual zones ─────────────────────────────────────────────────

  /** In a document that validates, an event never rewrites a manual zone. */
  lemma ManualZonesSafe(env: Env, files: Files, event: string, doc: CanonicalDoc, k: nat)
    requires RendersPlain(env) && SparesManual(env.docs) && DistinctDocs(env.docs)
    requires doc in env.docs && doc.path in files
    requires Validates(Parse(env.mark, files[doc.path]), doc.required)
    requires k < |Parse(env.mark, files[doc.path]).zones|
    ensures doc.path in SyncAll(env, files, TargetsOf(env.docs, event))
    ensures var zones := Parse(env.mark, files[doc.path]).zones;
      var zones' := Parse(env.mark, SyncAll(env, files, TargetsOf(env.docs, event))[doc.path]).zones;
      && |zones'| == |zones|
      && (zones[k].kind.Manual? ==> SameZone(zones[k], zones'[k], false))
  {
    var targets := TargetsOf(env.docs, event);
    SyncTouchesMappedOnly(env, files, targets, doc.path);
    var p := Parse(env.mark, files[doc.path]);
    var q := Parse(env.mark, SyncAll(env, files, targets)[doc.path]);
    assert SameZone(p.zones[k], q.zones[k], p.zones[k].id in MappedIds(env.docs, targets, doc.path));
    if p.zones[k].id in MappedIds(env.docs, targets, doc.path) { MappedNotManual(env.docs, event, doc, p, k); }
    hide SyncAll;
    hide MappedIds;
    hide ParseLines;
  }

  lemma MappedNotManual(docs: seq<CanonicalDoc>, event: string, doc: CanonicalDoc, p: ParsedDoc, k: nat)
    requires SparesManual(docs) && DistinctDocs(docs) && doc in docs && Validates(p, doc.required) && k < |p.zones|
    requires p.zones[k].id in MappedIds(docs, TargetsOf(docs, event), doc.path)
    ensures !p.zones[k].kind.Manual?
  {
    MappedAreRequired(docs, docs, event, doc, p.zones[k].id);
    var want :| want in doc.required && want.0 == p.zones[k].id && want.1 != Manual;
    var j :| 0 <= j < |doc.required| && doc.required[j] == want;
    assert HasZone(p.zones, doc.required[j]);
  }

  lemma MappedInTargets(docs: seq<CanonicalDoc>, targets: seq<Target>, path: string, id: string)
    requires id in MappedIds(docs, targets, path)
    ensures exists t :: t in targets && t.1 == id && GetDoc(docs, t.0).Some? && GetDoc(docs, t.0).value.path == path
  {
    var n := |targets| - 1;
    if id in OwnId(docs, targets[n], path) {
      assert targets[n] in targets;
    } else {
      MappedInTargets(docs, targets[..n], path, id);
      var t :| t in targets[..n] && t.1 == id && GetDoc(docs, t.0).Some? && GetDoc(docs, t.0).value.path == path;
      assert t in targets;
    }
  }

  lemma {:induction false} TargetFromDoc(docs: seq<CanonicalDoc>, event: string, t: Target)
    requires t in TargetsOf(docs, event)
    ensures exists d, e :: d in docs && e in d.events && d.id == t.0 && t.1 in e.1
  {
    var n := |docs| - 1;
    if t in DocTargets(docs[n].id, docs[n].events, event) {
      TargetFromEvents(docs[n].id, docs[n].events, event, t);
      var e :| e in docs[n].events && t.1 in e.1;
      assert docs[n] in docs;
    } else {
      TargetFromDoc(docs[..n], event, t);
      var d, e :| d in docs[..n] && e in d.events && d.id == t.0 && t.1 in e.1;
      assert d in docs;
    }
  }

  lemma {:induction false} TargetFromEvents(doc: string, events: seq<(string, seq<string>)>, event: string, t: Target)
    requires t in DocTargets(doc, events, event)
    ensures t.0 == doc && exists e :: e in events && t.1 in e.1
  {
    var n := |events| - 1;
    if events[n].0 == event && t in Named(doc, events[n].1) {
      assert events[n] in events;
    } else {
      TargetFromEvents(doc, events[..n], event, t);
      var e :| e in events[..n] && t.1 in e.1;
      assert e in events;
    }
  }

  lemma MappedAreRequired(docs: seq<CanonicalDoc>, all: seq<CanonicalDoc>, event: string, doc: CanonicalDoc, id: string)
    requires SparesManual(docs) && DistinctDocs(docs) && all == docs && doc in docs
    requires id in MappedIds(docs, TargetsOf(all, event), doc.path)
    ensures exists want :: want in doc.required && want.0 == id && want.1 != Manual
  {
    MappedInTargets(docs, TargetsOf(all, event), doc.path, id);
    var t :| t in TargetsOf(all, event) && t.1 == id && GetDoc(docs, t.0).Some?
      && GetDoc(docs, t.0).value.path == doc.path;
    TargetFromDoc(docs, event, t);
    var d, e :| d in docs && e in d.events && d.id == t.0 && t.1 in e.1;
    assert d == GetDoc(docs, t.0).value == doc;
    assert DocSparesManual(doc);
    if (id, Auto) in doc.required { assert (id, Auto).0 == id; } else { assert (id, Hybrid).0 == id; }
  }

  // ── Signatures and drift ─────────────────────────────────────────

  type Lock = map<string, Digest>

  /** `_doc_is_template_pristine`. */
  predicate Pristine(zones: seq<Zone>) {
    && (exists k | 0 <= k < |zones| :: zones[k].kind == Manual)
    && (forall k | 0 <= k < |zones| :: zones[k].kind == Manual ==> zones[k].status == Some("template-pristine"))
  }

  predicate WellFormed(mark: Marker, text: string) { Parse(mark, text).faults == [] }

  function Sign(env: Env, text: string): Digest { env.hash(PreHash(Parse(env.mark, text).zones)) }

  /** What recording makes of the lock entry of an eligible document: a missing file loses its entry, a
      malformed one keeps what it had. */
  function RecordedDoc(env: Env, files: Files, lock: Lock, doc: CanonicalDoc): Option<Digest> {
    if doc.path !in files then None
    else if WellFormed(env.mark, files[doc.path]) then Some(Sign(env, files[doc.path]))
    else Entry(lock, doc.id)
  }

  /** The entry of any id: documents that are not eligible lose theirs. */
  function Recorded(env: Env, eligible: seq<CanonicalDoc>, files: Files, lock: Lock, id: string): Option<Digest> {
    match GetDoc(eligible, id)
    case None => None
    case Some(doc) => RecordedDoc(env, files, lock, doc)
  }

  function Entry(lock: Lock, id: string): Option<Digest> { if id in lock then Some(lock[id]) else None }

  datatype Drift = Malformed(doc: string, fault: Fault) | Drifted(doc: string)

  /** Verification has a signature to compare: the file exists, parses and is not an untouched template. */
  predicate Signed(mark: Marker, files: Files, doc: CanonicalDoc) {
    doc.path in files && WellFormed(mark, files[doc.path]) && !Pristine(Parse(mark, files[doc.path]).zones)
  }

  /** The file of the document does not have the recorded signature. */
  predicate HasDrifted(env: Env, files: Files, lock: Lock, doc: CanonicalDoc) {
    Signed(env.mark, files, doc) && doc.id in lock && lock[doc.id] != Sign(env, files[doc.path])
  }

  function FaultEntries(doc: string, faults: seq<Fault>): (out: seq<Drift>)
    ensures forall d :: d in out <==> d.Malformed? && d.doc == doc && d.fault in faults
  {
    if faults == [] then [] else FaultEntries(doc, faults[..|faults| - 1]) + [Malformed(doc, faults[|faults| - 1])]
  }

  /** The warnings of a verification, in the order of the documents. */
  function DriftedOf(env: Env, files: Files, lock: Lock, eligible: seq<CanonicalDoc>): seq<Drift> {
    if eligible == [] then []
    else
      var doc := eligible[|eligible| - 1];
      DriftedOf(env, files, lock, eligible[..|eligible| - 1])
      + if HasDrifted(env, files, lock, doc) then [Drifted(doc.id)] else []
  }

  /** A document is warned about if and only if it drifted. */
  lemma {:induction false} WarnedIfDrifted(env: Env, files: Files, lock: Lock, eligible: seq<CanonicalDoc>, i: nat)
    requires DistinctDocs(eligible) && i < |eligible|
    ensures Drifted(eligible[i].id) in DriftedOf(env, files, lock, eligible)
      <==> HasDrifted(env, files, lock, eligible[i])
  {
    var n := |eligible| - 1;
    if i < n {
      WarnedIfDrifted(env, files, lock, eligible[..n], i);
      assert eligible[i].id != eligible[n].id;
    } else {
      NotWarned(env, files, lock, eligible[..n], eligible[n].id);
    }
  }

  lemma {:induction false} NotWarned(env: Env, files: Files, lock: Lock, eligible: seq<CanonicalDoc>, id: string)
    requires forall k :: 0 <= k < |eligible| ==> eligible[k].id != id
    ensures Drifted(id) !in DriftedOf(env, files, lock, eligible)
  {
    if eligible != [] { NotWarned(env, files, lock, eligible[..|eligible| - 1], id); }
  }

  /** The faults of the malformed documents, document by document. */
  function MalformedOf(mark: Marker, files: Files, eligible: seq<CanonicalDoc>): seq<Drift> {
    if eligible == [] then []
    else
      var doc := eligible[|eligible| - 1];
      MalformedOf(mark, files, eligible[..|eligible| - 1])
      + if doc.path in files then FaultEntries(doc.id, Parse(mark, files[doc.path]).faults) else []
  }

  ghost predicate FaultIn(mark: Marker, files: Files, doc: CanonicalDoc, id: string, fault: Fault) {
    doc.id == id && doc.path in files && fault in Parse(mark, files[doc.path]).faults
  }

  /** A fault is reported exactly when one of the documents has it, and among the faults nothing else is. */
  lemma {:induction false} FaultsReported(mark: Marker, files: Files, eligible: seq<CanonicalDoc>, d: Drift)
    ensures d in MalformedOf(mark, files, eligible)
      <==> d.Malformed? && exists k :: 0 <= k < |eligible| && FaultIn(mark, files, eligible[k], d.doc, d.fault)
  {
    if eligible != [] {
      var n := |eligible| - 1;
      FaultsReported(mark, files, eligible[..n], d);
      assert eligible == eligible[..n] + [eligible[n]];
      if d.Malformed? {
        if i: nat :| i < |eligible| && FaultIn(mark, files, eligible[i], d.doc, d.fault) {
          if i < n { assert FaultIn(mark, files, eligible[..n][i], d.doc, d.fault); }
        }
      }
    }
  }

  /** The project the tools work on: its documents, and the signatures of the lock file. */
  class Project {
    const env: Env
    const eligible: seq<CanonicalDoc>
    var files: Files
    var lock: Lock

    constructor (env: Env, eligible: seq<CanonicalDoc>, files: Files, lock: Lock)
      ensures this.env == env && this.eligible == eligible && this.files == files && this.lock == lock
    {
      this.env, this.eligible, this.files, this.lock := env, eligible, files, lock;
    }

    method RecordOne(doc: CanonicalDoc)
      modifies this`lock
      ensures Entry(lock, doc.id) == RecordedDoc(env, files, old(lock), doc)
      ensures forall id :: id != doc.id ==> Entry(lock, id) == Entry(old(lock), id)
    {
      if doc.path in files {
        if WellFormed(env.mark, files[doc.path]) {
          lock := lock[doc.id := Sign(env, files[doc.path])];
        }
      } else {
        lock := lock - {doc.id};
      }
    }

    /** The loop over the documents of `record_sync_signature`. */
    method RecordAll()
      requires DistinctDocs(eligible)
      modifies this`lock
      ensures forall k :: 0 <= k < |eligible| ==>
        Entry(lock, eligible[k].id) == RecordedDoc(env, files, old(lock), eligible[k])
    {
      hide Sign;
      hide WellFormed;
      for i := 0 to |eligible|
        invariant forall k :: i <= k < |eligible| ==> Entry(lock, eligible[k].id) == Entry(old(lock), eligible[k].id)
        invariant forall k :: 0 <= k < i ==>
          Entry(lock, eligible[k].id) == RecordedDoc(env, files, old(lock), eligible[k])
      {
        RecordOne(eligible[i]);
      }
    }

    /** `record_sync_signature`. */
    method RecordSyncSignature()
      requires DistinctDocs(eligible)
      modifies this`lock
      ensures forall id :: Entry(lock, id) == Recorded(env, eligible, files, old(lock), id)
    {
      RecordAll();
      var ids := set d | d in eligible :: d.id;
      ghost var all := lock;
      lock := map id | id in lock && id in ids :: lock[id];
      forall id ensures Entry(lock, id) == Recorded(env, eligible, files, old(lock), id) {
        if GetDoc(eligible, id).Some? {
          var doc := GetDoc(eligible, id).value;
          assert id in ids;
          var k :| 0 <= k < |eligible| && eligible[k] == doc;
          assert Entry(all, eligible[k].id) == RecordedDoc(env, files, old(lock), eligible[k]);
        }
      }
    }

    method CollectFaults() returns (drift: seq<Drift>)
      ensures drift == MalformedOf(env.mark, files, eligible)
    {
      drift := [];
      for i := 0 to |eligible|
        invariant drift == MalformedOf(env.mark, files, eligible[..i])
      {
        assert eligible[..i + 1][..i] == eligible[..i];
        var doc := eligible[i];
        if doc.path in files {
          drift := drift + FaultEntries(doc.id, Parse(env.mark, files[doc.path]).faults);
        }
      }
      assert eligible[..|eligible|] == eligible;
    }

    method CollectDrift() returns (drift: seq<Drift>)
      ensures drift == DriftedOf(env, files, lock, eligible)
    {
      drift := [];
      for i := 0 to |eligible|
        invariant drift == DriftedOf(env, files, lock, eligible[..i])
      {
        assert eligible[..i + 1][..i] == eligible[..i];
        if HasDrifted(env, files, lock, eligible[i]) {
          drift := drift + [Drifted(eligible[i].id)];
        }
      }
      assert eligible[..|eligible|] == eligible;
    }

    /** `verify_app_docs_in_sync`: every fault of a malformed document, then the documents that drifted. */
    method VerifyAppDocsInSync() returns (drift: seq<Drift>)
      ensures drift == MalformedOf(env.mark, files, eligible) + DriftedOf(env, files, lock, eligible)
    {
      var faults := CollectFaults();
      var drifted := CollectDrift();
      drift := faults + drifted;
    }

    /** `sync_app_docs`: false for an unknown event. */
    method SyncAppDocs(event: string) returns (ok: bool, outcomes: seq<Outcome>)
      requires DistinctDocs(eligible)
      modifies this
      ensures var targets := TargetsOf(env.docs, event);
        && ok == (targets != [])
        && files == SyncAll(env, old(files), targets)
        && outcomes == Outcomes(env, old(files), targets)
        && (if Touched in outcomes
            then forall id :: Entry(lock, id) == Recorded(env, eligible, files, old(lock), id)
            else lock == old(lock))
    {
      var events := BuildEventZoneMap(env.docs);
      var targets := Lookup(events, event);
      ok, outcomes := targets != [], [];
      for i := 0 to |targets|
        invariant files == SyncAll(env, old(files), targets[..i])
        invariant outcomes == Outcomes(env, old(files), targets[..i])
        invariant lock == old(lock)
      {
        assert targets[..i + 1][..i] == targets[..i];
        var (after, outcome) := SyncOne(env, files, targets[i]);
        files := after;
        outcomes := outcomes + [outcome];
      }
      assert targets[..|targets|] == targets;
      if Touched in outcomes {
        RecordSyncSignature();
      }
    }
  }

  lemma {:induction false} GetDocAt(docs: seq<CanonicalDoc>, i: nat)
    requires i < |docs| && DistinctDocs(docs)
    ensures GetDoc(docs, docs[i].id) == Some(docs[i])
  {
    if i > 0 {
      assert docs[0].id != docs[i].id;
      assert docs[1..][i - 1] == docs[i];
      GetDocAt(docs[1..], i - 1);
    }
  }

  /** Right after a recording no document has drifted. */
  lemma NoDriftAfterRecord(env: Env, eligible: seq<CanonicalDoc>, files: Files, before: Lock, lock: Lock)
    requires DistinctDocs(eligible)
    requires forall id :: Entry(lock, id) == Recorded(env, eligible, files, before, id)
    ensures forall doc :: doc in eligible ==> !HasDrifted(env, files, lock, doc)
  {
    forall doc | doc in eligible ensures !HasDrifted(env, files, lock, doc) {
      var i :| 0 <= i < |eligible| && eligible[i] == doc;
      GetDocAt(eligible, i);
      assert Entry(lock, doc.id) == Recorded(env, eligible, files, before, doc.id);
    }
  }

  ghost predicate PlainIds(mark: Marker, text: string) {
    UniqueIds(Parse(mark, text).zones) && NulFree(Parse(mark, text).zones)
  }

  /** The hash function does not map these two texts to the same digest. */
  ghost predicate NoCollision(env: Env, a: string, b: string) { env.hash(a) == env.hash(b) ==> a == b }

  /** Drift detection is exact, for any hash function without a collision of the two serialisations: of a document
      recorded while well formed, a later verification warns if and only if the id, the kind or the body of some
      zone changed. */
  lemma DriftExact(env: Env, eligible: seq<CanonicalDoc>, was: Files, before: Lock, lock: Lock,
                   files: Files, doc: CanonicalDoc)
    requires DistinctDocs(eligible) && doc in eligible
    requires forall id :: Entry(lock, id) == Recorded(env, eligible, was, before, id)
    requires doc.path in was && WellFormed(env.mark, was[doc.path]) && PlainIds(env.mark, was[doc.path])
    requires Signed(env.mark, files, doc) && PlainIds(env.mark, files[doc.path])
    requires NoCollision(env, PreHash(Parse(env.mark, files[doc.path]).zones),
                         PreHash(Parse(env.mark, was[doc.path]).zones))
    ensures HasDrifted(env, files, lock, doc)
      <==> FactSet(Parse(env.mark, files[doc.path]).zones) != FactSet(Parse(env.mark, was[doc.path]).zones)
  {
    var i :| 0 <= i < |eligible| && eligible[i] == doc;
    GetDocAt(eligible, i);
    assert Entry(lock, doc.id) == Recorded(env, eligible, was, before, doc.id);
    PreHashExact(Parse(env.mark, files[doc.path]).zones, Parse(env.mark, was[doc.path]).zones);
  }
}
