/** The canonical documents (server/app_docs/registry.py): which zones each requires and which events
    rewrite which zones. */
module Registry {
  import opened Lists
  import opened Wrappers
  import opened Zones

  /** The dicts of the program are listed in their insertion order. */
  datatype CanonicalDoc = CanonicalDoc(
    id: string, path: string, introducedIn: seq<nat>,
    required: seq<(string, Kind)>, events: seq<(string, seq<string>)>)

  function DocPath(id: string): string { "doc/app/" + id + ".md" }

  const APP_PRD := CanonicalDoc(
    "app_prd", DocPath("app_prd"), [5, 29, 0],
    [("vision", Manual), ("audience", Manual), ("scope", Manual), ("success_metrics", Hybrid),
     ("roadmap", Auto), ("stakeholders", Manual)],
    [("complete_uc", ["roadmap"]), ("move_uc", ["roadmap"]), ("add_uc", ["roadmap"]),
     ("delete_uc", ["roadmap"]), ("mark_ac_batch", ["roadmap", "success_metrics"])])

  const APP_SPEC := CanonicalDoc(
    "app_spec", DocPath("app_spec"), [5, 29, 0],
    [("stack", Auto), ("tracking_backend", Auto), ("autopilot", Auto), ("canonical_decisions", Hybrid)],
    [("set_auth_token", ["tracking_backend"]), ("lockfile_change", ["stack"]),
     ("framework_detected", ["stack"]), ("release_version_bump", ["stack"]),
     ("autopilot_config_change", ["autopilot"]), ("canonical_decision_created", ["canonical_decisions"]),
     ("canonical_decision_revoked", ["canonical_decisions"])])

  const APP_MARKET := CanonicalDoc(
    "app_market", DocPath("app_market"), [6, 0, 0],
    [("icps_primary", Manual), ("anti_icps", Manual), ("jtbds_rational", Manual),
     ("jtbds_emotional", Manual), ("north_star_metric", Manual), ("positioning", Manual),
     ("anti_features", Manual), ("exportable_copy", Auto)],
    [("app_market_icp_added", ["exportable_copy"]), ("app_market_jtbd_added", ["exportable_copy"]),
     ("nsm_updated", ["exportable_copy"])])

  const DOCS := [APP_PRD, APP_SPEC, APP_MARKET]

  function GetDoc(docs: seq<CanonicalDoc>, id: string): (doc: Option<CanonicalDoc>)
    ensures doc.Some? ==> doc.value in docs && doc.value.id == id
    ensures doc.None? ==> forall d :: d in docs ==> d.id != id
  {
    if docs == [] then None
    else if docs[0].id == id then Some(docs[0])
    else GetDoc(docs[1..], id)
  }

  /** Tuple order: the first difference decides, a proper prefix is smaller. */
  predicate VersionAtMost(a: seq<nat>, b: seq<nat>) {
    a == [] || (b != [] && (a[0] < b[0] || (a[0] == b[0] && VersionAtMost(a[1..], b[1..]))))
  }

  /** `docs_for_version`: an unknown version counts as 5.29.0. */
  function DocsForVersion(docs: seq<CanonicalDoc>, version: Option<seq<nat>>): seq<CanonicalDoc> {
    if docs == [] then []
    else
      var project := if version.Some? then version.value else [5, 29, 0];
      (if VersionAtMost(docs[0].introducedIn, project) then [docs[0]] else []) + DocsForVersion(docs[1..], version)
  }

  lemma {:induction false} VersionAtMostTransitive(a: seq<nat>, b: seq<nat>, c: seq<nat>)
    requires VersionAtMost(a, b) && VersionAtMost(b, c)
    ensures VersionAtMost(a, c)
  {
    if a != [] && a[0] == b[0] == c[0] { VersionAtMostTransitive(a[1..], b[1..], c[1..]); }
  }

  /** Upgrading a project never takes a canonical document away from it. */
  lemma {:induction false} EligibleDocsGrow(docs: seq<CanonicalDoc>, before: seq<nat>, after: seq<nat>, d: CanonicalDoc)
    requires VersionAtMost(before, after) && d in DocsForVersion(docs, Some(before))
    ensures d in DocsForVersion(docs, Some(after))
  {
    if VersionAtMost(docs[0].introducedIn, before) {
      VersionAtMostTransitive(docs[0].introducedIn, before, after);
    }
    if d in DocsForVersion(docs[1..], Some(before)) {
      EligibleDocsGrow(docs[1..], before, after, d);
    }
  }

  /** Versions by their first difference: a proper prefix comes first. */
  ghost predicate Earlier(a: seq<nat>, b: seq<nat>) {
    || (|a| <= |b| && a == b[..|a|])
    || exists i :: 0 <= i < |a| && i < |b| && a[..i] == b[..i] && a[i] < b[i]
  }

  lemma {:induction false} VersionOrder(a: seq<nat>, b: seq<nat>)
    ensures VersionAtMost(a, b) <==> Earlier(a, b)
  {
    if a != [] && b != [] {
      VersionOrder(a[1..], b[1..]);
      if a[0] < b[0] {
        assert a[..0] == b[..0];
      } else if a[0] == b[0] {
        EarlierRest(a, b);
      }
    }
  }

  lemma EarlierRest(a: seq<nat>, b: seq<nat>)
    requires a != [] && b != [] && a[0] == b[0]
    ensures Earlier(a, b) <==> Earlier(a[1..], b[1..])
  {
    assert a == [a[0]] + a[1..] && b == [b[0]] + b[1..];
    if Earlier(a, b) && !(|a| <= |b| && a == b[..|a|]) {
      var i :| 0 <= i < |a| && i < |b| && a[..i] == b[..i] && a[i] < b[i];
      assert a[1..][..i - 1] == a[..i][1..] && b[1..][..i - 1] == b[..i][1..];
    }
    if Earlier(a[1..], b[1..]) && !(|a| <= |b| && a[1..] == b[1..][..|a| - 1]) {
      var i :| 0 <= i < |a| - 1 && i < |b| - 1 && a[1..][..i] == b[1..][..i] && a[1..][i] < b[1..][i];
      assert a[..i + 1] == [a[0]] + a[1..][..i] && b[..i + 1] == [b[0]] + b[1..][..i];
    }
    if |a| <= |b| && a == b[..|a|] { assert a[1..] == b[1..][..|a| - 1]; }
    if |a| <= |b| && a[1..] == b[1..][..|a| - 1] { assert b[..|a|] == [b[0]] + b[1..][..|a| - 1]; }
  }

  predicate Eligible(doc: CanonicalDoc, version: Option<seq<nat>>) {
    VersionAtMost(doc.introducedIn, if version.Some? then version.value else [5, 29, 0])
  }

  lemma ShiftedPoints(first: bool, docs: seq<CanonicalDoc>, rest: seq<nat>, found: seq<CanonicalDoc>)
    requires docs != [] && |rest| == |found|
    requires forall k :: 0 <= k < |rest| ==> rest[k] < |docs| - 1 && found[k] == docs[1..][rest[k]]
    ensures var at, all := Shifted(first, rest), (if first then [docs[0]] else []) + found;
      |at| == |all| && forall k :: 0 <= k < |at| ==> at[k] < |docs| && all[k] == docs[at[k]]
  {
  }

  lemma {:induction false} EligibleAt(docs: seq<CanonicalDoc>, version: Option<seq<nat>>) returns (at: seq<nat>)
    ensures forall i: nat :: i in at <==> i < |docs| && Eligible(docs[i], version)
    ensures Increasing(at) && |at| == |DocsForVersion(docs, version)|
    ensures forall k :: 0 <= k < |at| ==> at[k] < |docs| && DocsForVersion(docs, version)[k] == docs[at[k]]
  {
    if docs == [] {
      at := [];
    } else {
      var rest := EligibleAt(docs[1..], version);
      var first := Eligible(docs[0], version);
      at := Shifted(first, rest);
      assert DocsForVersion(docs, version)
        == (if first then [docs[0]] else []) + DocsForVersion(docs[1..], version);
      hide *;
      ShiftedRises(first, rest);
      ShiftedPoints(first, docs, rest, DocsForVersion(docs[1..], version));
      forall i: nat ensures i in at <==> i < |docs| && Eligible(docs[i], version) {
        ShiftedIn(first, rest, i);
      }
    }
  }

  /** The documents of a version are exactly those introduced no later, in the order of the registry; an unknown
      version has those of 5.29.0. `at` is where they stand in the registry. */
  lemma EligibleExact(docs: seq<CanonicalDoc>, version: Option<seq<nat>>) returns (at: seq<nat>)
    ensures var project := if version.Some? then version.value else [5, 29, 0];
      forall i: nat :: i in at <==> i < |docs| && Earlier(docs[i].introducedIn, project)
    ensures Increasing(at) && |at| == |DocsForVersion(docs, version)|
    ensures forall k :: 0 <= k < |at| ==> at[k] < |docs| && DocsForVersion(docs, version)[k] == docs[at[k]]
  {
    at := EligibleAt(docs, version);
    var project := if version.Some? then version.value else [5, 29, 0];
    forall i: nat ensures i in at <==> i < |docs| && Earlier(docs[i].introducedIn, project) {
      if i < |docs| { VersionOrder(docs[i].introducedIn, project); }
    }
  }

  lemma ThreeDocs(version: Option<seq<nat>>)
    ensures DocsForVersion(DOCS, version) ==
      (if Eligible(APP_PRD, version) then [APP_PRD] else [])
      + (if Eligible(APP_SPEC, version) then [APP_SPEC] else [])
      + (if Eligible(APP_MARKET, version) then [APP_MARKET] else [])
  {
    OneDocMore([APP_MARKET], version);
    OneDocMore([APP_SPEC, APP_MARKET], version);
    OneDocMore(DOCS, version);
    assert [APP_MARKET][1..] == [] && [APP_SPEC, APP_MARKET][1..] == [APP_MARKET];
    assert DOCS[1..] == [APP_SPEC, APP_MARKET];
    hide Eligible;
  }

  lemma OneDocMore(docs: seq<CanonicalDoc>, version: Option<seq<nat>>)
    requires docs != []
    ensures DocsForVersion(docs, version)
      == (if Eligible(docs[0], version) then [docs[0]] else []) + DocsForVersion(docs[1..], version)
    ensures DocsForVersion([], version) == []
  {
  }

  /** Of the registry of the program: a project has no document before 5.29.0, the first two before 6.0.0 and when
      its version is unknown, and then all three. */
  lemma EligibleNow(version: Option<seq<nat>>)
    ensures var found, project := DocsForVersion(DOCS, version), if version.Some? then version.value else [5, 29, 0];
      && (!Earlier([5, 29, 0], project) ==> found == [])
      && (Earlier([5, 29, 0], project) && !Earlier([6, 0, 0], project) ==> found == [APP_PRD, APP_SPEC])
      && (Earlier([6, 0, 0], project) ==> found == DOCS)
    ensures version.None? ==> DocsForVersion(DOCS, version) == [APP_PRD, APP_SPEC]
  {
    ThreeDocs(version);
    assert [APP_PRD] + [APP_SPEC] + [] == [APP_PRD, APP_SPEC] && [APP_PRD] + [APP_SPEC] + [APP_MARKET] == DOCS;
    assert APP_PRD.introducedIn == APP_SPEC.introducedIn == [5, 29, 0] && APP_MARKET.introducedIn == [6, 0, 0];
    var project := if version.Some? then version.value else [5, 29, 0];
    VersionOrder([5, 29, 0], project);
    VersionOrder([6, 0, 0], project);
    SameVersion([5, 29, 0]);
    assert !VersionAtMost([6, 0, 0], [5, 29, 0]) && VersionAtMost([5, 29, 0], [6, 0, 0]);
    if VersionAtMost([6, 0, 0], project) { VersionAtMostTransitive([5, 29, 0], [6, 0, 0], project); }
    assert Eligible(APP_PRD, version) == Eligible(APP_SPEC, version) == VersionAtMost([5, 29, 0], project);
    assert Eligible(APP_MARKET, version) == VersionAtMost([6, 0, 0], project);
  }

  lemma {:induction false} SameVersion(a: seq<nat>)
    ensures VersionAtMost(a, a)
  {
    if a != [] { SameVersion(a[1..]); }
  }

  // ── Events ───────────────────────────────────────────────────────

  type Target = (string, string)

  function Named(doc: string, zones: seq<string>): seq<Target> {
    seq(|zones|, i requires 0 <= i < |zones| => (doc, zones[i]))
  }

  /** The zones one document lists for an event. */
  function DocTargets(doc: string, events: seq<(string, seq<string>)>, event: string): seq<Target> {
    if events == [] then []
    else
      var last := events[|events| - 1];
      DocTargets(doc, events[..|events| - 1], event) + if last.0 == event then Named(doc, last.1) else []
  }

  /** The zones an event rewrites, document by document. */
  function TargetsOf(docs: seq<CanonicalDoc>, event: string): seq<Target> {
    if docs == [] then []
    else
      var last := docs[|docs| - 1];
      TargetsOf(docs[..|docs| - 1], event) + DocTargets(last.id, last.events, event)
  }

  function Lookup(m: map<string, seq<Target>>, event: string): seq<Target> {
    if event in m then m[event] else []
  }

  lemma DocTargetsMore(doc: string, events: seq<(string, seq<string>)>, j: nat, event: string)
    requires j < |events|
    ensures DocTargets(doc, events[..j + 1], event)
         == DocTargets(doc, events[..j], event) + if events[j].0 == event then Named(doc, events[j].1) else []
  {
    assert events[..j + 1][..j] == events[..j];
  }

  lemma AddOneEvent(m: map<string, seq<Target>>, event: string, more: seq<Target>, e: string)
    ensures Lookup(m[event := Lookup(m, event) + more], e) == Lookup(m, e) + if e == event then more else []
  {
    assert Lookup(m, e) + [] == Lookup(m, e);
  }

  /** `out` is `m` with the events of a document up to `j` added. */
  ghost predicate AddedUpTo(m: map<string, seq<Target>>, out: map<string, seq<Target>>, doc: CanonicalDoc, j: nat)
    requires j <= |doc.events|
  {
    forall event :: Lookup(out, event) == Lookup(m, event) + DocTargets(doc.id, doc.events[..j], event)
  }

  lemma Grouped(a: seq<Target>, b: seq<Target>, c: seq<Target>)
    ensures (a + b) + c == a + (b + c)
  {
  }

  lemma AddedOne(m: map<string, seq<Target>>, out: map<string, seq<Target>>, doc: CanonicalDoc, j: nat, e: string)
    requires j < |doc.events|
    requires Lookup(out, e) == Lookup(m, e) + DocTargets(doc.id, doc.events[..j], e)
    ensures var (event, zones) := doc.events[j];
      Lookup(out[event := Lookup(out, event) + Named(doc.id, zones)], e)
      == Lookup(m, e) + DocTargets(doc.id, doc.events[..j + 1], e)
  {
    var (event, zones) := doc.events[j];
    var more := if e == event then Named(doc.id, zones) else [];
    AddOneEvent(out, event, Named(doc.id, zones), e);
    DocTargetsMore(doc.id, doc.events, j, e);
    Grouped(Lookup(m, e), DocTargets(doc.id, doc.events[..j], e), more);
  }

  lemma AddedNext(m: map<string, seq<Target>>, out: map<string, seq<Target>>, doc: CanonicalDoc, j: nat)
    requires j < |doc.events| && AddedUpTo(m, out, doc, j)
    ensures var (event, zones) := doc.events[j];
      AddedUpTo(m, out[event := Lookup(out, event) + Named(doc.id, zones)], doc, j + 1)
  {
    forall e { AddedOne(m, out, doc, j, e); }
  }

  method AddDocEvents(m: map<string, seq<Target>>, doc: CanonicalDoc) returns (out: map<string, seq<Target>>)
    ensures forall event :: Lookup(out, event) == Lookup(m, event) + DocTargets(doc.id, doc.events, event)
  {
    out := m;
    assert forall event :: Lookup(m, event) + [] == Lookup(m, event);
    for j := 0 to |doc.events|
      invariant AddedUpTo(m, out, doc, j)
    {
      AddedNext(m, out, doc, j);
      var (event, zones) := doc.events[j];
      out := out[event := Lookup(out, event) + Named(doc.id, zones)];
    }
    assert doc.events[..|doc.events|] == doc.events;
  }

  /** `build_event_zone_map`. */
  method BuildEventZoneMap(docs: seq<CanonicalDoc>) returns (out: map<string, seq<Target>>)
    ensures forall event :: Lookup(out, event) == TargetsOf(docs, event)
  {
    out := map[];
    for i := 0 to |docs|
      invariant forall event :: Lookup(out, event) == TargetsOf(docs[..i], event)
    {
      out := AddDocEvents(out, docs[i]);
      assert docs[..i + 1][..i] == docs[..i];
    }
    assert docs[..|docs|] == docs;
  }

  /** Every zone an event rewrites is required of its document, with a kind that is not manual. */
  ghost predicate DocSparesManual(d: CanonicalDoc) {
    forall e, z :: e in d.events && z in e.1 ==> (z, Auto) in d.required || (z, Hybrid) in d.required
  }

  ghost predicate SparesManual(docs: seq<CanonicalDoc>) { forall d :: d in docs ==> DocSparesManual(d) }

  ghost predicate DistinctDocs(docs: seq<CanonicalDoc>) {
    forall i, j :: 0 <= i < j < |docs| ==> docs[i].id != docs[j].id && docs[i].path != docs[j].path
  }

  /** The registry of the program spares manual zones, and its documents are distinct files. */
  lemma DocsSpareManual()
    ensures SparesManual(DOCS) && DistinctDocs(DOCS)
  {
    forall d | d in DOCS ensures DocSparesManual(d) {
      PrdSparesManual();
      SpecSparesManual();
      MarketSparesManual();
    }
    assert |APP_PRD.id| == 7 && |APP_SPEC.id| == 8 && |APP_MARKET.id| == 10;
    assert |APP_PRD.path| == 18 && |APP_SPEC.path| == 19 && |APP_MARKET.path| == 21;
  }

  lemma PrdSparesManual()
    ensures DocSparesManual(APP_PRD)
  {
  }

  lemma SpecSparesManual()
    ensures DocSparesManual(APP_SPEC)
  {
  }

  lemma MarketSparesManual()
    ensures DocSparesManual(APP_MARKET)
  {
  }
}
