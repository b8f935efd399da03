/** What an event achieves (server/app_docs/sync.py:262-352): why a target is skipped, and what the zone of a target
    holds when the event has been handled. */
module SyncEffect {
  import Text
  import opened Wrappers
  import opened Zones
  import opened Registry
  import opened Signature
  import opened Sync

  /** The first document with an id. */
  ghost predicate IsDoc(docs: seq<CanonicalDoc>, id: string, doc: CanonicalDoc) {
    exists i :: 0 <= i < |docs| && docs[i] == doc && doc.id == id && forall k :: 0 <= k < i ==> docs[k].id != id
  }

  lemma {:induction false} DocIsFirst(docs: seq<CanonicalDoc>, id: string)
    ensures GetDoc(docs, id).Some? ==> IsDoc(docs, id, GetDoc(docs, id).value)
  {
    if docs != [] && docs[0].id != id && GetDoc(docs[1..], id).Some? {
      DocIsFirst(docs[1..], id);
      var doc := GetDoc(docs, id).value;
      var i :| 0 <= i < |docs[1..]| && docs[1..][i] == doc && forall k :: 0 <= k < i ==> docs[1..][k].id != id;
      assert docs[i + 1] == doc;
      forall k | 0 <= k < i + 1 ensures docs[k].id != id { if k > 0 { assert docs[k] == docs[1..][k - 1]; } }
    } else if docs != [] && docs[0].id == id {
      assert docs[0] == GetDoc(docs, id).value;
    }
  }

  lemma DocOnce(docs: seq<CanonicalDoc>, id: string, a: CanonicalDoc, b: CanonicalDoc)
    requires IsDoc(docs, id, a) && IsDoc(docs, id, b)
    ensures a == b
  {
  }

  /** Zone `i` is the first of the text with that id. */
  ghost predicate IsZone(mark: Marker, content: string, id: string, i: nat) {
    var zones := Parse(mark, content).zones;
    i < |zones| && zones[i].id == id && forall k :: 0 <= k < i ==> zones[k].id != id
  }

  /** The zone holds just these lines. */
  ghost predicate HoldsLines(mark: Marker, content: string, id: string, lines: seq<string>) {
    exists i: nat :: IsZone(mark, content, id, i) && RegionAt(mark, content, i) == lines
  }

  ghost predicate HasNoZone(mark: Marker, content: string, id: string) {
    forall z :: z in Parse(mark, content).zones ==> z.id != id
  }

  /** Why a zone of a document is left alone, or that it was written. */
  ghost predicate Explains(env: Env, files: Files, doc: CanonicalDoc, id: string, outcome: Outcome) {
    match outcome
    case UnknownDoc => false
    case NotPresent => doc.path !in files
    case NoRenderer => doc.path in files && env.render(id).None?
    case ZoneMissing => doc.path in files && env.render(id).Some? && HasNoZone(env.mark, files[doc.path], id)
    case NoChange =>
      && doc.path in files && env.render(id).Some?
      && HoldsLines(env.mark, files[doc.path], id, Text.Lines(env.render(id).value))
    case Touched =>
      && doc.path in files && env.render(id).Some? && !HasNoZone(env.mark, files[doc.path], id)
      && !HoldsLines(env.mark, files[doc.path], id, Text.Lines(env.render(id).value))
  }

  lemma ZoneOnce(mark: Marker, content: string, id: string, lines: seq<string>)
    ensures var at := FindZone(Parse(mark, content).zones, id);
      if at.None? then HasNoZone(mark, content, id)
      else
        && !HasNoZone(mark, content, id)
        && (HoldsLines(mark, content, id, lines) <==> RegionAt(mark, content, at.value) == lines)
  {
    hide ParseLines;
    var at := FindZone(Parse(mark, content).zones, id);
    if at.Some? { assert IsZone(mark, content, id, at.value); }
  }

  lemma ReplaceOutcome(mark: Marker, content: string, id: string, body: string)
    ensures Replace(mark, content, id, body).Err? <==> HasNoZone(mark, content, id)
    ensures Replace(mark, content, id, body).Ok? ==>
      (Replace(mark, content, id, body).value == content <==> HoldsLines(mark, content, id, Text.Lines(body)))
  {
    hide Replace;
    hide ParseLines;
    ZoneOnce(mark, content, id, Text.Lines(body));
    if FindZone(Parse(mark, content).zones, id).Some? {
      ReplaceNoOp(mark, content, id, body);
    } else {
      ReplaceSplices(mark, content, id, body);
    }
  }

  lemma SpliceOutcome(env: Env, files: Files, t: Target, doc: CanonicalDoc)
    requires GetDoc(env.docs, t.0) == Some(doc) && doc.path in files && env.render(t.1).Some?
    ensures Explains(env, files, doc, t.1, SyncOne(env, files, t).1)
  {
    var content, body := files[doc.path], env.render(t.1).value;
    ReplaceOutcome(env.mark, content, t.1, body);
    hide HoldsLines;
    hide HasNoZone;
    hide Replace;
  }

  /** The outcome of a target is the one that explains it. */
  lemma OutcomeExact(env: Env, files: Files, t: Target)
    ensures var outcome := SyncOne(env, files, t).1;
      if forall d :: d in env.docs ==> d.id != t.0 then outcome == UnknownDoc
      else exists doc :: IsDoc(env.docs, t.0, doc) && Explains(env, files, doc, t.1, outcome)
  {
    DocIsFirst(env.docs, t.0);
    hide IsDoc;
    match GetDoc(env.docs, t.0)
    case None =>
    case Some(doc) =>
      if doc.path in files && env.render(t.1).Some? {
        SpliceOutcome(env, files, t, doc);
      }
      hide Replace;
      assert IsDoc(env.docs, t.0, doc) && Explains(env, files, doc, t.1, SyncOne(env, files, t).1);
  }

  /** After an event every target whose document is there, whose payload renders and whose zone exists holds exactly
      the rendered lines. */
  lemma SyncDelivers(env: Env, files: Files, targets: seq<Target>, k: nat, doc: CanonicalDoc, i: nat)
    requires RendersPlain(env) && k < |targets| && IsDoc(env.docs, targets[k].0, doc) && doc.path in files
    requires env.render(targets[k].1).Some? && IsZone(env.mark, files[doc.path], targets[k].1, i)
    ensures doc.path in SyncAll(env, files, targets)
    ensures var after := SyncAll(env, files, targets)[doc.path];
      && IsZone(env.mark, after, targets[k].1, i)
      && RegionAt(env.mark, after, i) == Text.Lines(env.render(targets[k].1).value)
  {
    var t, after := targets[k], SyncAll(env, files, targets);
    AllQuietAfter(env, files, targets);
    assert Quiet(env, after, t);
    SyncTouchesMappedOnly(env, files, targets, doc.path);
    QuietMeans(env, after, t);
    DocIsFirst(env.docs, t.0);
    DocOnce(env.docs, t.0, doc, GetDoc(env.docs, t.0).value);
    FoundWhereItWas(env.mark, files[doc.path], after[doc.path], MappedIds(env.docs, targets, doc.path), t.1, i);
    ReplaceNoOp(env.mark, after[doc.path], t.1, env.render(t.1).value);
  }

  lemma FoundWhereItWas(mark: Marker, a: string, b: string, ids: set<string>, id: string, i: nat)
    requires Retouched(mark, a, b, ids) && IsZone(mark, a, id, i)
    ensures IsZone(mark, b, id, i) && FindZone(Parse(mark, b).zones, id) == Some(i)
  {
    var p, q := Parse(mark, a), Parse(mark, b);
    SameIds(p, q, ids);
    hide *;
    FirstStays(p.zones, q.zones, id, i);
  }

  lemma FirstStays(a: seq<Zone>, b: seq<Zone>, id: string, i: nat)
    requires |a| == |b| && forall k :: 0 <= k < |a| ==> b[k].id == a[k].id
    requires i < |a| && a[i].id == id && forall k :: 0 <= k < i ==> a[k].id != id
    ensures b[i].id == id && (forall k :: 0 <= k < i ==> b[k].id != id) && FindZone(b, id) == Some(i)
  {
  }

  lemma SameIds(p: ParsedDoc, q: ParsedDoc, ids: set<string>)
    requires RetouchedDoc(p, q, ids)
    ensures |q.zones| == |p.zones| && forall k :: 0 <= k < |p.zones| ==> q.zones[k].id == p.zones[k].id
  {
    forall k | 0 <= k < |p.zones| ensures q.zones[k].id == p.zones[k].id {
      assert SameZone(p.zones[k], q.zones[k], p.zones[k].id in ids);
    }
  }

  // ── The lock file ────────────────────────────────────────────────

  /** After recording, the lock has an entry exactly for the eligible documents that are there and well formed, or
      malformed but recorded before: the digest of their zones as they are, or the one they had. */
  lemma RecordingExact(env: Env, eligible: seq<CanonicalDoc>, files: Files, before: Lock, id: string)
    ensures var entry := Recorded(env, eligible, files, before, id);
      && (forall doc :: doc in eligible ==> doc.id != id) ==> entry == None
    ensures forall doc :: IsDoc(eligible, id, doc) ==>
      var entry := Recorded(env, eligible, files, before, id);
      && (doc.path !in files ==> entry == None)
      && (doc.path in files && Parse(env.mark, files[doc.path]).faults == [] ==>
            entry == Some(env.hash(PreHash(Parse(env.mark, files[doc.path]).zones))))
      && (doc.path in files && Parse(env.mark, files[doc.path]).faults != [] ==>
            (entry == None <==> id !in before) && (id in before ==> entry == Some(before[id])))
  {
    DocIsFirst(eligible, id);
    forall doc | IsDoc(eligible, id, doc) ensures GetDoc(eligible, id) == Some(doc) {
      DocOnce(eligible, id, doc, GetDoc(eligible, id).value);
    }
  }

  /** A document is an untouched template when the manual zones have one status among them, that of a template: not when
      it has no manual zone. */
  lemma PristineExact(zones: seq<Zone>)
    ensures Pristine(zones) <==> (set z | z in zones && z.kind.Manual? :: z.status) == {Some("template-pristine")}
  {
    var statuses := set z | z in zones && z.kind.Manual? :: z.status;
    if Pristine(zones) {
      var k :| 0 <= k < |zones| && zones[k].kind == Manual;
      assert zones[k] in zones && zones[k].status in statuses;
    } else if statuses == {Some("template-pristine")} {
      var z :| z in zones && z.kind.Manual? && z.status in statuses;
      forall k | 0 <= k < |zones| && zones[k].kind == Manual ensures zones[k].status == Some("template-pristine") {
        assert zones[k].status in statuses;
      }
    }
  }
}
