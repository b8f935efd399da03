/** The event map of the canonical documents (server/app_docs/registry.py:194-208): which targets an event has, and in
    which order. */
module RegistryTargets {
  import opened Registry

  /** A place in the tables of the registry: a zone listed by an entry of a document. */
  datatype Place = Place(doc: nat, entry: nat, zone: nat)

  predicate Precedes(a: Place, b: Place) {
    a.doc < b.doc || (a.doc == b.doc && (a.entry < b.entry || (a.entry == b.entry && a.zone < b.zone)))
  }

  /** The place lists a zone for the event. */
  predicate Lists(docs: seq<CanonicalDoc>, event: string, p: Place) {
    && p.doc < |docs| && p.entry < |docs[p.doc].events|
    && docs[p.doc].events[p.entry].0 == event && p.zone < |docs[p.doc].events[p.entry].1|
  }

  function ZoneAt(docs: seq<CanonicalDoc>, event: string, p: Place): Target
    requires Lists(docs, event, p)
  {
    (docs[p.doc].id, docs[p.doc].events[p.entry].1[p.zone])
  }

  /** The first `d` documents, of the next one the first `j` entries. */
  predicate Within(p: Place, d: nat, j: nat) { p.doc < d || (p.doc == d && p.entry < j) }

  ghost predicate Told(docs: seq<CanonicalDoc>, event: string, d: nat, j: nat, places: seq<Place>, found: seq<Target>) {
    && |places| == |found|
    && (forall p :: p in places <==> Lists(docs, event, p) && Within(p, d, j))
    && (forall i, k :: 0 <= i < k < |places| ==> Precedes(places[i], places[k]))
    && (forall k :: 0 <= k < |places| && Lists(docs, event, places[k]) ==> found[k] == ZoneAt(docs, event, places[k]))
  }

  lemma SkipEntry(docs: seq<CanonicalDoc>, event: string, d: nat, j: nat, places: seq<Place>, found: seq<Target>)
    requires d < |docs| && j < |docs[d].events| && docs[d].events[j].0 != event
    requires Told(docs, event, d, j, places, found)
    ensures Told(docs, event, d, j + 1, places, found)
  {
  }

  lemma AddEntry(docs: seq<CanonicalDoc>, event: string, d: nat, j: nat, places: seq<Place>, found: seq<Target>)
    returns (all: seq<Place>)
    requires d < |docs| && j < |docs[d].events| && docs[d].events[j].0 == event
    requires Told(docs, event, d, j, places, found)
    ensures Told(docs, event, d, j + 1, all, found + Named(docs[d].id, docs[d].events[j].1))
  {
    var zones := docs[d].events[j].1;
    var more := seq(|zones|, k requires 0 <= k < |zones| => Place(d, j, k));
    all := places + more;
    forall p ensures p in all <==> Lists(docs, event, p) && Within(p, d, j + 1) {
      if p.doc == d && p.entry == j && p.zone < |zones| { assert more[p.zone] == p; }
    }
    forall i, k | 0 <= i < k < |all| ensures Precedes(all[i], all[k]) {
      if i < |places| { assert all[i] in places; }
    }
  }

  lemma NextDoc(docs: seq<CanonicalDoc>, event: string, d: nat, places: seq<Place>, found: seq<Target>)
    requires d < |docs| && Told(docs, event, d, |docs[d].events|, places, found)
    ensures Told(docs, event, d + 1, 0, places, found)
  {
  }

  lemma {:induction false} EntriesTold(
    docs: seq<CanonicalDoc>, event: string, d: nat, j: nat, before: seq<Place>) returns (places: seq<Place>)
    requires d < |docs| && j <= |docs[d].events| && Told(docs, event, d, 0, before, TargetsOf(docs[..d], event))
    ensures Told(docs, event, d, j, places,
                 TargetsOf(docs[..d], event) + DocTargets(docs[d].id, docs[d].events[..j], event))
  {
    hide Told;
    var start, doc := TargetsOf(docs[..d], event), docs[d];
    if j == 0 {
      places := before;
      assert start + [] == start;
    } else {
      places := EntriesTold(docs, event, d, j - 1, before);
      DocTargetsMore(doc.id, doc.events, j - 1, event);
      var found := start + DocTargets(doc.id, doc.events[..j - 1], event);
      if doc.events[j - 1].0 == event {
        places := AddEntry(docs, event, d, j - 1, places, found);
        Grouped(start, DocTargets(doc.id, doc.events[..j - 1], event), Named(doc.id, doc.events[j - 1].1));
      } else {
        SkipEntry(docs, event, d, j - 1, places, found);
        Grouped(start, DocTargets(doc.id, doc.events[..j - 1], event), []);
        assert found + [] == found;
      }
    }
  }

  lemma {:induction false} DocsTold(docs: seq<CanonicalDoc>, event: string, d: nat) returns (places: seq<Place>)
    requires d <= |docs|
    ensures Told(docs, event, d, 0, places, TargetsOf(docs[..d], event))
  {
    if d == 0 {
      places := [];
    } else {
      places := DocsTold(docs, event, d - 1);
      var doc := docs[d - 1];
      places := EntriesTold(docs, event, d - 1, |doc.events|, places);
      assert doc.events[..|doc.events|] == doc.events;
      assert docs[..d][..d - 1] == docs[..d - 1] && docs[..d][d - 1] == doc;
      NextDoc(docs, event, d - 1, places, TargetsOf(docs[..d], event));
    }
  }

  /** The targets of an event are the zones the tables list for it, all of them, in the order of the tables. */
  lemma TargetsExact(docs: seq<CanonicalDoc>, event: string) returns (places: seq<Place>)
    ensures forall p :: p in places <==> Lists(docs, event, p)
    ensures forall i, k :: 0 <= i < k < |places| ==> Precedes(places[i], places[k])
    ensures |TargetsOf(docs, event)| == |places|
    ensures forall k :: 0 <= k < |places| && Lists(docs, event, places[k]) ==>
      TargetsOf(docs, event)[k] == ZoneAt(docs, event, places[k])
  {
    places := DocsTold(docs, event, |docs|);
    assert docs[..|docs|] == docs;
  }
}
