/** The report of a scrub (server/registry_hygiene.py:70-137): its numbers count places of the document, and what
    counts as a local path. */
module HygieneCounts {
  import opened Strings
  import opened Wrappers
  import opened RegistryHygiene

  /** A place of a document: the way to it, and what is there. */
  datatype Place = Place(path: seq<Hop>, node: Json)

  function Below(hop: Hop, places: seq<Place>): seq<Place> {
    if places == [] then []
    else
      var last := places[|places| - 1];
      Below(hop, places[..|places| - 1]) + [Place([hop] + last.path, last.node)]
  }

  /** Every place of a document, the document itself first. */
  function Places(node: Json): seq<Place>
    decreases node
  {
    [Place([], node)]
    + (if node.Dict? then FieldPlaces(node.fields) else if node.List? then ItemPlaces(node.items) else [])
  }

  function FieldPlaces(fields: seq<Field>): seq<Place>
    decreases fields
  {
    if fields == [] then []
    else
      var last := fields[|fields| - 1];
      FieldPlaces(fields[..|fields| - 1]) + Below(Key(last.key), Places(last.value))
  }

  function ItemPlaces(items: seq<Json>): seq<Place>
    decreases items
  {
    if items == [] then []
    else
      var n := |items| - 1;
      ItemPlaces(items[..n]) + Below(Index(n), Places(items[n]))
  }

  /** A sensitive key that no other sensitive key is above of. */
  predicate RemovedAt(p: Place) {
    var n := |p.path|;
    n > 0 && p.path[n - 1].Key? && p.path[n - 1].k in SENSITIVE && Innocent(p.path[..n - 1])
  }

  /** A local path that no sensitive key is above of. */
  predicate BlankedAt(p: Place) { Innocent(p.path) && LooksLikeLocalPath(p.node) }

  function Count(p: Place -> bool, places: seq<Place>): nat {
    if places == [] then 0
    else Count(p, places[..|places| - 1]) + if p(places[|places| - 1]) then 1 else 0
  }

  function Tally(places: seq<Place>): Counts {
    Counts(Count(p => RemovedAt(p), places), Count(p => BlankedAt(p), places))
  }

  lemma {:induction false} CountConcat(p: Place -> bool, a: seq<Place>, b: seq<Place>)
    ensures Count(p, a + b) == Count(p, a) + Count(p, b)
  {
    if b == [] {
      assert a + b == a;
    } else {
      assert (a + b)[..|a + b| - 1] == a + b[..|b| - 1];
      CountConcat(p, a, b[..|b| - 1]);
    }
  }

  lemma TallyConcat(a: seq<Place>, b: seq<Place>)
    ensures Tally(a + b) == Plus(Tally(a), Tally(b))
  {
    CountConcat(p => RemovedAt(p), a, b);
    CountConcat(p => BlankedAt(p), a, b);
  }

  predicate IsSensitive(hop: Hop) { hop.Key? && hop.k in SENSITIVE }

  lemma InnocentBelow(hop: Hop, path: seq<Hop>)
    ensures Innocent([hop] + path) <==> !IsSensitive(hop) && Innocent(path)
  {
    InnocentFrom([hop] + path);
    assert ([hop] + path)[1..] == path;
  }

  lemma PlaceBelow(hop: Hop, p: Place)
    ensures var q := Place([hop] + p.path, p.node);
      && BlankedAt(q) == (!IsSensitive(hop) && BlankedAt(p))
      && RemovedAt(q) == if p.path == [] then IsSensitive(hop) else !IsSensitive(hop) && RemovedAt(p)
  {
    InnocentBelow(hop, p.path);
    if p.path == [] {
      assert ([hop] + p.path)[..0] == [];
    } else {
      var n := |p.path| - 1;
      assert ([hop] + p.path)[..n + 1] == [hop] + p.path[..n];
      InnocentBelow(hop, p.path[..n]);
    }
  }

  /** The places below an innocent hop count as they did; of those below a sensitive one only the first does. */
  lemma {:induction false} TallyBelow(hop: Hop, places: seq<Place>)
    requires places != [] && places[0].path == [] && forall i :: 0 < i < |places| ==> places[i].path != []
    ensures Tally(Below(hop, places)) == if IsSensitive(hop) then Counts(1, 0) else Tally(places)
  {
    var n := |places| - 1;
    var front, last := places[..n], places[n];
    var below := Below(hop, front);
    PlaceBelow(hop, last);
    assert (below + [Place([hop] + last.path, last.node)])[..|below|] == below;
    if n > 0 {
      TallyBelow(hop, front);
    } else {
      assert below == [] && below + [Place([hop] + last.path, last.node)] == [Place([hop] + last.path, last.node)];
      TallyOne(Place([hop] + last.path, last.node));
      TallyOne(last);
      assert places == [last];
    }
  }

  lemma {:induction false} DeeperPaths(hop: Hop, places: seq<Place>)
    ensures |Below(hop, places)| == |places| && forall p :: p in Below(hop, places) ==> p.path != []
  {
    if places != [] { DeeperPaths(hop, places[..|places| - 1]); }
  }

  lemma {:induction false} FieldsDeeper(fields: seq<Field>)
    ensures forall p :: p in FieldPlaces(fields) ==> p.path != []
  {
    if fields != [] {
      FieldsDeeper(fields[..|fields| - 1]);
      DeeperPaths(Key(fields[|fields| - 1].key), Places(fields[|fields| - 1].value));
    }
  }

  lemma {:induction false} ItemsDeeper(items: seq<Json>)
    ensures forall p :: p in ItemPlaces(items) ==> p.path != []
  {
    if items != [] {
      ItemsDeeper(items[..|items| - 1]);
      DeeperPaths(Index(|items| - 1), Places(items[|items| - 1]));
    }
  }

  lemma RootFirst(node: Json)
    ensures var places := Places(node);
      places != [] && places[0] == Place([], node) && forall i :: 0 < i < |places| ==> places[i].path != []
  {
    var rest := Places(node)[1..];
    if node.Dict? { FieldsDeeper(node.fields); } else if node.List? { ItemsDeeper(node.items); }
    assert forall i :: 0 < i < |Places(node)| ==> Places(node)[i] == rest[i - 1] && rest[i - 1] in rest;
  }

  lemma CountOne(p: Place -> bool, x: Place)
    ensures Count(p, [x]) == if p(x) then 1 else 0
  {
    assert [x][..0] == [];
  }

  lemma TallyOne(p: Place)
    ensures Tally([p]) == Counts(if RemovedAt(p) then 1 else 0, if BlankedAt(p) then 1 else 0)
    ensures Tally([]) == NOTHING
  {
    CountOne(p => RemovedAt(p), p);
    CountOne(p => BlankedAt(p), p);
  }

  /** The report of a scrub counts the sensitive keys and the local paths of the document, but for those under a
      sensitive key, which go with it. */
  lemma {:induction false} ReportExact(node: Json)
    ensures Scrub(node).1 == Tally(Places(node))
    decreases node
  {
    var root := Place([], node);
    TallyOne(root);
    assert Innocent([]);
    if node.Dict? {
      FieldsReport(node.fields);
      TallyConcat([root], FieldPlaces(node.fields));
    } else if node.List? {
      ItemsReport(node.items);
      TallyConcat([root], ItemPlaces(node.items));
    } else {
      assert [root] + [] == [root];
    }
  }

  lemma {:induction false} FieldsReport(fields: seq<Field>)
    ensures ScrubFields(fields).1 == Tally(FieldPlaces(fields))
    decreases fields
  {
    TallyOne(Place([], Null));
    if fields != [] {
      var front, last := fields[..|fields| - 1], fields[|fields| - 1];
      FieldsReport(front);
      ReportExact(last.value);
      RootFirst(last.value);
      TallyBelow(Key(last.key), Places(last.value));
      TallyConcat(FieldPlaces(front), Below(Key(last.key), Places(last.value)));
    }
  }

  lemma {:induction false} ItemsReport(items: seq<Json>)
    ensures ScrubItems(items).1 == Tally(ItemPlaces(items))
    decreases items
  {
    TallyOne(Place([], Null));
    if items != [] {
      var n := |items| - 1;
      ItemsReport(items[..n]);
      ReportExact(items[n]);
      RootFirst(items[n]);
      TallyBelow(Index(n), Places(items[n]));
      TallyConcat(ItemPlaces(items[..n]), Below(Index(n), Places(items[n])));
    }
  }

  function Values(entries: seq<Field>): seq<Json> {
    if entries == [] then [] else Values(entries[..|entries| - 1]) + [entries[|entries| - 1].value]
  }

  lemma {:induction false} EntriesReport(entries: seq<Field>)
    ensures ScrubEntries(entries).1 == Totals(|entries|, ScrubItems(Values(entries)).1)
  {
    if entries != [] {
      var front, all := Values(entries[..|entries| - 1]), Values(entries);
      EntriesReport(entries[..|entries| - 1]);
      assert all[..|all| - 1] == front;
      hide Scrub;
    }
  }

  /** The projects of a registry, whichever form they have. */
  function Projects(registry: Json): Option<seq<Json>> {
    if !registry.Dict? then None
    else
      match Lookup(registry.fields, "projects")
      case Some(Dict(entries)) => Some(Values(entries))
      case Some(List(items)) => Some(items)
      case _ => None
  }

  /** The totals are the number of projects and what there is to remove and to blank in them, also under a project
      whose name is a sensitive key; a registry without projects stays as it is. */
  lemma RegistryReport(registry: Json)
    ensures match Projects(registry)
      case None => ScrubRegistry(registry) == (registry, Totals(0, NOTHING))
      case Some(items) => ScrubRegistry(registry).1 == Totals(|items|, Tally(ItemPlaces(items)))
  {
    if Projects(registry).Some? {
      var items := Projects(registry).value;
      ItemsReport(items);
      if Lookup(registry.fields, "projects").value.Dict? {
        var entries := Lookup(registry.fields, "projects").value.fields;
        EntriesReport(entries);
        ValuesSize(entries);
      }
    }
  }

  lemma {:induction false} ValuesSize(entries: seq<Field>)
    ensures |Values(entries)| == |entries|
  {
    if entries != [] { ValuesSize(entries[..|entries| - 1]); }
  }

  // ── Local paths ──────────────────────────────────────────────────

  /** The text is an absolute root, or goes on below it. */
  predicate UnderRoot(s: string, root: string) { s == "/" + root || "/" + root + "/" <= s }

  lemma RootsAreWords(root: string)
    requires root in ROOTS
    ensures '/' !in root
  {
  }

  lemma SegmentIsRoot(s: string, root: string)
    requires s != "" && s[0] == '/' && FirstSegment(s[1..]) == root
    ensures UnderRoot(s, root)
  {
    var rest := s[1..];
    assert s == "/" + rest;
    IndexOfSlash(rest);
    var k := IndexOf(rest, '/');
    assert rest == root + rest[k..];
    if k < |rest| { assert s == "/" + root + "/" + rest[k + 1..]; }
  }

  lemma RootIsSegment(s: string, root: string)
    requires '/' !in root && UnderRoot(s, root)
    ensures s != "" && s[0] == '/' && FirstSegment(s[1..]) == root
  {
    var rest := s[1..];
    IndexOfSlash(rest);
    if s == "/" + root {
      assert rest == root;
    } else {
      assert "/" + root + "/" <= s;
      assert rest[..|root|] == root && rest[|root|] == '/';
    }
  }

  lemma SegmentOfRoot(s: string, root: string)
    requires root in ROOTS && s != "" && s[0] == '/'
    ensures UnderRoot(s, root) <==> FirstSegment(s[1..]) == root
  {
    RootsAreWords(root);
    if UnderRoot(s, root) { RootIsSegment(s, root); }
    if FirstSegment(s[1..]) == root { SegmentIsRoot(s, root); }
    hide *;
  }

  lemma {:induction false} IndexOfSlash(s: string)
    ensures var k := IndexOf(s, '/');
      k <= |s| && '/' !in s[..k] && (k < |s| ==> s[k] == '/')
  {
    if s != "" && s[0] != '/' {
      IndexOfSlash(s[1..]);
      var k := IndexOf(s[1..], '/');
      assert s[..k + 1] == [s[0]] + s[1..][..k];
    }
  }

  /** What looks like a local path: a drive, a network share, or one of the absolute roots and what lies below it. */
  lemma LocalPathExact(s: string)
    ensures IsPathText(s) <==>
      || (exists c :: IsLetter(c) && ([c, ':', '/'] <= s || [c, ':', '\\'] <= s))
      || "\\\\" <= s
      || exists root :: root in ROOTS && UnderRoot(s, root)
  {
    forall root | root in ROOTS && s != "" && s[0] == '/' { SegmentOfRoot(s, root); }
  }

  /** A name with a scheme of two letters or more is none. */
  lemma SchemeIsNoPath(scheme: string, rest: string)
    requires |scheme| >= 2 && forall i :: 0 <= i < |scheme| ==> IsLetter(scheme[i])
    ensures !IsPathText(scheme + rest)
  {
    var s := scheme + rest;
    assert IsLetter(s[0]) && IsLetter(s[1]);
  }

  // ── Owners ───────────────────────────────────────────────────────

  /** The entry is a dict that names nobody as its owner. */
  predicate NobodyOwns(entry: Json) {
    && entry.Dict?
    && Lookup(entry.fields, "registered_by") in
      {None, Some(Null), Some(Bool(false)), Some(Number(0)), Some(Str("")), Some(List([])), Some(Dict([]))}
  }

  /** `now` is `was` with this owner, or without one, and nothing else changed. */
  ghost predicate OwnerSet(was: Json, now: Json, owner: Option<Json>) {
    && was.Dict? && now.Dict? && Lookup(now.fields, "registered_by") == owner
    && forall k :: k != "registered_by" ==> Lookup(now.fields, k) == Lookup(was.fields, k)
  }

  lemma StampSets(entry: Json, dev: string)
    requires entry.Dict?
    ensures OwnerSet(entry, Stamped(entry, dev), Some(Str(dev)))
  {
    forall k ensures Lookup(SetField(entry.fields, REGISTERED_BY, Str(dev)), k)
      == if k == REGISTERED_BY then Some(Str(dev)) else Lookup(entry.fields, k)
    {
      SetFieldFound(entry.fields, REGISTERED_BY, Str(dev), k);
    }
  }

  lemma {:induction false} DropKeeps(fields: seq<Field>, k: string, other: string)
    ensures Lookup(DropField(fields, k), other) == if other == k then None else Lookup(fields, other)
  {
    if fields != [] {
      var n := |fields| - 1;
      DropKeeps(fields[..n], k, other);
      var front := DropField(fields[..n], k);
      if fields[n].key == k { assert front + [] == front; } else { assert (front + [fields[n]])[..|front|] == front; }
    }
  }

  lemma ReleaseSets(entry: Json)
    requires entry.Dict?
    ensures OwnerSet(entry, Released(entry), None)
  {
    forall k ensures Lookup(DropField(entry.fields, REGISTERED_BY), k)
      == if k == REGISTERED_BY then None else Lookup(entry.fields, k)
    {
      DropKeeps(entry.fields, REGISTERED_BY, k);
    }
  }

  lemma NobodySame(entry: Json)
    ensures NobodyOwns(entry) <==> Unowned(entry)
  {
    if HasOwnerField(entry) {
      var owner := Lookup(entry.fields, REGISTERED_BY).value;
      assert !Truthy(owner) <==> owner in {Null, Bool(false), Number(0), Str(""), List([]), Dict([])};
    }
  }

  /** A claim stamps just the wanted entries nobody owns, and of those nothing but the owner. */
  lemma ClaimExact(projects: map<string, Json>, dev: string, names: Option<set<string>>, name: string)
    requires name in projects
    ensures var which := ToClaim(projects, names);
      var wanted := names.None? || name in names.value;
      && (name in which <==> wanted && NobodyOwns(projects[name]))
      && which <= projects.Keys == Claimed(projects, dev, which).Keys
      && if name in which then OwnerSet(projects[name], Claimed(projects, dev, which)[name], Some(Str(dev)))
         else Claimed(projects, dev, which)[name] == projects[name]
  {
    NobodySame(projects[name]);
    if name in ToClaim(projects, names) { StampSets(projects[name], dev); }
    hide NobodyOwns;
    hide Unowned;
    hide OwnerSet;
  }

  /** Unclaiming releases just the named entries the developer owns, and takes nothing but the owner from them. */
  lemma UnclaimExact(projects: map<string, Json>, dev: string, names: set<string>, name: string)
    requires name in projects
    ensures var owned := projects[name].Dict? && Lookup(projects[name].fields, "registered_by") == Some(Str(dev));
      var after := Unclaimed(projects, dev, names);
      && (name in ToRelease(projects, dev, names) <==> name in names && owned)
      && after.Keys == projects.Keys
      && if name in names && owned then OwnerSet(projects[name], after[name], None) else after[name] == projects[name]
  {
    if projects[name].Dict? { ReleaseSets(projects[name]); }
    hide OwnerSet;
  }
}
