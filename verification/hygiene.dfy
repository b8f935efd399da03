/** Registry hygiene (server/registry_hygiene.py): scrubbing sensitive fields and local paths out of JSON
    documents, and attributing entries to developers. */
module RegistryHygiene {
  import opened Strings
  import opened Wrappers

  datatype Json =
    | Null
    | Bool(b: bool)
    | Number(n: int)
    | Str(s: string)
    | List(items: seq<Json>)
    | Dict(fields: seq<Field>)

  datatype Field = Field(key: string, value: Json)

  /** SENSITIVE_REGISTRY_FIELDS */
  const SENSITIVE := {
    "description", "path", "local_path", "project_path", "freeform_root_absolute", "root_path", "developer"}

  /** The absolute roots of _LOCAL_PATH_RE. */
  const ROOTS := {
    "Users", "home", "root", "data", "app", "opt", "var", "tmp", "mnt", "srv", "private", "Volumes"}

  /** The text up to the next slash. */
  function FirstSegment(s: string): string { s[..IndexOf(s, '/')] }

  predicate IsPathText(s: string) {
    || (|s| >= 3 && IsLetter(s[0]) && s[1] == ':' && s[2] in {'\\', '/'})
    || (|s| >= 2 && s[0] == '\\' && s[1] == '\\')
    || (|s| >= 1 && s[0] == '/' && FirstSegment(s[1..]) in ROOTS)
  }

  /** `looks_like_local_path` */
  predicate LooksLikeLocalPath(node: Json) { node.Str? && IsPathText(Strip(node.s)) }

  /** The report of a scrub. */
  datatype Counts = Counts(removed: nat, blanked: nat)

  function Plus(a: Counts, b: Counts): Counts { Counts(a.removed + b.removed, a.blanked + b.blanked) }

  const NOTHING := Counts(0, 0)

  /** `scrub_entry` */
  function Scrub(node: Json): (Json, Counts)
    decreases node
  {
    if node.Dict? then
      var (fields, counts) := ScrubFields(node.fields);
      (Dict(fields), counts)
    else if node.List? then
      var (items, counts) := ScrubItems(node.items);
      (List(items), counts)
    else if LooksLikeLocalPath(node) then (Str(""), Counts(0, 1))
    else (node, NOTHING)
  }

  function ScrubFields(fields: seq<Field>): (seq<Field>, Counts)
    decreases fields
  {
    if fields == [] then ([], NOTHING)
    else
      var last := fields[|fields| - 1];
      var (front, counts) := ScrubFields(fields[..|fields| - 1]);
      if last.key in SENSITIVE then (front, Plus(counts, Counts(1, 0)))
      else
        var (value, more) := Scrub(last.value);
        (front + [Field(last.key, value)], Plus(counts, more))
  }

  function ScrubItems(items: seq<Json>): (seq<Json>, Counts)
    decreases items
  {
    if items == [] then ([], NOTHING)
    else
      var (front, counts) := ScrubItems(items[..|items| - 1]);
      var (value, more) := Scrub(items[|items| - 1]);
      (front + [value], Plus(counts, more))
  }

  // ── A scrubbed document is clean ─────────────────────────────────

  /** No sensitive key and no local path at any depth. */
  predicate Clean(node: Json)
    decreases node
  {
    match node
    case Dict(fields) => CleanFields(fields)
    case List(items) => CleanItems(items)
    case _ => !LooksLikeLocalPath(node)
  }

  predicate CleanFields(fields: seq<Field>)
    decreases fields
  {
    fields == []
    || (CleanFields(fields[..|fields| - 1])
        && fields[|fields| - 1].key !in SENSITIVE && Clean(fields[|fields| - 1].value))
  }

  predicate CleanItems(items: seq<Json>)
    decreases items
  {
    items == [] || (CleanItems(items[..|items| - 1]) && Clean(items[|items| - 1]))
  }

  lemma {:induction false} ScrubCleans(node: Json)
    ensures Clean(Scrub(node).0)
    decreases node
  {
    if node.Dict? { FieldsClean(node.fields); }
    else if node.List? { ItemsClean(node.items); }
  }

  lemma {:induction false} FieldsClean(fields: seq<Field>)
    ensures CleanFields(ScrubFields(fields).0)
    decreases fields
  {
    if fields != [] {
      var n := |fields| - 1;
      FieldsClean(fields[..n]);
      ScrubCleans(fields[n].value);
      var front := ScrubFields(fields[..n]).0;
      assert (front + [Field(fields[n].key, Scrub(fields[n].value).0)])[..|front|] == front;
    }
  }

  lemma {:induction false} ItemsClean(items: seq<Json>)
    ensures CleanItems(ScrubItems(items).0)
    decreases items
  {
    if items != [] {
      var n := |items| - 1;
      ItemsClean(items[..n]);
      ScrubCleans(items[n]);
      var front := ScrubItems(items[..n]).0;
      assert (front + [Scrub(items[n]).0])[..|front|] == front;
    }
  }

  /** A scrub counts nothing exactly when the document is clean, and then leaves it as it is. */
  lemma {:induction false} CleanUntouched(node: Json)
    ensures Clean(node) <==> Scrub(node).1 == NOTHING
    ensures Clean(node) ==> Scrub(node).0 == node
    decreases node
  {
    if node.Dict? { FieldsUntouched(node.fields); }
    else if node.List? { ItemsUntouched(node.items); }
  }

  lemma {:induction false} FieldsUntouched(fields: seq<Field>)
    ensures CleanFields(fields) <==> ScrubFields(fields).1 == NOTHING
    ensures CleanFields(fields) ==> ScrubFields(fields).0 == fields
    decreases fields
  {
    if fields != [] {
      var n := |fields| - 1;
      FieldsUntouched(fields[..n]);
      CleanUntouched(fields[n].value);
      assert fields == fields[..n] + [fields[n]];
    }
  }

  lemma ItemsMore(items: seq<Json>)
    requires items != []
    ensures var front, last := items[..|items| - 1], items[|items| - 1];
      (CleanItems(items) <==> CleanItems(front) && Clean(last))
      && ScrubItems(items) == (ScrubItems(front).0 + [Scrub(last).0], Plus(ScrubItems(front).1, Scrub(last).1))
  {
  }

  lemma {:induction false} ItemsUntouched(items: seq<Json>)
    ensures CleanItems(items) <==> ScrubItems(items).1 == NOTHING
    ensures CleanItems(items) ==> ScrubItems(items).0 == items
    decreases items
  {
    if items != [] {
      hide CleanItems;
      hide ScrubItems;
      hide Clean;
      hide Scrub;
      var front, last := items[..|items| - 1], items[|items| - 1];
      ItemsMore(items);
      ItemsUntouched(front);
      CleanUntouched(last);
      assert items == front + [last];
    }
  }

  /** Scrubbing twice is scrubbing once, and the second time there is nothing to count. */
  lemma ScrubTwice(node: Json)
    ensures Scrub(Scrub(node).0) == (Scrub(node).0, NOTHING)
  {
    ScrubCleans(node);
    CleanUntouched(Scrub(node).0);
  }

  // ── Nothing else is lost ─────────────────────────────────────────

  /** A way into a document: a key of a dict or a position in a list. */
  datatype Hop = Key(k: string) | Index(i: nat)

  function Lookup(fields: seq<Field>, k: string): Option<Json> {
    if fields == [] then None
    else if fields[|fields| - 1].key == k then Some(fields[|fields| - 1].value)
    else Lookup(fields[..|fields| - 1], k)
  }

  function Next(node: Json, hop: Hop): Option<Json> {
    if node.Dict? && hop.Key? then Lookup(node.fields, hop.k)
    else if node.List? && hop.Index? && hop.i < |node.items| then Some(node.items[hop.i])
    else None
  }

  function At(node: Json, path: seq<Hop>): Option<Json>
    decreases |path|
  {
    if path == [] then Some(node)
    else
      var next := Next(node, path[0]);
      if next.None? then None else At(next.value, path[1..])
  }

  function Scrubbed(node: Option<Json>): Option<Json> { if node.None? then None else Some(Scrub(node.value).0) }

  lemma {:induction false} LookupScrubbed(fields: seq<Field>, k: string)
    ensures Lookup(ScrubFields(fields).0, k) == if k in SENSITIVE then None else Scrubbed(Lookup(fields, k))
  {
    if fields != [] {
      var n := |fields| - 1;
      LookupScrubbed(fields[..n], k);
      var front := ScrubFields(fields[..n]).0;
      if fields[n].key !in SENSITIVE {
        assert (front + [Field(fields[n].key, Scrub(fields[n].value).0)])[..|front|] == front;
      }
    }
  }

  lemma {:induction false} ItemScrubbed(items: seq<Json>, i: nat)
    ensures |ScrubItems(items).0| == |items|
    ensures i < |items| ==> ScrubItems(items).0[i] == Scrub(items[i]).0
  {
    if items != [] { ItemScrubbed(items[..|items| - 1], i); }
  }

  predicate Innocent(path: seq<Hop>) { forall i :: 0 <= i < |path| && path[i].Key? ==> path[i].k !in SENSITIVE }

  /** What a path that passes no sensitive key leads to is there after the scrub, scrubbed; a path through a
      sensitive key leads nowhere. */
  lemma {:induction false} ScrubKeepsTheRest(node: Json, path: seq<Hop>)
    ensures At(Scrub(node).0, path) == if Innocent(path) then Scrubbed(At(node, path)) else None
    decreases |path|
  {
    if path != [] {
      var hop := path[0];
      if node.Dict? && hop.Key? { LookupScrubbed(node.fields, hop.k); }
      if node.List? && hop.Index? { ItemScrubbed(node.items, hop.i); }
      assert Next(Scrub(node).0, hop) == if hop.Key? && hop.k in SENSITIVE then None else Scrubbed(Next(node, hop));
      var next := Next(node, hop);
      if next.Some? { ScrubKeepsTheRest(next.value, path[1..]); }
      InnocentFrom(path);
    }
  }

  lemma InnocentFrom(path: seq<Hop>)
    requires path != []
    ensures Innocent(path) <==> (path[0].Key? ==> path[0].k !in SENSITIVE) && Innocent(path[1..])
  {
    if Innocent(path[1..]) && (path[0].Key? ==> path[0].k !in SENSITIVE) {
      forall i | 0 <= i < |path| && path[i].Key? ensures path[i].k !in SENSITIVE {
        if i > 0 { assert path[i] == path[1..][i - 1]; }
      }
    }
  }

  // ── The registry document ────────────────────────────────────────

  datatype Totals = Totals(projects: nat, counts: Counts)

  function ScrubEntries(entries: seq<Field>): (seq<Field>, Totals) {
    if entries == [] then ([], Totals(0, NOTHING))
    else
      var last := entries[|entries| - 1];
      var (front, t) := ScrubEntries(entries[..|entries| - 1]);
      var (entry, more) := Scrub(last.value);
      (front + [Field(last.key, entry)], Totals(t.projects + 1, Plus(t.counts, more)))
  }

  function SetField(fields: seq<Field>, k: string, value: Json): seq<Field> {
    if fields == [] then [Field(k, value)]
    else if fields[|fields| - 1].key == k then fields[..|fields| - 1] + [Field(k, value)]
    else SetField(fields[..|fields| - 1], k, value) + [fields[|fields| - 1]]
  }

  /** `scrub_registry`: only what is under `projects` is scrubbed, each entry by itself. */
  function ScrubRegistry(registry: Json): (Json, Totals) {
    var none := Totals(0, NOTHING);
    if !registry.Dict? then (registry, none)
    else
      match Lookup(registry.fields, "projects")
      case Some(Dict(entries)) =>
        var (clean, t) := ScrubEntries(entries);
        (Dict(SetField(registry.fields, "projects", Dict(clean))), t)
      case Some(List(items)) =>
        var (clean, counts) := ScrubItems(items);
        (Dict(SetField(registry.fields, "projects", List(clean))), Totals(|items|, counts))
      case _ => (registry, none)
  }

  lemma {:induction false} SetFieldFound(fields: seq<Field>, k: string, value: Json, other: string)
    ensures Lookup(SetField(fields, k, value), other) == if other == k then Some(value) else Lookup(fields, other)
  {
    if fields == [] {
      assert [Field(k, value)][..0] == [];
    } else {
      var front, last := fields[..|fields| - 1], fields[|fields| - 1];
      SetFieldFound(front, k, value, other);
      if last.key == k {
        assert (front + [Field(k, value)])[..|front|] == front;
      } else {
        var longer := SetField(front, k, value);
        assert (longer + [last])[..|longer|] == longer;
      }
    }
  }

  lemma {:induction false} EntryScrubbed(entries: seq<Field>, name: string)
    ensures Lookup(ScrubEntries(entries).0, name) == Scrubbed(Lookup(entries, name))
  {
    if entries != [] {
      var n := |entries| - 1;
      EntryScrubbed(entries[..n], name);
      var front := ScrubEntries(entries[..n]).0;
      assert (front + [Field(entries[n].key, Scrub(entries[n].value).0)])[..|front|] == front;
    }
  }

  /** Every project of a registry is there after the scrub, scrubbed, also one whose name is a sensitive key; and
      everything beside the projects is as it was. */
  lemma RegistryScrubbed(registry: Json, entries: seq<Field>, name: string, other: string)
    requires registry.Dict? && Lookup(registry.fields, "projects") == Some(Dict(entries)) && other != "projects"
    ensures var after := ScrubRegistry(registry).0;
      At(after, [Key("projects"), Key(name)]) == Scrubbed(Lookup(entries, name))
      && At(after, [Key(other)]) == At(registry, [Key(other)])
  {
    var clean := ScrubEntries(entries).0;
    var after := ScrubRegistry(registry).0;
    SetFieldFound(registry.fields, "projects", Dict(clean), "projects");
    SetFieldFound(registry.fields, "projects", Dict(clean), other);
    EntryScrubbed(entries, name);
    var path := [Key("projects"), Key(name)];
    assert path[1..] == [Key(name)] && path[1..][1..] == [];
    assert [Key(other)][1..] == [];
    AtOne(Dict(clean), Key(name));
    AtOne(after, Key(other));
    AtOne(registry, Key(other));
  }

  /** The same for the legacy form, in which the projects are a list. */
  lemma LegacyRegistryScrubbed(registry: Json, items: seq<Json>, i: nat, other: string)
    requires registry.Dict? && Lookup(registry.fields, "projects") == Some(List(items)) && other != "projects"
    ensures var after := ScrubRegistry(registry).0;
      At(after, [Key("projects"), Index(i)]) == (if i < |items| then Some(Scrub(items[i]).0) else None)
      && At(after, [Key(other)]) == At(registry, [Key(other)])
  {
    var clean := ScrubItems(items).0;
    var after := ScrubRegistry(registry).0;
    SetFieldFound(registry.fields, "projects", List(clean), "projects");
    SetFieldFound(registry.fields, "projects", List(clean), other);
    ItemScrubbed(items, i);
    var path := [Key("projects"), Index(i)];
    assert path[1..] == [Index(i)] && path[1..][1..] == [];
    AtOne(List(clean), Index(i));
    AtOne(after, Key(other));
    AtOne(registry, Key(other));
  }

  lemma AtOne(node: Json, hop: Hop)
    ensures At(node, [hop]) == Next(node, hop)
  {
    assert [hop][1..] == [];
  }

  // ── Owners ───────────────────────────────────────────────────────

  const REGISTERED_BY := "registered_by"

  /** Python's truth value. */
  predicate Truthy(node: Json) {
    match node
    case Null => false
    case Bool(b) => b
    case Number(n) => n != 0
    case Str(s) => s != ""
    case List(items) => items != []
    case Dict(fields) => fields != []
  }

  predicate HasOwnerField(entry: Json) { entry.Dict? && Lookup(entry.fields, REGISTERED_BY).Some? }

  /** An entry `claim_entries` stamps. */
  predicate Unowned(entry: Json) {
    entry.Dict? && (HasOwnerField(entry) ==> !Truthy(Lookup(entry.fields, REGISTERED_BY).value))
  }

  function Stamped(entry: Json, dev: string): Json
    requires entry.Dict?
  {
    Dict(SetField(entry.fields, REGISTERED_BY, Str(dev)))
  }

  predicate OwnedBy(entry: Json, dev: string) { entry.Dict? && Lookup(entry.fields, REGISTERED_BY) == Some(Str(dev)) }

  function DropField(fields: seq<Field>, k: string): seq<Field> {
    if fields == [] then []
    else DropField(fields[..|fields| - 1], k) + if fields[|fields| - 1].key == k then [] else [fields[|fields| - 1]]
  }

  function Released(entry: Json): Json
    requires entry.Dict?
  {
    Dict(DropField(entry.fields, REGISTERED_BY))
  }

  /** The names a claim stamps: those wanted (`None`: all) that nobody owns. */
  function ToClaim(projects: map<string, Json>, names: Option<set<string>>): set<string> {
    set name | name in projects && (names.Some? ==> name in names.value) && Unowned(projects[name])
  }

  function Claimed(projects: map<string, Json>, dev: string, which: set<string>): map<string, Json>
    requires forall name :: name in which ==> name in projects && projects[name].Dict?
  {
    map name | name in projects :: if name in which then Stamped(projects[name], dev) else projects[name]
  }

  function ToRelease(projects: map<string, Json>, dev: string, names: set<string>): set<string> {
    set name | name in names && name in projects && OwnedBy(projects[name], dev)
  }

  function Unclaimed(projects: map<string, Json>, dev: string, names: set<string>): map<string, Json> {
    map name | name in projects ::
      if name in names && OwnedBy(projects[name], dev) then Released(projects[name]) else projects[name]
  }

  lemma {:induction false} DropSet(fields: seq<Field>, k: string, value: Json)
    ensures Lookup(SetField(fields, k, value), k) == Some(value)
    ensures DropField(SetField(fields, k, value), k) == DropField(fields, k)
  {
    SetFieldFound(fields, k, value, k);
    if fields == [] {
      assert [Field(k, value)][..0] == [];
    } else {
      var front, last := fields[..|fields| - 1], fields[|fields| - 1];
      if last.key == k {
        assert (front + [Field(k, value)])[..|front|] == front;
        assert DropField(fields, k) == DropField(front, k) + [];
      } else {
        DropSet(front, k, value);
        var longer := SetField(front, k, value);
        assert (longer + [last])[..|longer|] == longer;
      }
    }
  }

  lemma {:induction false} DropAbsent(fields: seq<Field>, k: string)
    ensures DropField(fields, k) == fields <==> Lookup(fields, k).None?
    ensures |DropField(fields, k)| <= |fields| && Lookup(DropField(fields, k), k) == None
  {
    if fields != [] {
      var front, last := fields[..|fields| - 1], fields[|fields| - 1];
      DropAbsent(front, k);
      assert fields == front + [last];
      var rest := DropField(front, k);
      if last.key == k { assert rest + [] == rest; } else { assert (rest + [last])[..|rest|] == rest; }
    }
  }

  /** Claiming stamps only entries nobody owned, and unclaiming the claimed names brings the registry back
      exactly when none of them carried an (empty) owner field before. */
  lemma UnclaimUndoesClaim(projects: map<string, Json>, dev: string, names: Option<set<string>>)
    ensures var which := ToClaim(projects, names);
      var after := Claimed(projects, dev, which);
      && ToRelease(after, dev, which) == which
      && (Unclaimed(after, dev, which) == projects <==> forall name :: name in which ==> !HasOwnerField(projects[name]))
  {
    var which := ToClaim(projects, names);
    var after := Claimed(projects, dev, which);
    var back := Unclaimed(after, dev, which);
    forall name | name in which
      ensures OwnedBy(after[name], dev) && (back[name] == projects[name] <==> !HasOwnerField(projects[name]))
    {
      DropSet(projects[name].fields, REGISTERED_BY, Str(dev));
      DropAbsent(projects[name].fields, REGISTERED_BY);
    }
    assert forall name :: name in projects && name !in which ==> back[name] == projects[name];
    if forall name :: name in which ==> !HasOwnerField(projects[name]) { assert back == projects; }
  }

  /** Claimed and released again, an entry loses the empty owner field it had. */
  lemma EmptyOwnerIsLost()
    ensures var projects := map["web" := Dict([Field(REGISTERED_BY, Str(""))])];
      var claimed := ToClaim(projects, None);
      claimed == {"web"} && Unclaimed(Claimed(projects, "ana", claimed), "ana", claimed) != projects
  {
    var entry := Dict([Field(REGISTERED_BY, Str(""))]);
    var projects := map["web" := entry];
    assert Lookup(entry.fields, REGISTERED_BY) == Some(Str(""));
    assert "web" in ToClaim(projects, None) && HasOwnerField(projects["web"]);
    UnclaimUndoesClaim(projects, "ana", None);
  }

  lemma ClaimStep(projects: map<string, Json>, dev: string, which: set<string>, name: string)
    requires forall n :: n in which ==> n in projects && projects[n].Dict?
    requires name in projects && projects[name].Dict?
    ensures Claimed(projects, dev, which)[name := Stamped(projects[name], dev)]
      == Claimed(projects, dev, which + {name})
  {
  }

  lemma ReleaseStep(projects: map<string, Json>, dev: string, names: set<string>, name: string)
    ensures var now := Unclaimed(projects, dev, names);
      var owned := name in now && OwnedBy(now[name], dev);
      && Unclaimed(projects, dev, names + {name}) == (if owned then now[name := Released(now[name])] else now)
      && ToRelease(projects, dev, names + {name}) == ToRelease(projects, dev, names) + if owned then {name} else {}
  {
    if name in projects && OwnedBy(projects[name], dev) { DropAbsent(projects[name].fields, REGISTERED_BY); }
  }

  function NameSet(names: seq<string>): set<string> { set n | n in names }

  lemma NameSetMore(names: seq<string>, i: nat)
    requires i < |names|
    ensures NameSet(names[..i + 1]) == NameSet(names[..i]) + {names[i]}
  {
    assert names[..i + 1] == names[..i] + [names[i]];
  }

  /** The `projects` of a registry in the dict form. */
  class Registry {
    var projects: map<string, Json>

    constructor (projects: map<string, Json>)
      ensures this.projects == projects
    {
      this.projects := projects;
    }

    /** `claim_entries`, one entry after another. */
    method ClaimEntries(dev: string, names: Option<set<string>>) returns (claimed: set<string>)
      modifies this
      ensures claimed == ToClaim(old(projects), names)
      ensures projects == Claimed(old(projects), dev, claimed)
    {
      claimed := {};
      ghost var was := projects;
      var left := projects.Keys;
      while left != {}
        invariant left <= projects.Keys && projects.Keys == was.Keys
        invariant claimed == ToClaim(was, names) - left
        invariant projects == Claimed(was, dev, claimed)
        decreases |left|
      {
        var name :| name in left;
        left := left - {name};
        var entry := projects[name];
        assert entry == was[name];
        if (names.Some? && name !in names.value) || !Unowned(entry) { continue; }
        ClaimStep(was, dev, claimed, name);
        projects := projects[name := Stamped(entry, dev)];
        claimed := claimed + {name};
      }
    }

    /** `unclaim_entries`: names only, one after another. */
    method UnclaimEntries(dev: string, names: seq<string>) returns (released: set<string>)
      modifies this
      ensures released == ToRelease(old(projects), dev, NameSet(names))
      ensures projects == Unclaimed(old(projects), dev, NameSet(names))
    {
      released := {};
      ghost var was := projects;
      for i := 0 to |names|
        invariant released == ToRelease(was, dev, NameSet(names[..i]))
        invariant projects == Unclaimed(was, dev, NameSet(names[..i]))
      {
        var name := names[i];
        NameSetMore(names, i);
        ReleaseStep(was, dev, NameSet(names[..i]), name);
        if name in projects && OwnedBy(projects[name], dev) {
          projects := projects[name := Released(projects[name])];
          released := released + {name};
        }
      }
      assert names[..|names|] == names;
    }
  }
}
