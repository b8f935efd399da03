/** Start markers with any attributes (server/app_docs/zones.py:84-96, 122-176): which are starts, which are faults, and
    what a zone gets of them. */
module MarkerAttributes {
  import Text
  import opened Strings
  import opened Wrappers
  import opened Zones
  import opened Markers

  /** An attribute as it is written: name and value. */
  type Pair = (string, string)

  function Written(pairs: seq<Pair>): string
    requires pairs != []
  {
    var first := AttrText(pairs[0].0, pairs[0].1);
    if |pairs| == 1 then first else first + (" " + Written(pairs[1..]))
  }

  ghost predicate Writable(pairs: seq<Pair>) {
    pairs != [] && forall i :: 0 <= i < |pairs| ==> IsName(pairs[i].0) && Quotable(pairs[i].1)
  }

  /** The last attribute with a name is the one that counts. */
  function LastOf(pairs: seq<Pair>, name: string): Option<string> {
    if pairs == [] then None
    else
      var n := |pairs| - 1;
      if pairs[n].0 == name then Some(pairs[n].1) else LastOf(pairs[..n], name)
  }

  lemma {:induction false} LastOfMore(first: Pair, rest: seq<Pair>, name: string)
    ensures LastOf([first] + rest, name) ==
      if LastOf(rest, name).Some? then LastOf(rest, name) else if first.0 == name then Some(first.1) else None
  {
    var all := [first] + rest;
    if rest == [] {
      assert all == [first] && [first][..0] == [];
    } else {
      var n := |rest| - 1;
      assert all[..n + 1] == [first] + rest[..n];
      LastOfMore(first, rest[..n], name);
    }
  }

  lemma BlankSkipped(s: string)
    ensures Attrs(" " + s) == Attrs(s)
  {
    assert (" " + s)[1..] == s;
  }

  /** Written attributes read back, the last of a name. */
  lemma {:induction false} WrittenReads(pairs: seq<Pair>, name: string)
    requires Writable(pairs)
    ensures Lookup(Attrs(Written(pairs)), name) == LastOf(pairs, name)
  {
    var first, rest := pairs[0], pairs[1..];
    assert pairs == [first] + rest;
    LastOfMore(first, rest, name);
    if |pairs| == 1 {
      AttrsRead(first.0, first.1, "");
      assert AttrText(first.0, first.1) + "" == AttrText(first.0, first.1);
    } else {
      AttrsRead(first.0, first.1, " " + Written(rest));
      BlankSkipped(Written(rest));
      hide Attrs;
      hide AttrText;
      WrittenReads(rest, name);
    }
  }

  lemma {:induction false} WrittenHasNoAngle(pairs: seq<Pair>)
    requires Writable(pairs)
    ensures Written(pairs) != "" && '<' !in Written(pairs) && '>' !in Written(pairs)
  {
    NameHasNoAngle(pairs[0].0);
    if |pairs| > 1 { WrittenHasNoAngle(pairs[1..]); }
  }

  lemma NameHasNoAngle(name: string)
    requires IsName(name)
    ensures '<' !in name && '>' !in name
  {
    assert !IsWord('<') && !IsWord('>');
  }

  /** Names are letters, digits and underscores, so the grammar's own are names. */
  lemma NamesAreWords(name: string)
    ensures IsName(name) <==> name != "" && forall c :: c in name ==> IsLetter(c) || c in "0123456789_"
    ensures IsName("kind") && IsName("id") && IsName("auto_sync_on") && IsName("merge") && IsName("status")
  {
    forall c ensures IsWord(c) <==> IsLetter(c) || c in "0123456789_" { }
    assert forall i :: 0 <= i < |name| ==> name[i] in name;
  }

  /** What a start marker with these attributes says. */
  ghost predicate Says(m: Mark, pairs: seq<Pair>) {
    var kind, id := LastOf(pairs, "kind"), LastOf(pairs, "id");
    if kind !in {Some("manual"), Some("auto"), Some("hybrid")} then m == BadStart("invalid kind")
    else if id in {None, Some("")} then m == BadStart("missing id")
    else
      && m.Start? && Some(KindName(m.kind)) == kind && Some(m.id) == id
      && m.merge == LastOf(pairs, "merge") && m.status == LastOf(pairs, "status")
      && m.autoSyncOn == Stripped(Text.Split(Or(LastOf(pairs, "auto_sync_on"), ""), ','))
  }

  lemma StartSays(attrs: map<string, string>, pairs: seq<Pair>)
    requires forall name :: Lookup(attrs, name) == LastOf(pairs, name)
    ensures Says(StartMark(attrs), pairs)
  {
    assert Lookup(attrs, "kind") == LastOf(pairs, "kind") && Lookup(attrs, "id") == LastOf(pairs, "id");
    assert Lookup(attrs, "merge") == LastOf(pairs, "merge") && Lookup(attrs, "status") == LastOf(pairs, "status");
    assert Lookup(attrs, "auto_sync_on") == LastOf(pairs, "auto_sync_on");
    hide LastOf;
    hide Stripped;
  }

  /** A start marker reads as its attributes say, whichever there are and in whatever order; without a known kind, or
      without an id, it is an invalid start. */
  lemma AttributesRead(pairs: seq<Pair>)
    requires Writable(pairs)
    ensures Says(Read(OPENING + ("start " + Written(pairs) + " -->")), pairs)
  {
    var attrs := Written(pairs);
    WrittenHasNoAngle(pairs);
    forall name ensures Lookup(Attrs(attrs), name) == LastOf(pairs, name) { WrittenReads(pairs, name); }
    hide *;
    AttrsStart(OPENING + ("start " + attrs + " -->"), attrs);
    StartSays(Attrs(attrs), pairs);
  }

  /** An event name as it is listed. */
  predicate IsEvent(s: string) { s != "" && Trimmed(s) && ',' !in s }

  lemma {:induction false} AllStripped(names: seq<string>)
    requires forall i :: 0 <= i < |names| ==> IsEvent(names[i])
    ensures Stripped(names) == names
  {
    if names != [] {
      AllStripped(names[1..]);
      StripTrimmed(names[0]);
      assert names == [names[0]] + names[1..];
    }
  }

  /** The events an automatic zone lists are those between the commas. */
  lemma EventsRead(names: seq<string>)
    requires names != [] && forall i :: 0 <= i < |names| ==> IsEvent(names[i])
    ensures Stripped(Text.Split(Text.Join(names, ','), ',')) == names
  {
    Text.SplitJoin(names, ',');
    AllStripped(names);
  }
}
