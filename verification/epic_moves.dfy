/** Epics as a caller sees them (server/backends/freeform_backend.py:1001-1108): which epic a creation adds, and what
    giving a story to an epic makes of the groups of a board and of their totals. */
module EpicMoves {
  import opened Decimals
  import opened Strings
  import opened Wrappers
  import opened Fragments
  import opened EpicTotals

  /** The first story with an id. */
  predicate IsFirstStory(items: seq<Item>, id: string, i: nat) {
    && i < |items| && IsStory(items[i]) && items[i].id == id
    && forall k :: 0 <= k < i && IsStory(items[k]) ==> items[k].id != id
  }

  lemma {:induction false} StoryFound(items: seq<Item>, id: string)
    ensures FindStory(items, id) == |items|
      <==> (forall k :: 0 <= k < |items| && IsStory(items[k]) ==> items[k].id != id)
    ensures forall i :: IsFirstStory(items, id, i) ==> FindStory(items, id) == i
  {
    if items != [] && !(IsStory(items[0]) && items[0].id == id) {
      StoryFound(items[1..], id);
      forall i: nat | IsFirstStory(items, id, i) ensures FindStory(items, id) == i {
        assert i > 0 && IsFirstStory(items[1..], id, i - 1);
      }
    }
  }

  lemma {:induction false} EpicFound(items: seq<Item>, id: string)
    ensures FindEpic(items, id) == |items| <==> (forall k :: 0 <= k < |items| && IsEpic(items[k]) ==> items[k].id != id)
  {
    if items != [] && !(IsEpic(items[0]) && items[0].id == id) { EpicFound(items[1..], id); }
  }

  /** `set_us_epic` fails exactly when there is no such story or no such epic, and then changes nothing. */
  lemma SetUsEpicFails(items: seq<Item>, floor: nat, story: string, epic: Option<string>)
    ensures var (after, result) := Apply(items, floor, SetUsEpic(story, epic));
      && (result.Err? <==>
            || (forall k :: 0 <= k < |items| && IsStory(items[k]) ==> items[k].id != story)
            || (epic.Some? && forall k :: 0 <= k < |items| && IsEpic(items[k]) ==> items[k].id != epic.value))
      && (result.Err? ==> result.error.NotFound? && after == items)
  {
    StoryFound(items, story);
    if epic.Some? { EpicFound(items, epic.value); }
  }

  /** The group a story with this epic belongs to; an empty id is no epic. */
  predicate Belongs(g: Group, epic: Option<string>) {
    match g
    case Epic(id) => id != "" && epic == Some(id)
    case NoEpic(known) => epic in {None, Some("")} || epic.value !in known
  }

  lemma OneStoryElse(g: Group, items: seq<Item>, i: nat, story: Item)
    requires i < |items| && IsStory(items[i]) && IsStory(story)
    ensures StoriesOf(g, items[i := story])
      == StoriesOf(g, items[..i]) + (if Belongs(g, story.epic) then [story] else []) + StoriesOf(g, items[i + 1..])
  {
    var a, b := items[..i], items[i + 1..];
    assert items[i := story] == a + [story] + b;
    StoriesOfConcat(g, a + [story], b);
    StoriesOfMore(g, a, story);
    assert InGroup(g, story) == Belongs(g, story.epic);
  }

  /** After a successful call the first story with the id is in the group of the epic it was given and in no other;
      every other story stays in its group, in its place. */
  lemma SetUsEpicMoves(items: seq<Item>, floor: nat, id: string, epic: Option<string>, i: nat, g: Group)
    requires IsFirstStory(items, id, i) && Apply(items, floor, SetUsEpic(id, epic)).1.Ok?
    ensures var story, a, b := items[i], items[..i], items[i + 1..];
      && StoriesOf(g, items)
        == StoriesOf(g, a) + (if Belongs(g, story.epic) then [story] else []) + StoriesOf(g, b)
      && StoriesOf(g, Apply(items, floor, SetUsEpic(id, epic)).0)
        == StoriesOf(g, a) + (if Belongs(g, epic) then [story.(epic := epic)] else []) + StoriesOf(g, b)
    ensures var after := Apply(items, floor, SetUsEpic(id, epic)).0;
      |after| == |items| && after[..i] == items[..i] && after[i + 1..] == items[i + 1..]
  {
    StoryFound(items, id);
    OneStoryElse(g, items, i, items[i]);
    OneStoryElse(g, items, i, items[i].(epic := epic));
    assert items[i := items[i]] == items;
  }

  // ── The totals ───────────────────────────────────────────────────

  lemma CoreOfMove(items: seq<Item>, i: nat, epic: Option<string>)
    requires i < |items|
    ensures Core(items[i := items[i].(epic := epic)]) == Core(items)
  {
    var a, x, b := items[..i], items[i], items[i + 1..];
    var y := x.(epic := epic);
    assert items == a + [x] + b && items[i := y] == a + [y] + b;
    CoreConcat(a + [x], b);
    CoreConcat(a + [y], b);
    CoreMore(a + [x]);
    CoreMore(a + [y]);
    assert (a + [x])[..|a|] == a == (a + [y])[..|a|];
  }

  lemma SameCoreUniqueIds(a: seq<Item>, b: seq<Item>)
    requires Core(a) == Core(b) && UniqueIds(a)
    ensures UniqueIds(b)
  {
    forall u, v | u in b && v in b && IsCounted(u) && IsCounted(v) && u.id == v.id ensures Bare(u) == Bare(v) {
      CoreIn(b, u);
      CoreIn(b, v);
      var u0 := CoreFrom(a, Bare(u));
      var v0 := CoreFrom(a, Bare(v));
    }
  }

  /** On a tidy board the totals of the groups still add up to the board, which is what it was. */
  lemma SetUsEpicKeepsTotals(epics: seq<string>, items: seq<Item>, floor: nat, id: string, epic: Option<string>)
    requires Tidy(epics, items) && Occurrences(epics, epic) <= 1
    requires Apply(items, floor, SetUsEpic(id, epic)).1.Ok?
    ensures var after := Apply(items, floor, SetUsEpic(id, epic)).0;
      && Tidy(epics, after)
      && Sum(SummarizeBoard(epics, after)) == Sum(SummarizeBoard(epics, items)) == Total(items)
  {
    var i, after := FindStory(items, id), Apply(items, floor, SetUsEpic(id, epic)).0;
    assert after == items[i := items[i].(epic := epic)];
    CoreOfMove(items, i, epic);
    hide Apply;
    hide Core;
    SameCoreOneParent(items, after);
    SameCoreUniqueIds(items, after);
    SameCoreSameTotal(items, after);
    forall s | s in after && IsStory(s) ensures Occurrences(epics, EpicOf(s)) <= 1 {
      if EpicOf(s).None? { NoEpicOccurs(epics); }
      if s !in items { assert s == after[i]; }
    }
    hide Tidy;
    BoardAddsUp(epics, items);
    BoardAddsUp(epics, after);
  }

  lemma {:induction false} NoEpicOccurs(epics: seq<string>)
    ensures Occurrences(epics, None) == 0
  {
    if epics != [] { NoEpicOccurs(epics[..|epics| - 1]); }
  }

  // ── A new epic ───────────────────────────────────────────────────

  ghost predicate SomeEpic(items: seq<Item>, id: string) {
    exists k :: 0 <= k < |items| && IsEpic(items[k]) && items[k].id == id
  }

  lemma {:induction false} EpicIdsOf(items: seq<Item>, id: string)
    ensures id in EpicIds(items) <==> SomeEpic(items, id)
  {
    if items != [] {
      var n := |items| - 1;
      EpicIdsOf(items[..n], id);
      if SomeEpic(items[..n], id) {
        var k :| 0 <= k < n && IsEpic(items[..n][k]) && items[..n][k].id == id;
        assert IsEpic(items[k]) && items[k].id == id;
      }
      if k :| 0 <= k < |items| && IsEpic(items[k]) && items[k].id == id {
        if k < n { assert items[..n][k] == items[k]; }
      }
    }
  }

  /** The place after the last of the epics. */
  ghost predicate IsNextPlace(items: seq<Item>, at: int) {
    && (forall k :: 0 <= k < |items| && IsEpic(items[k]) ==> items[k].position < at)
    && ((at == 1 && forall k :: 0 <= k < |items| ==> !IsEpic(items[k]))
        || exists k :: 0 <= k < |items| && IsEpic(items[k]) && items[k].position == at - 1)
  }

  lemma {:induction false} LastPlace(items: seq<Item>, top: Option<int>)
    ensures var last := LastPosition(items, top);
      && (top.Some? ==> top.value <= last)
      && (forall k :: 0 <= k < |items| && IsEpic(items[k]) ==> items[k].position <= last)
      && (last == Or(top, 0) || exists k :: 0 <= k < |items| && IsEpic(items[k]) && items[k].position == last)
      && (top.None? && (exists k :: 0 <= k < |items| && IsEpic(items[k])) ==>
            exists k :: 0 <= k < |items| && IsEpic(items[k]) && items[k].position == last)
  {
    if items != [] {
      var higher := IsEpic(items[0]) && (top.None? || items[0].position > top.value);
      LastPlace(items[1..], if higher then Some(items[0].position) else top);
      var last := LastPosition(items, top);
      forall k | 0 <= k < |items| && IsEpic(items[k]) ensures items[k].position <= last {
        if k > 0 { assert items[1..][k - 1] == items[k]; }
      }
      if k :| 0 <= k < |items[1..]| && IsEpic(items[1..][k]) && items[1..][k].position == last {
        assert IsEpic(items[k + 1]);
      }
      if higher && last == items[0].position { assert IsEpic(items[0]) && items[0].position == last; }
      if top.None? && !higher {
        if k :| 0 <= k < |items| && IsEpic(items[k]) { assert IsEpic(items[1..][k - 1]); }
      }
    }
  }

  /** The item a creation adds: under the id given or one that no epic has, at the place given or after the last. */
  ghost predicate IsNewEpic(items: seq<Item>, op: Op, e: Item)
    requires op.CreateEpic?
  {
    && e.labels == ["EP"] && e.state == "" && e.parent.None? && e.epic == Some(e.id) && IsStripped(op.name, e.name)
    && IsEpicId(e.id) && !SomeEpic(items, e.id) && (op.epicId.Some? ==> e.id == op.epicId.value)
    && (if op.position.Some? then e.position == op.position.value else IsNextPlace(items, e.position))
  }

  /** `create_epic` refuses a blank name, a target date that is none and an id that is none, then an id that is taken;
      otherwise it adds one epic at the end. */
  lemma CreateEpicExact(items: seq<Item>, floor: nat, op: Op)
    requires op.CreateEpic?
    ensures var (after, result) := Apply(items, floor, op);
      && (result == Err(Invalid) <==> IsBlank(op.name) || !op.dated || (op.epicId.Some? && !IsEpicId(op.epicId.value)))
      && (result == Err(Exists) <==>
            && !IsBlank(op.name) && op.dated
            && op.epicId.Some? && IsEpicId(op.epicId.value) && SomeEpic(items, op.epicId.value))
      && (result.Err? ==> result != Err(NotFound) && after == items)
      && (result.Ok? ==>
            && |after| == |items| + 1 && after[..|items|] == items
            && result == Ok(Some(after[|items|].id)) && IsNewEpic(items, op, after[|items|]))
  {
    StripCuts(op.name);
    LastPlace(items, None);
    if op.epicId.Some? { EpicIdsOf(items, op.epicId.value); }
    var auto := AutoId(items, floor);
    NextIsFresh(EpicIds(items) + FloorIds(floor));
    EpicIdsOf(items, auto);
  }

  /** The epic has an id that is `EP-` and this number. */
  predicate HasNumber(item: Item, n: nat) { IsEpic(item) && IsEpicId(item.id) && Number(item.id[3..]) == n }

  /** An automatic id is the number after the floor and after every epic's, and no higher. */
  lemma AutoIdExact(items: seq<Item>, floor: nat) returns (last: nat)
    ensures IsEpicId(AutoId(items, floor)) && Number(AutoId(items, floor)[3..]) == last + 1
    ensures floor <= last && forall k, n: nat :: 0 <= k < |items| && HasNumber(items[k], n) ==> n <= last
    ensures last == floor || exists k :: 0 <= k < |items| && HasNumber(items[k], last)
  {
    var ids := EpicIds(items) + FloorIds(floor);
    last := HighestEpic(ids);
    NextIsFresh(ids);
    HighestIsOne(ids);
    EpicIdReads(floor);
    if floor != 0 { HighestBounds(ids, EpicId(floor)); }
    forall k, n: nat | 0 <= k < |items| && HasNumber(items[k], n) ensures n <= last {
      EpicIdsIn(items, items[k]);
      HighestBounds(ids, items[k].id);
    }
    if last != floor {
      var id :| id in ids && IsEpicId(id) && Number(id[3..]) == last;
      EpicIdsOf(items, id);
      var k :| 0 <= k < |items| && IsEpic(items[k]) && items[k].id == id;
      assert HasNumber(items[k], last);
    }
  }

  /** Where the number of an item comes from: the id in its meta, or else the one its name starts with; only epics have
      one of their own. */
  predicate HasLogicalId(item: Item, kind: Kind, id: string) {
    match kind
    case US => if item.metaUs in {None, Some("")} then item.nameUs == id else item.metaUs == Some(id)
    case UC => if item.metaUc in {None, Some("")} then item.nameUc == id else item.metaUc == Some(id)
    case EP => IsEpic(item) && item.id == id
  }

  /** The number a floor is compared with is the one in the logical id, whatever follows its digits. */
  lemma NumberReads(item: Item, kind: Kind, n: nat, suffix: string)
    requires HasLogicalId(item, kind, Prefix(kind) + (TwoDigits(n) + suffix))
    requires suffix == "" || !IsDigit(suffix[0])
    ensures IdNumber(item, kind) == n
  {
    var rest := TwoDigits(n) + suffix;
    TwoDigitsRead(n);
    LeadingDigitsThen(TwoDigits(n), suffix);
    assert |Prefix(kind)| == 3;
    assert (Prefix(kind) + rest)[3..] == rest && (Prefix(kind) + rest)[..3] == Prefix(kind);
  }

  /** An id with another prefix has none, nor has an item that is no epic, as an epic. */
  lemma OtherPrefixHasNone(item: Item, kind: Kind, id: string)
    requires (HasLogicalId(item, kind, id) && !(Prefix(kind) <= id)) || (kind.EP? && !IsEpic(item))
    ensures IdNumber(item, kind) == 0
  {
  }

  // ── A deleted epic ───────────────────────────────────────────────

  ghost predicate IsFirstEpic(items: seq<Item>, id: string, i: nat) {
    && i < |items| && IsEpic(items[i]) && items[i].id == id
    && forall k :: 0 <= k < i && IsEpic(items[k]) ==> items[k].id != id
  }

  /** The item without the deleted epic. */
  ghost predicate IsLeft(was: Item, now: Item, id: string) {
    if IsStory(was) && was.epic == Some(id) then now == was.(epic := None) else now == was
  }

  lemma {:induction false} EpicIsFirst(items: seq<Item>, id: string)
    ensures FindEpic(items, id) < |items| ==> IsFirstEpic(items, id, FindEpic(items, id))
  {
    if items != [] && !(IsEpic(items[0]) && items[0].id == id) { EpicIsFirst(items[1..], id); }
  }

  lemma LeftAt(items: seq<Item>, id: string, k: nat)
    requires k < |items|
    ensures |Leaves(items, id)| == |items| && IsLeft(items[k], Leaves(items, id)[k], id)
  {
  }

  /** The first epic with the id is gone, and of the other items the stories that were in it are in none. */
  ghost predicate IsDeleted(items: seq<Item>, after: seq<Item>, id: string, i: nat) {
    && IsFirstEpic(items, id, i) && |after| == |items| - 1
    && (forall k :: 0 <= k < i ==> IsLeft(items[k], after[k], id))
    && (forall k :: i < k < |items| ==> IsLeft(items[k], after[k - 1], id))
  }

  /** `delete_epic` fails exactly when there is no such epic. */
  lemma DeleteEpicExact(items: seq<Item>, floor: nat, id: string)
    ensures var (after, result) := Apply(items, floor, DeleteEpic(id));
      && (result.Err? <==> !SomeEpic(items, id))
      && (result.Err? ==> result.error.NotFound? && after == items)
      && (result.Ok? ==> result.value.None? && exists i: nat :: IsDeleted(items, after, id, i))
  {
    EpicFound(items, id);
    EpicIsFirst(items, id);
    var i := FindEpic(items, id);
    if i < |items| {
      Deleted(items, floor, id);
      DeletedAt(items, Apply(items, floor, DeleteEpic(id)).0, id, i);
    }
    hide IsDeleted;
    hide Leaves;
  }

  lemma DeletedAt(items: seq<Item>, after: seq<Item>, id: string, i: nat)
    requires IsFirstEpic(items, id, i) && |Leaves(items, id)| == |items|
    requires after == Leaves(items, id)[..i] + Leaves(items, id)[i + 1..]
    ensures IsDeleted(items, after, id, i)
  {
    var left := Leaves(items, id);
    forall k | 0 <= k < |items| ensures IsLeft(items[k], left[k], id) { LeftAt(items, id, k); }
    hide Leaves;
    hide IsLeft;
    forall k | i < k < |items| ensures after[k - 1] == left[k] { }
  }
}
