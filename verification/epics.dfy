/** Epic totals (server/epics.py): an epic's counts are derived from its stories, and the groups of a board add
    up to the board. */
module EpicTotals {
  import opened Wrappers
  import opened Fragments

  const WORKFLOW_STATES := {"user_stories", "backlog", "in_progress", "review", "done"}

  predicate IsStory(item: Item) { "US" in item.labels }

  /** `us_logical_id` */
  function UsLogicalId(story: Item): string {
    if LogicalId(story, US) != "" then LogicalId(story, US) else story.id
  }

  /** `epic_of` */
  function EpicOf(story: Item): Option<string> { if story.epic == Some("") then None else story.epic }

  /** A use case in a state of the workflow. */
  predicate IsCounted(item: Item) { "UC" in item.labels && item.state in WORKFLOW_STATES }

  predicate IsChild(uc: Item, story: Item) {
    IsCounted(uc) && (uc.metaUs == Some(UsLogicalId(story)) || uc.parent == Some(story.id))
  }

  /** `_children` */
  function Children(items: seq<Item>, story: Item): seq<Item> {
    if items == [] then []
    else Children(items[..|items| - 1], story) + if IsChild(items[|items| - 1], story) then [items[|items| - 1]] else []
  }

  function ChildrenOfAll(stories: seq<Item>, items: seq<Item>): seq<Item> {
    if stories == [] then []
    else ChildrenOfAll(stories[..|stories| - 1], items) + Children(items, stories[|stories| - 1])
  }

  function IdsOf(items: seq<Item>): set<string> { set item | item in items :: item.id }

  /** The criteria that hang from one of some use cases. */
  function Criteria(items: seq<Item>, ucs: set<string>): seq<Item> {
    if items == [] then []
    else
      var last := items[|items| - 1];
      Criteria(items[..|items| - 1], ucs)
        + if "AC" in last.labels && last.parent.Some? && last.parent.value in ucs then [last] else []
  }

  datatype Totals = Totals(us: nat, uc: nat, ac: nat)

  /** `summarize_stories` */
  function SummarizeStories(stories: seq<Item>, items: seq<Item>): Totals {
    var ucs := ChildrenOfAll(stories, items);
    Totals(|stories|, |ucs|, |Criteria(items, IdsOf(ucs))|)
  }

  /** An epic, or the stories of no epic among those known. */
  datatype Group = Epic(id: string) | NoEpic(known: set<string>)

  predicate InGroup(g: Group, story: Item) {
    IsStory(story)
    && match g
       case Epic(id) => EpicOf(story) == Some(id)
       case NoEpic(known) => EpicOf(story).None? || EpicOf(story).value !in known
  }

  function StoriesOf(g: Group, items: seq<Item>): seq<Item> {
    if items == [] then []
    else StoriesOf(g, items[..|items| - 1]) + if InGroup(g, items[|items| - 1]) then [items[|items| - 1]] else []
  }

  function AllStories(items: seq<Item>): seq<Item> {
    if items == [] then []
    else AllStories(items[..|items| - 1]) + if IsStory(items[|items| - 1]) then [items[|items| - 1]] else []
  }

  function EpicGroups(epics: seq<string>): seq<Group> {
    if epics == [] then [] else EpicGroups(epics[..|epics| - 1]) + [Epic(epics[|epics| - 1])]
  }

  /** The groups of a board: its epics in order and, if it has stories, the one without an epic. */
  function Groups(epics: seq<string>, items: seq<Item>): seq<Group> {
    var loose := NoEpic(set e | e in epics);
    EpicGroups(epics) + if StoriesOf(loose, items) == [] then [] else [loose]
  }

  function SummarizeGroups(gs: seq<Group>, items: seq<Item>): seq<Totals> {
    if gs == [] then []
    else SummarizeGroups(gs[..|gs| - 1], items) + [SummarizeStories(StoriesOf(gs[|gs| - 1], items), items)]
  }

  /** `summarize_board` */
  function SummarizeBoard(epics: seq<string>, items: seq<Item>): seq<Totals> {
    SummarizeGroups(Groups(epics, items), items)
  }

  function Sum(ts: seq<Totals>): Totals {
    if ts == [] then Totals(0, 0, 0)
    else
      var before, last := Sum(ts[..|ts| - 1]), ts[|ts| - 1];
      Totals(before.us + last.us, before.uc + last.uc, before.ac + last.ac)
  }

  // ── Every story is in one group ──────────────────────────────────

  /** How many of the groups a story is in. */
  function Times(gs: seq<Group>, story: Item): nat {
    if gs == [] then 0 else Times(gs[..|gs| - 1], story) + if InGroup(gs[|gs| - 1], story) then 1 else 0
  }

  function Occurrences(epics: seq<string>, e: Option<string>): nat {
    if epics == [] then 0
    else Occurrences(epics[..|epics| - 1], e) + if e == Some(epics[|epics| - 1]) then 1 else 0
  }

  lemma {:induction false} TimesInEpics(epics: seq<string>, story: Item)
    requires IsStory(story)
    ensures Times(EpicGroups(epics), story) == Occurrences(epics, EpicOf(story))
  {
    if epics != [] {
      var n := |epics| - 1;
      TimesInEpics(epics[..n], story);
      assert EpicGroups(epics)[..n] == EpicGroups(epics[..n]) by { EpicGroupsSize(epics[..n]); }
      EpicGroupsSize(epics);
    }
  }

  lemma {:induction false} EpicGroupsSize(epics: seq<string>)
    ensures |EpicGroups(epics)| == |epics|
  {
    if epics != [] { EpicGroupsSize(epics[..|epics| - 1]); }
  }

  lemma TimesMore(gs: seq<Group>, g: Group, story: Item)
    ensures Times(gs + [g], story) == Times(gs, story) + if InGroup(g, story) then 1 else 0
  {
    assert (gs + [g])[..|gs|] == gs;
  }

  lemma {:induction false} OccursIn(epics: seq<string>, e: string)
    ensures Occurrences(epics, Some(e)) > 0 <==> e in epics
    ensures Occurrences(epics, None) == 0
  {
    if epics != [] {
      OccursIn(epics[..|epics| - 1], e);
      assert epics == epics[..|epics| - 1] + [epics[|epics| - 1]];
    }
  }

  lemma {:induction false} StoriesOfIn(g: Group, items: seq<Item>, item: Item)
    ensures item in StoriesOf(g, items) <==> item in items && InGroup(g, item)
  {
    if items != [] {
      StoriesOfIn(g, items[..|items| - 1], item);
      assert items == items[..|items| - 1] + [items[|items| - 1]];
    }
  }

  /** A story is in one group for each time the board lists its epic, and without a listed epic in one. */
  lemma TimesInBoard(epics: seq<string>, items: seq<Item>, story: Item)
    requires story in items && IsStory(story)
    ensures var n := Occurrences(epics, EpicOf(story)); Times(Groups(epics, items), story) == if n == 0 then 1 else n
  {
    var loose := NoEpic(set e | e in epics);
    TimesInEpics(epics, story);
    OccursIn(epics, if EpicOf(story).Some? then EpicOf(story).value else "");
    StoriesOfIn(loose, items, story);
    if StoriesOf(loose, items) == [] {
      assert Groups(epics, items) == EpicGroups(epics);
    } else {
      TimesMore(EpicGroups(epics), loose, story);
    }
  }

  /** Every story's epic is listed at most once. */
  ghost predicate ListedOnce(epics: seq<string>, items: seq<Item>) {
    forall s :: s in items && IsStory(s) ==> Occurrences(epics, EpicOf(s)) <= 1
  }

  // ── Sums over groups ─────────────────────────────────────────────

  /** A number for every story, added up. */
  function Weigh(w: Item -> nat, stories: seq<Item>): nat {
    if stories == [] then 0 else Weigh(w, stories[..|stories| - 1]) + w(stories[|stories| - 1])
  }

  function WeighGroups(w: Item -> nat, gs: seq<Group>, items: seq<Item>): nat {
    if gs == [] then 0
    else WeighGroups(w, gs[..|gs| - 1], items) + Weigh(w, StoriesOf(gs[|gs| - 1], items))
  }

  lemma WeighMore(w: Item -> nat, a: seq<Item>, x: Item)
    ensures Weigh(w, a + [x]) == Weigh(w, a) + w(x)
  {
    assert (a + [x])[..|a|] == a;
  }

  lemma StoriesOfMore(g: Group, items: seq<Item>, x: Item)
    ensures StoriesOf(g, items + [x]) == StoriesOf(g, items) + if InGroup(g, x) then [x] else []
  {
    assert (items + [x])[..|items|] == items;
  }

  lemma GroupWeighMore(w: Item -> nat, g: Group, items: seq<Item>, x: Item)
    ensures Weigh(w, StoriesOf(g, items + [x])) == Weigh(w, StoriesOf(g, items)) + if InGroup(g, x) then w(x) else 0
  {
    StoriesOfMore(g, items, x);
    if InGroup(g, x) {
      WeighMore(w, StoriesOf(g, items), x);
    } else {
      assert StoriesOf(g, items) + [] == StoriesOf(g, items);
    }
  }

  /** What one story weighs in all groups. */
  function TimesWeigh(w: Item -> nat, gs: seq<Group>, x: Item): nat {
    if gs == [] then 0 else TimesWeigh(w, gs[..|gs| - 1], x) + if InGroup(gs[|gs| - 1], x) then w(x) else 0
  }

  lemma {:induction false} WeighedOnce(w: Item -> nat, gs: seq<Group>, x: Item)
    ensures Times(gs, x) == 0 ==> TimesWeigh(w, gs, x) == 0
    ensures Times(gs, x) == 1 ==> TimesWeigh(w, gs, x) == w(x)
  {
    if gs != [] { WeighedOnce(w, gs[..|gs| - 1], x); }
  }

  lemma {:induction false} OneMoreItem(w: Item -> nat, gs: seq<Group>, items: seq<Item>, x: Item)
    ensures WeighGroups(w, gs, items + [x]) == WeighGroups(w, gs, items) + TimesWeigh(w, gs, x)
  {
    if gs != [] {
      OneMoreItem(w, gs[..|gs| - 1], items, x);
      GroupWeighMore(w, gs[|gs| - 1], items, x);
    }
  }

  ghost predicate OnceEach(gs: seq<Group>, items: seq<Item>) {
    forall i :: 0 <= i < |items| && IsStory(items[i]) ==> Times(gs, items[i]) == 1
  }

  lemma AllStoriesMore(items: seq<Item>, x: Item)
    ensures AllStories(items + [x]) == if IsStory(x) then AllStories(items) + [x] else AllStories(items)
  {
    assert (items + [x])[..|items|] == items;
  }

  /** Groups that hold every story once weigh what the board weighs. */
  lemma {:induction false} GroupsWeighAll(w: Item -> nat, gs: seq<Group>, items: seq<Item>)
    requires OnceEach(gs, items)
    ensures WeighGroups(w, gs, items) == Weigh(w, AllStories(items))
  {
    if items == [] {
      EmptyBoard(w, gs);
    } else {
      var x, front := items[|items| - 1], items[..|items| - 1];
      assert items == front + [x];
      GroupsWeighAll(w, gs, front);
      OneMoreItem(w, gs, front, x);
      AllStoriesMore(front, x);
      WeighedOnce(w, gs, x);
      if IsStory(x) { WeighMore(w, AllStories(front), x); } else { NoStoryNoGroup(gs, x); }
    }
  }

  lemma {:induction false} EmptyBoard(w: Item -> nat, gs: seq<Group>)
    ensures WeighGroups(w, gs, []) == 0
  {
    if gs != [] { EmptyBoard(w, gs[..|gs| - 1]); }
  }

  lemma {:induction false} NoStoryNoGroup(gs: seq<Group>, x: Item)
    requires !IsStory(x)
    ensures Times(gs, x) == 0
  {
    if gs != [] { NoStoryNoGroup(gs[..|gs| - 1], x); }
  }

  // ── Stories ──────────────────────────────────────────────────────

  function One(story: Item): nat { 1 }

  lemma {:induction false} WeighOne(stories: seq<Item>)
    ensures Weigh(One, stories) == |stories|
  {
    if stories != [] { WeighOne(stories[..|stories| - 1]); }
  }

  lemma {:induction false} UsSum(gs: seq<Group>, items: seq<Item>)
    ensures |SummarizeGroups(gs, items)| == |gs|
    ensures Sum(SummarizeGroups(gs, items)).us == WeighGroups(One, gs, items)
  {
    if gs != [] {
      var front := gs[..|gs| - 1];
      UsSum(front, items);
      WeighOne(StoriesOf(gs[|gs| - 1], items));
      assert SummarizeGroups(gs, items)[..|gs| - 1] == SummarizeGroups(front, items);
    }
  }

  lemma BoardOnceEach(epics: seq<string>, items: seq<Item>)
    requires ListedOnce(epics, items)
    ensures OnceEach(Groups(epics, items), items)
  {
    forall i | 0 <= i < |items| && IsStory(items[i]) ensures Times(Groups(epics, items), items[i]) == 1 {
      TimesInBoard(epics, items, items[i]);
    }
  }

  /** Groups that hold every story at least once count at least the board's stories, and just those exactly
      when they hold each once. */
  lemma {:induction false} GroupsCountAtLeast(gs: seq<Group>, items: seq<Item>)
    requires forall i :: 0 <= i < |items| && IsStory(items[i]) ==> Times(gs, items[i]) >= 1
    ensures WeighGroups(One, gs, items) >= |AllStories(items)|
    ensures WeighGroups(One, gs, items) == |AllStories(items)| <==> OnceEach(gs, items)
  {
    if items == [] {
      EmptyBoard(One, gs);
    } else {
      var x, front := items[|items| - 1], items[..|items| - 1];
      assert items == front + [x];
      GroupsCountAtLeast(gs, front);
      OneMoreItem(One, gs, front, x);
      TimesWeighOne(gs, x);
      if !IsStory(x) { NoStoryNoGroup(gs, x); }
      assert OnceEach(gs, items) <==> OnceEach(gs, front) && (IsStory(x) ==> Times(gs, x) == 1);
    }
  }

  lemma {:induction false} TimesWeighOne(gs: seq<Group>, x: Item)
    ensures TimesWeigh(One, gs, x) == Times(gs, x)
  {
    if gs != [] { TimesWeighOne(gs[..|gs| - 1], x); }
  }

  /** The groups' stories sum to the board's exactly when no story's epic is listed twice. */
  lemma StoriesAddUp(epics: seq<string>, items: seq<Item>)
    ensures Sum(SummarizeBoard(epics, items)).us == |AllStories(items)| <==> ListedOnce(epics, items)
  {
    var gs := Groups(epics, items);
    UsSum(gs, items);
    forall i | 0 <= i < |items| && IsStory(items[i])
      ensures Times(gs, items[i]) >= 1 && (Times(gs, items[i]) == 1 <==> Occurrences(epics, EpicOf(items[i])) <= 1)
    {
      TimesInBoard(epics, items, items[i]);
    }
    GroupsCountAtLeast(gs, items);
    if OnceEach(gs, items) {
      forall s | s in items && IsStory(s) ensures Occurrences(epics, EpicOf(s)) <= 1 {
        var i :| 0 <= i < |items| && items[i] == s;
      }
    }
  }

  /** An epic listed twice counts its story twice. */
  lemma ListedTwice(story: Item)
    requires IsStory(story) && EpicOf(story) == Some("EP-01")
    ensures |AllStories([story])| == 1 && Sum(SummarizeBoard(["EP-01", "EP-01"], [story])).us != 1
  {
    var epics := ["EP-01", "EP-01"];
    assert [story][..0] == [];
    assert epics[..1] == ["EP-01"] && epics[..1][..0] == [];
    assert Occurrences(epics, EpicOf(story)) == 2 && story in [story];
    StoriesAddUp(epics, [story]);
  }

  // ── Use cases ────────────────────────────────────────────────────

  function ChildCount(items: seq<Item>): Item -> nat { story => |Children(items, story)| }

  lemma {:induction false} WeighChildren(stories: seq<Item>, items: seq<Item>)
    ensures Weigh(ChildCount(items), stories) == |ChildrenOfAll(stories, items)|
  {
    if stories != [] { WeighChildren(stories[..|stories| - 1], items); }
  }

  lemma {:induction false} UcSum(gs: seq<Group>, items: seq<Item>)
    ensures Sum(SummarizeGroups(gs, items)).uc == WeighGroups(ChildCount(items), gs, items)
  {
    if gs != [] {
      var front := gs[..|gs| - 1];
      UcSum(front, items);
      UsSum(front, items);
      WeighChildren(StoriesOf(gs[|gs| - 1], items), items);
      assert SummarizeGroups(gs, items)[..|gs| - 1] == SummarizeGroups(front, items);
    }
  }

  /** The counted use cases of a board. */
  function AllCounted(items: seq<Item>): seq<Item> {
    if items == [] then []
    else AllCounted(items[..|items| - 1]) + if IsCounted(items[|items| - 1]) then [items[|items| - 1]] else []
  }

  /** How many stories a use case belongs to. */
  function Parents(uc: Item, stories: seq<Item>): nat {
    if stories == [] then 0
    else Parents(uc, stories[..|stories| - 1]) + if IsChild(uc, stories[|stories| - 1]) then 1 else 0
  }

  lemma {:induction false} OneMoreUc(stories: seq<Item>, items: seq<Item>, x: Item)
    ensures |ChildrenOfAll(stories, items + [x])| == |ChildrenOfAll(stories, items)| + Parents(x, stories)
  {
    if stories != [] {
      OneMoreUc(stories[..|stories| - 1], items, x);
      assert (items + [x])[..|items|] == items;
    }
  }

  /** Every counted use case belongs to exactly one story. */
  ghost predicate OneParent(stories: seq<Item>, items: seq<Item>) {
    forall i :: 0 <= i < |items| && IsCounted(items[i]) ==> Parents(items[i], stories) == 1
  }

  lemma {:induction false} NotCounted(uc: Item, stories: seq<Item>)
    requires !IsCounted(uc)
    ensures Parents(uc, stories) == 0
  {
    if stories != [] { NotCounted(uc, stories[..|stories| - 1]); }
  }

  lemma {:induction false} NoChildren(stories: seq<Item>)
    ensures ChildrenOfAll(stories, []) == []
  {
    if stories != [] { NoChildren(stories[..|stories| - 1]); }
  }

  lemma {:induction false} ChildrenAddUp(stories: seq<Item>, items: seq<Item>)
    requires OneParent(stories, items)
    ensures |ChildrenOfAll(stories, items)| == |AllCounted(items)|
  {
    if items == [] {
      NoChildren(stories);
    } else {
      var x, front := items[|items| - 1], items[..|items| - 1];
      assert items == front + [x];
      ChildrenAddUp(stories, front);
      OneMoreUc(stories, front, x);
      if !IsCounted(x) { NotCounted(x, stories); }
    }
  }

  /** The groups' use cases sum to the board's, when each belongs to exactly one story. */
  lemma UseCasesAddUp(epics: seq<string>, items: seq<Item>)
    requires ListedOnce(epics, items) && OneParent(AllStories(items), items)
    ensures Sum(SummarizeBoard(epics, items)).uc == |AllCounted(items)|
  {
    BoardOnceEach(epics, items);
    UcSum(Groups(epics, items), items);
    GroupsWeighAll(ChildCount(items), Groups(epics, items), items);
    WeighChildren(AllStories(items), items);
    ChildrenAddUp(AllStories(items), items);
  }

  // ── Criteria ─────────────────────────────────────────────────────

  function UcIds(g: Group, items: seq<Item>): set<string> { IdsOf(ChildrenOfAll(StoriesOf(g, items), items)) }

  /** The item without its epic, which only matters for the group of a story. */
  function Bare(item: Item): Item { item.(epic := None) }

  /** Counted use cases have ids of their own. */
  ghost predicate UniqueIds(items: seq<Item>) {
    forall u, v :: u in items && v in items && IsCounted(u) && IsCounted(v) && u.id == v.id ==> Bare(u) == Bare(v)
  }

  lemma {:induction false} ChildrenIn(items: seq<Item>, story: Item, uc: Item)
    ensures uc in Children(items, story) <==> uc in items && IsChild(uc, story)
  {
    if items != [] {
      ChildrenIn(items[..|items| - 1], story, uc);
      assert items == items[..|items| - 1] + [items[|items| - 1]];
    }
  }

  /** The use cases of some stories are those with a parent among them. */
  lemma {:induction false} ChildrenOfAllIn(stories: seq<Item>, items: seq<Item>, uc: Item)
    ensures uc in ChildrenOfAll(stories, items) <==> uc in items && Parents(uc, stories) > 0
  {
    if stories != [] {
      ChildrenOfAllIn(stories[..|stories| - 1], items, uc);
      ChildrenIn(items, stories[|stories| - 1], uc);
    }
  }

  lemma {:induction false} HasParent(uc: Item, stories: seq<Item>, s: Item)
    requires s in stories && IsChild(uc, s)
    ensures Parents(uc, stories) > 0
  {
    if s != stories[|stories| - 1] {
      assert stories == stories[..|stories| - 1] + [stories[|stories| - 1]];
      HasParent(uc, stories[..|stories| - 1], s);
    }
  }

  lemma {:induction false} FindParent(uc: Item, stories: seq<Item>) returns (s: Item)
    requires Parents(uc, stories) > 0
    ensures s in stories && IsChild(uc, s)
  {
    s := stories[|stories| - 1];
    if !IsChild(uc, s) { s := FindParent(uc, stories[..|stories| - 1]); }
  }

  lemma {:induction false} TwoParents(uc: Item, stories: seq<Item>, s: Item, t: Item)
    requires s in stories && t in stories && s != t && IsChild(uc, s) && IsChild(uc, t)
    ensures Parents(uc, stories) >= 2
  {
    var last, front := stories[|stories| - 1], stories[..|stories| - 1];
    assert stories == front + [last];
    if s == last { HasParent(uc, front, t); }
    else if t == last { HasParent(uc, front, s); }
    else { TwoParents(uc, front, s, t); }
  }

  lemma {:induction false} AllStoriesIn(items: seq<Item>, s: Item)
    ensures s in AllStories(items) <==> s in items && IsStory(s)
  {
    if items != [] {
      AllStoriesIn(items[..|items| - 1], s);
      assert items == items[..|items| - 1] + [items[|items| - 1]];
    }
  }

  /** A use case with one parent is in the groups its parent is in. */
  lemma UcFollowsStory(g: Group, items: seq<Item>, uc: Item, s: Item)
    requires uc in items && IsCounted(uc) && UniqueIds(items)
    requires Parents(uc, AllStories(items)) == 1 && s in items && IsStory(s) && IsChild(uc, s)
    ensures uc.id in UcIds(g, items) <==> InGroup(g, s)
  {
    var stories := StoriesOf(g, items);
    AllStoriesIn(items, s);
    if InGroup(g, s) {
      StoriesOfIn(g, items, s);
      HasParent(uc, stories, s);
      ChildrenOfAllIn(stories, items, uc);
    }
    if uc.id in UcIds(g, items) {
      var v :| v in ChildrenOfAll(stories, items) && v.id == uc.id;
      ChildrenOfAllIn(stories, items, v);
      var t := FindParent(v, stories);
      assert Bare(v) == Bare(uc) && IsChild(uc, t) == IsChild(v, t);
      StoriesOfIn(g, items, t);
      AllStoriesIn(items, t);
      if t != s { TwoParents(uc, AllStories(items), s, t); }
    }
  }

  /** How many groups have a use case with an id. */
  function TimesUc(gs: seq<Group>, items: seq<Item>, id: string): nat {
    if gs == [] then 0
    else TimesUc(gs[..|gs| - 1], items, id) + if id in UcIds(gs[|gs| - 1], items) then 1 else 0
  }

  lemma {:induction false} UcTimes(gs: seq<Group>, items: seq<Item>, uc: Item, s: Item)
    requires uc in items && IsCounted(uc) && UniqueIds(items)
    requires Parents(uc, AllStories(items)) == 1 && s in items && IsStory(s) && IsChild(uc, s)
    ensures TimesUc(gs, items, uc.id) == Times(gs, s)
  {
    if gs != [] {
      UcTimes(gs[..|gs| - 1], items, uc, s);
      UcFollowsStory(gs[|gs| - 1], items, uc, s);
    }
  }

  lemma {:induction false} NoUcTimes(gs: seq<Group>, items: seq<Item>, id: string)
    requires forall uc :: uc in items && IsCounted(uc) ==> uc.id != id
    ensures TimesUc(gs, items, id) == 0
  {
    if gs != [] {
      NoUcTimes(gs[..|gs| - 1], items, id);
      var stories := StoriesOf(gs[|gs| - 1], items);
      if id in UcIds(gs[|gs| - 1], items) {
        var v :| v in ChildrenOfAll(stories, items) && v.id == id;
        ChildrenOfAllIn(stories, items, v);
        var t := FindParent(v, stories);
      }
    }
  }

  lemma {:induction false} AllCountedIn(items: seq<Item>, uc: Item)
    ensures uc in AllCounted(items) <==> uc in items && IsCounted(uc)
  {
    if items != [] {
      AllCountedIn(items[..|items| - 1], uc);
      assert items == items[..|items| - 1] + [items[|items| - 1]];
    }
  }

  /** What a board needs for its use cases and criteria to be counted once: epics listed once a story, one story
      a use case, one use case an id. */
  ghost predicate Tidy(epics: seq<string>, items: seq<Item>) {
    ListedOnce(epics, items) && OneParent(AllStories(items), items) && UniqueIds(items)
  }

  lemma OneGroupAnId(epics: seq<string>, items: seq<Item>, id: string)
    requires Tidy(epics, items)
    ensures TimesUc(Groups(epics, items), items, id) == if id in IdsOf(AllCounted(items)) then 1 else 0
  {
    var gs := Groups(epics, items);
    if id in IdsOf(AllCounted(items)) {
      var uc :| uc in AllCounted(items) && uc.id == id;
      AllCountedIn(items, uc);
      var i :| 0 <= i < |items| && items[i] == uc;
      var s := FindParent(uc, AllStories(items));
      AllStoriesIn(items, s);
      UcTimes(gs, items, uc, s);
      TimesInBoard(epics, items, s);
    } else {
      forall uc | uc in items && IsCounted(uc) ensures uc.id != id { AllCountedIn(items, uc); }
      NoUcTimes(gs, items, id);
    }
  }

  /** The criteria, among some items, of every group. */
  function CriteriaSum(gs: seq<Group>, items: seq<Item>, acs: seq<Item>): nat {
    if gs == [] then 0
    else CriteriaSum(gs[..|gs| - 1], items, acs) + |Criteria(acs, UcIds(gs[|gs| - 1], items))|
  }

  lemma {:induction false} AcSum(gs: seq<Group>, items: seq<Item>)
    ensures Sum(SummarizeGroups(gs, items)).ac == CriteriaSum(gs, items, items)
  {
    if gs != [] {
      AcSum(gs[..|gs| - 1], items);
      UsSum(gs[..|gs| - 1], items);
      assert SummarizeGroups(gs, items)[..|gs| - 1] == SummarizeGroups(gs[..|gs| - 1], items);
    }
  }

  lemma CriteriaMore(acs: seq<Item>, x: Item, ucs: set<string>)
    ensures |Criteria(acs + [x], ucs)|
      == |Criteria(acs, ucs)| + if "AC" in x.labels && x.parent.Some? && x.parent.value in ucs then 1 else 0
  {
    assert (acs + [x])[..|acs|] == acs;
  }

  lemma {:induction false} OneMoreAc(gs: seq<Group>, items: seq<Item>, acs: seq<Item>, x: Item)
    ensures CriteriaSum(gs, items, acs + [x]) == CriteriaSum(gs, items, acs)
      + if "AC" in x.labels && x.parent.Some? then TimesUc(gs, items, x.parent.value) else 0
  {
    if gs != [] {
      OneMoreAc(gs[..|gs| - 1], items, acs, x);
      CriteriaMore(acs, x, UcIds(gs[|gs| - 1], items));
    }
  }

  lemma {:induction false} NoAcs(gs: seq<Group>, items: seq<Item>)
    ensures CriteriaSum(gs, items, []) == 0
  {
    if gs != [] { NoAcs(gs[..|gs| - 1], items); }
  }

  lemma {:induction false} CriteriaCount(epics: seq<string>, items: seq<Item>, acs: seq<Item>)
    requires Tidy(epics, items)
    ensures CriteriaSum(Groups(epics, items), items, acs) == |Criteria(acs, IdsOf(AllCounted(items)))|
  {
    var gs := Groups(epics, items);
    if acs == [] {
      NoAcs(gs, items);
    } else {
      var x, front := acs[|acs| - 1], acs[..|acs| - 1];
      assert acs == front + [x];
      CriteriaCount(epics, items, front);
      OneMoreAc(gs, items, front, x);
      CriteriaMore(front, x, IdsOf(AllCounted(items)));
      if x.parent.Some? { OneGroupAnId(epics, items, x.parent.value); }
    }
  }

  /** A board's own stories, counted use cases and their criteria. */
  function Total(items: seq<Item>): Totals {
    Totals(|AllStories(items)|, |AllCounted(items)|, |Criteria(items, IdsOf(AllCounted(items)))|)
  }

  /** On a tidy board the groups add up to the board: its stories, its counted use cases and their criteria. */
  lemma BoardAddsUp(epics: seq<string>, items: seq<Item>)
    requires Tidy(epics, items)
    ensures Sum(SummarizeBoard(epics, items)) == Total(items)
  {
    StoriesAddUp(epics, items);
    UseCasesAddUp(epics, items);
    AcSum(Groups(epics, items), items);
    CriteriaCount(epics, items, items);
  }

  // ── Deleting an epic ─────────────────────────────────────────────

  lemma {:induction false} StoriesOfConcat(g: Group, a: seq<Item>, b: seq<Item>)
    ensures StoriesOf(g, a + b) == StoriesOf(g, a) + StoriesOf(g, b)
  {
    if b == [] {
      assert a + b == a;
    } else {
      assert (a + b)[..|a + b| - 1] == a + b[..|b| - 1];
      StoriesOfConcat(g, a, b[..|b| - 1]);
    }
  }

  lemma {:induction false} LeavesKeepOthers(items: seq<Item>, gone: string, other: string)
    requires gone != other && gone != ""
    ensures StoriesOf(Epic(other), Leaves(items, gone)) == StoriesOf(Epic(other), items)
  {
    if items != [] {
      var n := |items| - 1;
      LeavesKeepOthers(items[..n], gone, other);
      assert Leaves(items, gone)[..n] == Leaves(items[..n], gone);
    }
  }

  lemma {:induction false} LeavesMove(items: seq<Item>, gone: string, known: set<string>)
    requires gone in known && gone != ""
    ensures |StoriesOf(NoEpic(known - {gone}), Leaves(items, gone))|
      == |StoriesOf(NoEpic(known), items)| + |StoriesOf(Epic(gone), items)|
    ensures StoriesOf(Epic(gone), Leaves(items, gone)) == []
  {
    if items != [] {
      var n := |items| - 1;
      LeavesMove(items[..n], gone, known);
      assert Leaves(items, gone)[..n] == Leaves(items[..n], gone);
    }
  }

  /** `delete_epic`, when the epic is no story itself: every other epic keeps its stories, in order, and the
      stories of the deleted one join those without an epic; none is lost. */
  lemma DeleteEpicMoves(items: seq<Item>, floor: nat, id: string, other: string, known: set<string>)
    requires id != "" && id != other && id in known
    requires FindEpic(items, id) < |items| && !IsStory(items[FindEpic(items, id)])
    ensures var after := Apply(items, floor, DeleteEpic(id)).0;
      StoriesOf(Epic(other), after) == StoriesOf(Epic(other), items) && StoriesOf(Epic(id), after) == []
      && |StoriesOf(NoEpic(known - {id}), after)|
        == |StoriesOf(NoEpic(known), items)| + |StoriesOf(Epic(id), items)|
  {
    hide StoriesOf;
    hide InGroup;
    var i := FindEpic(items, id);
    var left := Leaves(items, id);
    LeavesKeepOthers(items, id, other);
    LeavesMove(items, id, known);
    assert left == left[..i] + [left[i]] + left[i + 1..];
    WithoutNonStory(Epic(other), left[..i], left[i], left[i + 1..]);
    WithoutNonStory(Epic(id), left[..i], left[i], left[i + 1..]);
    WithoutNonStory(NoEpic(known - {id}), left[..i], left[i], left[i + 1..]);
  }

  lemma WithoutNonStory(g: Group, a: seq<Item>, x: Item, b: seq<Item>)
    requires !IsStory(x)
    ensures StoriesOf(g, a + [x] + b) == StoriesOf(g, a + b)
  {
    StoriesOfConcat(g, a + [x], b);
    StoriesOfMore(g, a, x);
    StoriesOfConcat(g, a, b);
    assert StoriesOf(g, a) + [] == StoriesOf(g, a);
  }

  // ── And keeps the totals ─────────────────────────────────────────

  /** What the totals look at: stories, counted use cases and criteria. */
  predicate Relevant(item: Item) { IsStory(item) || IsCounted(item) || "AC" in item.labels }

  /** The items the totals look at, without their epics. */
  function Core(items: seq<Item>): seq<Item> {
    if items == [] then []
    else Core(items[..|items| - 1]) + if Relevant(items[|items| - 1]) then [Bare(items[|items| - 1])] else []
  }

  lemma {:induction false} CoreConcat(a: seq<Item>, b: seq<Item>)
    ensures Core(a + b) == Core(a) + Core(b)
  {
    if b == [] {
      assert a + b == a;
    } else {
      assert (a + b)[..|a + b| - 1] == a + b[..|b| - 1];
      CoreConcat(a, b[..|b| - 1]);
    }
  }

  lemma {:induction false} CoreOfLeaves(items: seq<Item>, epic: string)
    ensures Core(Leaves(items, epic)) == Core(items)
  {
    if items != [] {
      var n := |items| - 1;
      CoreOfLeaves(items[..n], epic);
      assert Leaves(items, epic)[..n] == Leaves(items[..n], epic);
      assert Bare(Leave(items[n], epic)) == Bare(items[n]);
    }
  }

  lemma CoreWithout(a: seq<Item>, x: Item, b: seq<Item>)
    requires !Relevant(x)
    ensures Core(a + [x] + b) == Core(a + b)
  {
    CoreConcat(a + [x], b);
    CoreConcat(a, b);
    assert (a + [x])[..|a|] == a;
    assert Core(a) + [] == Core(a);
  }

  lemma NotLeft(item: Item, epic: string)
    requires !Relevant(item)
    ensures !Relevant(Leave(item, epic))
  {
  }

  lemma Deleted(items: seq<Item>, floor: nat, id: string)
    requires FindEpic(items, id) < |items|
    ensures var i, left := FindEpic(items, id), Leaves(items, id);
      |left| == |items| && left[i] == Leave(items[i], id)
      && Apply(items, floor, DeleteEpic(id)).0 == left[..i] + left[i + 1..]
  {
  }

  /** Deleting an epic leaves the core as it is. */
  lemma DeleteKeepsCore(items: seq<Item>, floor: nat, id: string)
    requires FindEpic(items, id) < |items| && !Relevant(items[FindEpic(items, id)])
    ensures Core(Apply(items, floor, DeleteEpic(id)).0) == Core(items)
  {
    hide *;
    NotLeft(items[FindEpic(items, id)], id);
    Deleted(items, floor, id);
    var i, left := FindEpic(items, id), Leaves(items, id);
    assert left == left[..i] + [left[i]] + left[i + 1..];
    CoreWithout(left[..i], left[i], left[i + 1..]);
    CoreOfLeaves(items, id);
  }

  lemma CoreMore(items: seq<Item>)
    requires items != []
    ensures var n, core := |items| - 1, Core(items);
      if Relevant(items[n]) then
        core != [] && core[..|core| - 1] == Core(items[..n]) && core == Core(items[..n]) + [Bare(items[n])]
      else core == Core(items[..n])
  {
    assert Core(items[..|items| - 1]) + [] == Core(items[..|items| - 1]);
  }

  /** Every count is a count of the core. */
  lemma {:induction false} CoreCounts(items: seq<Item>, ucs: set<string>)
    ensures |AllStories(Core(items))| == |AllStories(items)|
    ensures |AllCounted(Core(items))| == |AllCounted(items)|
    ensures |Criteria(Core(items), ucs)| == |Criteria(items, ucs)|
  {
    if items != [] {
      CoreCounts(items[..|items| - 1], ucs);
      CoreMore(items);
    }
  }

  lemma BareChild(uc: Item, story: Item)
    ensures IsChild(Bare(uc), Bare(story)) == IsChild(uc, story)
  {
    assert UsLogicalId(Bare(story)) == UsLogicalId(story);
  }

  /** And so is the number of stories a use case belongs to. */
  lemma {:induction false} CoreParents(items: seq<Item>, uc: Item)
    ensures Parents(Bare(uc), AllStories(Core(items))) == Parents(uc, AllStories(items))
  {
    if items != [] {
      var front, x := items[..|items| - 1], items[|items| - 1];
      assert items == front + [x];
      CoreParents(front, uc);
      CoreMore(items);
      hide *;
      AllStoriesMore(Core(front), Bare(x));
      AllStoriesMore(front, x);
      ParentsMore(uc, AllStories(front), x);
      ParentsMore(Bare(uc), AllStories(Core(front)), Bare(x));
      BareChild(uc, x);
      BareStory(x);
    }
  }

  lemma BareStory(item: Item)
    ensures IsStory(Bare(item)) == IsStory(item) && (IsStory(item) ==> Relevant(item))
  {
  }

  lemma ParentsMore(uc: Item, stories: seq<Item>, x: Item)
    ensures Parents(uc, stories + [x]) == Parents(uc, stories) + if IsChild(uc, x) then 1 else 0
  {
    assert (stories + [x])[..|stories|] == stories;
  }

  lemma {:induction false} CoreIn(items: seq<Item>, item: Item)
    requires Relevant(item) && item in items
    ensures Bare(item) in Core(items)
  {
    CoreMore(items);
    assert items == items[..|items| - 1] + [items[|items| - 1]];
    if item != items[|items| - 1] { CoreIn(items[..|items| - 1], item); }
  }

  lemma {:induction false} CoreFrom(items: seq<Item>, bare: Item) returns (item: Item)
    requires bare in Core(items)
    ensures item in items && Relevant(item) && Bare(item) == bare
  {
    var n := |items| - 1;
    CoreMore(items);
    assert items == items[..n] + [items[n]];
    if Relevant(items[n]) && Bare(items[n]) == bare { item := items[n]; } else { item := CoreFrom(items[..n], bare); }
  }

  lemma CountedIdsOfCore(items: seq<Item>)
    ensures IdsOf(AllCounted(Core(items))) == IdsOf(AllCounted(items))
  {
    forall uc | uc in AllCounted(items) ensures uc.id in IdsOf(AllCounted(Core(items))) {
      AllCountedIn(items, uc);
      CoreIn(items, uc);
      AllCountedIn(Core(items), Bare(uc));
      assert Bare(uc) in AllCounted(Core(items));
    }
    forall bare | bare in AllCounted(Core(items)) ensures bare.id in IdsOf(AllCounted(items)) {
      AllCountedIn(Core(items), bare);
      var uc := CoreFrom(items, bare);
      AllCountedIn(items, uc);
      assert uc in AllCounted(items);
    }
  }

  lemma SameCoreSameTotal(a: seq<Item>, b: seq<Item>)
    requires Core(a) == Core(b)
    ensures Total(a) == Total(b)
  {
    hide AllCounted;
    hide AllStories;
    hide Criteria;
    hide IdsOf;
    hide Core;
    CountedIdsOfCore(a);
    CountedIdsOfCore(b);
    CoreCounts(a, IdsOf(AllCounted(a)));
    CoreCounts(b, IdsOf(AllCounted(a)));
  }

  lemma SameCoreOneParent(a: seq<Item>, b: seq<Item>)
    requires Core(a) == Core(b) && OneParent(AllStories(a), a)
    ensures OneParent(AllStories(b), b)
  {
    forall i | 0 <= i < |b| && IsCounted(b[i]) ensures Parents(b[i], AllStories(b)) == 1 {
      CoreIn(b, b[i]);
      var uc := CoreFrom(a, Bare(b[i]));
      CoreParents(a, uc);
      CoreParents(b, b[i]);
      var j :| 0 <= j < |a| && a[j] == uc;
      assert Parents(a[j], AllStories(a)) == 1;
    }
  }

  function Unlisted(epics: seq<string>, id: string): seq<string> {
    if epics == [] then []
    else Unlisted(epics[..|epics| - 1], id) + if epics[|epics| - 1] == id then [] else [epics[|epics| - 1]]
  }

  lemma {:induction false} UnlistedOccurs(epics: seq<string>, id: string, e: Option<string>)
    ensures Occurrences(Unlisted(epics, id), e) <= Occurrences(epics, e)
  {
    if epics != [] {
      var n := |epics| - 1;
      var front := Unlisted(epics[..n], id);
      UnlistedOccurs(epics[..n], id, e);
      assert (front + [epics[n]])[..|front|] == front && front + [] == front;
    }
  }

  lemma DeletedFrom(items: seq<Item>, floor: nat, id: string, item: Item) returns (was: Item)
    requires FindEpic(items, id) < |items| && item in Apply(items, floor, DeleteEpic(id)).0
    ensures was in items && item == Leave(was, id)
  {
    var i, after := FindEpic(items, id), Apply(items, floor, DeleteEpic(id)).0;
    var k :| 0 <= k < |after| && after[k] == item;
    was := if k < i then items[k] else items[k + 1];
  }

  lemma DeleteKeepsTidy(epics: seq<string>, items: seq<Item>, floor: nat, id: string)
    requires Tidy(epics, items)
    requires FindEpic(items, id) < |items| && !Relevant(items[FindEpic(items, id)])
    ensures Tidy(Unlisted(epics, id), Apply(items, floor, DeleteEpic(id)).0)
  {
    hide Apply;
    var after := Apply(items, floor, DeleteEpic(id)).0;
    DeleteKeepsCore(items, floor, id);
    SameCoreOneParent(items, after);
    forall s | s in after && IsStory(s) ensures Occurrences(Unlisted(epics, id), EpicOf(s)) <= 1 {
      var was := DeletedFrom(items, floor, id, s);
      UnlistedOccurs(epics, id, EpicOf(s));
      if EpicOf(s) != EpicOf(was) { OccursIn(epics, ""); }
    }
    forall u, v | u in after && v in after && IsCounted(u) && IsCounted(v) && u.id == v.id
      ensures Bare(u) == Bare(v)
    {
      var u0 := DeletedFrom(items, floor, id, u);
      var v0 := DeletedFrom(items, floor, id, v);
    }
  }

  /** `delete_epic` keeps a tidy board tidy, and its groups add up to what they added up to before: stories, use
      cases and criteria. */
  lemma DeleteEpicKeepsTotals(epics: seq<string>, items: seq<Item>, floor: nat, id: string)
    requires Tidy(epics, items)
    requires FindEpic(items, id) < |items| && !Relevant(items[FindEpic(items, id)])
    ensures var after := Apply(items, floor, DeleteEpic(id)).0;
      && Tidy(Unlisted(epics, id), after)
      && Sum(SummarizeBoard(Unlisted(epics, id), after)) == Sum(SummarizeBoard(epics, items)) == Total(items)
  {
    hide Tidy;
    hide Apply;
    var after := Apply(items, floor, DeleteEpic(id)).0;
    DeleteKeepsTidy(epics, items, floor, id);
    DeleteKeepsCore(items, floor, id);
    SameCoreSameTotal(items, after);
    BoardAddsUp(epics, items);
    BoardAddsUp(Unlisted(epics, id), after);
  }
}
