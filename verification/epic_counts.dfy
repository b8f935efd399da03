/** What the numbers of a group count (server/epics.py:46-109): places of the board, whatever is wrong with it. */
module EpicCounts {
  import opened Wrappers
  import opened Fragments
  import opened EpicTotals

  /** The group the story at a place is in: an epic's, or the one of stories with no epic that is known. */
  predicate StoryAt(g: Group, items: seq<Item>, i: int) {
    && 0 <= i < |items| && "US" in items[i].labels
    && match g
       case Epic(id) => id != "" && items[i].epic == Some(id)
       case NoEpic(known) => items[i].epic in {None, Some("")} || items[i].epic.value !in known
  }

  /** The use case at place `k` is in a state of the workflow and hangs from the story at place `i`, by its meta or as
      its child. */
  predicate HangsFrom(items: seq<Item>, k: int, i: int) {
    && 0 <= i < |items| && 0 <= k < |items| && "UC" in items[k].labels
    && items[k].state in {"user_stories", "backlog", "in_progress", "review", "done"}
    && (items[k].metaUs == Some(UsLogicalId(items[i])) || items[k].parent == Some(items[i].id))
  }

  function StoryPlaces(g: Group, items: seq<Item>): set<int> { set i | 0 <= i < |items| && StoryAt(g, items, i) }

  /** Use cases with the story they hang from. */
  function CasePlaces(g: Group, items: seq<Item>): set<(int, int)> {
    set i, k | 0 <= i < |items| && 0 <= k < |items| && StoryAt(g, items, i) && HangsFrom(items, k, i) :: (i, k)
  }

  predicate OfCase(cases: set<(int, int)>, items: seq<Item>, c: int) {
    && 0 <= c < |items| && "AC" in items[c].labels
    && exists p :: p in cases && 0 <= p.1 < |items| && items[c].parent == Some(items[p.1].id)
  }

  function CriterionPlaces(g: Group, items: seq<Item>): set<int> {
    var cases := CasePlaces(g, items);
    set c | 0 <= c < |items| && OfCase(cases, items, c)
  }

  lemma StorySame(g: Group, items: seq<Item>, i: nat)
    requires i < |items|
    ensures StoryAt(g, items, i) == InGroup(g, items[i])
  {
  }

  lemma HangsSame(items: seq<Item>, k: nat, i: nat)
    requires k < |items| && i < |items|
    ensures HangsFrom(items, k, i) == IsChild(items[k], items[i])
  {
    hide UsLogicalId;
  }

  // ── Stories ──────────────────────────────────────────────────────

  function StoriesTo(g: Group, items: seq<Item>, n: nat): set<int>
    requires n <= |items|
  {
    set i | 0 <= i < n && StoryAt(g, items, i)
  }

  lemma StoriesMore(g: Group, items: seq<Item>, n: nat)
    requires n < |items|
    ensures |StoriesTo(g, items, n + 1)| == |StoriesTo(g, items, n)| + if StoryAt(g, items, n) then 1 else 0
  {
    hide StoryAt;
    var before := StoriesTo(g, items, n);
    assert StoriesTo(g, items, n + 1) == if StoryAt(g, items, n) then before + {n} else before;
  }

  lemma {:induction false} StoriesCount(g: Group, items: seq<Item>, n: nat)
    requires n <= |items|
    ensures |StoriesOf(g, items[..n])| == |StoriesTo(g, items, n)|
  {
    if n > 0 {
      StoriesCount(g, items, n - 1);
      StoriesOfMore(g, items[..n - 1], items[n - 1]);
      StoriesMore(g, items, n - 1);
      StorySame(g, items, n - 1);
      hide StoriesTo;
      hide StoryAt;
      hide InGroup;
      assert items[..n] == items[..n - 1] + [items[n - 1]];
    }
  }

  // ── Use cases ────────────────────────────────────────────────────

  function HangingTo(items: seq<Item>, n: nat, i: int): set<int>
    requires n <= |items|
  {
    set k | 0 <= k < n && HangsFrom(items, k, i)
  }

  lemma HangingStep(items: seq<Item>, n: nat, i: int)
    requires n < |items|
    ensures HangingTo(items, n + 1, i)
      == if HangsFrom(items, n, i) then HangingTo(items, n, i) + {n} else HangingTo(items, n, i)
    ensures n !in HangingTo(items, n, i)
  {
    hide HangsFrom;
  }

  lemma {:induction false} ChildrenCount(items: seq<Item>, n: nat, i: nat)
    requires n <= |items| && i < |items|
    ensures |Children(items[..n], items[i])| == |HangingTo(items, n, i)|
  {
    if n > 0 {
      ChildrenCount(items, n - 1, i);
      HangingStep(items, n - 1, i);
      HangsSame(items, n - 1, i);
      hide HangingTo;
      hide HangsFrom;
      hide IsChild;
      assert items[..n][..n - 1] == items[..n - 1] && items[..n][n - 1] == items[n - 1];
    }
  }

  function PairsOf(i: int, ks: set<int>): set<(int, int)> { set k | k in ks :: (i, k) }

  lemma PairsMore(i: int, ks: set<int>, k: int)
    requires k !in ks
    ensures |PairsOf(i, ks + {k})| == |PairsOf(i, ks)| + 1
    ensures PairsOf(i, {}) == {}
  {
    assert PairsOf(i, ks + {k}) == PairsOf(i, ks) + {(i, k)};
  }

  lemma {:induction false} PairsSize(items: seq<Item>, n: nat, i: int)
    requires n <= |items|
    ensures |PairsOf(i, HangingTo(items, n, i))| == |HangingTo(items, n, i)|
  {
    if n == 0 {
      assert HangingTo(items, 0, i) == {};
      PairsMore(i, {}, 0);
    } else {
      PairsSize(items, n - 1, i);
      HangingStep(items, n - 1, i);
      PairsMore(i, HangingTo(items, n - 1, i), n - 1);
      hide HangingTo;
      hide HangsFrom;
      hide PairsOf;
    }
  }

  function CasesTo(g: Group, items: seq<Item>, n: nat): set<(int, int)>
    requires n <= |items|
  {
    set i, k | 0 <= i < n && 0 <= k < |items| && StoryAt(g, items, i) && HangsFrom(items, k, i) :: (i, k)
  }

  lemma CasesMore(g: Group, items: seq<Item>, n: nat)
    requires n < |items|
    ensures |CasesTo(g, items, n + 1)|
      == |CasesTo(g, items, n)| + if StoryAt(g, items, n) then |HangingTo(items, |items|, n)| else 0
  {
    PairsSize(items, |items|, n);
    CasesSplit(g, items, n);
    hide CasesTo;
    hide HangingTo;
    hide PairsOf;
  }

  lemma CasesSplit(g: Group, items: seq<Item>, n: nat)
    requires n < |items|
    ensures var before, more := CasesTo(g, items, n), PairsOf(n, HangingTo(items, |items|, n));
      before !! more && CasesTo(g, items, n + 1) == if StoryAt(g, items, n) then before + more else before
  {
    hide StoryAt;
    hide HangsFrom;
  }

  lemma AllMore(stories: seq<Item>, x: Item, items: seq<Item>)
    ensures ChildrenOfAll(stories + [x], items) == ChildrenOfAll(stories, items) + Children(items, x)
  {
    assert (stories + [x])[..|stories|] == stories;
  }

  lemma {:induction false} CasesCount(g: Group, items: seq<Item>, n: nat)
    requires n <= |items|
    ensures |ChildrenOfAll(StoriesOf(g, items[..n]), items)| == |CasesTo(g, items, n)|
  {
    if n == 0 {
      assert CasesTo(g, items, 0) == {};
    } else {
      StorySame(g, items, n - 1);
      hide StoryAt;
      hide InGroup;
      hide HangsFrom;
      hide IsChild;
      var x, stories := items[n - 1], StoriesOf(g, items[..n - 1]);
      CasesCount(g, items, n - 1);
      StoriesOfMore(g, items[..n - 1], x);
      assert items[..n] == items[..n - 1] + [x];
      CasesMore(g, items, n - 1);
      ChildrenCount(items, |items|, n - 1);
      assert items[..|items|] == items;
      AllMore(stories, x, items);
      if !InGroup(g, x) { assert stories + [] == stories; }
    }
  }

  // ── Criteria ─────────────────────────────────────────────────────

  lemma CaseAt(g: Group, items: seq<Item>, id: string) returns (p: (int, int))
    requires id in UcIds(g, items)
    ensures p in CasePlaces(g, items) && items[p.1].id == id
  {
    hide StoryAt;
    hide InGroup;
    hide HangsFrom;
    hide IsChild;
    var stories := StoriesOf(g, items);
    var uc :| uc in ChildrenOfAll(stories, items) && uc.id == id;
    ChildrenOfAllIn(stories, items, uc);
    var s := FindParent(uc, stories);
    StoriesOfIn(g, items, s);
    var i :| 0 <= i < |items| && items[i] == s;
    var k :| 0 <= k < |items| && items[k] == uc;
    StorySame(g, items, i);
    HangsSame(items, k, i);
    p := (i, k);
  }

  lemma IdOfCase(g: Group, items: seq<Item>, p: (int, int))
    requires p in CasePlaces(g, items)
    ensures items[p.1].id in UcIds(g, items)
  {
    StorySame(g, items, p.0);
    HangsSame(items, p.1, p.0);
    hide StoryAt;
    hide InGroup;
    hide HangsFrom;
    hide IsChild;
    var s, uc, stories := items[p.0], items[p.1], StoriesOf(g, items);
    StoriesOfIn(g, items, s);
    HasParent(uc, stories, s);
    ChildrenOfAllIn(stories, items, uc);
    assert uc in ChildrenOfAll(stories, items);
  }

  function CriteriaTo(g: Group, items: seq<Item>, n: nat): set<int>
    requires n <= |items|
  {
    var cases := CasePlaces(g, items);
    set c | 0 <= c < n && OfCase(cases, items, c)
  }

  lemma CriterionCounts(g: Group, items: seq<Item>, c: nat)
    requires c < |items|
    ensures OfCase(CasePlaces(g, items), items, c) <==>
      "AC" in items[c].labels && items[c].parent.Some? && items[c].parent.value in UcIds(g, items)
  {
    if items[c].parent.Some? && items[c].parent.value in UcIds(g, items) {
      var p := CaseAt(g, items, items[c].parent.value);
    }
    if p :| p in CasePlaces(g, items) && items[c].parent == Some(items[p.1].id) { IdOfCase(g, items, p); }
  }

  lemma CriteriaToMore(g: Group, items: seq<Item>, n: nat)
    requires n < |items|
    ensures |CriteriaTo(g, items, n + 1)|
      == |CriteriaTo(g, items, n)| + if OfCase(CasePlaces(g, items), items, n) then 1 else 0
  {
    hide OfCase;
    var before := CriteriaTo(g, items, n);
    assert CriteriaTo(g, items, n + 1) == if OfCase(CasePlaces(g, items), items, n) then before + {n} else before;
  }

  lemma CriteriaStep(g: Group, items: seq<Item>, n: nat)
    requires n < |items|
    ensures |Criteria(items[..n + 1], UcIds(g, items))|
      == |Criteria(items[..n], UcIds(g, items))| + if OfCase(CasePlaces(g, items), items, n) then 1 else 0
  {
    CriterionCounts(g, items, n);
    CriteriaMore(items[..n], items[n], UcIds(g, items));
    assert items[..n + 1] == items[..n] + [items[n]];
    hide OfCase;
    hide CasePlaces;
    hide UcIds;
    hide Criteria;
  }

  lemma {:induction false} CriteriaCount(g: Group, items: seq<Item>, n: nat)
    requires n <= |items|
    ensures |Criteria(items[..n], UcIds(g, items))| == |CriteriaTo(g, items, n)|
  {
    hide UcIds;
    hide OfCase;
    hide CasePlaces;
    if n == 0 {
      assert items[..n] == [] && CriteriaTo(g, items, n) == {};
    } else {
      CriteriaCount(g, items, n - 1);
      CriteriaStep(g, items, n - 1);
      CriteriaToMore(g, items, n - 1);
      hide CriteriaTo;
      hide Criteria;
    }
  }

  function Counted(g: Group, items: seq<Item>): Totals {
    Totals(|StoryPlaces(g, items)|, |CasePlaces(g, items)|, |CriterionPlaces(g, items)|)
  }

  /** On any board, a group counts its stories, the pairs of such a story and a use case in the workflow that hangs from
      it, and the criteria whose parent is one of those use cases. */
  lemma GroupCounts(g: Group, items: seq<Item>)
    ensures SummarizeStories(StoriesOf(g, items), items) == Counted(g, items)
  {
    var n := |items|;
    assert items[..n] == items;
    StoriesCount(g, items, n);
    CasesCount(g, items, n);
    CriteriaCount(g, items, n);
    assert StoriesTo(g, items, n) == StoryPlaces(g, items);
    assert CasesTo(g, items, n) == CasePlaces(g, items);
    assert CriteriaTo(g, items, n) == CriterionPlaces(g, items);
  }

  lemma {:induction false} EachEpicGroup(epics: seq<string>)
    ensures |EpicGroups(epics)| == |epics| && forall k :: 0 <= k < |epics| ==> EpicGroups(epics)[k] == Epic(epics[k])
  {
    if epics != [] { EachEpicGroup(epics[..|epics| - 1]); }
  }

  lemma {:induction false} EachSummary(gs: seq<Group>, items: seq<Item>)
    ensures |SummarizeGroups(gs, items)| == |gs|
    ensures forall k :: 0 <= k < |gs| ==> SummarizeGroups(gs, items)[k] == Counted(gs[k], items)
  {
    hide Counted;
    if gs != [] {
      EachSummary(gs[..|gs| - 1], items);
      SummaryMore(gs, items);
      hide SummarizeGroups;
    }
  }

  lemma SummaryMore(gs: seq<Group>, items: seq<Item>)
    requires gs != []
    ensures SummarizeGroups(gs, items)
      == SummarizeGroups(gs[..|gs| - 1], items) + [Counted(gs[|gs| - 1], items)]
  {
    GroupCounts(gs[|gs| - 1], items);
    hide Counted;
    hide SummarizeStories;
    hide StoriesOf;
  }

  /** A board is summed up epic by epic, in their order, and then by the stories of no known epic, if there are any. */
  lemma BoardListed(epics: seq<string>, items: seq<Item>)
    ensures var loose := NoEpic(set e | e in epics);
      var n := |epics|;
      && |SummarizeBoard(epics, items)| == n + (if StoryPlaces(loose, items) == {} then 0 else 1)
      && (forall k :: 0 <= k < n ==> SummarizeBoard(epics, items)[k] == Counted(Epic(epics[k]), items))
      && (StoryPlaces(loose, items) != {} ==> SummarizeBoard(epics, items)[n] == Counted(loose, items))
  {
    hide StoryAt;
    var loose := NoEpic(set e | e in epics);
    EachEpicGroup(epics);
    EachSummary(Groups(epics, items), items);
    StoriesCount(loose, items, |items|);
    assert items[..|items|] == items && StoriesTo(loose, items, |items|) == StoryPlaces(loose, items);
    hide Counted;
    hide SummarizeGroups;
    hide StoriesOf;
  }
}
