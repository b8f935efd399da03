/** What an ingestion writes, told from the plan and the tables before it alone
    (server/backends/native_backend.py:958-1067). */
module IngestContents {
  import opened NativeTables
  import opened Wrappers

  // ── The plan ─────────────────────────────────────────────────────

  /** A story that is not there yet; of several planned with the same id, the first. */
  predicate NewStory(plan: Plan, t: Tables, m: nat) {
    && m < |plan.stories| && plan.stories[m].id !in t.stories
    && forall k :: 0 <= k < m ==> plan.stories[k].id != plan.stories[m].id
  }

  predicate NewCase(plan: Plan, t: Tables, m: nat) {
    && m < |plan.cases| && plan.cases[m].id !in t.cases
    && forall k :: 0 <= k < m ==> plan.cases[k].id != plan.cases[m].id
  }

  predicate StoryHas(plan: Plan, n: nat, source: string) {
    exists k :: 0 <= k < n && k < |plan.stories| && plan.stories[k].source == source
  }

  predicate CaseHas(plan: Plan, n: nat, source: string) {
    exists k :: 0 <= k < n && k < |plan.cases| && plan.cases[k].source == source
  }

  predicate StoryNamed(plan: Plan, n: nat, id: string) {
    exists k :: 0 <= k < n && k < |plan.stories| && plan.stories[k].id == id
  }

  predicate CaseNamed(plan: Plan, n: nat, id: string) {
    exists k :: 0 <= k < n && k < |plan.cases| && plan.cases[k].id == id
  }

  /** The last of the first `n` planned stories that comes from `source` has this id. */
  ghost predicate StoryGives(plan: Plan, n: nat, source: string, id: string) {
    exists m :: 0 <= m < n && m < |plan.stories| && plan.stories[m].source == source && plan.stories[m].id == id
                && forall k :: m < k < n && k < |plan.stories| ==> plan.stories[k].source != source
  }

  ghost predicate CaseGives(plan: Plan, n: nat, source: string, id: string) {
    exists m :: 0 <= m < n && m < |plan.cases| && plan.cases[m].source == source && plan.cases[m].id == id
                && forall k :: m < k < n && k < |plan.cases| ==> plan.cases[k].source != source
  }

  /** The id that stands for `source` once the first `n` use cases are dealt with: the use cases hide the
      stories. */
  ghost predicate IdOf(plan: Plan, n: nat, source: string, id: Option<string>) {
    match id
    case None => !StoryHas(plan, |plan.stories|, source) && !CaseHas(plan, n, source)
    case Some(v) =>
      if CaseHas(plan, n, source) then CaseGives(plan, n, source, v)
      else StoryGives(plan, |plan.stories|, source, v)
  }

  function Lookup(m: map<string, string>, k: string): Option<string> { if k in m then Some(m[k]) else None }

  // ── Rows ─────────────────────────────────────────────────────────

  /** The row of a planned story. */
  predicate StoryBody(b: Body, row: Row) {
    && row.parent.None? && row.body.name == b.name && row.body.description == b.description
    && row.body.priority == b.priority && row.body.externalId == b.externalId && row.body.evidence == b.evidence
    && (b.state != "" ==> row.body.state == b.state) && (b.state == "" ==> row.body.state == "user_stories")
    && ("US" in b.labels ==> row.body.labels == b.labels)
    && ("US" !in b.labels ==> |row.body.labels| == |b.labels| + 1 && row.body.labels[0] == "US"
                              && row.body.labels[1..] == b.labels)
  }

  ghost predicate StoriesWritten(plan: Plan, n: nat, t: Tables, after: map<string, Row>) {
    && (forall k :: k in after <==> k in t.stories || StoryNamed(plan, n, k))
    && (forall k :: k in t.stories && k in after ==>
          after[k].body == t.stories[k].body && after[k].parent == t.stories[k].parent)
    && (forall m :: 0 <= m < n && NewStory(plan, t, m) && plan.stories[m].id in after ==>
          StoryBody(plan.stories[m].body, after[plan.stories[m].id]))
  }

  ghost predicate CasesWritten(plan: Plan, n: nat, t: Tables, after: map<string, Row>) {
    && (forall k :: k in after <==> k in t.cases || CaseNamed(plan, n, k))
    && (forall k :: k in t.cases && k in after ==>
          after[k].body == t.cases[k].body && after[k].parent == t.cases[k].parent)
    && (forall m :: 0 <= m < n && NewCase(plan, t, m) && plan.cases[m].id in after ==>
          CaseWritten(plan, m, after[plan.cases[m].id]))
  }

  ghost predicate CaseWritten(plan: Plan, m: nat, row: Row)
    requires m < |plan.cases|
  {
    row.body == plan.cases[m].body && IdOf(plan, m, plan.cases[m].parentSource, row.parent)
  }

  ghost predicate Keyed(uc: string, acs: seq<PlannedCriterion>, key: string) {
    exists j :: 0 <= j < |acs| && key == CriterionKey(uc, acs[j].ac)
  }

  ghost predicate Planned(plan: Plan, n: nat, t: Tables, key: string) {
    exists m :: 0 <= m < n && NewCase(plan, t, m) && Keyed(plan.cases[m].id, plan.cases[m].acs, key)
  }

  ghost predicate Holds(uc: string, acs: seq<PlannedCriterion>, after: map<string, Criterion>) {
    forall j :: 0 <= j < |acs| ==>
      var key := CriterionKey(uc, acs[j].ac);
      key in after && after[key] == Criterion(uc, acs[j].ac, acs[j].text, acs[j].done, false)
  }

  ghost predicate CriteriaWritten(plan: Plan, n: nat, t: Tables, after: map<string, Criterion>) {
    && (forall k :: k in t.criteria ==> k in after && after[k] == t.criteria[k])
    && (forall k :: k in after ==> k in t.criteria || Planned(plan, n, t, k))
    && (forall m :: 0 <= m < n && NewCase(plan, t, m) ==> Holds(plan.cases[m].id, plan.cases[m].acs, after))
  }

  /** The texts that go to an item, in the order of the plan. */
  function Sent(ids: map<string, string>, items: seq<PlannedComments>, id: string): seq<string> {
    if items == [] then []
    else
      var item := items[|items| - 1];
      Sent(ids, items[..|items| - 1], id)
        + if id != "" && Lookup(ids, item.source) == Some(id) then item.texts else []
  }

  function CommentsAt(rows: map<string, Row>, k: string): seq<string> { if k in rows then rows[k].comments else [] }

  /** Comments go to the story with the id, or else to the use case, after those that were there. */
  ghost predicate CommentsWritten(
    ids: map<string, string>, items: seq<PlannedComments>, before: Tables, after: Tables)
  {
    && (forall k :: k in after.stories ==>
          after.stories[k].comments == CommentsAt(before.stories, k) + Sent(ids, items, k))
    && (forall k :: k in after.cases ==>
          after.cases[k].comments ==
          CommentsAt(before.cases, k) + if k in after.stories then [] else Sent(ids, items, k))
  }

  // ── Phase 1 ──────────────────────────────────────────────────────

  ghost predicate StoriesDone(plan: Plan, n: nat, t: Tables, p: Progress) {
    && p.t == t.(stories := p.t.stories) && p.r.comments == 0
    && StoriesWritten(plan, n, t, p.t.stories)
    && (forall k :: k in p.t.stories ==> p.t.stories[k].comments == CommentsAt(t.stories, k))
  }

  ghost predicate StorySources(plan: Plan, n: nat, ids: map<string, string>) {
    forall s :: (s in ids <==> StoryHas(plan, n, s)) && (s in ids ==> StoryGives(plan, n, s, ids[s]))
  }

  lemma NewStoryRow(item: PlannedStory)
    ensures StoryBody(item.body, StoryRow(item)) && StoryRow(item).comments == []
  {
  }

  lemma NamedMore(plan: Plan, n: nat)
    requires n < |plan.stories|
    ensures forall k :: StoryNamed(plan, n + 1, k) <==> StoryNamed(plan, n, k) || k == plan.stories[n].id
  {
    forall k ensures StoryNamed(plan, n + 1, k) <==> StoryNamed(plan, n, k) || k == plan.stories[n].id {
      if k == plan.stories[n].id { assert 0 <= n < n + 1; }
    }
  }

  lemma KnownStory(plan: Plan, n: nat, t: Tables, after: map<string, Row>)
    requires n < |plan.stories| && StoriesWritten(plan, n, t, after) && plan.stories[n].id in after
    ensures StoriesWritten(plan, n + 1, t, after)
  {
    NamedMore(plan, n);
    assert !NewStory(plan, t, n);
  }

  lemma StoryAdded(plan: Plan, n: nat, t: Tables, after: map<string, Row>, row: Row)
    requires n < |plan.stories| && StoriesWritten(plan, n, t, after)
    requires plan.stories[n].id !in after && StoryBody(plan.stories[n].body, row)
    ensures StoriesWritten(plan, n + 1, t, after[plan.stories[n].id := row])
  {
    hide StoryBody;
    NamedMore(plan, n);
    var more := after[plan.stories[n].id := row];
    forall m | 0 <= m < n + 1 && NewStory(plan, t, m) && plan.stories[m].id in more
      ensures StoryBody(plan.stories[m].body, more[plan.stories[m].id])
    {
      if m < n { assert StoryNamed(plan, n, plan.stories[m].id); }
    }
  }

  lemma StoryStep(plan: Plan, n: nat, t: Tables, p: Progress)
    requires n < |plan.stories| && StoriesDone(plan, n, t, p) && AddStory(p, plan.stories[n]).Some?
    ensures StoriesDone(plan, n + 1, t, AddStory(p, plan.stories[n]).value)
  {
    var item := plan.stories[n];
    NewStoryRow(item);
    if item.id in p.t.stories {
      KnownStory(plan, n, t, p.t.stories);
      hide StoriesWritten;
    } else {
      StoryAdded(plan, n, t, p.t.stories, StoryRow(item));
      assert item.id !in t.stories;
      hide StoriesWritten;
      hide StoryRow;
    }
  }

  lemma StoryGivesMore(plan: Plan, n: nat, s: string, v: string)
    requires n < |plan.stories|
    ensures StoryHas(plan, n + 1, s) <==> StoryHas(plan, n, s) || plan.stories[n].source == s
    ensures StoryGives(plan, n + 1, s, v) <==>
      if plan.stories[n].source == s then plan.stories[n].id == v else StoryGives(plan, n, s, v)
  {
    if plan.stories[n].source == s { assert 0 <= n < n + 1; }
  }

  lemma SourceStep(plan: Plan, n: nat, ids: map<string, string>)
    requires n < |plan.stories| && StorySources(plan, n, ids)
    ensures StorySources(plan, n + 1, ids[plan.stories[n].source := plan.stories[n].id])
  {
    var more := ids[plan.stories[n].source := plan.stories[n].id];
    forall s
      ensures (s in more <==> StoryHas(plan, n + 1, s)) && (s in more ==> StoryGives(plan, n + 1, s, more[s]))
    {
      StoryGivesMore(plan, n, s, if s in more then more[s] else "");
      hide StoryGives;
      hide StoryHas;
    }
  }

  lemma {:induction false} StoriesToldTo(plan: Plan, n: nat, t: Tables)
    requires n <= |plan.stories| && AddStories(Start(t), plan.stories[..n]).Some?
    ensures var p := AddStories(Start(t), plan.stories[..n]).value;
      StoriesDone(plan, n, t, p) && StorySources(plan, n, p.r.idMap)
  {
    if n > 0 {
      assert plan.stories[..n][..n - 1] == plan.stories[..n - 1];
      StoriesToldTo(plan, n - 1, t);
      var p := AddStories(Start(t), plan.stories[..n - 1]).value;
      StoryStep(plan, n - 1, t, p);
      SourceStep(plan, n - 1, p.r.idMap);
    }
  }

  // ── Phase 2 ──────────────────────────────────────────────────────

  ghost predicate Sources(plan: Plan, n: nat, ids: map<string, string>) {
    forall s :: IdOf(plan, n, s, Lookup(ids, s))
  }

  lemma SourcesAfterStories(plan: Plan, ids: map<string, string>)
    requires StorySources(plan, |plan.stories|, ids)
    ensures Sources(plan, 0, ids)
  {
  }

  lemma CaseGivesMore(plan: Plan, n: nat, s: string, v: string)
    requires n < |plan.cases|
    ensures CaseHas(plan, n + 1, s) <==> CaseHas(plan, n, s) || plan.cases[n].source == s
    ensures CaseGives(plan, n + 1, s, v) <==>
      if plan.cases[n].source == s then plan.cases[n].id == v else CaseGives(plan, n, s, v)
  {
    if plan.cases[n].source == s { assert 0 <= n < n + 1; }
  }

  lemma CaseSourceStep(plan: Plan, n: nat, ids: map<string, string>)
    requires n < |plan.cases| && Sources(plan, n, ids)
    ensures Sources(plan, n + 1, ids[plan.cases[n].source := plan.cases[n].id])
  {
    var more := ids[plan.cases[n].source := plan.cases[n].id];
    forall s ensures IdOf(plan, n + 1, s, Lookup(more, s)) {
      CaseGivesMore(plan, n, s, if s in more then more[s] else "");
      assert IdOf(plan, n, s, Lookup(ids, s));
      hide CaseGives;
      hide StoryGives;
      hide CaseHas;
      hide StoryHas;
    }
  }

  ghost predicate CasesDone(plan: Plan, n: nat, t: Tables, stories: map<string, Row>, p: Progress) {
    && p.t == t.(stories := stories, cases := p.t.cases, criteria := p.t.criteria)
    && CasesWritten(plan, n, t, p.t.cases) && CriteriaWritten(plan, n, t, p.t.criteria)
    && Sources(plan, n, p.r.idMap) && p.r.comments == 0
    && (forall k :: k in p.t.cases ==> p.t.cases[k].comments == CommentsAt(t.cases, k))
  }

  lemma CaseNamedMore(plan: Plan, n: nat)
    requires n < |plan.cases|
    ensures forall k :: CaseNamed(plan, n + 1, k) <==> CaseNamed(plan, n, k) || k == plan.cases[n].id
  {
    forall k ensures CaseNamed(plan, n + 1, k) <==> CaseNamed(plan, n, k) || k == plan.cases[n].id {
      if k == plan.cases[n].id { assert 0 <= n < n + 1; }
    }
  }

  lemma KnownCase(plan: Plan, n: nat, t: Tables, cases: map<string, Row>, criteria: map<string, Criterion>)
    requires n < |plan.cases| && plan.cases[n].id in cases
    requires CasesWritten(plan, n, t, cases) && CriteriaWritten(plan, n, t, criteria)
    ensures CasesWritten(plan, n + 1, t, cases) && CriteriaWritten(plan, n + 1, t, criteria)
  {
    hide CaseWritten;
    hide Holds;
    hide Keyed;
    CaseNamedMore(plan, n);
    assert !NewCase(plan, t, n);
  }

  lemma CaseAdded(plan: Plan, n: nat, t: Tables, after: map<string, Row>, row: Row)
    requires n < |plan.cases| && CasesWritten(plan, n, t, after)
    requires plan.cases[n].id !in after && CaseWritten(plan, n, row)
    ensures CasesWritten(plan, n + 1, t, after[plan.cases[n].id := row])
  {
    hide CaseWritten;
    CaseNamedMore(plan, n);
    var more := after[plan.cases[n].id := row];
    forall m | 0 <= m < n + 1 && NewCase(plan, t, m) && plan.cases[m].id in more
      ensures CaseWritten(plan, m, more[plan.cases[m].id])
    {
      if m < n { assert CaseNamed(plan, n, plan.cases[m].id); }
    }
  }

  /** The criteria of one use case go in, each under a key of its own. */
  lemma {:induction false} AcsAdded(p: Progress, uc: string, acs: seq<PlannedCriterion>)
    requires AddCriteria(p, uc, acs).Some?
    ensures var q := AddCriteria(p, uc, acs).value;
      && q.t == p.t.(criteria := q.t.criteria) && q.r == p.r.(ac := q.r.ac) && Holds(uc, acs, q.t.criteria)
      && (forall k :: k in q.t.criteria <==> k in p.t.criteria || Keyed(uc, acs, k))
      && (forall k :: k in p.t.criteria ==> k in q.t.criteria && q.t.criteria[k] == p.t.criteria[k])
  {
    if acs != [] {
      var n := |acs| - 1;
      AcsAdded(p, uc, acs[..n]);
      AcAdded(p, AddCriteria(p, uc, acs[..n]).value, uc, acs);
    }
  }

  lemma AcAdded(p: Progress, q: Progress, uc: string, acs: seq<PlannedCriterion>)
    requires acs != [] && Holds(uc, acs[..|acs| - 1], q.t.criteria)
    requires AddCriterion(q, uc, acs[|acs| - 1]).Some?
    ensures var r := AddCriterion(q, uc, acs[|acs| - 1]).value;
      && r.t == q.t.(criteria := r.t.criteria) && r.r == q.r.(ac := r.r.ac) && Holds(uc, acs, r.t.criteria)
      && (forall k :: k in r.t.criteria <==>
            k in q.t.criteria || k == CriterionKey(uc, acs[|acs| - 1].ac))
      && (forall k :: k in q.t.criteria ==> r.t.criteria[k] == q.t.criteria[k])
    ensures forall k :: Keyed(uc, acs, k) <==>
      Keyed(uc, acs[..|acs| - 1], k) || k == CriterionKey(uc, acs[|acs| - 1].ac)
  {
    hide CriterionKey;
    var n := |acs| - 1;
    var front := acs[..n];
    forall k ensures Keyed(uc, acs, k) <==> Keyed(uc, front, k) || k == CriterionKey(uc, acs[n].ac) {
      if Keyed(uc, front, k) {
        var j :| 0 <= j < n && k == CriterionKey(uc, front[j].ac);
        assert k == CriterionKey(uc, acs[j].ac);
      }
      if Keyed(uc, acs, k) {
        var j :| 0 <= j < |acs| && k == CriterionKey(uc, acs[j].ac);
        if j < n { assert k == CriterionKey(uc, front[j].ac); }
      }
    }
    forall j | 0 <= j < n ensures CriterionKey(uc, front[j].ac) == CriterionKey(uc, acs[j].ac) { }
  }

  lemma CriteriaAdded(
    plan: Plan, n: nat, t: Tables, before: map<string, Criterion>, after: map<string, Criterion>)
    requires n < |plan.cases| && NewCase(plan, t, n) && CriteriaWritten(plan, n, t, before)
    requires Holds(plan.cases[n].id, plan.cases[n].acs, after)
    requires forall k :: k in after ==> k in before || Keyed(plan.cases[n].id, plan.cases[n].acs, k)
    requires forall k :: k in before ==> k in after && after[k] == before[k]
    ensures CriteriaWritten(plan, n + 1, t, after)
  {
    hide NewCase;
    hide Keyed;
    forall k | k in after ensures k in t.criteria || Planned(plan, n + 1, t, k) { }
    forall m | 0 <= m < n + 1 && NewCase(plan, t, m) ensures Holds(plan.cases[m].id, plan.cases[m].acs, after) {
      if m < n { assert Holds(plan.cases[m].id, plan.cases[m].acs, before); }
    }
  }

  lemma CaseStep(plan: Plan, n: nat, t: Tables, stories: map<string, Row>, p: Progress)
    requires n < |plan.cases| && CasesDone(plan, n, t, stories, p) && AddCase(p, plan.cases[n]).Some?
    ensures CasesDone(plan, n + 1, t, stories, AddCase(p, plan.cases[n]).value)
  {
    var item := plan.cases[n];
    CaseSourceStep(plan, n, p.r.idMap);
    if item.id in p.t.cases {
      KnownCase(plan, n, t, p.t.cases, p.t.criteria);
      hide CasesWritten;
      hide CriteriaWritten;
      hide Sources;
    } else {
      var row, q := AddCaseRow(p, item).value, AddCase(p, item).value;
      assert IdOf(plan, n, item.parentSource, Lookup(p.r.idMap, item.parentSource));
      CaseAdded(plan, n, t, p.t.cases, row.t.cases[item.id]);
      AcsAdded(row, item.id, item.acs);
      assert NewCase(plan, t, n);
      CriteriaAdded(plan, n, t, p.t.criteria, q.t.criteria);
      assert item.id !in t.cases;
      hide CasesWritten;
      hide CriteriaWritten;
      hide Sources;
    }
  }

  lemma {:induction false} CasesToldTo(plan: Plan, n: nat, t: Tables, p1: Progress)
    requires n <= |plan.cases| && AddCases(p1, plan.cases[..n]).Some?
    requires p1.t == t.(stories := p1.t.stories) && p1.r.comments == 0 && Sources(plan, 0, p1.r.idMap)
    ensures CasesDone(plan, n, t, p1.t.stories, AddCases(p1, plan.cases[..n]).value)
  {
    if n > 0 {
      assert plan.cases[..n][..n - 1] == plan.cases[..n - 1];
      CasesToldTo(plan, n - 1, t, p1);
      hide CasesDone;
      CaseStep(plan, n - 1, t, p1.t.stories, AddCases(p1, plan.cases[..n - 1]).value);
    }
  }

  // ── Phase 3 ──────────────────────────────────────────────────────

  /** `texts` were added to the item with this id, if there is one. */
  ghost predicate TextsAdded(t: Tables, q: Tables, id: string, texts: seq<string>) {
    && q.stories.Keys == t.stories.Keys && q.cases.Keys == t.cases.Keys
    && (forall k :: k in t.stories ==>
          q.stories[k].comments == t.stories[k].comments + if k == id then texts else [])
    && (forall k :: k in t.cases ==>
          q.cases[k].comments == t.cases[k].comments + if k == id && id !in t.stories then texts else [])
  }

  lemma {:induction false} TextsGo(p: Progress, id: string, texts: seq<string>)
    ensures TextsAdded(p.t, AddTexts(p, id, texts).t, id, texts)
  {
    if texts != [] {
      var n := |texts| - 1;
      TextsGo(p, id, texts[..n]);
      assert texts == texts[..n] + [texts[n]];
    }
  }

  function LastSent(ids: map<string, string>, items: seq<PlannedComments>, k: string): seq<string>
    requires items != []
  {
    if k != "" && Lookup(ids, items[|items| - 1].source) == Some(k) then items[|items| - 1].texts else []
  }

  lemma SentMore(ids: map<string, string>, items: seq<PlannedComments>, k: string, was: seq<string>)
    requires items != []
    ensures was + Sent(ids, items, k) == (was + Sent(ids, items[..|items| - 1], k)) + LastSent(ids, items, k)
  {
  }

  lemma TextsWritten(ids: map<string, string>, items: seq<PlannedComments>, before: Tables, mid: Tables, after: Tables)
    requires items != [] && CommentsWritten(ids, items[..|items| - 1], before, mid)
    requires var last := items[|items| - 1];
      last.source in ids && ids[last.source] != "" && TextsAdded(mid, after, ids[last.source], last.texts)
    ensures CommentsWritten(ids, items, before, after)
  {
    hide Sent;
    hide CommentsAt;
    assert forall k :: k in after.stories <==> k in mid.stories;
    assert forall k :: k in after.cases <==> k in mid.cases;
    forall k | k in after.stories
      ensures after.stories[k].comments == CommentsAt(before.stories, k) + Sent(ids, items, k)
    {
      SentMore(ids, items, k, CommentsAt(before.stories, k));
    }
    forall k | k in after.cases
      ensures after.cases[k].comments ==
        CommentsAt(before.cases, k) + if k in after.stories then [] else Sent(ids, items, k)
    {
      SentMore(ids, items, k, CommentsAt(before.cases, k));
    }
  }

  lemma CommentsStep(ids: map<string, string>, items: seq<PlannedComments>, before: Tables, p: Progress)
    requires items != [] && CommentsWritten(ids, items[..|items| - 1], before, p.t) && p.r.idMap == ids
    ensures CommentsWritten(ids, items, before, AddComments(p, items[|items| - 1]).t)
  {
    var item, q := items[|items| - 1], AddComments(p, items[|items| - 1]);
    if item.source in ids && ids[item.source] != "" {
      TextsGo(p, ids[item.source], item.texts);
      TextsWritten(ids, items, before, p.t, q.t);
    } else {
      forall k, was ensures was + Sent(ids, items, k) == was + Sent(ids, items[..|items| - 1], k) {
        SentMore(ids, items, k, was);
      }
      hide Sent;
    }
  }

  lemma {:induction false} CommentsGo(p: Progress, items: seq<PlannedComments>)
    ensures CommentsWritten(p.r.idMap, items, p.t, AddAllComments(p, items).t)
  {
    if items != [] {
      var n := |items| - 1;
      CommentsGo(p, items[..n]);
      CommentsSame(p, items[..n]);
      hide CommentsWritten;
      CommentsStep(p.r.idMap, items, p.t, AddAllComments(p, items[..n]));
    }
  }

  // ── The whole ingestion ──────────────────────────────────────────

  /** A committed ingestion leaves exactly the rows of the plan beside those that were there: each new story and
      use case with its planned fields, each use case under the id its source parent stands for, each new use case
      with its criteria, each comment where its source points. */
  ghost predicate Written(plan: Plan, t: Tables, after: Tables, ids: map<string, string>) {
    && StoriesWritten(plan, |plan.stories|, t, after.stories)
    && CasesWritten(plan, |plan.cases|, t, after.cases)
    && CriteriaWritten(plan, |plan.cases|, t, after.criteria)
    && Sources(plan, |plan.cases|, ids)
    && CommentsWritten(ids, plan.comments, t, after)
  }

  lemma StoriesStay(plan: Plan, n: nat, t: Tables, a: map<string, Row>, b: map<string, Row>)
    requires n <= |plan.stories| && StoriesWritten(plan, n, t, a) && SameRows(a, b)
    ensures StoriesWritten(plan, n, t, b)
  {
    hide NewStory;
    hide StoryNamed;
    assert forall k :: k in a <==> k in b;
    forall m | 0 <= m < n && NewStory(plan, t, m) && plan.stories[m].id in b
      ensures StoryBody(plan.stories[m].body, b[plan.stories[m].id])
    {
      assert Commented(a[plan.stories[m].id], b[plan.stories[m].id]);
    }
  }

  lemma CasesStay(plan: Plan, n: nat, t: Tables, a: map<string, Row>, b: map<string, Row>)
    requires n <= |plan.cases| && CasesWritten(plan, n, t, a) && SameRows(a, b)
    ensures CasesWritten(plan, n, t, b)
  {
    hide NewCase;
    hide CaseNamed;
    hide IdOf;
    assert forall k :: k in a <==> k in b;
    forall m | 0 <= m < n && NewCase(plan, t, m) && plan.cases[m].id in b
      ensures CaseWritten(plan, m, b[plan.cases[m].id])
    {
      assert Commented(a[plan.cases[m].id], b[plan.cases[m].id]);
    }
  }

  /** The comments that were there before the last phase are those of the tables at the start. */
  lemma CommentsSince(ids: map<string, string>, items: seq<PlannedComments>, t: Tables, mid: Tables, after: Tables)
    requires forall k :: k in mid.stories ==> mid.stories[k].comments == CommentsAt(t.stories, k)
    requires forall k :: k in mid.cases ==> mid.cases[k].comments == CommentsAt(t.cases, k)
    requires CommentsWritten(ids, items, mid, after) && SameButComments(mid, after)
    ensures CommentsWritten(ids, items, t, after)
  {
    hide Sent;
    hide Commented;
    forall k | k in after.stories ensures CommentsAt(mid.stories, k) == CommentsAt(t.stories, k) { }
    forall k | k in after.cases ensures CommentsAt(mid.cases, k) == CommentsAt(t.cases, k) { }
  }

  lemma LastPhase(plan: Plan, t: Tables, p1: Progress, p2: Progress)
    requires StoriesDone(plan, |plan.stories|, t, p1) && CasesDone(plan, |plan.cases|, t, p1.t.stories, p2)
    ensures var p := AddAllComments(p2, plan.comments);
      && Written(plan, t, p.t, p.r.idMap) && p.r.comments == CommentCount(p.r.idMap, plan.comments)
  {
    var after := AddAllComments(p2, plan.comments).t;
    CommentsGo(p2, plan.comments);
    CommentsSame(p2, plan.comments);
    hide StoriesWritten;
    hide CasesWritten;
    hide CriteriaWritten;
    hide CommentsWritten;
    hide Sources;
    hide SameRows;
    hide Sent;
    StoriesStay(plan, |plan.stories|, t, p1.t.stories, after.stories);
    CasesStay(plan, |plan.cases|, t, p2.t.cases, after.cases);
    CommentsSince(p2.r.idMap, plan.comments, t, p2.t, after);
  }

  lemma IngestWrites(plan: Plan, t: Tables)
    requires Ingest(plan, t).Some?
    ensures var p := Ingest(plan, t).value;
      && Written(plan, t, p.t, p.r.idMap)
      && p.r.comments == CommentCount(p.r.idMap, plan.comments)
  {
    var p1 := AddStories(Start(t), plan.stories).value;
    var p2 := AddCases(p1, plan.cases).value;
    assert plan.stories[..|plan.stories|] == plan.stories && plan.cases[..|plan.cases|] == plan.cases;
    hide CasesDone;
    hide Written;
    hide StoriesWritten;
    StoriesToldTo(plan, |plan.stories|, t);
    SourcesAfterStories(plan, p1.r.idMap);
    CasesToldTo(plan, |plan.cases|, t, p1);
    LastPhase(plan, t, p1, p2);
  }

  /** No two planned items come from the same source. */
  predicate DistinctSources(plan: Plan) {
    && (forall i, j :: 0 <= i < j < |plan.stories| ==> plan.stories[i].source != plan.stories[j].source)
    && (forall i, j :: 0 <= i < |plan.stories| && 0 <= j < |plan.cases| ==>
          plan.stories[i].source != plan.cases[j].source)
  }

  /** With distinct sources a new use case sits under the story that its source parent became, and under none
      exactly when the plan has no item of that source before it. */
  lemma ParentIsItsStory(plan: Plan, t: Tables, n: nat)
    requires Ingest(plan, t).Some? && DistinctSources(plan) && NewCase(plan, t, n)
    ensures var after := Ingest(plan, t).value.t;
      && plan.cases[n].id in after.cases
      && var row := after.cases[plan.cases[n].id];
      && row.body == plan.cases[n].body
      && (forall m :: 0 <= m < |plan.stories| && plan.stories[m].source == plan.cases[n].parentSource ==>
            row.parent == Some(plan.stories[m].id))
      && (row.parent.None? <==> !StoryHas(plan, |plan.stories|, plan.cases[n].parentSource)
                                && !CaseHas(plan, n, plan.cases[n].parentSource))
  {
    IngestWrites(plan, t);
    hide StoriesWritten;
    hide CriteriaWritten;
    hide Sources;
    hide CommentsWritten;
    assert CaseNamed(plan, |plan.cases|, plan.cases[n].id);
    assert CaseWritten(plan, n, Ingest(plan, t).value.t.cases[plan.cases[n].id]);
  }
}
