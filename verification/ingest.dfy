/** Batch ingestion and real deletion in the native backend (server/backends/native_backend.py): each runs in
    one transaction over the tables of a project. */
module NativeTables {
  import opened Lists
  import opened Wrappers

  datatype Body = Body(
    name: string, description: string, state: string, labels: seq<string>, priority: string,
    externalId: string, evidence: bool)

  /** A story (no parent) or a use case. */
  datatype Row = Row(body: Body, parent: Option<string>, comments: seq<string>)

  datatype Criterion = Criterion(uc: string, ac: string, text: string, done: bool, evidence: bool)

  /** `reservations` is by use case; rows of `transitions` and `branches` name theirs. */
  datatype Tables = Tables(
    stories: map<string, Row>, cases: map<string, Row>, criteria: map<string, Criterion>,
    reservations: map<string, string>, transitions: map<string, string>, branches: map<string, string>)

  /** The tables an ingestion does not write. */
  predicate SameTraces(a: Tables, b: Tables) {
    a.reservations == b.reservations && a.transitions == b.transitions && a.branches == b.branches
  }

  /** Foreign keys: a use case's parent is a story, a criterion belongs to a use case. */
  ghost predicate Referential(t: Tables) {
    && (forall u :: u in t.cases && t.cases[u].parent.Some? ==> t.cases[u].parent.value in t.stories)
    && (forall c :: c in t.criteria ==> t.criteria[c].uc in t.cases)
  }

  // ── The write plan ───────────────────────────────────────────────

  /** `source` is the item's id on the source board, `id` the logical id in its name, "" when it has none. */
  datatype PlannedStory = PlannedStory(source: string, id: string, body: Body)

  datatype PlannedCriterion = PlannedCriterion(ac: string, text: string, done: bool)

  datatype PlannedCase =
    PlannedCase(source: string, id: string, parentSource: string, body: Body, acs: seq<PlannedCriterion>)

  /** The comments of a source item, as they are to be written. */
  datatype PlannedComments = PlannedComments(source: string, texts: seq<string>)

  datatype Plan = Plan(stories: seq<PlannedStory>, cases: seq<PlannedCase>, comments: seq<PlannedComments>)

  datatype Report = Report(us: nat, uc: nat, ac: nat, comments: nat, skipped: nat, idMap: map<string, string>)

  datatype Progress = Progress(t: Tables, r: Report)

  // ── One item of the plan; None when a statement raises ───────────

  function StoryRow(item: PlannedStory): Row {
    var b := item.body;
    Row(b.(state := if b.state == "" then "user_stories" else b.state,
           labels := if "US" in b.labels then b.labels else ["US"] + b.labels), None, [])
  }

  function AddStory(p: Progress, item: PlannedStory): Option<Progress> {
    var known := p.r.(idMap := p.r.idMap[item.source := item.id]);
    if item.id in p.t.stories && item.id != "" then Some(Progress(p.t, known.(skipped := p.r.skipped + 1)))
    else if item.id in p.t.stories then None
    else Some(Progress(p.t.(stories := p.t.stories[item.id := StoryRow(item)]), known.(us := p.r.us + 1)))
  }

  function CriterionKey(uc: string, ac: string): string { uc + "::" + ac }

  function AddCriterion(p: Progress, uc: string, item: PlannedCriterion): Option<Progress> {
    var key := CriterionKey(uc, item.ac);
    if key in p.t.criteria then None
    else
      Some(Progress(p.t.(criteria := p.t.criteria[key := Criterion(uc, item.ac, item.text, item.done, false)]),
                    p.r.(ac := p.r.ac + 1)))
  }

  function AddCriteria(p: Progress, uc: string, items: seq<PlannedCriterion>): Option<Progress> {
    if items == [] then Some(p)
    else
      var before := AddCriteria(p, uc, items[..|items| - 1]);
      if before.None? then None else AddCriterion(before.value, uc, items[|items| - 1])
  }

  function Parent(p: Progress, item: PlannedCase): Option<string> {
    if item.parentSource in p.r.idMap then Some(p.r.idMap[item.parentSource]) else None
  }

  function AddCaseRow(p: Progress, item: PlannedCase): Option<Progress> {
    var parent := Parent(p, item);
    if item.id in p.t.cases || (parent.Some? && parent.value !in p.t.stories) then None
    else
      Some(Progress(p.t.(cases := p.t.cases[item.id := Row(item.body, parent, [])]),
                    p.r.(idMap := p.r.idMap[item.source := item.id], uc := p.r.uc + 1)))
  }

  function AddCase(p: Progress, item: PlannedCase): Option<Progress> {
    if item.id in p.t.cases && item.id != "" then
      Some(Progress(p.t, p.r.(idMap := p.r.idMap[item.source := item.id], skipped := p.r.skipped + 1)))
    else
      var row := AddCaseRow(p, item);
      if row.None? then None else AddCriteria(row.value, item.id, item.acs)
  }

  /** `_insert_comment_on_conn`: to the story with the id, else to the use case. */
  function WithComment(t: Tables, id: string, text: string): Tables {
    if id in t.stories then t.(stories := t.stories[id := t.stories[id].(comments := t.stories[id].comments + [text])])
    else if id in t.cases then t.(cases := t.cases[id := t.cases[id].(comments := t.cases[id].comments + [text])])
    else t
  }

  function AddTexts(p: Progress, id: string, texts: seq<string>): Progress {
    if texts == [] then p
    else
      var before := AddTexts(p, id, texts[..|texts| - 1]);
      Progress(WithComment(before.t, id, texts[|texts| - 1]), before.r.(comments := before.r.comments + 1))
  }

  function AddComments(p: Progress, item: PlannedComments): Progress {
    if item.source !in p.r.idMap || p.r.idMap[item.source] == "" then p
    else AddTexts(p, p.r.idMap[item.source], item.texts)
  }

  // ── The three phases ─────────────────────────────────────────────

  function AddStories(p: Progress, items: seq<PlannedStory>): Option<Progress> {
    if items == [] then Some(p)
    else
      var before := AddStories(p, items[..|items| - 1]);
      if before.None? then None else AddStory(before.value, items[|items| - 1])
  }

  function AddCases(p: Progress, items: seq<PlannedCase>): Option<Progress> {
    if items == [] then Some(p)
    else
      var before := AddCases(p, items[..|items| - 1]);
      if before.None? then None else AddCase(before.value, items[|items| - 1])
  }

  function AddAllComments(p: Progress, items: seq<PlannedComments>): Progress {
    if items == [] then p else AddComments(AddAllComments(p, items[..|items| - 1]), items[|items| - 1])
  }

  function Start(t: Tables): Progress { Progress(t, Report(0, 0, 0, 0, 0, map[])) }

  /** `ingest_atomic` on a connection that stays up. */
  function Ingest(plan: Plan, t: Tables): Option<Progress> {
    var p1 := AddStories(Start(t), plan.stories);
    if p1.None? then None
    else
      var p2 := AddCases(p1.value, plan.cases);
      if p2.None? then None else Some(AddAllComments(p2.value, plan.comments))
  }

  // ── Nothing is lost and everything is counted ────────────────────

  /** The same row with comments added at the end. */
  predicate Commented(a: Row, b: Row) { b.body == a.body && b.parent == a.parent && Grown(a.comments, b.comments) }

  /** `b` has the rows of `a`, up to added comments, and `n` more. */
  ghost predicate Extends(a: map<string, Row>, b: map<string, Row>, n: nat) {
    |b| == |a| + n && (forall k :: k in a ==> k in b && Commented(a[k], b[k]))
  }

  ghost predicate Kept(a: map<string, Criterion>, b: map<string, Criterion>, n: nat) {
    |b| == |a| + n && (forall k :: k in a ==> k in b && b[k] == a[k])
  }

  /** `p` is `t` with the rows its report counts. */
  ghost predicate Counted(t: Tables, p: Progress) {
    && Extends(t.stories, p.t.stories, p.r.us) && Extends(t.cases, p.t.cases, p.r.uc)
    && Kept(t.criteria, p.t.criteria, p.r.ac) && SameTraces(t, p.t)
    && Referential(p.t)
  }

  lemma StoryCounted(t: Tables, p: Progress, item: PlannedStory)
    requires Counted(t, p) && AddStory(p, item).Some?
    ensures Counted(t, AddStory(p, item).value)
    ensures var r := AddStory(p, item).value.r; r.us + r.uc + r.skipped == p.r.us + p.r.uc + p.r.skipped + 1
  {
  }

  lemma {:induction false} StoriesCounted(t: Tables, p: Progress, items: seq<PlannedStory>)
    requires Counted(t, p) && AddStories(p, items).Some?
    ensures Counted(t, AddStories(p, items).value)
    ensures var r := AddStories(p, items).value.r;
      r.us + r.uc + r.skipped == p.r.us + p.r.uc + p.r.skipped + |items|
  {
    if items != [] {
      var n := |items| - 1;
      StoriesCounted(t, p, items[..n]);
      StoryCounted(t, AddStories(p, items[..n]).value, items[n]);
    }
  }

  lemma CriterionCounted(t: Tables, p: Progress, uc: string, item: PlannedCriterion)
    requires Counted(t, p) && uc in p.t.cases && AddCriterion(p, uc, item).Some?
    ensures var q := AddCriterion(p, uc, item).value;
      Counted(t, q) && q.t.cases == p.t.cases && q.t.stories == p.t.stories && q.r == p.r.(ac := p.r.ac + 1)
  {
  }

  lemma {:induction false} CriteriaCounted(t: Tables, p: Progress, uc: string, items: seq<PlannedCriterion>)
    requires Counted(t, p) && uc in p.t.cases && AddCriteria(p, uc, items).Some?
    ensures var q := AddCriteria(p, uc, items).value;
      Counted(t, q) && q.t.cases == p.t.cases && q.t.stories == p.t.stories && q.r == p.r.(ac := p.r.ac + |items|)
  {
    if items != [] {
      var n := |items| - 1;
      CriteriaCounted(t, p, uc, items[..n]);
      CriterionCounted(t, AddCriteria(p, uc, items[..n]).value, uc, items[n]);
    }
  }

  lemma CaseRowCounted(t: Tables, p: Progress, item: PlannedCase)
    requires Counted(t, p) && AddCaseRow(p, item).Some?
    ensures var q := AddCaseRow(p, item).value;
      Counted(t, q) && item.id in q.t.cases && q.r.uc == p.r.uc + 1 && q.r.us == p.r.us && q.r.skipped == p.r.skipped
  {
  }

  lemma CaseCounted(t: Tables, p: Progress, item: PlannedCase)
    requires Counted(t, p) && AddCase(p, item).Some?
    ensures Counted(t, AddCase(p, item).value)
    ensures var r := AddCase(p, item).value.r; r.us + r.uc + r.skipped == p.r.us + p.r.uc + p.r.skipped + 1
  {
    if !(item.id in p.t.cases && item.id != "") {
      CaseRowCounted(t, p, item);
      CriteriaCounted(t, AddCaseRow(p, item).value, item.id, item.acs);
    }
  }

  lemma {:induction false} CasesCounted(t: Tables, p: Progress, items: seq<PlannedCase>)
    requires Counted(t, p) && AddCases(p, items).Some?
    ensures Counted(t, AddCases(p, items).value)
    ensures var r := AddCases(p, items).value.r;
      r.us + r.uc + r.skipped == p.r.us + p.r.uc + p.r.skipped + |items|
  {
    if items != [] {
      var n := |items| - 1;
      CasesCounted(t, p, items[..n]);
      CaseCounted(t, AddCases(p, items[..n]).value, items[n]);
    }
  }

  /** The same rows, up to added comments. */
  ghost predicate SameRows(a: map<string, Row>, b: map<string, Row>) {
    a.Keys == b.Keys && (forall k :: k in a ==> Commented(a[k], b[k]))
  }

  ghost predicate SameButComments(a: Tables, b: Tables) {
    SameRows(a.stories, b.stories) && SameRows(a.cases, b.cases)
    && a.criteria == b.criteria && SameTraces(a, b)
  }

  lemma CommentedTwice(a: Row, b: Row, c: Row)
    requires Commented(a, b) && Commented(b, c)
    ensures Commented(a, c)
  {
    GrownTwice(a.comments, b.comments, c.comments);
  }

  lemma SameTwice(a: Tables, b: Tables, c: Tables)
    requires SameButComments(a, b) && SameButComments(b, c)
    ensures SameButComments(a, c)
  {
    forall k | k in a.stories ensures Commented(a.stories[k], c.stories[k]) {
      CommentedTwice(a.stories[k], b.stories[k], c.stories[k]);
    }
    forall k | k in a.cases ensures Commented(a.cases[k], c.cases[k]) {
      CommentedTwice(a.cases[k], b.cases[k], c.cases[k]);
    }
  }

  lemma RowCommented(rows: map<string, Row>, id: string, text: string)
    requires id in rows
    ensures SameRows(rows, rows[id := rows[id].(comments := rows[id].comments + [text])])
  {
    var cs := rows[id].comments;
    assert (cs + [text])[..|cs|] == cs;
  }

  lemma OneCommentSame(t: Tables, id: string, text: string)
    ensures SameButComments(t, WithComment(t, id, text))
  {
    if id in t.stories { RowCommented(t.stories, id, text); }
    else if id in t.cases { RowCommented(t.cases, id, text); }
  }

  lemma {:induction false} TextsSame(p: Progress, id: string, texts: seq<string>)
    ensures var q := AddTexts(p, id, texts);
      SameButComments(p.t, q.t) && q.r == p.r.(comments := p.r.comments + |texts|)
  {
    if texts != [] {
      var n := |texts| - 1;
      TextsSame(p, id, texts[..n]);
      var before := AddTexts(p, id, texts[..n]);
      OneCommentSame(before.t, id, texts[n]);
      SameTwice(p.t, before.t, AddTexts(p, id, texts).t);
    }
  }

  /** How many comments go to items the id map knows. */
  function CommentCount(idMap: map<string, string>, items: seq<PlannedComments>): nat {
    if items == [] then 0
    else
      var item := items[|items| - 1];
      CommentCount(idMap, items[..|items| - 1])
        + if item.source in idMap && idMap[item.source] != "" then |item.texts| else 0
  }

  lemma {:induction false} CommentsSame(p: Progress, items: seq<PlannedComments>)
    ensures var q := AddAllComments(p, items);
      SameButComments(p.t, q.t) && q.r == p.r.(comments := p.r.comments + CommentCount(p.r.idMap, items))
  {
    if items != [] {
      var n := |items| - 1;
      var before := AddAllComments(p, items[..n]);
      CommentsSame(p, items[..n]);
      if items[n].source in before.r.idMap {
        TextsSame(before, before.r.idMap[items[n].source], items[n].texts);
        SameTwice(p.t, before.t, AddAllComments(p, items).t);
      }
    }
  }

  lemma SameExtends(a: map<string, Row>, b: map<string, Row>, c: map<string, Row>, n: nat)
    requires Extends(a, b, n) && SameRows(b, c)
    ensures Extends(a, c, n)
  {
    assert |b| == |b.Keys| && |c| == |c.Keys|;
    forall k | k in a ensures k in c && Commented(a[k], c[k]) { CommentedTwice(a[k], b[k], c[k]); }
  }

  lemma CommentsCounted(t: Tables, p: Progress, q: Progress)
    requires Counted(t, p) && SameButComments(p.t, q.t) && q.r == p.r.(comments := q.r.comments)
    ensures Counted(t, q)
  {
    SameExtends(t.stories, p.t.stories, q.t.stories, p.r.us);
    SameExtends(t.cases, p.t.cases, q.t.cases, p.r.uc);
  }

  /** A committed ingestion accounts for every story and use case of the plan, as migrated or as skipped; the
      tables keep every row they had (but for added comments) and gain exactly the rows the report counts; and
      foreign keys hold. */
  lemma IngestConserves(plan: Plan, t: Tables)
    requires Referential(t) && Ingest(plan, t).Some?
    ensures var p := Ingest(plan, t).value;
      Counted(t, p) && p.r.us + p.r.uc + p.r.skipped == |plan.stories| + |plan.cases|
  {
    StoriesCounted(t, Start(t), plan.stories);
    var p1 := AddStories(Start(t), plan.stories).value;
    CasesCounted(t, p1, plan.cases);
    var p2 := AddCases(p1, plan.cases).value;
    CommentsSame(p2, plan.comments);
    CommentsCounted(t, p2, AddAllComments(p2, plan.comments));
  }

  // ── Running it again ─────────────────────────────────────────────

  function StoryIds(m: map<string, string>, items: seq<PlannedStory>): map<string, string> {
    if items == [] then m
    else StoryIds(m, items[..|items| - 1])[items[|items| - 1].source := items[|items| - 1].id]
  }

  function CaseIds(m: map<string, string>, items: seq<PlannedCase>): map<string, string> {
    if items == [] then m
    else CaseIds(m, items[..|items| - 1])[items[|items| - 1].source := items[|items| - 1].id]
  }

  lemma StoryThere(p: Progress, item: PlannedStory)
    requires AddStory(p, item).Some?
    ensures var q := AddStory(p, item).value;
      q.r.idMap == p.r.idMap[item.source := item.id] && q.r.comments == p.r.comments && q.t.cases == p.t.cases
      && q.t.stories.Keys == p.t.stories.Keys + {item.id}
  {
  }

  /** Every story of the plan is there afterwards; the id map follows from the plan alone. */
  lemma {:induction false} StoriesThere(p: Progress, items: seq<PlannedStory>)
    requires AddStories(p, items).Some?
    ensures var q := AddStories(p, items).value;
      q.r.idMap == StoryIds(p.r.idMap, items) && q.r.comments == p.r.comments && q.t.cases == p.t.cases
      && p.t.stories.Keys <= q.t.stories.Keys && (forall item :: item in items ==> item.id in q.t.stories)
  {
    hide AddStory;
    if items != [] {
      var front, last := items[..|items| - 1], items[|items| - 1];
      assert items == front + [last];
      StoriesThere(p, front);
      StoryThere(AddStories(p, front).value, last);
    }
  }

  lemma {:induction false} CriteriaOnly(p: Progress, uc: string, items: seq<PlannedCriterion>)
    requires AddCriteria(p, uc, items).Some?
    ensures var q := AddCriteria(p, uc, items).value;
      q.t.cases == p.t.cases && q.t.stories == p.t.stories && q.r == p.r.(ac := q.r.ac)
  {
    if items != [] { CriteriaOnly(p, uc, items[..|items| - 1]); }
  }

  lemma CaseThere(p: Progress, item: PlannedCase)
    requires AddCase(p, item).Some?
    ensures var q := AddCase(p, item).value;
      q.r.idMap == p.r.idMap[item.source := item.id] && q.r.comments == p.r.comments && q.t.stories == p.t.stories
      && q.t.cases.Keys == p.t.cases.Keys + {item.id}
  {
    if !(item.id in p.t.cases && item.id != "") { CriteriaOnly(AddCaseRow(p, item).value, item.id, item.acs); }
  }

  lemma {:induction false} CasesThere(p: Progress, items: seq<PlannedCase>)
    requires AddCases(p, items).Some?
    ensures var q := AddCases(p, items).value;
      q.r.idMap == CaseIds(p.r.idMap, items) && q.r.comments == p.r.comments && q.t.stories == p.t.stories
      && p.t.cases.Keys <= q.t.cases.Keys && (forall item :: item in items ==> item.id in q.t.cases)
  {
    hide AddCase;
    if items != [] {
      var front, last := items[..|items| - 1], items[|items| - 1];
      assert items == front + [last];
      CasesThere(p, front);
      CaseThere(AddCases(p, front).value, last);
    }
  }

  predicate AllNamedStories(items: seq<PlannedStory>) { forall item :: item in items ==> item.id != "" }

  predicate AllNamedCases(items: seq<PlannedCase>) { forall item :: item in items ==> item.id != "" }

  lemma {:induction false} StoriesAgain(p: Progress, items: seq<PlannedStory>)
    requires forall item :: item in items ==> item.id in p.t.stories
    ensures AddStories(p, items) ==
      if AllNamedStories(items) then
        Some(Progress(p.t, p.r.(skipped := p.r.skipped + |items|, idMap := StoryIds(p.r.idMap, items))))
      else None
  {
    if items != [] {
      var n := |items| - 1;
      assert items == items[..n] + [items[n]];
      StoriesAgain(p, items[..n]);
      assert AllNamedStories(items) <==> AllNamedStories(items[..n]) && items[n].id != "";
    }
  }

  lemma {:induction false} CasesAgain(p: Progress, items: seq<PlannedCase>)
    requires forall item :: item in items ==> item.id in p.t.cases
    ensures AddCases(p, items) ==
      if AllNamedCases(items) then
        Some(Progress(p.t, p.r.(skipped := p.r.skipped + |items|, idMap := CaseIds(p.r.idMap, items))))
      else None
  {
    if items != [] {
      var n := |items| - 1;
      assert items == items[..n] + [items[n]];
      CasesAgain(p, items[..n]);
      assert AllNamedCases(items) <==> AllNamedCases(items[..n]) && items[n].id != "";
    }
  }

  /** A committed plan run again adds no story, use case or criterion: it skips them all and only repeats the
      comments, when every item of the plan has a logical id; otherwise it aborts. */
  lemma IngestAgain(plan: Plan, t: Tables)
    requires Ingest(plan, t).Some?
    ensures var p := Ingest(plan, t).value;
      var again := Ingest(plan, p.t);
      if AllNamedStories(plan.stories) && AllNamedCases(plan.cases) then
        again.Some? && SameButComments(p.t, again.value.t)
        && again.value.r == Report(0, 0, 0, p.r.comments, |plan.stories| + |plan.cases|, p.r.idMap)
      else again.None?
  {
    hide AddStories;
    hide AddCases;
    hide AddAllComments;
    hide CommentCount;
    hide Commented;
    StoriesThere(Start(t), plan.stories);
    var p1 := AddStories(Start(t), plan.stories).value;
    CasesThere(p1, plan.cases);
    var p2 := AddCases(p1, plan.cases).value;
    CommentsSame(p2, plan.comments);
    var p := Ingest(plan, t).value;
    StoriesAgain(Start(p.t), plan.stories);
    if AllNamedStories(plan.stories) {
      var q1 := AddStories(Start(p.t), plan.stories).value;
      CasesAgain(q1, plan.cases);
      if AllNamedCases(plan.cases) { CommentsSame(AddCases(q1, plan.cases).value, plan.comments); }
    }
  }

  /** A story without a logical id is ingested once, and then never again. */
  lemma NamelessAborts(body: Body)
    ensures var plan := Plan([PlannedStory("card", "", body)], [], []);
      var t := Tables(map[], map[], map[], map[], map[], map[]);
      Ingest(plan, t).Some? && Ingest(plan, Ingest(plan, t).value.t).None?
  {
    var item := PlannedStory("card", "", body);
    var plan := Plan([item], [], []);
    var t := Tables(map[], map[], map[], map[], map[], map[]);
    assert [item][..0] == [];
    assert AddStories(Start(t), [item]) == AddStory(Start(t), item);
    assert item in plan.stories;
    IngestAgain(plan, t);
  }

  // ── The transaction as the program runs it ───────────────────────

  lemma {:induction false} StoriesStop(p: Progress, items: seq<PlannedStory>, n: nat)
    requires n <= |items| && AddStories(p, items[..n]).None?
    ensures AddStories(p, items).None?
  {
    if n < |items| {
      assert items[..|items| - 1][..n] == items[..n];
      StoriesStop(p, items[..|items| - 1], n);
    } else {
      assert items[..n] == items;
    }
  }

  lemma {:induction false} CasesStop(p: Progress, items: seq<PlannedCase>, n: nat)
    requires n <= |items| && AddCases(p, items[..n]).None?
    ensures AddCases(p, items).None?
  {
    if n < |items| {
      assert items[..|items| - 1][..n] == items[..n];
      CasesStop(p, items[..|items| - 1], n);
    } else {
      assert items[..n] == items;
    }
  }

  lemma {:induction false} CriteriaStop(p: Progress, uc: string, items: seq<PlannedCriterion>, n: nat)
    requires n <= |items| && AddCriteria(p, uc, items[..n]).None?
    ensures AddCriteria(p, uc, items).None?
  {
    if n < |items| {
      assert items[..|items| - 1][..n] == items[..n];
      CriteriaStop(p, uc, items[..|items| - 1], n);
    } else {
      assert items[..n] == items;
    }
  }

  /** The connection: `breaks(n)` says whether its n-th statement raises. */
  class NativeBackend {
    var tables: Tables
    var clock: nat
    const breaks: nat -> bool

    constructor (tables: Tables, breaks: nat -> bool)
      ensures this.tables == tables && this.breaks == breaks && clock == 0
    {
      this.tables, this.breaks, this.clock := tables, breaks, 0;
    }

    /** The connection stays up. */
    ghost predicate Steady() { forall n :: !breaks(n) }

    method Execute() returns (ok: bool)
      modifies this`clock
      ensures Steady() ==> ok
    {
      ok := !breaks(clock);
      clock := clock + 1;
    }

    method InsertStory(r: Report, item: PlannedStory) returns (ok: bool, after: Report)
      modifies this
      ensures ok ==> AddStory(Progress(old(tables), r), item) == Some(Progress(tables, after))
      ensures !ok && Steady() ==> AddStory(Progress(old(tables), r), item).None?
    {
      after := r;
      ok := Execute();
      if !ok { return; }
      var idMap := r.idMap[item.source := item.id];
      if item.id in tables.stories && item.id != "" {
        after := r.(idMap := idMap, skipped := r.skipped + 1);
        return;
      }
      ok := Execute();
      if !ok { return; }
      if item.id in tables.stories { return false, r; }
      tables := tables.(stories := tables.stories[item.id := StoryRow(item)]);
      after := r.(idMap := idMap, us := r.us + 1);
    }

    method InsertCriteria(r: Report, uc: string, items: seq<PlannedCriterion>) returns (ok: bool, after: Report)
      modifies this
      ensures ok ==> AddCriteria(Progress(old(tables), r), uc, items) == Some(Progress(tables, after))
      ensures !ok && Steady() ==> AddCriteria(Progress(old(tables), r), uc, items).None?
    {
      ghost var start := Progress(tables, r);
      ok, after := true, r;
      for i := 0 to |items|
        invariant AddCriteria(start, uc, items[..i]) == Some(Progress(tables, after))
      {
        assert items[..i + 1][..i] == items[..i];
        var key := CriterionKey(uc, items[i].ac);
        ok := Execute();
        if !ok { return; }
        if key in tables.criteria {
          CriteriaStop(start, uc, items, i + 1);
          return false, after;
        }
        var row := Criterion(uc, items[i].ac, items[i].text, items[i].done, false);
        tables := tables.(criteria := tables.criteria[key := row]);
        after := after.(ac := after.ac + 1);
      }
      assert items[..|items|] == items;
    }

    method InsertCase(r: Report, item: PlannedCase) returns (ok: bool, after: Report)
      modifies this
      ensures ok ==> AddCase(Progress(old(tables), r), item) == Some(Progress(tables, after))
      ensures !ok && Steady() ==> AddCase(Progress(old(tables), r), item).None?
    {
      after := r;
      ok := Execute();
      if !ok { return; }
      if item.id in tables.cases && item.id != "" {
        after := r.(idMap := r.idMap[item.source := item.id], skipped := r.skipped + 1);
        return;
      }
      var parent := if item.parentSource in r.idMap then Some(r.idMap[item.parentSource]) else None;
      ok := Execute();
      if !ok { return; }
      if item.id in tables.cases || (parent.Some? && parent.value !in tables.stories) { return false, r; }
      tables := tables.(cases := tables.cases[item.id := Row(item.body, parent, [])]);
      after := r.(idMap := r.idMap[item.source := item.id], uc := r.uc + 1);
      ok, after := InsertCriteria(after, item.id, item.acs);
    }

    method InsertTexts(r: Report, id: string, texts: seq<string>) returns (ok: bool, after: Report)
      modifies this
      ensures ok ==> AddTexts(Progress(old(tables), r), id, texts) == Progress(tables, after)
      ensures Steady() ==> ok
    {
      ghost var start := Progress(tables, r);
      ok, after := true, r;
      for i := 0 to |texts|
        invariant ok && AddTexts(start, id, texts[..i]) == Progress(tables, after)
      {
        assert texts[..i + 1][..i] == texts[..i];
        ok := Execute();
        if !ok { return; }
        tables := WithComment(tables, id, texts[i]);
        after := after.(comments := after.comments + 1);
      }
      assert texts[..|texts|] == texts;
    }

    method InsertStories(r: Report, items: seq<PlannedStory>) returns (ok: bool, after: Report)
      modifies this
      ensures ok ==> AddStories(Progress(old(tables), r), items) == Some(Progress(tables, after))
      ensures !ok && Steady() ==> AddStories(Progress(old(tables), r), items).None?
    {
      ghost var start := Progress(tables, r);
      ok, after := true, r;
      for i := 0 to |items|
        invariant ok && AddStories(start, items[..i]) == Some(Progress(tables, after))
      {
        assert items[..i + 1][..i] == items[..i];
        ok, after := InsertStory(after, items[i]);
        if !ok {
          if Steady() { StoriesStop(start, items, i + 1); }
          return;
        }
      }
      assert items[..|items|] == items;
    }

    method InsertCases(r: Report, items: seq<PlannedCase>) returns (ok: bool, after: Report)
      modifies this
      ensures ok ==> AddCases(Progress(old(tables), r), items) == Some(Progress(tables, after))
      ensures !ok && Steady() ==> AddCases(Progress(old(tables), r), items).None?
    {
      ghost var start := Progress(tables, r);
      ok, after := true, r;
      for i := 0 to |items|
        invariant ok && AddCases(start, items[..i]) == Some(Progress(tables, after))
      {
        assert items[..i + 1][..i] == items[..i];
        ok, after := InsertCase(after, items[i]);
        if !ok {
          if Steady() { CasesStop(start, items, i + 1); }
          return;
        }
      }
      assert items[..|items|] == items;
    }

    method InsertComments(r: Report, items: seq<PlannedComments>) returns (ok: bool, after: Report)
      modifies this
      ensures ok ==> AddAllComments(Progress(old(tables), r), items) == Progress(tables, after)
      ensures Steady() ==> ok
    {
      ghost var start := Progress(tables, r);
      ok, after := true, r;
      for i := 0 to |items|
        invariant ok && AddAllComments(start, items[..i]) == Progress(tables, after)
      {
        assert items[..i + 1][..i] == items[..i];
        if items[i].source in after.idMap && after.idMap[items[i].source] != "" {
          ok, after := InsertTexts(after, after.idMap[items[i].source], items[i].texts);
          if !ok { return; }
        }
      }
      assert items[..|items|] == items;
    }

    /** `ingest_atomic`: whichever statement raises, the transaction rolls back to the tables as they were. */
    method IngestAtomic(plan: Plan) returns (report: Option<Report>)
      modifies this
      ensures report.Some? ==> Ingest(plan, old(tables)) == Some(Progress(tables, report.value))
      ensures report.None? ==> tables == old(tables)
      ensures Steady() ==> report.Some? == Ingest(plan, old(tables)).Some?
    {
      var saved := tables;
      var ok, r := InsertStories(Report(0, 0, 0, 0, 0, map[]), plan.stories);
      if ok { ok, r := InsertCases(r, plan.cases); }
      if ok { ok, r := InsertComments(r, plan.comments); }
      if !ok {
        tables := saved;
        return None;
      }
      report := Some(r);
    }

    // ── purge_use_case ───────────────────────────────────────────────

    /** One DELETE a table. */
    method DeleteCase(uc: string)
      requires uc !in tables.reservations
      modifies this
      ensures tables == Purged(old(tables), uc)
    {
      tables := tables.(criteria := CriteriaOfOthers(tables, uc));
      tables := tables.(transitions := OfOthers(tables.transitions, uc));
      tables := tables.(reservations := tables.reservations - {uc});
      tables := tables.(branches := OfOthers(tables.branches, uc));
      tables := tables.(cases := tables.cases - {uc});
      assert tables.reservations == old(tables.reservations);
    }

    /** `purge_use_case`: refused without a change, or the use case goes with all that hangs from it; the snapshot
        is what it was. */
    method PurgeUseCase(uc: string) returns (result: Result<Snapshot, Refusal>)
      modifies this
      ensures (tables, result) == Purge(old(tables), uc)
    {
      if uc !in tables.cases { return Err(NotFound); }
      var row := tables.cases[uc];
      var acs := map c | c in tables.criteria && tables.criteria[c].uc == uc :: tables.criteria[c];
      if row.body.state !in {"backlog", "archived"} { return Err(BadState); }
      if exists c :: c in acs && acs[c].done { return Err(HasDoneCriterion); }
      if row.body.evidence || exists c :: c in acs && acs[c].evidence { return Err(HasEvidence); }
      if uc in tables.reservations { return Err(Reserved); }
      DeleteCase(uc);
      result := Ok(Snapshot(row, acs));
    }
  }

  datatype Snapshot = Snapshot(row: Row, acs: map<string, Criterion>)

  datatype Refusal = NotFound | BadState | HasDoneCriterion | HasEvidence | Reserved

  /** The rows of the other use cases. */
  function OfOthers(rows: map<string, string>, uc: string): map<string, string> {
    map id | id in rows && rows[id] != uc :: rows[id]
  }

  function CriteriaOf(t: Tables, uc: string): map<string, Criterion> {
    map c | c in t.criteria && t.criteria[c].uc == uc :: t.criteria[c]
  }

  function CriteriaOfOthers(t: Tables, uc: string): map<string, Criterion> {
    map c | c in t.criteria && t.criteria[c].uc != uc :: t.criteria[c]
  }

  function Purged(t: Tables, uc: string): Tables {
    t.(cases := t.cases - {uc}, criteria := CriteriaOfOthers(t, uc),
       transitions := OfOthers(t.transitions, uc), branches := OfOthers(t.branches, uc))
  }

  /** `purge_refusal`, in its order. */
  function PurgeRefusal(t: Tables, uc: string): Option<Refusal>
    requires uc in t.cases
  {
    var row := t.cases[uc].body;
    if row.state !in {"backlog", "archived"} then Some(BadState)
    else if exists c :: c in CriteriaOf(t, uc) && t.criteria[c].done then Some(HasDoneCriterion)
    else if row.evidence || exists c :: c in CriteriaOf(t, uc) && t.criteria[c].evidence then Some(HasEvidence)
    else if uc in t.reservations then Some(Reserved)
    else None
  }

  function Purge(t: Tables, uc: string): (Tables, Result<Snapshot, Refusal>) {
    if uc !in t.cases then (t, Err(NotFound))
    else if PurgeRefusal(t, uc).Some? then (t, Err(PurgeRefusal(t, uc).value))
    else
      (Purged(t, uc), Ok(Snapshot(t.cases[uc], CriteriaOf(t, uc))))
  }

  /** Inserting a snapshot's rows again. */
  function Restore(t: Tables, uc: string, copy: Snapshot): Tables {
    t.(cases := t.cases[uc := copy.row], criteria := t.criteria + copy.acs)
  }

  predicate Refers(t: Tables, uc: string) {
    || uc in t.cases || uc in t.reservations || uc in t.transitions.Values || uc in t.branches.Values
    || exists c :: c in t.criteria && t.criteria[c].uc == uc
  }

  lemma RefusalExact(t: Tables, uc: string)
    requires uc in t.cases
    ensures PurgeRefusal(t, uc).None? <==>
      t.cases[uc].body.state in {"backlog", "archived"} && !t.cases[uc].body.evidence && uc !in t.reservations
      && (forall c :: c in t.criteria && t.criteria[c].uc == uc ==> !t.criteria[c].done && !t.criteria[c].evidence)
  {
    forall c | c in t.criteria && t.criteria[c].uc == uc ensures c in CriteriaOf(t, uc) { }
  }

  lemma PurgedClean(t: Tables, uc: string)
    requires Referential(t) && uc in t.cases && uc !in t.reservations
    ensures Referential(Purged(t, uc)) && !Refers(Purged(t, uc), uc)
  {
  }

  lemma RestoredTables(t: Tables, uc: string)
    requires uc in t.cases
    ensures Restore(Purged(t, uc), uc, Snapshot(t.cases[uc], CriteriaOf(t, uc)))
      == t.(transitions := OfOthers(t.transitions, uc), branches := OfOthers(t.branches, uc))
  {
    var back := Restore(Purged(t, uc), uc, Snapshot(t.cases[uc], CriteriaOf(t, uc)));
    assert back.criteria == t.criteria && back.cases == t.cases;
  }

  /** A purge goes through exactly for a use case that never had work; then nothing refers to it any more, no
      other row changed, and the snapshot brings stories, use cases and criteria back exactly; only what was
      recorded of its states and branches is gone for good. */
  lemma PurgeRestores(t: Tables, uc: string)
    requires Referential(t)
    ensures var (after, result) := Purge(t, uc);
      result.Ok? <==>
        uc in t.cases && t.cases[uc].body.state in {"backlog", "archived"} && !t.cases[uc].body.evidence
        && uc !in t.reservations
        && (forall c :: c in t.criteria && t.criteria[c].uc == uc ==> !t.criteria[c].done && !t.criteria[c].evidence)
    ensures var (after, result) := Purge(t, uc);
      if result.Ok? then
        && Referential(after) && !Refers(after, uc)
        && Restore(after, uc, result.value)
          == t.(transitions := OfOthers(t.transitions, uc), branches := OfOthers(t.branches, uc))
      else after == t
  {
    hide PurgeRefusal;
    hide Purged;
    hide Restore;
    hide Refers;
    hide Referential;
    if uc in t.cases {
      RefusalExact(t, uc);
      if PurgeRefusal(t, uc).None? {
        PurgedClean(t, uc);
        RestoredTables(t, uc);
      }
    }
  }

  /** Some criterion of the use case is done, or has evidence. */
  predicate SomeDone(t: Tables, uc: string) {
    exists c :: c in t.criteria && t.criteria[c].uc == uc && t.criteria[c].done
  }

  predicate SomeEvidence(t: Tables, uc: string) {
    exists c :: c in t.criteria && t.criteria[c].uc == uc && t.criteria[c].evidence
  }

  /** A refused purge is told the first reason there is: the state, then work done, then evidence, then a
      reservation. */
  lemma RefusalsInOrder(t: Tables, uc: string)
    ensures var result := Purge(t, uc).1;
      var there := uc in t.cases;
      var idle := there && t.cases[uc].body.state in {"backlog", "archived"};
      var traced := there && (t.cases[uc].body.evidence || SomeEvidence(t, uc));
      && (result == Err(NotFound) <==> !there)
      && (result == Err(BadState) <==> there && !idle)
      && (result == Err(HasDoneCriterion) <==> idle && SomeDone(t, uc))
      && (result == Err(HasEvidence) <==> idle && !SomeDone(t, uc) && traced)
      && (result == Err(Reserved) <==> idle && !SomeDone(t, uc) && !traced && uc in t.reservations)
  {
    if uc in t.cases {
      forall c | c in t.criteria && t.criteria[c].uc == uc ensures c in CriteriaOf(t, uc) { }
    }
  }
}
