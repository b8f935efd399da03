/** Guarded updates of the native backend (server/backends/native_backend.py): stories and use cases are rows
    with a version, every statement is atomic, and calls of different clients interleave between statements. */
module NativeUpdates {
  import opened Lists
  import opened Wrappers

  datatype Table = UserStories | UseCases | AcceptanceCriteria

  type Key = (Table, string)

  /** `source` is external_source and external_id; `meta` without its `comments` key. A criterion has its text as
      name and its use case as parent. */
  datatype Row = Row(
    name: string, description: string, state: string, labels: seq<string>, priority: string,
    source: (string, string), parent: Option<string>, epic: Option<string>,
    meta: map<string, string>, comments: seq<string>, version: nat)

  datatype Db = Db(rows: map<Key, Row>, epics: set<string>)

  datatype Patch = Patch(values: map<string, string>, comments: Option<seq<string>>)

  /** The caller's meta: the reserved key `expected_version` (absent, null or a number) and the rest. */
  datatype Meta = Meta(expected: Option<Option<int>>, rest: Patch)

  /** The arguments of `update_item`; `None` leaves a column as it is. */
  datatype Change = Change(
    name: Option<string>, description: Option<string>, state: Option<string>, labels: Option<seq<string>>,
    priority: Option<string>, sourceName: Option<string>, sourceId: Option<string>, parent: Option<string>,
    meta: Option<Meta>)

  function SplitExpectedVersion(meta: Option<Meta>): (Option<Patch>, Option<int>) {
    if meta.None? then (None, None)
    else if meta.value.expected.None? then (Some(meta.value.rest), None)
    else (if meta.value.rest == Patch(map[], None) then None else Some(meta.value.rest), meta.value.expected.value)
  }

  function Expected(change: Change): Option<int> { SplitExpectedVersion(change.meta).1 }

  /** The columns the guard protects. */
  datatype Content = Content(
    name: string, description: string, state: string, labels: seq<string>, priority: string,
    source: (string, string), parent: Option<string>)

  function ContentOf(r: Row): Content {
    Content(r.name, r.description, r.state, r.labels, r.priority, r.source, r.parent)
  }

  /** A content with the changed columns laid over it. */
  function Overlay(c: Content, table: Table, change: Change): Content {
    Content(Or(change.name, c.name), Or(change.description, c.description), Or(change.state, c.state),
            Or(change.labels, c.labels), Or(change.priority, c.priority),
            (Or(change.sourceName, c.source.0), Or(change.sourceId, c.source.1)),
            if table.UseCases? && change.parent.Some? then change.parent else c.parent)
  }

  /** What the UPDATE makes of a row; meta is merged, and the version goes up by one. */
  function Changed(r: Row, table: Table, change: Change): Row {
    var c := Overlay(ContentOf(r), table, change);
    var patch := SplitExpectedVersion(change.meta).0;
    Row(c.name, c.description, c.state, c.labels, c.priority, c.source, c.parent, r.epic,
        if patch.Some? then r.meta + patch.value.values else r.meta,
        if patch.Some? then Or(patch.value.comments, r.comments) else r.comments,
        r.version + 1)
  }

  // ── One call, statement by statement ─────────────────────────────

  datatype Outcome = Updated(table: Table, row: Row) | NotFound | Stale(expected: int, actual: nat) | BadParent

  datatype Stage = Start | Located(table: Table) | Missed(table: Table) | Finished(outcome: Outcome)

  /** A call of `update_item` and how far it got. */
  datatype Client = Client(id: string, change: Change, stage: Stage)

  /** `_locate_us_or_uc` */
  function Locate(db: Db, id: string): Option<Table> {
    if (UserStories, id) in db.rows then Some(UserStories)
    else if (UseCases, id) in db.rows then Some(UseCases)
    else None
  }

  /** `_locate_table_any` */
  function LocateAny(db: Db, id: string): Option<Table> {
    if Locate(db, id).Some? then Locate(db, id)
    else if (AcceptanceCriteria, id) in db.rows then Some(AcceptanceCriteria)
    else None
  }

  /** The WHERE clause finds the row. */
  predicate Matches(db: Db, key: Key, expected: Option<int>) {
    key in db.rows && (expected.None? || db.rows[key].version == expected.value)
  }

  /** The parent column refers to a story. */
  predicate ParentThere(db: Db, table: Table, change: Change) {
    table.UseCases? && change.parent.Some? ==> (UserStories, change.parent.value) in db.rows
  }

  function Advance(db: Db, c: Client): (Db, Client) {
    match c.stage
    case Start =>
      var t := Locate(db, c.id);
      (db, c.(stage := if t.None? then Finished(NotFound) else Located(t.value)))
    case Located(t) =>
      if !Matches(db, (t, c.id), Expected(c.change)) then
        (db, c.(stage := if Expected(c.change).None? then Finished(NotFound) else Missed(t)))
      else if !ParentThere(db, t, c.change) then (db, c.(stage := Finished(BadParent)))
      else
        var row := Changed(db.rows[(t, c.id)], t, c.change);
        (db.(rows := db.rows[(t, c.id) := row]), c.(stage := Finished(Updated(t, row))))
    case Missed(t) =>
      if (t, c.id) in db.rows && Expected(c.change).Some? then
        (db, c.(stage := Finished(Stale(Expected(c.change).value, db.rows[(t, c.id)].version))))
      else (db, c.(stage := Finished(NotFound)))
    case Finished(_) => (db, c)
  }

  // ── Everything that happens to the rows ──────────────────────────

  /** A statement of a client's call, or another write that the database runs as one. */
  datatype Event =
    | OfClient(client: nat)
    | ArchiveRow(key: Key, archivedAt: string, reason: string)
    | AppendComment(key: Key, text: string)
    | SetUsEpic(us: string, epic: Option<string>)
    | CreateEpic(epicId: string)
    | DeleteEpic(epicId: string)
    | InsertRow(key: Key, row: Row)
    | PurgeUseCase(uc: string)

  datatype World = World(db: Db, clients: seq<Client>)

  /** A criterion has no state of its own to archive. */
  function Archived(r: Row, table: Table, archivedAt: string, reason: string): Row {
    var meta := r.meta["archived_at" := archivedAt]["archive_reason" := reason];
    r.(state := if table.AcceptanceCriteria? then r.state else "archived", meta := meta, version := r.version + 1)
  }

  /** A purge takes the use case and its criteria. */
  predicate Purges(uc: string, key: Key, r: Row) {
    key == (UseCases, uc) || (key.0.AcceptanceCriteria? && r.parent == Some(uc))
  }

  /** ON DELETE SET NULL: the version stays. */
  function Detached(r: Row, epic: string): Row { if r.epic == Some(epic) then r.(epic := None) else r }

  function StepDb(db: Db, e: Event): Db {
    match e
    case OfClient(_) => db
    case ArchiveRow(key, archivedAt, reason) =>
      if key in db.rows then db.(rows := db.rows[key := Archived(db.rows[key], key.0, archivedAt, reason)]) else db
    case AppendComment(key, text) =>
      if key in db.rows then
        db.(rows := db.rows[key := db.rows[key].(comments := db.rows[key].comments + [text])])
      else db
    case SetUsEpic(us, epic) =>
      var key := (UserStories, us);
      if key in db.rows && (epic.Some? ==> epic.value in db.epics) then
        db.(rows := db.rows[key := db.rows[key].(epic := epic, version := db.rows[key].version + 1)])
      else db
    case CreateEpic(epic) => db.(epics := db.epics + {epic})
    case DeleteEpic(epic) =>
      if epic in db.epics then
        db.(rows := map k | k in db.rows :: Detached(db.rows[k], epic), epics := db.epics - {epic})
      else db
    case InsertRow(key, row) => if key in db.rows then db else db.(rows := db.rows[key := row.(version := 1)])
    case PurgeUseCase(uc) => db.(rows := map k | k in db.rows && !Purges(uc, k, db.rows[k]) :: db.rows[k])
  }

  function Step(w: World, e: Event): World {
    if !e.OfClient? then World(StepDb(w.db, e), w.clients)
    else if e.client >= |w.clients| then w
    else
      var (db, c) := Advance(w.db, w.clients[e.client]);
      World(db, w.clients[e.client := c])
  }

  function Run(w: World, events: seq<Event>): World {
    if events == [] then w else Step(Run(w, events[..|events| - 1]), events[|events| - 1])
  }

  // ── Versions never fall ──────────────────────────────────────────

  /** `r2` is `r1` some writes later: the version did not fall, and while it is the same only comments were
      added and only the epic went away. */
  predicate Later(r1: Row, r2: Row) {
    && r1.version <= r2.version
    && (r1.version == r2.version ==> ContentOf(r1) == ContentOf(r2) && r1.meta == r2.meta)
    && (r1.version == r2.version ==> Grown(r1.comments, r2.comments) && r2.epic in {r1.epic, None})
  }

  lemma LaterTwice(a: Row, b: Row, c: Row)
    requires Later(a, b) && Later(b, c)
    ensures Later(a, c)
  {
    if a.version == c.version { GrownTwice(a.comments, b.comments, c.comments); }
  }

  /** How many rows have had the key: the one at the start, and each one that came when there was none. */
  function Lives(w: World, events: seq<Event>, key: Key): nat {
    if events == [] then (if key in w.db.rows then 1 else 0)
    else
      var before := Run(w, events[..|events| - 1]);
      var after := Step(before, events[|events| - 1]);
      Lives(w, events[..|events| - 1], key) + if key !in before.db.rows && key in after.db.rows then 1 else 0
  }

  lemma DbStepLater(db: Db, e: Event, key: Key)
    requires key in db.rows && key in StepDb(db, e).rows
    ensures Later(db.rows[key], StepDb(db, e).rows[key])
  {
    var cs := db.rows[key].comments;
    if e.AppendComment? && e.key == key { assert (cs + [e.text])[..|cs|] == cs; }
  }

  lemma StepLater(w: World, e: Event, key: Key)
    requires key in w.db.rows && key in Step(w, e).db.rows
    ensures Later(w.db.rows[key], Step(w, e).db.rows[key])
  {
    if !e.OfClient? { DbStepLater(w.db, e, key); }
  }

  /** Versions never fall, over any interleaving in which the row is not purged and created again, for as long as
      it is there; and between two moments with the same version the guarded columns are the same. */
  lemma {:induction false} VersionsNeverFall(w: World, events: seq<Event>, key: Key)
    requires key in w.db.rows && Lives(w, events, key) == 1
    ensures key in Run(w, events).db.rows ==> Later(w.db.rows[key], Run(w, events).db.rows[key])
  {
    hide Step;
    hide Later;
    if events != [] {
      var n := |events| - 1;
      var mid, after := Run(w, events[..n]), Run(w, events);
      AtLeastOneLife(w, events[..n], key);
      VersionsNeverFall(w, events[..n], key);
      if key in after.db.rows {
        StepLater(mid, events[n], key);
        LaterTwice(w.db.rows[key], mid.db.rows[key], after.db.rows[key]);
      }
    } else {
      LaterSame(w.db.rows[key]);
    }
  }

  lemma LaterSame(r: Row)
    ensures Later(r, r)
  {
  }

  lemma {:induction false} AtLeastOneLife(w: World, events: seq<Event>, key: Key)
    requires key in w.db.rows
    ensures Lives(w, events, key) >= 1
  {
    if events != [] { AtLeastOneLife(w, events[..|events| - 1], key); }
  }

  lemma StepBears(w: World, e: Event, key: Key)
    requires key !in w.db.rows && key in Step(w, e).db.rows
    ensures e.InsertRow? && e.key == key && Step(w, e).db.rows[key] == e.row.(version := 1)
  {
  }

  lemma StepBuries(w: World, e: Event, key: Key)
    requires key in w.db.rows && key !in Step(w, e).db.rows
    ensures e.PurgeUseCase? && Purges(e.uc, key, w.db.rows[key])
  {
  }

  /** The event may end the row: a purge of the use case itself, or any purge for a criterion. */
  predicate MayEnd(e: Event, key: Key) { e.PurgeUseCase? && (key == (UseCases, e.uc) || key.0.AcceptanceCriteria?) }

  /** Only a purge ends a row, so without an insertion after a purge there is only one. */
  lemma {:induction false} OneLife(w: World, events: seq<Event>, key: Key)
    requires key in w.db.rows
    requires forall i, j | 0 <= i < j < |events| && MayEnd(events[i], key) ::
               !(events[j].InsertRow? && events[j].key == key)
    ensures Lives(w, events, key) == 1
    ensures key in Run(w, events).db.rows || exists i :: 0 <= i < |events| && MayEnd(events[i], key)
  {
    hide Step;
    if events != [] {
      var n := |events| - 1;
      var front, mid := events[..n], Run(w, events[..n]);
      OneLife(w, front, key);
      if key !in mid.db.rows {
        var i :| 0 <= i < n && MayEnd(front[i], key);
        assert MayEnd(events[i], key);
        if key in Step(mid, events[n]).db.rows { StepBears(mid, events[n], key); }
      } else if key !in Step(mid, events[n]).db.rows {
        StepBuries(mid, events[n], key);
        assert MayEnd(events[n], key);
      }
    }
  }

  /** A guarded update that succeeds lays its change over exactly the columns its caller read, whatever
      happened between the read and the update, unless the row was purged and created again. */
  lemma GuardFindsWhatWasRead(w: World, events: seq<Event>, c: nat, key: Key)
    requires key in w.db.rows && Lives(w, events, key) == 1
    requires c < |Run(w, events).clients| && Run(w, events).clients[c].id == key.1
    requires var client := Run(w, events).clients[c];
      client.stage == Located(key.0) && Expected(client.change) == Some(w.db.rows[key].version)
    ensures var client := Run(w, events).clients[c];
      var after := Step(Run(w, events), OfClient(c)).clients[c].stage;
      after.Finished? && after.outcome.Updated? ==>
        ContentOf(after.outcome.row) == Overlay(ContentOf(w.db.rows[key]), key.0, client.change)
        && after.outcome.row.version == w.db.rows[key].version + 1
  {
    VersionsNeverFall(w, events, key);
  }

  /** The event that made the row that is there now, when it is not the one of the start. */
  lemma {:induction false} BirthOf(w: World, events: seq<Event>, key: Key) returns (i: nat)
    requires key in Run(w, events).db.rows && key in w.db.rows && Lives(w, events, key) > 1
    ensures i < |events| && events[i].InsertRow? && events[i].key == key && key !in Run(w, events[..i]).db.rows
    ensures Later(events[i].row.(version := 1), Run(w, events).db.rows[key])
  {
    hide Step;
    hide Later;
    var n := |events| - 1;
    var front, mid := events[..n], Run(w, events[..n]);
    if key in mid.db.rows {
      i := BirthOf(w, front, key);
      assert front[..i] == events[..i];
      StepLater(mid, events[n], key);
      LaterTwice(events[i].row.(version := 1), mid.db.rows[key], Run(w, events).db.rows[key]);
    } else {
      i := n;
      StepBears(mid, events[n], key);
      LaterSame(events[n].row.(version := 1));
    }
  }

  /** And then, if the new row has reached the version that was read, the guard lets the update through: it lays
      its change over the row that an insertion made after the read. */
  lemma GuardMeetsNewRow(w: World, events: seq<Event>, c: nat, key: Key) returns (i: nat)
    requires key in w.db.rows && Lives(w, events, key) > 1
    requires c < |Run(w, events).clients| && Run(w, events).clients[c].id == key.1
    requires var now, client := Run(w, events), Run(w, events).clients[c];
      && client.stage == Located(key.0) && Expected(client.change) == Some(w.db.rows[key].version)
      && Matches(now.db, key, Expected(client.change)) && ParentThere(now.db, key.0, client.change)
    ensures var now, client := Run(w, events), Run(w, events).clients[c];
      && Step(now, OfClient(c)).clients[c].stage
        == Finished(Updated(key.0, Changed(now.db.rows[key], key.0, client.change)))
      && i < |events| && events[i].InsertRow? && events[i].key == key && key !in Run(w, events[..i]).db.rows
      && Later(events[i].row.(version := 1), now.db.rows[key])
  {
    i := BirthOf(w, events, key);
  }

  // ── Two updates never both win ───────────────────────────────────

  /** The client's update of the row went through while expecting version `v`. */
  predicate Won(c: Client, key: Key, v: int) {
    && c.id == key.1 && Expected(c.change) == Some(v)
    && c.stage.Finished? && c.stage.outcome.Updated? && c.stage.outcome.table == key.0
  }

  lemma AdvanceWins(db: Db, c: Client, key: Key, v: int)
    requires !Won(c, key, v) && Won(Advance(db, c).1, key, v)
    ensures key in db.rows && db.rows[key].version == v && Advance(db, c).0.rows[key].version == v + 1
  {
  }

  lemma AdvanceKeepsWin(db: Db, c: Client, key: Key, v: int)
    requires Won(c, key, v)
    ensures Advance(db, c) == (db, c)
  {
  }

  /** Only one of the two has won, and the row is past the version both expect once one has. */
  predicate OneWinner(w: World, c1: nat, c2: nat, key: Key, v: int)
    requires c1 < |w.clients| && c2 < |w.clients|
  {
    && !(Won(w.clients[c1], key, v) && Won(w.clients[c2], key, v))
    && (Won(w.clients[c1], key, v) || Won(w.clients[c2], key, v) ==>
          key in w.db.rows ==> w.db.rows[key].version > v)
  }

  lemma StepKeepsOneWinner(w: World, e: Event, c1: nat, c2: nat, key: Key, v: int)
    requires c1 < |w.clients| && c2 < |w.clients| && c1 != c2 && OneWinner(w, c1, c2, key, v)
    requires key !in w.db.rows && key in Step(w, e).db.rows
      ==> !Won(w.clients[c1], key, v) && !Won(w.clients[c2], key, v)
    ensures OneWinner(Step(w, e), c1, c2, key, v)
  {
    if key in w.db.rows && key in Step(w, e).db.rows { StepLater(w, e, key); }
    if e.OfClient? && e.client < |w.clients| {
      var c := w.clients[e.client];
      if Won(c, key, v) { AdvanceKeepsWin(w.db, c, key, v); }
      else if Won(Advance(w.db, c).1, key, v) { AdvanceWins(w.db, c, key, v); }
    }
  }

  lemma StepWins(w: World, e: Event, c: nat, key: Key, v: int)
    requires c < |w.clients| && !Won(w.clients[c], key, v) && Won(Step(w, e).clients[c], key, v)
    ensures key in w.db.rows
  {
    AdvanceWins(w.db, w.clients[c], key, v);
  }

  lemma {:induction false} ThereHasLived(w: World, events: seq<Event>, key: Key)
    ensures key in Run(w, events).db.rows ==> Lives(w, events, key) >= 1
  {
    if events != [] { ThereHasLived(w, events[..|events| - 1], key); }
  }

  /** Over any interleaving in which the row is not purged and created again, of two updates that expect the same
      version at most one succeeds. */
  lemma {:induction false} AtMostOneWins(w: World, events: seq<Event>, c1: nat, c2: nat, key: Key, v: int)
    requires c1 < |w.clients| && c2 < |w.clients| && c1 != c2 && Lives(w, events, key) <= 1
    requires !Won(w.clients[c1], key, v) && !Won(w.clients[c2], key, v)
    ensures |Run(w, events).clients| == |w.clients|
    ensures OneWinner(Run(w, events), c1, c2, key, v)
    ensures forall c :: c in {c1, c2} && Won(Run(w, events).clients[c], key, v) ==> Lives(w, events, key) >= 1
  {
    hide Won;
    if events != [] {
      var n := |events| - 1;
      var mid := Run(w, events[..n]);
      AtMostOneWins(w, events[..n], c1, c2, key, v);
      ThereHasLived(w, events[..n], key);
      StepKeepsOneWinner(mid, events[n], c1, c2, key, v);
      forall c | c in {c1, c2} && Won(Run(w, events).clients[c], key, v)
        ensures Lives(w, events, key) >= 1
      {
        if !Won(mid.clients[c], key, v) { StepWins(mid, events[n], c, key, v); }
      }
    }
  }

  /** Otherwise both can: the first on the old row, the second on the new one, which starts over at version 1. */
  lemma BothWin(db: Db, uc: string, other: Row, change1: Change, change2: Change)
    requires var key := (UseCases, uc); key in db.rows && (UserStories, uc) !in db.rows && db.rows[key].version == 1
    requires Expected(change1) == Some(1) && change1.parent.None?
    requires Expected(change2) == Some(1) && change2.parent.None?
    ensures var key := (UseCases, uc);
      var w := World(db, [Client(uc, change1, Located(UseCases)), Client(uc, change2, Located(UseCases))]);
      var after := Run(w, [OfClient(0), PurgeUseCase(uc), InsertRow(key, other), OfClient(1)]);
      |after.clients| == 2 && Won(after.clients[0], key, 1) && Won(after.clients[1], key, 1)
  {
    var key := (UseCases, uc);
    var w := World(db, [Client(uc, change1, Located(UseCases)), Client(uc, change2, Located(UseCases))]);
    var e1, e2, e3, e4 := OfClient(0), PurgeUseCase(uc), InsertRow(key, other), OfClient(1);
    RunSnoc(w, [], e1);
    RunSnoc(w, [e1], e2);
    RunSnoc(w, [e1, e2], e3);
    RunSnoc(w, [e1, e2, e3], e4);
    assert [e1, e2, e3] + [e4] == [e1, e2, e3, e4] && [e1, e2] + [e3] == [e1, e2, e3];
    assert [e1] + [e2] == [e1, e2] && [] + [e1] == [e1];
  }

  /** Without the condition on purges the guard can be fooled: a use case purged and created again starts over
      at version 1, so an update that expects the old row's version 1 meets another row. */
  lemma RecreatedRowFoolsGuard(db: Db, uc: string, other: Row, change: Change)
    requires (UseCases, uc) in db.rows && (UserStories, uc) !in db.rows
    requires Expected(change) == Some(1) && change.parent.None?
    ensures var c := Client(uc, change, Located(UseCases));
      var after := Run(World(db, [c]), [PurgeUseCase(uc), InsertRow((UseCases, uc), other), OfClient(0)]);
      after.clients == [c.(stage := Finished(Updated(UseCases, Changed(other.(version := 1), UseCases, change))))]
  {
    var w := World(db, [Client(uc, change, Located(UseCases))]);
    var e1, e2, e3 := PurgeUseCase(uc), InsertRow((UseCases, uc), other), OfClient(0);
    assert [e1, e2, e3][..2] == [e1, e2] && [e1, e2][..1] == [e1] && [e1][..0] == [];
    assert Run(w, [e1]) == Step(w, e1);
    assert Run(w, [e1, e2]) == Step(Step(w, e1), e2);
  }

  // ── A call that fails leaves no trace ────────────────────────────

  /** The run without the statements of one client. */
  function Without(events: seq<Event>, c: nat): seq<Event> {
    if events == [] then []
    else
      var e := events[|events| - 1];
      Without(events[..|events| - 1], c) + if e == OfClient(c) then [] else [e]
  }

  ghost predicate SameBut(w1: World, w2: World, c: nat) {
    && w1.db == w2.db && |w1.clients| == |w2.clients|
    && (forall i :: 0 <= i < |w1.clients| && i != c ==> w1.clients[i] == w2.clients[i])
  }

  predicate Succeeded(c: Client) { c.stage.Finished? && c.stage.outcome.Updated? }

  lemma StepSameBut(w1: World, w2: World, e: Event, c: nat)
    requires SameBut(w1, w2, c) && c < |w1.clients|
    requires !Succeeded(Step(w1, e).clients[c])
    ensures !Succeeded(w1.clients[c])
    ensures SameBut(Step(w1, e), if e == OfClient(c) then w2 else Step(w2, e), c)
  {
  }

  lemma RunSnoc(w: World, front: seq<Event>, e: Event)
    ensures Run(w, front + [e]) == Step(Run(w, front), e)
  {
    assert (front + [e])[..|front|] == front;
  }

  lemma NeverUnsucceeds(w: World, e: Event, c: nat)
    requires c < |w.clients| && !Succeeded(Step(w, e).clients[c])
    ensures !Succeeded(w.clients[c])
  {
  }

  /** A call of `update_item` that ended in an error, or did not end yet with success, changed nothing: the
      rows, and what every other client sees, are as if the call had not been made. */
  lemma {:induction false} FailureLeavesNoTrace(w: World, events: seq<Event>, c: nat)
    requires c < |w.clients|
    ensures |Run(w, events).clients| == |w.clients|
    ensures !Succeeded(Run(w, events).clients[c]) ==>
      SameBut(Run(w, events), Run(w, Without(events, c)), c) && !Succeeded(w.clients[c])
  {
    if events != [] {
      var n := |events| - 1;
      var front, e := events[..n], events[n];
      FailureLeavesNoTrace(w, front, c);
      if !Succeeded(Run(w, events).clients[c]) {
        var w1, w2 := Run(w, front), Run(w, Without(front, c));
        NeverUnsucceeds(w1, e, c);
        StepSameBut(w1, w2, e, c);
        RunSnoc(w, Without(front, c), e);
        assert Without(front, c) + [] == Without(front, c);
      }
    }
  }

  // ── The backend as the program runs it ───────────────────────────

  /** A call nobody interrupts. */
  function Alone(db: Db, c: Client): (Db, Client) {
    var (d1, c1) := Advance(db, c);
    var (d2, c2) := Advance(d1, c1);
    Advance(d2, c2)
  }

  class NativeBackend {
    var rows: map<Key, Row>
    var epics: set<string>

    function Value(): Db
      reads this
    {
      Db(rows, epics)
    }

    constructor ()
      ensures Value() == Db(map[], {})
    {
      rows, epics := map[], {};
    }

    /** `_locate_us_or_uc` */
    method LocateUsOrUc(id: string) returns (table: Option<Table>)
      ensures table == Locate(Value(), id)
    {
      if (UserStories, id) in rows { return Some(UserStories); }
      if (UseCases, id) in rows { return Some(UseCases); }
      return None;
    }

    /** The SET clauses of the plain columns: one per given argument. */
    method SetContent(was: Content, table: Table, change: Change) returns (c: Content)
      ensures c == Overlay(was, table, change)
    {
      var name, description, state := was.name, was.description, was.state;
      if change.name.Some? { name := change.name.value; }
      if change.description.Some? { description := change.description.value; }
      if change.state.Some? { state := change.state.value; }
      var labels, priority := was.labels, was.priority;
      if change.labels.Some? { labels := change.labels.value; }
      if change.priority.Some? { priority := change.priority.value; }
      var source, sourceId := was.source.0, was.source.1;
      if change.sourceName.Some? { source := change.sourceName.value; }
      if change.sourceId.Some? { sourceId := change.sourceId.value; }
      var parent := was.parent;
      if table.UseCases? && change.parent.Some? { parent := change.parent; }
      c := Content(name, description, state, labels, priority, (source, sourceId), parent);
    }

    /** The whole UPDATE of a row. */
    method SetColumns(was: Row, table: Table, change: Change) returns (row: Row)
      ensures row == Changed(was, table, change)
    {
      var c := SetContent(ContentOf(was), table, change);
      var meta, comments := was.meta, was.comments;
      var patch := SplitExpectedVersion(change.meta).0;
      if patch.Some? {
        meta := meta + patch.value.values;
        if patch.value.comments.Some? { comments := patch.value.comments.value; }
      }
      row := Row(c.name, c.description, c.state, c.labels, c.priority, c.source, c.parent, was.epic, meta, comments,
                 was.version + 1);
    }

    /** `update_item`: it succeeds exactly when the row is there in the version expected, and its new parent is a
        story; and unless it succeeds no row changes. */
    method UpdateItem(id: string, change: Change) returns (outcome: Outcome)
      modifies this`rows
      ensures var (db, c) := Alone(old(Value()), Client(id, change, Start));
        Value() == db && c.stage == Finished(outcome)
      ensures outcome.Updated? <==>
        var t := Locate(old(Value()), id);
        t.Some? && Matches(old(Value()), (t.value, id), Expected(change)) && ParentThere(old(Value()), t.value, change)
      ensures outcome.Stale? ==> Expected(change) == Some(outcome.expected) && outcome.expected != outcome.actual
      ensures !outcome.Updated? ==> rows == old(rows)
    {
      var expected := SplitExpectedVersion(change.meta).1;
      var located := LocateUsOrUc(id);
      if located.None? { return NotFound; }
      var table := located.value;
      var row := rows[(table, id)];
      if expected.Some? && row.version != expected.value { return Stale(expected.value, row.version); }
      if table.UseCases? && change.parent.Some? && (UserStories, change.parent.value) !in rows { return BadParent; }
      row := SetColumns(row, table, change);
      rows := rows[(table, id) := row];
      outcome := Updated(table, row);
    }

    /** `_locate_table_any` */
    method LocateTableAny(id: string) returns (table: Option<Table>)
      ensures table == LocateAny(Value(), id)
    {
      table := LocateUsOrUc(id);
      if table.None? && (AcceptanceCriteria, id) in rows { table := Some(AcceptanceCriteria); }
    }

    /** `archive_item`; `false` when there is no such row. */
    method ArchiveItem(id: string, archivedAt: string, reason: string) returns (found: bool)
      modifies this`rows
      ensures found == LocateAny(old(Value()), id).Some?
      ensures var was := old(Value());
        Value() == if found then StepDb(was, ArchiveRow((LocateAny(was, id).value, id), archivedAt, reason)) else was
    {
      var located := LocateUsOrUc(id);
      if located.None? {
        var ac := (AcceptanceCriteria, id);
        if ac !in rows { return false; }
        var row := rows[ac];
        var meta := row.meta["archived_at" := archivedAt]["archive_reason" := reason];
        rows := rows[ac := row.(meta := meta, version := row.version + 1)];
        return true;
      }
      var key := (located.value, id);
      var row := rows[key];
      row := row.(state := "archived", meta := row.meta["archived_at" := archivedAt]["archive_reason" := reason]);
      rows := rows[key := row.(version := row.version + 1)];
      found := true;
    }

    /** `add_comment` */
    method AddComment(id: string, text: string) returns (found: bool)
      modifies this`rows
      ensures found == LocateAny(old(Value()), id).Some?
      ensures var was := old(Value());
        Value() == if found then StepDb(was, AppendComment((LocateAny(was, id).value, id), text)) else was
    {
      var located := LocateTableAny(id);
      if located.None? { return false; }
      var key := (located.value, id);
      rows := rows[key := rows[key].(comments := rows[key].comments + [text])];
      found := true;
    }

    /** `set_us_epic` */
    method SetEpicOf(us: string, epic: Option<string>) returns (done: bool)
      modifies this`rows
      ensures done == ((UserStories, us) in old(rows) && (epic.Some? ==> epic.value in epics))
      ensures Value() == StepDb(old(Value()), SetUsEpic(us, epic))
    {
      var key := (UserStories, us);
      if key !in rows { return false; }
      if epic.Some? && epic.value !in epics { return false; }
      rows := rows[key := rows[key].(epic := epic, version := rows[key].version + 1)];
      done := true;
    }
  }
}
