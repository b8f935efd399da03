/** What a row of the native backend holds (server/backends/native_backend.py:1069-1185), over any interleaving of
    calls: the last write of a column wins, and the version counts the writes. */
module NativeColumns {
  import opened Wrappers
  import opened NativeUpdates

  datatype Column =
    | Name | Description | State | Labels | Priority | SourceName | SourceId | Parent | MetaOf(k: string)

  datatype Value = Text(s: string) | Texts(ss: seq<string>) | Maybe(o: Option<string>)

  function ValueOf(r: Row, col: Column): Value {
    match col
    case Name => Text(r.name)
    case Description => Text(r.description)
    case State => Text(r.state)
    case Labels => Texts(r.labels)
    case Priority => Text(r.priority)
    case SourceName => Text(r.source.0)
    case SourceId => Text(r.source.1)
    case Parent => Maybe(r.parent)
    case MetaOf(k) => Maybe(if k in r.meta then Some(r.meta[k]) else None)
  }

  function TextGiven(o: Option<string>): Option<Value> { if o.Some? then Some(Text(o.value)) else None }

  /** What the arguments of a call say about a column. */
  function Given(change: Change, table: Table, col: Column): Option<Value> {
    match col
    case Name => TextGiven(change.name)
    case Description => TextGiven(change.description)
    case State => TextGiven(change.state)
    case Labels => if change.labels.Some? then Some(Texts(change.labels.value)) else None
    case Priority => TextGiven(change.priority)
    case SourceName => TextGiven(change.sourceName)
    case SourceId => TextGiven(change.sourceId)
    case Parent => if table == UseCases && change.parent.Some? then Some(Maybe(change.parent)) else None
    case MetaOf(k) =>
      if change.meta.Some? && k in change.meta.value.rest.values
      then Some(Maybe(Some(change.meta.value.rest.values[k])))
      else None
  }

  /** What archiving says: when and why, and the state, but of a criterion. */
  function ArchiveSays(e: Event, table: Table, col: Column): Option<Value>
    requires e.ArchiveRow?
  {
    if col == State && table != AcceptanceCriteria then Some(Text("archived"))
    else if col == MetaOf("archived_at") then Some(Maybe(Some(e.archivedAt)))
    else if col == MetaOf("archive_reason") then Some(Maybe(Some(e.reason)))
    else None
  }

  /** The statement is the UPDATE of a call, on this row, and it goes through. */
  predicate Updates(w: World, e: Event, key: Key) {
    && e.OfClient? && e.client < |w.clients| && w.clients[e.client].id == key.1
    && w.clients[e.client].stage == Located(key.0)
    && Step(w, e).clients[e.client].stage.Finished? && Step(w, e).clients[e.client].stage.outcome.Updated?
  }

  /** What an event writes into a column of a row that is there. */
  function Writes(w: World, e: Event, key: Key, col: Column): Option<Value> {
    if Updates(w, e, key) then Given(w.clients[e.client].change, key.0, col)
    else if e.ArchiveRow? && e.key == key then ArchiveSays(e, key.0, col)
    else None
  }

  lemma ChangedColumn(r: Row, table: Table, change: Change, col: Column)
    ensures ValueOf(Changed(r, table, change), col) ==
      if Given(change, table, col).Some? then Given(change, table, col).value else ValueOf(r, col)
  {
    match col
    case MetaOf(k) =>
    case _ =>
  }

  lemma ArchivedColumn(r: Row, table: Table, e: Event, col: Column)
    requires e.ArchiveRow?
    ensures ValueOf(Archived(r, table, e.archivedAt, e.reason), col) ==
      if ArchiveSays(e, table, col).Some? then ArchiveSays(e, table, col).value else ValueOf(r, col)
  {
  }

  lemma SameColumn(a: Row, b: Row, col: Column)
    requires ContentOf(a) == ContentOf(b) && a.meta == b.meta
    ensures ValueOf(a, col) == ValueOf(b, col)
  {
  }

  lemma StepWrites(w: World, e: Event, key: Key, col: Column)
    requires key in w.db.rows && key in Step(w, e).db.rows
    ensures ValueOf(Step(w, e).db.rows[key], col) ==
      if Writes(w, e, key, col).Some? then Writes(w, e, key, col).value else ValueOf(w.db.rows[key], col)
  {
    hide ValueOf;
    hide Given;
    hide ArchiveSays;
    hide Changed;
    hide Archived;
    var r, r' := w.db.rows[key], Step(w, e).db.rows[key];
    if Updates(w, e, key) {
      ChangedColumn(r, key.0, w.clients[e.client].change, col);
    } else if e.ArchiveRow? && e.key == key {
      ArchivedColumn(r, key.0, e, col);
    } else {
      SameColumn(r, r', col);
    }
  }

  // ── Whole runs ───────────────────────────────────────────────────

  function WritesAt(w: World, events: seq<Event>, key: Key, col: Column, n: int): Option<Value>
    requires 0 <= n < |events|
  {
    Writes(Run(w, events[..n]), events[n], key, col)
  }

  lemma SameWrites(w: World, events: seq<Event>, key: Key, col: Column, k: int)
    requires 0 <= k < |events| - 1
    ensures WritesAt(w, events[..|events| - 1], key, col, k) == WritesAt(w, events, key, col, k)
  {
    assert events[..|events| - 1][..k] == events[..k];
  }

  /** Over the life of a row, whoever else is at work, a column holds what was written to it last (`n`; -1: nothing
      since the start). */
  lemma {:induction false} LastWriteWins(w: World, events: seq<Event>, key: Key, col: Column, n: int)
    requires key in w.db.rows && Lives(w, events, key) == 1 && key in Run(w, events).db.rows
    requires -1 <= n < |events| && (n >= 0 ==> WritesAt(w, events, key, col, n).Some?)
    requires forall k :: n < k < |events| ==> WritesAt(w, events, key, col, k).None?
    ensures ValueOf(Run(w, events).db.rows[key], col) ==
      if n == -1 then ValueOf(w.db.rows[key], col) else WritesAt(w, events, key, col, n).value
  {
    if events != [] {
      var m := |events| - 1;
      AtLeastOneLife(w, events[..m], key);
      StepWrites(Run(w, events[..m]), events[m], key, col);
      assert WritesAt(w, events, key, col, m) == Writes(Run(w, events[..m]), events[m], key, col);
      hide Writes;
      hide WritesAt;
      hide ValueOf;
      hide Step;
      if n < m {
        if n >= 0 { SameWrites(w, events, key, col, n); }
        forall k | n < k < m ensures WritesAt(w, events[..m], key, col, k).None? {
          SameWrites(w, events, key, col, k);
        }
        LastWriteWins(w, events[..m], key, col, n);
      }
    }
  }

  /** An event that counts as a write of the row. */
  predicate Bumps(w: World, e: Event, key: Key) {
    || Updates(w, e, key)
    || (e.ArchiveRow? && e.key == key)
    || (e.SetUsEpic? && key == (UserStories, e.us) && (e.epic.Some? ==> e.epic.value in w.db.epics))
  }

  function BumpsOf(w: World, events: seq<Event>, key: Key): set<int> {
    set n | 0 <= n < |events| && Bumps(Run(w, events[..n]), events[n], key)
  }

  lemma StepBumps(w: World, e: Event, key: Key)
    requires key in w.db.rows && key in Step(w, e).db.rows
    ensures Step(w, e).db.rows[key].version == w.db.rows[key].version + if Bumps(w, e, key) then 1 else 0
  {
  }

  lemma BumpsMore(w: World, events: seq<Event>, key: Key)
    requires events != []
    ensures var m := |events| - 1;
      |BumpsOf(w, events, key)|
        == |BumpsOf(w, events[..m], key)| + if Bumps(Run(w, events[..m]), events[m], key) then 1 else 0
  {
    hide Bumps;
    hide Run;
    var m := |events| - 1;
    forall n | 0 <= n < m ensures events[..m][..n] == events[..n] { }
    var before := BumpsOf(w, events[..m], key);
    assert BumpsOf(w, events, key) == before + if Bumps(Run(w, events[..m]), events[m], key) then {m} else {};
    assert before + {} == before && m !in before;
  }

  /** Over the life of a row its version went up by exactly the number of its writes: comments and deleted epics are
      none. */
  lemma {:induction false} VersionCountsWrites(w: World, events: seq<Event>, key: Key)
    requires key in w.db.rows && Lives(w, events, key) == 1 && key in Run(w, events).db.rows
    ensures Run(w, events).db.rows[key].version == w.db.rows[key].version + |BumpsOf(w, events, key)|
  {
    if events != [] {
      var m := |events| - 1;
      AtLeastOneLife(w, events[..m], key);
      BumpsMore(w, events, key);
      hide Bumps;
      hide BumpsOf;
      VersionCountsWrites(w, events[..m], key);
      StepBumps(Run(w, events[..m]), events[m], key);
    } else {
      assert BumpsOf(w, events, key) == {};
    }
  }
}
