/** The epic of a story in the native backend (server/backends/native_backend.py), over any interleaving of calls. */
module NativeEpics {
  import opened Wrappers
  import opened NativeUpdates

  /** Event `n` gives the story to an epic, or to none, and is not refused. */
  ghost predicate Gives(w: World, events: seq<Event>, us: string, n: int) {
    && 0 <= n < |events| && events[n].SetUsEpic? && events[n].us == us
    && var db := Run(w, events[..n]).db;
    (UserStories, us) in db.rows && (events[n].epic.Some? ==> events[n].epic.value in db.epics)
  }

  /** Event `n` deletes an epic that is there. */
  ghost predicate Deletes(w: World, events: seq<Event>, epic: string, n: int) {
    0 <= n < |events| && events[n] == DeleteEpic(epic) && epic in Run(w, events[..n]).db.epics
  }

  ghost predicate DeletedSince(w: World, events: seq<Event>, epic: Option<string>, n: int) {
    epic.Some? && exists k :: n < k < |events| && Deletes(w, events, epic.value, k)
  }

  lemma OtherEventsKeepEpic(w: World, e: Event, us: string)
    requires var key := (UserStories, us); key in w.db.rows && key in Step(w, e).db.rows
    requires e.SetUsEpic? && e.us == us ==> e.epic.Some? && e.epic.value !in w.db.epics
    ensures var was := w.db.rows[(UserStories, us)].epic;
      Step(w, e).db.rows[(UserStories, us)].epic ==
      if e.DeleteEpic? && e.epicId in w.db.epics && was == Some(e.epicId) then None else was
  {
  }

  lemma SincePrefix(w: World, events: seq<Event>, epic: Option<string>, n: int)
    requires events != [] && n < |events| - 1
    ensures var m := |events| - 1;
      DeletedSince(w, events, epic, n) <==>
        DeletedSince(w, events[..m], epic, n) || (epic.Some? && Deletes(w, events, epic.value, m))
  {
    var m := |events| - 1;
    forall k | 0 <= k < m ensures events[..m][..k] == events[..k] { }
    if epic.Some? {
      forall k | k < m ensures Deletes(w, events, epic.value, k) <==> Deletes(w, events[..m], epic.value, k) { }
      if Deletes(w, events, epic.value, m) { assert n < m < |events|; }
    }
  }

  lemma GivesPrefix(w: World, events: seq<Event>, us: string, k: int)
    requires events != [] && k < |events| - 1
    ensures Gives(w, events, us, k) <==> Gives(w, events[..|events| - 1], us, k)
  {
    if 0 <= k { assert events[..|events| - 1][..k] == events[..k]; }
  }

  /** Over the life of its row a story is in the epic it was given to last (`n`; -1: none since the start), until that
      epic is deleted: no other call, of whatever client, changes it. */
  lemma {:induction false} EpicAsGiven(w: World, events: seq<Event>, us: string, n: int, epic: Option<string>)
    requires var key := (UserStories, us);
      key in w.db.rows && Lives(w, events, key) == 1 && key in Run(w, events).db.rows
    requires -1 <= n < |events|
    requires if n == -1 then epic == w.db.rows[(UserStories, us)].epic
             else Gives(w, events, us, n) && epic == events[n].epic
    requires forall k :: n < k < |events| ==> !Gives(w, events, us, k)
    ensures Run(w, events).db.rows[(UserStories, us)].epic == if DeletedSince(w, events, epic, n) then None else epic
  {
    if events != [] {
      var m, key := |events| - 1, (UserStories, us);
      var mid := Run(w, events[..m]);
      AtLeastOneLife(w, events[..m], key);
      if n < m {
        if n >= 0 { GivesPrefix(w, events, us, n); }
        forall k | n < k < m ensures !Gives(w, events[..m], us, k) { GivesPrefix(w, events, us, k); }
        EpicAsGiven(w, events[..m], us, n, epic);
        SincePrefix(w, events, epic, n);
        assert !Gives(w, events, us, m);
        hide Run;
        OtherEventsKeepEpic(mid, events[m], us);
      }
    }
  }

  /** No story points at an epic that is not there. */
  ghost predicate EpicsThere(db: Db) {
    forall key :: key in db.rows && db.rows[key].epic.Some? ==> db.rows[key].epic.value in db.epics
  }

  lemma StepKeepsEpics(w: World, e: Event)
    requires EpicsThere(w.db) && (e.InsertRow? && e.row.epic.Some? ==> e.row.epic.value in w.db.epics)
    ensures EpicsThere(Step(w, e).db)
  {
  }

  /** The foreign key of epics holds over any interleaving of calls that inserts no row with an unknown epic. */
  lemma {:induction false} EpicsStayThere(w: World, events: seq<Event>)
    requires EpicsThere(w.db)
    requires forall n :: 0 <= n < |events| && events[n].InsertRow? && events[n].row.epic.Some? ==>
      events[n].row.epic.value in Run(w, events[..n]).db.epics
    ensures EpicsThere(Run(w, events).db)
  {
    if events != [] {
      var m := |events| - 1;
      forall n | 0 <= n < m ensures events[..m][..n] == events[..n] { }
      EpicsStayThere(w, events[..m]);
      hide EpicsThere;
      StepKeepsEpics(Run(w, events[..m]), events[m]);
    }
  }
}
