/** What a board holds after any calls (server/spec_backend.py and the backends that implement it): who wrote a field of
    an item last, how criteria come, change and go, and when an item is taken off. */
module BoardHistory {
  import opened Boards
  import opened Wrappers

  datatype Column = Name | Description | State | Parent | InEpic

  datatype Value = Text(s: string) | Link(to: Option<Id>) | Ref(epic: Option<string>)

  function ValueOf(item: Item, col: Column): Value {
    match col
    case Name => Text(item.name)
    case Description => Text(item.description)
    case State => Text(item.state)
    case Parent => Link(item.parent)
    case InEpic => Ref(item.epic)
  }

  function TextGiven(o: Option<string>): Option<Value> { if o.Some? then Some(Text(o.value)) else None }

  /** What archiving puts into the state: nothing on a service that has no state for it. */
  function ArchiveState(store: Store): Option<Value> {
    match store
    case FreeForm => None
    case Native => Some(Text("archived"))
    case Remote(state) => TextGiven(state)
  }

  /** What a call that goes through writes into a field of an item. */
  function Says(b: Board, call: Call, id: Id, col: Column): Option<Value>
    requires id in b.items
  {
    match call
    case UpdateItem(at, name, description, state, parent) =>
      if at != id then None
      else (match col
            case Name => TextGiven(name)
            case Description => TextGiven(description)
            case State => TextGiven(state)
            case Parent =>
              if parent.Some? && !(b.store.Native? && b.items[id].kind.Story?) then Some(Link(parent)) else None
            case InEpic => None)
    case ArchiveItem(at) => if at == id && col.State? then ArchiveState(b.store) else None
    case SetEpic(at, epic) => if at == id && col.InEpic? then Some(Ref(epic)) else None
    case DeleteEpic(epic) => if col.InEpic? && b.items[id].epic == Some(epic) then Some(Ref(None)) else None
    case _ => None
  }

  /** Ids are drawn in order, so no item's is drawn again. */
  ghost predicate Numbered(b: Board) { forall id :: id in b.items ==> id < b.next }

  lemma ApplyNumbers(b: Board, call: Call)
    requires Numbered(b)
    ensures Numbered(Apply(b, call).0)
  {
  }

  lemma EditWrites(b: Board, call: Call, id: Id, col: Column)
    requires id in b.items && OnItem(call) && call.id == id && Edit(b.items[id], call, b).Some?
    ensures ValueOf(Edit(b.items[id], call, b).value, col) ==
      if Says(b, call, id, col).Some? then Says(b, call, id, col).value else ValueOf(b.items[id], col)
  {
  }

  /** One call writes what it says and nothing else. */
  lemma CallWrites(b: Board, call: Call, id: Id, col: Column)
    requires Numbered(b) && id in b.items && id in Apply(b, call).0.items
    ensures ValueOf(Apply(b, call).0.items[id], col) ==
      if Apply(b, call).1.Ok? && Says(b, call, id, col).Some? then Says(b, call, id, col).value
      else ValueOf(b.items[id], col)
  {
    if OnItem(call) && call.id == id && Edit(b.items[id], call, b).Some? { EditWrites(b, call, id, col); }
  }

  function Run(b: Board, calls: seq<Call>): Board {
    if calls == [] then b else Apply(Run(b, calls[..|calls| - 1]), calls[|calls| - 1]).0
  }

  lemma {:induction false} RunNumbers(b: Board, calls: seq<Call>)
    requires Numbered(b)
    ensures Numbered(Run(b, calls))
  {
    if calls != [] {
      RunNumbers(b, calls[..|calls| - 1]);
      ApplyNumbers(Run(b, calls[..|calls| - 1]), calls[|calls| - 1]);
    }
  }

  /** What call `n` of a run writes into a field. */
  ghost function WritesAt(b: Board, calls: seq<Call>, id: Id, col: Column, n: int): Option<Value>
    requires 0 <= n < |calls|
  {
    var before := Run(b, calls[..n]);
    if id in before.items && Apply(before, calls[n]).1.Ok? then Says(before, calls[n], id, col) else None
  }

  lemma SameWrites(b: Board, calls: seq<Call>, id: Id, col: Column, k: int)
    requires 0 <= k < |calls| - 1
    ensures WritesAt(b, calls[..|calls| - 1], id, col, k) == WritesAt(b, calls, id, col, k)
  {
    assert calls[..|calls| - 1][..k] == calls[..k];
  }

  lemma StillThere(b: Board, call: Call, id: Id)
    requires Numbered(b) && id < b.next && id in Apply(b, call).0.items
    ensures id in b.items
  {
  }

  lemma {:induction false} NextRises(b: Board, calls: seq<Call>)
    ensures b.next <= Run(b, calls).next
  {
    if calls != [] { NextRises(b, calls[..|calls| - 1]); }
  }

  /** Over any calls, a field of an item that is still there holds what was written to it last (`n`; -1: what it held at
      the start). */
  lemma {:induction false} LastWriteWins(b: Board, calls: seq<Call>, id: Id, col: Column, n: int)
    requires Numbered(b) && id in b.items && id in Run(b, calls).items
    requires -1 <= n < |calls| && (n >= 0 ==> WritesAt(b, calls, id, col, n).Some?)
    requires forall k :: n < k < |calls| ==> WritesAt(b, calls, id, col, k).None?
    ensures ValueOf(Run(b, calls).items[id], col) ==
      if n == -1 then ValueOf(b.items[id], col) else WritesAt(b, calls, id, col, n).value
  {
    if calls != [] {
      var m := |calls| - 1;
      var mid := Run(b, calls[..m]);
      RunNumbers(b, calls[..m]);
      NextRises(b, calls[..m]);
      StillThere(mid, calls[m], id);
      CallWrites(mid, calls[m], id, col);
      assert WritesAt(b, calls, id, col, m)
        == if Apply(mid, calls[m]).1.Ok? then Says(mid, calls[m], id, col) else None;
      hide ValueOf;
      hide Says;
      hide Apply;
      hide WritesAt;
      if n < m {
        if n >= 0 { SameWrites(b, calls, id, col, n); }
        forall k | n < k < m ensures WritesAt(b, calls[..m], id, col, k).None? { SameWrites(b, calls, id, col, k); }
        LastWriteWins(b, calls[..m], id, col, n);
      }
    }
  }

  // ── Coming and going ─────────────────────────────────────────────

  /** A new item is what the call says, but for the parent of a story and the state of one that comes without, on the
      native board. */
  lemma CreatedAsGiven(b: Board, call: Call)
    requires call.CreateItem? && Apply(b, call).1.Ok?
    ensures var (after, result) := Apply(b, call);
      && result == Ok(Created(b.next)) && b.next in after.items
      && var item := after.items[b.next];
      && item.kind == call.kind && item.logical == call.logical && item.name == call.name
      && item.description == call.description && item.epic == None && item.criteria == []
      && (item.parent == call.parent || (b.store.Native? && call.kind.Story? && item.parent == None))
      && (call.kind.UseCase? || !b.store.Native? ==> item.parent == call.parent && item.state == call.state)
      && (call.state != "" ==> item.state == call.state)
      && (b.store.Native? && call.kind.Story? && call.state == "" ==> item.state == "user_stories")
      && after.items - {b.next} == b.items - {b.next}
  {
  }

  /** An item goes exactly when a purge that goes through names it, or FreeForm archives it. */
  lemma GoesExactly(b: Board, call: Call, id: Id)
    requires id in b.items
    ensures id !in Apply(b, call).0.items <==>
      || (call == ArchiveItem(id) && b.store.FreeForm?)
      || (call == PurgeUseCase(id) && !b.store.Remote? && !(b.store.Native? && b.items[id].kind.Story?)
          && b.items[id].state in {"backlog", "archived"} && forall c :: c in b.items[id].criteria ==> !c.done)
  {
  }

  // ── Refusals and epics ───────────────────────────────────────────

  /** A call that is refused changes nothing; services have no epics; an epic or, in the tables, an item is not created
      twice; a purge is refused on services and for items that had work. */
  lemma RefusedExactly(b: Board, call: Call)
    ensures var (after, result) := Apply(b, call);
      && (result.Err? ==> after == b)
      && (result == Err(EpicsNotSupported) <==>
            b.store.Remote? && (call.SetEpic? || call.CreateEpic? || call.UpdateEpic? || call.DeleteEpic?))
      && (result == Err(EpicExists) <==> !b.store.Remote? && call.CreateEpic? && call.epic in b.epics)
      && (result == Err(IdTaken) <==>
            b.store.Native? && call.CreateItem?
            && exists id :: id in b.items && b.items[id].kind == call.kind && b.items[id].logical == call.logical)
      && (result == Err(PurgeRefused) <==>
            call.PurgeUseCase?
            && (b.store.Remote?
                || (call.id in b.items && !(b.store.Native? && b.items[call.id].kind.Story?)
                    && (b.items[call.id].state !in {"backlog", "archived"}
                        || exists c :: c in b.items[call.id].criteria && c.done))))
  {
  }

  /** Only the epic a call names changes, and as it says. */
  lemma EpicsAsTold(b: Board, call: Call, epic: string)
    requires Apply(b, call).1.Ok?
    ensures var now := Apply(b, call).0.epics;
      match call
      case CreateEpic(at, fields) => if at == epic then epic in now && now[epic] == fields else Same(b.epics, now, epic)
      case UpdateEpic(at, name, objective, position) =>
        if at != epic then Same(b.epics, now, epic)
        else
          && epic in b.epics && epic in now
          && now[epic].name == (if name.Some? then name.value else b.epics[epic].name)
          && now[epic].objective == (if objective.Some? then objective.value else b.epics[epic].objective)
          && now[epic].position == (if position.Some? then position.value else b.epics[epic].position)
      case DeleteEpic(at) => if at == epic then epic in b.epics && epic !in now else Same(b.epics, now, epic)
      case _ => Same(b.epics, now, epic)
  {
  }

  predicate Same(a: map<string, Epic>, b: map<string, Epic>, epic: string) {
    (epic in a <==> epic in b) && (epic in a && epic in b ==> a[epic] == b[epic])
  }

  // ── Criteria ─────────────────────────────────────────────────────

  /** The first criterion with an id. */
  ghost predicate IsFirst(cs: seq<Criterion>, ac: string, i: nat) {
    i < |cs| && cs[i].ac == ac && forall k :: 0 <= k < i ==> cs[k].ac != ac
  }

  lemma {:induction false} FoundFirst(cs: seq<Criterion>, ac: string)
    ensures FindCriterion(cs, ac) == |cs| <==> forall k :: 0 <= k < |cs| ==> cs[k].ac != ac
    ensures FindCriterion(cs, ac) < |cs| ==> IsFirst(cs, ac, FindCriterion(cs, ac))
  {
    if cs != [] && cs[0].ac != ac { FoundFirst(cs[1..], ac); }
  }

  /** The criterion after a call that names it: its text and whether it is done. */
  ghost predicate Rewritten(was: Criterion, now: Criterion, call: Call) {
    match call
    case MarkCriterion(_, _, passed) => now == Criterion(was.ac, was.text, passed)
    case UpdateCriterion(_, _, text, done) =>
      && now.ac == was.ac
      && now.text == (if text.Some? then text.value else was.text)
      && now.done == (if done.Some? then done.value else was.done)
    case _ => now == was
  }

  /** A call on a criterion changes the first with its id, and is refused exactly when there is none; a deleted one
      leaves the others in order; new ones come at the end, not done. */
  lemma CriteriaAsTold(b: Board, call: Call)
    requires (call.MarkCriterion? || call.UpdateCriterion? || call.DeleteCriterion?) && call.id in b.items
    ensures var cs := b.items[call.id].criteria;
      && (Apply(b, call).1.Err? <==> forall k :: 0 <= k < |cs| ==> cs[k].ac != call.ac)
      && call.id in Apply(b, call).0.items
    ensures Apply(b, call).1.Ok? ==> exists i: nat ::
      var cs, now := b.items[call.id].criteria, Apply(b, call).0.items[call.id].criteria;
      && IsFirst(cs, call.ac, i)
      && if call.DeleteCriterion? then now == cs[..i] + cs[i + 1..]
         else |now| == |cs| && now[..i] == cs[..i] && now[i + 1..] == cs[i + 1..] && Rewritten(cs[i], now[i], call)
  {
    FoundFirst(b.items[call.id].criteria, call.ac);
  }

  lemma NewCriteriaLast(b: Board, id: Id, texts: seq<(string, string)>)
    requires id in b.items && Apply(b, CreateCriteria(id, texts)).1.Ok?
    ensures id in Apply(b, CreateCriteria(id, texts)).0.items
    ensures var cs, now := b.items[id].criteria, Apply(b, CreateCriteria(id, texts)).0.items[id].criteria;
      && |now| == |cs| + |texts| && now[..|cs|] == cs
      && forall k :: 0 <= k < |texts| ==> now[|cs| + k] == Criterion(texts[k].0, texts[k].1, false)
  {
  }
}
