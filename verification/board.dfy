/** The boards behind the SpecBackend interface of server/spec_backend.py: stories and use cases with their
    criteria, and epics. Each board draws its own item ids, and its store decides what archiving, purging and
    creating do. */
module Boards {
  import opened Wrappers

  type Id = nat

  datatype Kind = Story | UseCase

  datatype Criterion = Criterion(ac: string, text: string, done: bool)

  /** `logical` is the US-XX or UC-XXX both boards know the item by. */
  datatype Item = Item(
    kind: Kind, logical: string, name: string, description: string, state: string,
    parent: Option<Id>, epic: Option<string>, criteria: seq<Criterion>)

  datatype Epic = Epic(name: string, objective: string, position: int)

  /** Who keeps a board: FreeForm in a list of items, Native in tables, or a remote service (Trello, Plane);
      `archived` is the state in which the service puts an archived item, if it has such a state. */
  datatype Store = FreeForm | Native | Remote(archived: Option<string>)

  datatype Board = Board(store: Store, items: map<Id, Item>, epics: map<string, Epic>, next: Id)

  const ARCHIVED := "archived"

  /** The writes of the interface. `None` leaves a field as it is. */
  datatype Call =
    | CreateItem(kind: Kind, logical: string, name: string, description: string, state: string, parent: Option<Id>)
    | UpdateItem(id: Id, newName: Option<string>, newDescription: Option<string>, newState: Option<string>,
                 newParent: Option<Id>)
    | CreateCriteria(id: Id, texts: seq<(string, string)>)
    | MarkCriterion(id: Id, ac: string, passed: bool)
    | UpdateCriterion(id: Id, ac: string, newText: Option<string>, newDone: Option<bool>)
    | DeleteCriterion(id: Id, ac: string)
    | SetEpic(id: Id, epicOf: Option<string>)
    | ArchiveItem(id: Id)
    | PurgeUseCase(id: Id)
    | CreateEpic(epic: string, fields: Epic)
    | UpdateEpic(epic: string, epicName: Option<string>, epicObjective: Option<string>,
                 epicPosition: Option<int>)
    | DeleteEpic(epic: string)

  datatype Error = NotFound | IdTaken | EpicExists | EpicsNotSupported | PurgeRefused

  datatype Reply = Created(item: Id) | Done

  /** The first criterion with an id, or the length. */
  function FindCriterion(cs: seq<Criterion>, ac: string): (i: nat)
    ensures i <= |cs|
  {
    if cs == [] || cs[0].ac == ac then 0 else 1 + FindCriterion(cs[1..], ac)
  }

  function NewCriteria(texts: seq<(string, string)>): seq<Criterion> {
    seq(|texts|, i requires 0 <= i < |texts| => Criterion(texts[i].0, texts[i].1, false))
  }

  /** The ids of the new criteria are new, and each is given once. */
  predicate NewIds(cs: seq<Criterion>, texts: seq<(string, string)>) {
    && (forall i, k :: 0 <= i < |texts| && 0 <= k < |cs| ==> texts[i].0 != cs[k].ac)
    && (forall i, k :: 0 <= i < k < |texts| ==> texts[i].0 != texts[k].0)
  }

  /** The table of criteria takes them: its rows refer to use cases, and use case and id are their key. */
  predicate Insertable(item: Item, texts: seq<(string, string)>) {
    texts == [] || (item.kind.UseCase? && NewIds(item.criteria, texts))
  }

  predicate IsStory(b: Board, id: Id) { id in b.items && b.items[id].kind.Story? }

  /** The parent column of a row: the tables have one for use cases only. */
  function ParentKept(b: Board, kind: Kind, parent: Option<Id>): Option<Id> {
    if b.store.Native? && kind.Story? then None else parent
  }

  /** The foreign key of that column, which refers to stories. */
  predicate ParentAllowed(b: Board, kind: Kind, parent: Option<Id>) {
    b.store.Native? && kind.UseCase? && parent.Some? ==> IsStory(b, parent.value)
  }

  /** The state of a new row: the tables give a story one if it comes without. */
  function StateKept(b: Board, kind: Kind, state: string): string {
    if b.store.Native? && kind.Story? && state == "" then "user_stories" else state
  }

  /** What a call on one item makes of it; `None` when the criterion, the epic or the parent is missing, or the
      tables refuse the criteria. */
  function Edit(item: Item, call: Call, b: Board): Option<Item> {
    match call
    case UpdateItem(_, name, description, state, parent) =>
      var up := ParentKept(b, item.kind, parent);
      if !ParentAllowed(b, item.kind, parent) then None
      else Some(item.(name := Or(name, item.name), description := Or(description, item.description),
                      state := Or(state, item.state), parent := if up.Some? then up else item.parent))
    case CreateCriteria(_, texts) =>
      if b.store.Native? && !Insertable(item, texts) then None
      else Some(item.(criteria := item.criteria + NewCriteria(texts)))
    case MarkCriterion(_, ac, passed) =>
      var i := FindCriterion(item.criteria, ac);
      if i == |item.criteria| then None
      else Some(item.(criteria := item.criteria[i := item.criteria[i].(done := passed)]))
    case UpdateCriterion(_, ac, text, done) =>
      var i := FindCriterion(item.criteria, ac);
      if i == |item.criteria| then None
      else
        var c := item.criteria[i];
        Some(item.(criteria := item.criteria[i := c.(text := Or(text, c.text), done := Or(done, c.done))]))
    case DeleteCriterion(_, ac) =>
      var i := FindCriterion(item.criteria, ac);
      if i == |item.criteria| then None
      else Some(item.(criteria := item.criteria[..i] + item.criteria[i + 1..]))
    case SetEpic(_, epic) =>
      if item.kind.Story? && (epic.None? || epic.value in b.epics) then Some(item.(epic := epic)) else None
    case _ => Some(item)
  }

  /** An item that never had work. */
  predicate Purgeable(item: Item) {
    item.state in {"backlog", ARCHIVED} && forall c | c in item.criteria :: !c.done
  }

  /** Another row of the table has the logical id; in the tables it is the primary key. */
  predicate Taken(b: Board, kind: Kind, logical: string) {
    exists id | id in b.items :: b.items[id].kind == kind && b.items[id].logical == logical
  }

  /** FreeForm takes an archived item off its list; the tables keep the row and stamp it; a service moves it to
      its state for archived items. */
  function Archived(b: Board, id: Id): Board
    requires id in b.items
  {
    match b.store
    case FreeForm => b.(items := b.items - {id})
    case Native => b.(items := b.items[id := b.items[id].(state := ARCHIVED)])
    case Remote(state) => b.(items := b.items[id := b.items[id].(state := Or(state, b.items[id].state))])
  }

  /** The epic calls, which only FreeForm and Native offer. */
  predicate OnEpics(call: Call) { call.SetEpic? || call.CreateEpic? || call.UpdateEpic? || call.DeleteEpic? }

  predicate OnItem(call: Call) {
    call.UpdateItem? || call.CreateCriteria? || call.MarkCriterion? || call.UpdateCriterion?
    || call.DeleteCriterion? || call.SetEpic?
  }

  /** A write on one board. */
  function Apply(b: Board, call: Call): (Board, Result<Reply, Error>) {
    if b.store.Remote? && OnEpics(call) then (b, Err(EpicsNotSupported))
    else
      match call
      case CreateItem(kind, logical, name, description, state, parent) =>
        if b.store.Native? && Taken(b, kind, logical) then (b, Err(IdTaken))
        else if !ParentAllowed(b, kind, parent) then (b, Err(NotFound))
        else
          var item := Item(kind, logical, name, description, StateKept(b, kind, state),
                           ParentKept(b, kind, parent), None, []);
          (b.(items := b.items[b.next := item], next := b.next + 1), Ok(Created(b.next)))
      case ArchiveItem(id) => if id !in b.items then (b, Err(NotFound)) else (Archived(b, id), Ok(Done))
      case PurgeUseCase(id) =>
        if b.store.Remote? then (b, Err(PurgeRefused))
        else if id !in b.items || (b.store.Native? && b.items[id].kind.Story?) then (b, Err(NotFound))
        else if !Purgeable(b.items[id]) then (b, Err(PurgeRefused))
        else (b.(items := b.items - {id}), Ok(Done))
      case CreateEpic(epic, fields) =>
        if epic in b.epics then (b, Err(EpicExists)) else (b.(epics := b.epics[epic := fields]), Ok(Done))
      case UpdateEpic(epic, name, objective, position) =>
        if epic !in b.epics then (b, Err(NotFound))
        else
          var e := b.epics[epic];
          var after := Epic(Or(name, e.name), Or(objective, e.objective), Or(position, e.position));
          (b.(epics := b.epics[epic := after]), Ok(Done))
      case DeleteEpic(epic) =>
        if epic !in b.epics then (b, Err(NotFound))
        else (b.(epics := b.epics - {epic}, items := Detached(b.items, epic)), Ok(Done))
      case _ =>
        if call.id !in b.items then (b, Err(NotFound))
        else
          match Edit(b.items[call.id], call, b)
          case None => (b, Err(NotFound))
          case Some(item) => (b.(items := b.items[call.id := item]), Ok(Done))
  }

  function Detach(item: Item, epic: string): Item { if item.epic == Some(epic) then item.(epic := None) else item }

  /** The stories of a deleted epic belong to none. */
  function Detached(items: map<Id, Item>, epic: string): map<Id, Item> {
    map id | id in items :: Detach(items[id], epic)
  }

  /** `find_item_by_field`: the first item of the kind with the logical id. */
  function Find(b: Board, kind: Kind, logical: string, from: Id): (found: Option<Id>)
    decreases b.next - from
  {
    if from >= b.next then None
    else if from in b.items && b.items[from].kind == kind && b.items[from].logical == logical then Some(from)
    else Find(b, kind, logical, from + 1)
  }
}
