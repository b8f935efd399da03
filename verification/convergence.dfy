/** The dual backend over a native mirror that never fails: the mirror stays the primary, up to the ids the two
    boards use and to what archiving does on either. The primary is a FreeForm or a remote board; the program
    allows no mirror beside a native one. */
module Convergence {
  import opened Wrappers
  import opened Boards
  import opened DualBackend

  function ReactBoard(m: Board, request: Request): (Board, Option<Answer>) {
    match request
    case FindItem(kind, logical) => (m, Some(Found(Find(m, kind, logical, 0))))
    case Write(call) =>
      var (after, result) := Apply(m, call);
      (after, if result.Ok? then Some(Written(result.value)) else None)
  }

  function BoardMirror(): Mirror<Board> { ReactBoard }

  /** Which mirror id each primary id got and back, also of items that are gone; and the items of a remote
      primary that were archived and got no new state since. */
  datatype Naming = Naming(to: map<Id, Id>, from: map<Id, Id>, archived: set<Id>)

  ghost predicate Inverse(n: Naming) {
    && (forall k :: k in n.to ==> n.to[k] in n.from && n.from[n.to[k]] == k)
    && (forall j :: j in n.from ==> n.from[j] in n.to && n.to[n.from[j]] == j)
  }

  ghost predicate Bounded(n: Naming, p: Board, m: Board) {
    && (forall k :: k in n.to ==> k < p.next)
    && (forall j :: j in n.from ==> j < m.next)
  }

  /** FreeForm keeps no archived item; a remote board has them in its state for archived items. */
  ghost predicate Marked(n: Naming, p: Board) {
    match p.store
    case FreeForm => n.archived == {}
    case Native => false
    case Remote(state) =>
      forall k :: k in n.archived ==> k in p.items && (state.Some? ==> p.items[k].state == state.value)
  }

  predicate Named(n: Naming, id: Option<Id>) { id.Some? ==> id.value in n.to }

  function Rename(n: Naming, id: Option<Id>): Option<Id>
    requires Named(n, id)
  {
    if id.Some? then Some(n.to[id.value]) else None
  }

  /** Primary item `k` as the mirror has it: archived rows say so, and stories have no parent there. */
  function Renamed(n: Naming, k: Id, item: Item): Item
    requires Named(n, item.parent)
  {
    item.(parent := if item.kind.Story? then None else Rename(n, item.parent),
          state := if k in n.archived then ARCHIVED else item.state)
  }

  predicate Twin(n: Naming, item: Item, m: Board, k: Id) {
    k in n.to && Named(n, item.parent) && n.to[k] in m.items && m.items[n.to[k]] == Renamed(n, k, item)
  }

  /** A row without a primary item: FreeForm archived it, and the mirror keeps it as archived. */
  predicate Retired(p: Board, row: Item) { p.store.FreeForm? && row.state == ARCHIVED }

  /** The mirror is the primary up to the renaming of ids, and beyond it has archived rows only. */
  ghost predicate Mirrored(n: Naming, p: Board, m: Board) {
    && m.store.Native? && Inverse(n) && Bounded(n, p, m) && Marked(n, p) && m.epics == p.epics
    && (forall k :: k in p.items ==> Twin(n, p.items[k], m, k))
    && (forall j :: j in m.items ==> j in n.from && (n.from[j] in p.items || Retired(p, m.items[j])))
  }

  function Tag(item: Item): (Kind, string) { (item.kind, item.logical) }

  /** No other item has the logical id of item `id`. */
  ghost predicate Lone(b: Board, id: Id)
    requires id in b.items
  {
    forall j :: j in b.items && Tag(b.items[j]) == Tag(b.items[id]) ==> j == id
  }

  /** Every item has a logical id, and one of its own. */
  ghost predicate Distinct(b: Board) {
    forall k :: k in b.items ==> b.items[k].logical != "" && Lone(b, k)
  }

  ghost predicate CacheTrue(n: Naming, cache: map<Id, Option<Id>>) {
    forall k :: k in cache ==> k in n.to && cache[k] == Some(n.to[k])
  }

  /** The session a mirrored run is in. */
  ghost predicate InStep(n: Naming, s: Session<Board>) {
    Mirrored(n, s.primary, s.mirror) && Distinct(s.primary) && Distinct(s.mirror) && CacheTrue(n, s.cache)
  }

  // ── Resolving ids ────────────────────────────────────────────────

  lemma {:induction false} FindOnly(b: Board, id: Id, from: Id)
    requires id in b.items && from <= id < b.next && Lone(b, id)
    ensures Find(b, b.items[id].kind, b.items[id].logical, from) == Some(id)
    decreases id - from
  {
    if from < id {
      assert from in b.items ==> Tag(b.items[from]) != Tag(b.items[id]);
      FindOnly(b, id, from + 1);
    }
  }

  function Learned(s: Session<Board>, n: Naming, id: Id): Session<Board>
    requires id in n.to
  {
    if id in s.cache then s else s.(cache := s.cache[id := Some(n.to[id])])
  }

  /** A session whose primary may already be a write ahead of the mirror resolves ids as named. */
  lemma ResolveNamed(s: Session<Board>, n: Naming, p: Board, id: Id)
    requires Mirrored(n, p, s.mirror) && Distinct(p) && Distinct(s.mirror) && CacheTrue(n, s.cache)
    requires id in p.items && id in s.primary.items && Tag(s.primary.items[id]) == Tag(p.items[id])
    ensures id in n.to && CacheTrue(n, Learned(s, n, id).cache)
    ensures Resolve(s, BoardMirror(), id) == (Learned(s, n, id), Some(Some(n.to[id])))
  {
    assert Twin(n, p.items[id], s.mirror, id);
    if id !in s.cache { FindOnly(s.mirror, n.to[id], 0); }
  }

  // ── The two boards after the same write ──────────────────────────

  function Put(b: Board, id: Id, item: Item): Board { b.(items := b.items[id := item]) }

  function Dropped(b: Board, id: Id): Board { b.(items := b.items - {id}) }

  /** The same names; only item `id` may be marked differently. */
  ghost predicate MarksBut(n: Naming, n': Naming, id: Id) {
    n'.to == n.to && n'.from == n.from && forall k :: k != id ==> (k in n'.archived <==> k in n.archived)
  }

  lemma UpdateMirrored(n: Naming, n': Naming, p: Board, m: Board, id: Id, item: Item)
    requires Mirrored(n, p, m) && id in p.items && Named(n, item.parent)
    requires MarksBut(n, n', id) && Marked(n', Put(p, id, item))
    ensures id in n.to
    ensures Mirrored(n', Put(p, id, item), Put(m, n.to[id], Renamed(n', id, item)))
  {
    assert Twin(n, p.items[id], m, id);
    var p', m' := Put(p, id, item), Put(m, n.to[id], Renamed(n', id, item));
    forall k | k in p'.items ensures Twin(n', p'.items[k], m', k) {
      if k != id { assert Twin(n, p.items[k], m, k); }
    }
  }

  lemma UpdateDistinct(b: Board, id: Id, item: Item)
    requires Distinct(b) && id in b.items && Tag(item) == Tag(b.items[id])
    ensures Distinct(Put(b, id, item))
  {
    var b' := Put(b, id, item);
    forall k | k in b'.items ensures b'.items[k].logical != "" && Lone(b', k) {
      assert Lone(b, k) && Tag(b'.items[k]) == Tag(b.items[k]);
    }
  }

  lemma RemoveMirrored(n: Naming, p: Board, m: Board, id: Id)
    requires Mirrored(n, p, m) && id in p.items && p.store.FreeForm?
    ensures id in n.to
    ensures Mirrored(n, Dropped(p, id), Dropped(m, n.to[id]))
  {
    assert Twin(n, p.items[id], m, id);
    var p', m' := Dropped(p, id), Dropped(m, n.to[id]);
    forall k | k in p'.items ensures Twin(n, p'.items[k], m', k) {
      assert Twin(n, p.items[k], m, k);
    }
  }

  /** What FreeForm takes off its list stays on the mirror as an archived row. */
  lemma RetireMirrored(n: Naming, p: Board, m: Board, id: Id, row: Item)
    requires Mirrored(n, p, m) && id in p.items && p.store.FreeForm? && row.state == ARCHIVED
    ensures id in n.to
    ensures Mirrored(n, Dropped(p, id), Put(m, n.to[id], row))
  {
    assert Twin(n, p.items[id], m, id);
    var p', m' := Dropped(p, id), Put(m, n.to[id], row);
    forall k | k in p'.items ensures Twin(n, p'.items[k], m', k) {
      assert Twin(n, p.items[k], m, k);
    }
  }

  lemma RemoveDistinct(b: Board, id: Id)
    requires Distinct(b)
    ensures Distinct(Dropped(b, id))
  {
    var b' := Dropped(b, id);
    forall k | k in b'.items ensures b'.items[k].logical != "" && Lone(b', k) {
      assert Lone(b, k);
    }
  }

  function Extended(n: Naming, k: Id, j: Id): Naming { Naming(n.to[k := j], n.from[j := k], n.archived) }

  function Added(b: Board, item: Item): Board { b.(items := b.items[b.next := item], next := b.next + 1) }

  lemma ExtendedInverse(n: Naming, p: Board, m: Board)
    requires Inverse(n) && Bounded(n, p, m)
    ensures Inverse(Extended(n, p.next, m.next))
  {
    assert p.next !in n.to && m.next !in n.from;
  }

  lemma NextIsNew(n: Naming, p: Board, m: Board)
    requires Mirrored(n, p, m)
    ensures p.next !in n.to && m.next !in n.from && p.next !in p.items && m.next !in m.items
    ensures p.next !in n.archived
  {
    assert p.next in p.items ==> Twin(n, p.items[p.next], m, p.next);
  }

  lemma CreateMirrored(n: Naming, p: Board, m: Board, item: Item)
    requires Mirrored(n, p, m) && Named(n, item.parent)
    ensures Mirrored(Extended(n, p.next, m.next), Added(p, item), Added(m, Renamed(n, p.next, item)))
  {
    var n', p', m' := Extended(n, p.next, m.next), Added(p, item), Added(m, Renamed(n, p.next, item));
    ExtendedInverse(n, p, m);
    NextIsNew(n, p, m);
    forall k | k in p'.items ensures Twin(n', p'.items[k], m', k) {
      if k != p.next { assert Twin(n, p.items[k], m, k); }
    }
    forall j | j in m'.items ensures j in n'.from && (n'.from[j] in p'.items || Retired(p', m'.items[j])) {
    }
  }

  ghost predicate TagFree(b: Board, kind: Kind, logical: string) {
    forall k :: k in b.items ==> Tag(b.items[k]) != (kind, logical)
  }

  lemma CreateDistinct(b: Board, item: Item)
    requires Distinct(b) && b.next !in b.items && item.logical != "" && TagFree(b, item.kind, item.logical)
    ensures Distinct(Added(b, item))
  {
    var b' := Added(b, item);
    forall k | k in b'.items ensures b'.items[k].logical != "" && Lone(b', k) {
      if k != b.next { assert Lone(b, k); }
    }
  }

  function Without(b: Board, epic: string): Board {
    b.(epics := b.epics - {epic}, items := Detached(b.items, epic))
  }

  lemma DetachRenamed(n: Naming, k: Id, item: Item, epic: string)
    requires Named(n, item.parent)
    ensures Named(n, Detach(item, epic).parent)
    ensures Renamed(n, k, Detach(item, epic)) == Detach(Renamed(n, k, item), epic)
  {
  }

  lemma DetachMirrored(n: Naming, p: Board, m: Board, epic: string)
    requires Mirrored(n, p, m)
    ensures Mirrored(n, Without(p, epic), Without(m, epic))
  {
    var p', m' := Without(p, epic), Without(m, epic);
    forall k | k in p'.items ensures Twin(n, p'.items[k], m', k) {
      assert Twin(n, p.items[k], m, k);
      DetachRenamed(n, k, p.items[k], epic);
    }
    assert Marked(n, p');
  }

  lemma DetachDistinct(b: Board, epic: string)
    requires Distinct(b)
    ensures Distinct(Without(b, epic))
  {
    var b' := Without(b, epic);
    forall k | k in b'.items ensures b'.items[k].logical != "" && Lone(b', k) {
      assert Lone(b, k);
      forall j | j in b'.items && Tag(b'.items[j]) == Tag(b'.items[k]) ensures j == k {
        assert Tag(b.items[j]) == Tag(b.items[k]);
      }
    }
  }

  lemma SameItemsMirrored(n: Naming, p: Board, m: Board, epics: map<string, Epic>)
    requires Mirrored(n, p, m)
    ensures Mirrored(n, p.(epics := epics), m.(epics := epics))
  {
    forall k | k in p.items ensures Twin(n, p.items[k], m.(epics := epics), k) { assert Twin(n, p.items[k], m, k); }
  }

  lemma SameItemsDistinct(b: Board, epics: map<string, Epic>)
    requires Distinct(b)
    ensures Distinct(b.(epics := epics))
  {
    forall k | k in b.items ensures b.items[k].logical != "" && Lone(b.(epics := epics), k) { assert Lone(b, k); }
  }

  /** The epic calls on either board. */
  lemma EpicsMirrored(n: Naming, p: Board, m: Board, call: Call)
    requires Mirrored(n, p, m) && Distinct(p) && Distinct(m)
    requires call.CreateEpic? || call.UpdateEpic? || call.DeleteEpic?
    ensures Apply(p, call).1.Err? ==> Apply(p, call).0 == p
    ensures Apply(p, call).1.Ok? ==> Mirrored(n, Apply(p, call).0, Apply(m, call).0)
    ensures Apply(p, call).1.Ok? ==> Distinct(Apply(p, call).0) && Distinct(Apply(m, call).0)
  {
    if Apply(p, call).1.Ok? {
      if call.DeleteEpic? {
        DetachMirrored(n, p, m, call.epic);
        DetachDistinct(p, call.epic);
        DetachDistinct(m, call.epic);
      } else {
        var epics := Apply(p, call).0.epics;
        SameItemsMirrored(n, p, m, epics);
        SameItemsDistinct(p, epics);
        SameItemsDistinct(m, epics);
      }
    }
  }

  // ── One call on the wrapper ──────────────────────────────────────

  /** The ids the wrapper can still resolve: of items that are there, and of items it resolved before. */
  predicate Resolvable(s: Session<Board>, id: Id) { id in s.cache || id in s.primary.items }

  /** What such an id resolves to is a story of the mirror. */
  predicate StoryThere(s: Session<Board>, id: Id) {
    if id in s.cache then s.cache[id].Some? && IsStory(s.mirror, s.cache[id].value) else IsStory(s.primary, id)
  }

  /** The mirror can put an item of the kind under that parent. */
  predicate ParentFollows(s: Session<Board>, kind: Kind, parent: Option<Id>) {
    parent.Some? ==> Resolvable(s, parent.value) && (kind.UseCase? ==> StoryThere(s, parent.value))
  }

  /** An item the mirror gets to know is archived: a remote primary still has it afterwards, FreeForm does not,
      so the wrapper must have resolved it before; and a row in that state needs no word. */
  predicate ArchiveFollows(s: Session<Board>, id: Id) {
    id in s.primary.items && s.primary.store.FreeForm? ==> id in s.cache || s.primary.items[id].state == ARCHIVED
  }

  /** FreeForm would purge a story, too; the tables look for use cases only. */
  predicate PurgeFollows(p: Board, id: Id) {
    || id !in p.items || !p.store.FreeForm? || p.items[id].kind.UseCase?
    || !Purgeable(p.items[id]) || p.items[id].state == ARCHIVED
  }

  /** The mirror takes the new item as it is: a story comes with a state, and no archived row has its id. */
  ghost predicate CreateFollows(s: Session<Board>, call: Call)
    requires call.CreateItem?
  {
    && ParentFollows(s, call.kind, call.parent) && TagFree(s.mirror, call.kind, call.logical)
    && (call.kind.Story? ==> call.state != "")
  }

  /** The calls the mirror can follow: a new item has a logical id that no item and no archived row has, and a
      story a state; parents are stories that can be resolved; new criteria are of a use case and have ids of their
      own; archived items can be resolved; and no active story is purged. */
  ghost predicate Grounded(s: Session<Board>, call: Call) {
    match call
    case CreateItem(kind, logical, _, _, _, _) =>
      logical != "" && TagFree(s.primary, kind, logical) && CreateFollows(s, call)
    case UpdateItem(id, _, _, _, parent) =>
      id in s.primary.items ==> ParentFollows(s, s.primary.items[id].kind, parent)
    case CreateCriteria(id, texts) => id in s.primary.items ==> Insertable(s.primary.items[id], texts)
    case ArchiveItem(id) => ArchiveFollows(s, id)
    case PurgeUseCase(id) => PurgeFollows(s.primary, id)
    case _ => true
  }

  /** The naming after a call that was followed. */
  function NextNaming(n: Naming, s: Session<Board>, call: Call): Naming {
    match call
    case CreateItem(_, _, _, _, _, _) => Extended(n, s.primary.next, s.mirror.next)
    case UpdateItem(id, _, _, Some(_), _) => n.(archived := n.archived - {id})
    case ArchiveItem(id) =>
      if id in s.primary.items && s.primary.store.Remote? then n.(archived := n.archived + {id}) else n
    case _ => n
  }

  lemma ParentNamed(n: Naming, s: Session<Board>, id: Id)
    requires InStep(n, s) && Resolvable(s, id)
    ensures id in n.to && (StoryThere(s, id) <==> IsStory(s.mirror, n.to[id]))
  {
    if id !in s.cache { assert Twin(n, s.primary.items[id], s.mirror, id); }
  }

  /** A call on an item as the mirror gets it. */
  function Translated(n: Naming, call: Call): Call
    requires OnItem(call) && call.id in n.to && (call.UpdateItem? ==> Named(n, call.newParent))
  {
    var there := Readdressed(call, n.to[call.id]);
    if call.UpdateItem? then there.(newParent := Rename(n, call.newParent)) else there
  }

  /** The parent of an edit is a story of the mirror. */
  ghost predicate ParentThere(n: Naming, m: Board, kind: Kind, call: Call)
    requires OnItem(call) && (call.UpdateItem? ==> Named(n, call.newParent))
  {
    call.UpdateItem? && call.newParent.Some? && kind.UseCase? ==> IsStory(m, n.to[call.newParent.value])
  }

  /** Editing an item commutes with renaming. */
  lemma EditRenamed(n: Naming, s: Session<Board>, item: Item, call: Call)
    requires OnItem(call) && call.id in n.to && (call.UpdateItem? ==> Named(n, call.newParent))
    requires Named(n, item.parent) && ParentThere(n, s.mirror, item.kind, call)
    requires call.CreateCriteria? ==> Insertable(item, call.texts)
    requires s.mirror.store.Native? && !s.primary.store.Native? && s.mirror.epics == s.primary.epics
    ensures var edited := Edit(item, call, s.primary);
      var there := Edit(Renamed(n, call.id, item), Translated(n, call), s.mirror);
      && (edited.None? <==> there.None?)
      && (edited.Some? ==>
            && Tag(edited.value) == Tag(item) && Named(n, edited.value.parent)
            && there.value == Renamed(NextNaming(n, s, call), call.id, edited.value))
  {
  }

  lemma EditKeepsState(item: Item, call: Call, b: Board)
    requires OnItem(call) && Edit(item, call, b).Some? && (call.UpdateItem? ==> call.newState.None?)
    ensures Edit(item, call, b).value.state == item.state
  {
  }

  lemma ApplyEdits(b: Board, call: Call)
    requires OnItem(call) && call.id in b.items && !(b.store.Remote? && call.SetEpic?)
    ensures Apply(b, call).1.Ok? <==> Edit(b.items[call.id], call, b).Some?
    ensures Apply(b, call).0 ==
      match Edit(b.items[call.id], call, b)
      case None => b
      case Some(item) => Put(b, call.id, item)
  {
  }

  lemma TranslatedId(n: Naming, call: Call)
    requires OnItem(call) && call.id in n.to && (call.UpdateItem? ==> Named(n, call.newParent))
    ensures OnItem(Translated(n, call)) && Translated(n, call).id == n.to[call.id]
  {
  }

  lemma EditMarked(n: Naming, s: Session<Board>, call: Call, item: Item)
    requires Marked(n, s.primary) && OnItem(call) && call.id in s.primary.items
    requires Edit(s.primary.items[call.id], call, s.primary) == Some(item)
    ensures MarksBut(n, NextNaming(n, s, call), call.id)
    ensures Marked(NextNaming(n, s, call), Put(s.primary, call.id, item))
  {
    if call.UpdateItem? ==> call.newState.None? { EditKeepsState(s.primary.items[call.id], call, s.primary); }
  }

  lemma EditMirrored(n: Naming, s: Session<Board>, call: Call)
    requires Mirrored(n, s.primary, s.mirror) && Distinct(s.primary) && Distinct(s.mirror)
    requires OnItem(call) && call.id in s.primary.items && Apply(s.primary, call).1.Ok?
    requires (call.UpdateItem? ==> Named(n, call.newParent))
    requires ParentThere(n, s.mirror, s.primary.items[call.id].kind, call)
    requires call.CreateCriteria? ==> Insertable(s.primary.items[call.id], call.texts)
    ensures call.id in n.to
    ensures Mirrored(NextNaming(n, s, call), Apply(s.primary, call).0, Apply(s.mirror, Translated(n, call)).0)
    ensures Distinct(Apply(s.primary, call).0) && Distinct(Apply(s.mirror, Translated(n, call)).0)
  {
    var p, m, item := s.primary, s.mirror, s.primary.items[call.id];
    assert !(p.store.Remote? && call.SetEpic?);
    hide Apply;
    hide Edit;
    assert Twin(n, item, m, call.id);
    TranslatedId(n, call);
    EditRenamed(n, s, item, call);
    ApplyEdits(p, call);
    ApplyEdits(m, Translated(n, call));
    var edited := Edit(item, call, p).value;
    EditMarked(n, s, call, edited);
    UpdateMirrored(n, NextNaming(n, s, call), p, m, call.id, edited);
    UpdateDistinct(p, call.id, edited);
    UpdateDistinct(m, n.to[call.id], Renamed(NextNaming(n, s, call), call.id, edited));
  }

  lemma FollowTold(s: Session<Board>, call: Call, reply: Reply, s1: Session<Board>, at: Id)
    requires (OnItem(call) && !call.UpdateItem?) || call.ArchiveItem?
    requires Resolve(s, BoardMirror(), call.id) == (s1, Some(Some(at)))
    ensures Follow(s, BoardMirror(), call, reply) == s1.(mirror := Apply(s1.mirror, Readdressed(call, at)).0)
  {
  }

  lemma StepFollows(s: Session<Board>, call: Call)
    requires !call.PurgeUseCase? && Apply(s.primary, call).1.Ok?
    ensures var (p, result) := Apply(s.primary, call);
      Step(s, BoardMirror(), call).0 == Follow(s.(primary := p), BoardMirror(), call, result.value)
  {
  }

  lemma EditKeepsTag(p: Board, call: Call)
    requires OnItem(call) && call.id in p.items && Apply(p, call).1.Ok?
    ensures Edit(p.items[call.id], call, p).Some? && Apply(p, call).0.items.Keys == p.items.Keys
    ensures Tag(Apply(p, call).0.items[call.id]) == Tag(p.items[call.id])
    ensures forall k :: k in p.items && k != call.id ==> Apply(p, call).0.items[k] == p.items[k]
  {
  }

  /** What the wrapper tells the mirror for a call on an item. */
  lemma EditTold(n: Naming, s: Session<Board>, call: Call)
    requires InStep(n, s) && OnItem(call) && !call.UpdateItem?
    requires call.id in s.primary.items && Apply(s.primary, call).1.Ok?
    ensures call.id in n.to
    ensures var after := Step(s, BoardMirror(), call).0;
      after.primary == Apply(s.primary, call).0 && after.mirror == Apply(s.mirror, Translated(n, call)).0
      && CacheTrue(n, after.cache)
  {
    hide Apply;
    hide Edit;
    var p := s.primary;
    var s1 := s.(primary := Apply(p, call).0);
    EditKeepsTag(p, call);
    ResolveNamed(s1, n, p, call.id);
    StepFollows(s, call);
    FollowTold(s1, call, Apply(p, call).1.value, Learned(s1, n, call.id), n.to[call.id]);
  }

  lemma ParentResolved(n: Naming, s: Session<Board>, before: Session<Board>, up: Id)
    requires InStep(n, before) && s.mirror == before.mirror && CacheTrue(n, s.cache)
    requires before.primary.items.Keys <= s.primary.items.Keys
    requires Resolvable(before, up) && before.cache.Keys <= s.cache.Keys
    requires up in before.primary.items ==> Tag(s.primary.items[up]) == Tag(before.primary.items[up])
    ensures up in n.to && CacheTrue(n, Learned(s, n, up).cache)
    ensures ResolveParent(s, BoardMirror(), Some(up)) == (Learned(s, n, up), Some(Some(n.to[up])))
  {
    if up in before.primary.items {
      assert Twin(n, before.primary.items[up], before.mirror, up);
      ResolveNamed(s, n, before.primary, up);
    }
  }

  lemma FollowUpdate(s: Session<Board>, call: Call, reply: Reply, s1: Session<Board>, at: Id,
                     s2: Session<Board>, up: Option<Id>)
    requires call.UpdateItem? && Resolve(s, BoardMirror(), call.id) == (s1, Some(Some(at)))
    requires ResolveParent(s1, BoardMirror(), call.newParent) == (s2, Some(up))
    ensures Follow(s, BoardMirror(), call, reply)
      == s2.(mirror := Apply(s2.mirror, Readdressed(call, at).(newParent := up)).0)
  {
  }

  lemma UpdateTold(n: Naming, s: Session<Board>, call: Call)
    requires InStep(n, s) && call.UpdateItem? && Grounded(s, call)
    requires call.id in s.primary.items && Apply(s.primary, call).1.Ok?
    ensures call.id in n.to && Named(n, call.newParent)
    ensures ParentThere(n, s.mirror, s.primary.items[call.id].kind, call)
    ensures var after := Step(s, BoardMirror(), call).0;
      after.primary == Apply(s.primary, call).0 && after.mirror == Apply(s.mirror, Translated(n, call)).0
      && CacheTrue(n, after.cache)
  {
    hide Apply;
    hide Edit;
    var p := s.primary;
    assert Twin(n, p.items[call.id], s.mirror, call.id);
    EditKeepsTag(p, call);
    var s1 := s.(primary := Apply(p, call).0);
    ResolveNamed(s1, n, p, call.id);
    var s2 := Learned(s1, n, call.id);
    var s3 := s2;
    StepFollows(s, call);
    hide Resolve;
    hide ResolveParent;
    hide Follow;
    hide Step;
    hide Mirrored;
    if call.newParent.Some? {
      ParentNamed(n, s, call.newParent.value);
      ParentResolved(n, s2, s, call.newParent.value);
      s3 := Learned(s2, n, call.newParent.value);
    }
    FollowUpdate(s1, call, Apply(p, call).1.value, s2, n.to[call.id], s3, Rename(n, call.newParent));
  }

  lemma Refused(s: Session<Board>, call: Call)
    requires Apply(s.primary, call).1.Err? && !call.PurgeUseCase?
    ensures Step(s, BoardMirror(), call).0 == s
  {
  }

  lemma EditInStep(n: Naming, s: Session<Board>, call: Call)
    requires InStep(n, s) && OnItem(call) && Grounded(s, call)
    ensures InStep(NextNaming(n, s, call), Step(s, BoardMirror(), call).0)
  {
    if call.id in s.primary.items && Apply(s.primary, call).1.Ok? {
      hide Step;
      hide Apply;
      hide Translated;
      hide Mirrored;
      hide Distinct;
      if call.UpdateItem? { UpdateTold(n, s, call); } else { EditTold(n, s, call); }
      EditMirrored(n, s, call);
    } else {
      assert Apply(s.primary, call).1.Err?;
      Refused(s, call);
      UnmarkedMissing(n, s, call);
    }
  }

  lemma UnmarkedMissing(n: Naming, s: Session<Board>, call: Call)
    requires Mirrored(n, s.primary, s.mirror) && OnItem(call) && Apply(s.primary, call).1.Err?
    ensures NextNaming(n, s, call) == n
  {
  }

  lemma FollowCreate(s: Session<Board>, call: Call, s1: Session<Board>, at: Option<Id>, id: Id)
    requires call.CreateItem? && ResolveParent(s, BoardMirror(), call.parent) == (s1, Some(at))
    ensures var (m, result) := Apply(s1.mirror, call.(parent := at));
      Follow(s, BoardMirror(), call, Created(id))
      == if result.Ok? then s1.(mirror := m, cache := s1.cache[id := Some(s1.mirror.next)])
         else s1.(mirror := m)
  {
  }

  lemma CacheExtended(n: Naming, cache: map<Id, Option<Id>>, k: Id, j: Id)
    requires CacheTrue(n, cache) && k !in n.to
    ensures CacheTrue(Extended(n, k, j), cache[k := Some(j)])
  {
  }

  function NewItem(call: Call): Item
    requires call.CreateItem?
  {
    Item(call.kind, call.logical, call.name, call.description, call.state, call.parent, None, [])
  }

  lemma CreateOnPrimary(b: Board, call: Call)
    requires call.CreateItem? && !b.store.Native?
    ensures Apply(b, call) == (Added(b, NewItem(call)), Ok(Created(b.next)))
  {
  }

  function NewRow(b: Board, call: Call): Item
    requires call.CreateItem?
  {
    NewItem(call).(parent := ParentKept(b, call.kind, call.parent), state := StateKept(b, call.kind, call.state))
  }

  /** The tables take a new row exactly when its id is free and its parent a story. */
  lemma CreateOnTables(b: Board, call: Call)
    requires call.CreateItem? && b.store.Native?
    ensures TagFree(b, call.kind, call.logical) && ParentAllowed(b, call.kind, call.parent)
      ==> Apply(b, call) == (Added(b, NewRow(b, call)), Ok(Created(b.next)))
    ensures !(TagFree(b, call.kind, call.logical) && ParentAllowed(b, call.kind, call.parent))
      ==> Apply(b, call).1.Err? && Apply(b, call).0 == b
  {
    assert Taken(b, call.kind, call.logical) <==> !TagFree(b, call.kind, call.logical);
  }

  /** The row the mirror makes of a new item. */
  function RowTold(n: Naming, s: Session<Board>, call: Call): Item
    requires call.CreateItem? && Named(n, call.parent)
  {
    Renamed(n, s.primary.next, NewItem(call)).(state := StateKept(s.mirror, call.kind, call.state))
  }

  lemma CreateTold(n: Naming, s: Session<Board>, call: Call)
    requires InStep(n, s) && call.CreateItem? && ParentFollows(s, call.kind, call.parent)
    requires TagFree(s.mirror, call.kind, call.logical)
    ensures Named(n, call.parent)
    ensures var after := Step(s, BoardMirror(), call).0;
      after.primary == Added(s.primary, NewItem(call))
      && after.mirror == Added(s.mirror, RowTold(n, s, call))
      && CacheTrue(NextNaming(n, s, call), after.cache)
  {
    hide Apply;
    var p := s.primary;
    CreateOnPrimary(p, call);
    var ahead := s.(primary := Apply(p, call).0);
    var s1 := ahead;
    NextIsNew(n, p, s.mirror);
    if call.parent.Some? {
      ParentNamed(n, s, call.parent.value);
      ParentResolved(n, ahead, s, call.parent.value);
      s1 := Learned(ahead, n, call.parent.value);
    }
    FollowCreate(ahead, call, s1, Rename(n, call.parent), p.next);
    CreateOnTables(s.mirror, call.(parent := Rename(n, call.parent)));
    CacheExtended(n, s1.cache, p.next, s.mirror.next);
  }

  lemma CreateInStep(n: Naming, s: Session<Board>, call: Call)
    requires InStep(n, s) && call.CreateItem? && Grounded(s, call)
    ensures InStep(NextNaming(n, s, call), Step(s, BoardMirror(), call).0)
  {
    hide Step;
    hide Mirrored;
    CreateTold(n, s, call);
    NextIsNew(n, s.primary, s.mirror);
    CreateMirrored(n, s.primary, s.mirror, NewItem(call));
    CreateDistinct(s.primary, NewItem(call));
    CreateDistinct(s.mirror, Renamed(n, s.primary.next, NewItem(call)));
  }

  lemma PurgeTold(s: Session<Board>, call: Call, s1: Session<Board>, at: Option<Option<Id>>)
    requires call.PurgeUseCase? && Resolve(s, BoardMirror(), call.id) == (s1, at)
    ensures var (p, result) := Apply(s1.primary, call);
      Step(s, BoardMirror(), call).0 == if result.Ok? && at.Some? && at.value.Some?
        then s1.(primary := p, mirror := Apply(s1.mirror, PurgeUseCase(at.value.value)).0)
        else s1.(primary := p)
  {
  }

  lemma FreeFormMirrored(n: Naming, p: Board, m: Board, id: Id)
    requires Mirrored(n, p, m) && Distinct(p) && Distinct(m) && id in p.items && p.store.FreeForm?
    ensures id in n.to && n.to[id] in m.items && Archived(p, id) == Dropped(p, id)
    ensures Mirrored(n, Dropped(p, id), Archived(m, n.to[id]))
    ensures Distinct(Dropped(p, id)) && Distinct(Archived(m, n.to[id]))
    ensures p.items[id].state == ARCHIVED ==> Archived(m, n.to[id]) == m
  {
    assert Twin(n, p.items[id], m, id);
    var row := m.items[n.to[id]].(state := ARCHIVED);
    assert p.items[id].state == ARCHIVED ==> row == m.items[n.to[id]] && Put(m, n.to[id], row) == m;
    RetireMirrored(n, p, m, id, row);
    hide Mirrored;
    RemoveDistinct(p, id);
    UpdateDistinct(m, n.to[id], row);
    hide Distinct;
  }

  /** Both boards purge a use case, or neither does; an archived story leaves its archived row. */
  lemma PurgeMirrored(n: Naming, p: Board, m: Board, id: Id)
    requires Mirrored(n, p, m) && Distinct(p) && Distinct(m) && id in p.items && PurgeFollows(p, id)
    ensures id in n.to
    ensures var (p', result) := Apply(p, PurgeUseCase(id));
      && (result.Err? ==> p' == p)
      && (result.Ok? ==>
            && Mirrored(n, p', Apply(m, PurgeUseCase(n.to[id])).0)
            && Distinct(p') && Distinct(Apply(m, PurgeUseCase(n.to[id])).0))
  {
    assert Twin(n, p.items[id], m, id);
    hide Mirrored;
    hide Distinct;
    if Apply(p, PurgeUseCase(id)).1.Ok? {
      if p.items[id].kind.Story? {
        FreeFormMirrored(n, p, m, id);
      } else {
        RemoveMirrored(n, p, m, id);
        RemoveDistinct(p, id);
        RemoveDistinct(m, n.to[id]);
      }
    }
  }

  lemma PurgeMissing(s: Session<Board>, call: Call)
    requires call.PurgeUseCase? && call.id !in s.primary.items
    ensures Step(s, BoardMirror(), call).0 == s
  {
    PurgeTold(s, call, s, if call.id in s.cache then Some(s.cache[call.id]) else None);
  }

  lemma PurgeInStep(n: Naming, s: Session<Board>, call: Call)
    requires InStep(n, s) && call.PurgeUseCase? && Grounded(s, call)
    ensures InStep(n, Step(s, BoardMirror(), call).0)
  {
    hide Step;
    hide Apply;
    hide Resolve;
    var p := s.primary;
    if call.id !in p.items {
      PurgeMissing(s, call);
    } else {
      ResolveNamed(s, n, p, call.id);
      assert call == PurgeUseCase(call.id);
      PurgeTold(s, call, Learned(s, n, call.id), Some(Some(n.to[call.id])));
      PurgeMirrored(n, p, s.mirror, call.id);
      assert Apply(p, call).1.Err? ==> Step(s, BoardMirror(), call).0 == Learned(s, n, call.id);
    }
  }

  function ArchivedItem(p: Board, item: Item): Item
    requires p.store.Remote?
  {
    item.(state := Or(p.store.archived, item.state))
  }

  lemma RemoteMirrored(n: Naming, p: Board, m: Board, id: Id)
    requires Mirrored(n, p, m) && Distinct(p) && Distinct(m) && id in p.items && p.store.Remote?
    ensures id in n.to && n.to[id] in m.items && Archived(p, id) == Put(p, id, ArchivedItem(p, p.items[id]))
    ensures Mirrored(n.(archived := n.archived + {id}), Archived(p, id), Archived(m, n.to[id]))
    ensures Distinct(Archived(p, id)) && Distinct(Archived(m, n.to[id]))
  {
    var n' := n.(archived := n.archived + {id});
    var item := ArchivedItem(p, p.items[id]);
    assert Twin(n, p.items[id], m, id);
    assert Renamed(n', id, item) == m.items[n.to[id]].(state := ARCHIVED);
    UpdateMirrored(n, n', p, m, id, item);
    UpdateDistinct(p, id, item);
    UpdateDistinct(m, n.to[id], Renamed(n', id, item));
  }

  lemma ArchiveOn(b: Board, id: Id)
    requires id in b.items
    ensures Apply(b, ArchiveItem(id)) == (Archived(b, id), Ok(Done))
  {
  }

  /** A remote board still has what it archived, so the wrapper can resolve it. */
  lemma ArchiveRemote(n: Naming, s: Session<Board>, id: Id)
    requires InStep(n, s) && s.primary.store.Remote? && id in s.primary.items
    ensures InStep(n.(archived := n.archived + {id}), Step(s, BoardMirror(), ArchiveItem(id)).0)
  {
    hide Apply;
    hide Archived;
    hide Step;
    hide Follow;
    hide Resolve;
    hide Mirrored;
    hide Distinct;
    var p := s.primary;
    var s1 := s.(primary := Archived(p, id));
    ArchiveOn(p, id);
    StepFollows(s, ArchiveItem(id));
    RemoteMirrored(n, p, s.mirror, id);
    ResolveNamed(s1, n, p, id);
    FollowTold(s1, ArchiveItem(id), Done, Learned(s1, n, id), n.to[id]);
    ArchiveOn(s.mirror, n.to[id]);
  }

  lemma ArchiveUntold(s: Session<Board>, id: Id)
    requires id in s.primary.items && id !in s.cache && s.primary.store.FreeForm?
    ensures Step(s, BoardMirror(), ArchiveItem(id)).0 == s.(primary := Dropped(s.primary, id))
  {
  }

  /** FreeForm does not, so the wrapper must have resolved it before. */
  lemma ArchiveFreeForm(n: Naming, s: Session<Board>, id: Id)
    requires InStep(n, s) && s.primary.store.FreeForm? && id in s.primary.items && ArchiveFollows(s, id)
    ensures InStep(n, Step(s, BoardMirror(), ArchiveItem(id)).0)
  {
    hide Mirrored;
    FreeFormMirrored(n, s.primary, s.mirror, id);
    if id in s.cache {
      ArchiveOn(s.primary, id);
      ArchiveOn(s.mirror, n.to[id]);
      hide Apply;
      StepFollows(s, ArchiveItem(id));
      hide Step;
      var s1 := s.(primary := Dropped(s.primary, id));
      FollowTold(s1, ArchiveItem(id), Done, s1, n.to[id]);
    } else {
      ArchiveUntold(s, id);
    }
  }

  lemma ArchiveInStep(n: Naming, s: Session<Board>, call: Call)
    requires InStep(n, s) && call.ArchiveItem? && Grounded(s, call)
    ensures InStep(NextNaming(n, s, call), Step(s, BoardMirror(), call).0)
  {
    if call.id !in s.primary.items {
      Refused(s, call);
    } else {
      hide Step;
      if s.primary.store.Remote? { ArchiveRemote(n, s, call.id); } else { ArchiveFreeForm(n, s, call.id); }
    }
  }

  lemma EpicsInStep(n: Naming, s: Session<Board>, call: Call)
    requires InStep(n, s) && (call.CreateEpic? || call.UpdateEpic? || call.DeleteEpic?)
    ensures InStep(n, Step(s, BoardMirror(), call).0)
  {
    hide Apply;
    hide Mirrored;
    EpicsMirrored(n, s.primary, s.mirror, call);
  }

  /** One call that the mirror can follow keeps the session in step. */
  lemma StepInStep(n: Naming, s: Session<Board>, call: Call)
    requires InStep(n, s) && Grounded(s, call)
    ensures InStep(NextNaming(n, s, call), Step(s, BoardMirror(), call).0)
  {
    hide Step;
    hide InStep;
    hide Grounded;
    if call.CreateItem? {
      CreateInStep(n, s, call);
    } else if call.PurgeUseCase? {
      PurgeInStep(n, s, call);
    } else if call.ArchiveItem? {
      ArchiveInStep(n, s, call);
    } else if OnItem(call) {
      EditInStep(n, s, call);
    } else {
      EpicsInStep(n, s, call);
    }
  }

  // ── Calls the mirror cannot follow ───────────────────────────────

  function Image(n: Naming, ks: set<Id>): set<Id>
    requires ks <= n.to.Keys
  {
    set k | k in ks :: n.to[k]
  }

  lemma {:induction false} ImageSize(n: Naming, ks: set<Id>)
    requires Inverse(n) && ks <= n.to.Keys
    ensures |Image(n, ks)| == |ks|
  {
    if ks == {} {
      assert Image(n, ks) == {};
    } else {
      var k :| k in ks;
      ImageSize(n, ks - {k});
      assert Image(n, ks) == Image(n, ks - {k}) + {n.to[k]};
      assert n.to[k] !in Image(n, ks - {k});
    }
  }

  /** The items that are not archived. */
  function Active(b: Board): set<Id> { set k | k in b.items && b.items[k].state != ARCHIVED }

  /** A mirror has as many active rows as its FreeForm primary has active items. */
  lemma ActiveSize(n: Naming, p: Board, m: Board)
    requires Mirrored(n, p, m) && p.store.FreeForm?
    ensures |Active(p)| == |Active(m)|
  {
    forall k | k in p.items ensures k in n.to && Twin(n, p.items[k], m, k) { }
    ImageSize(n, Active(p));
    assert Image(n, Active(p)) == Active(m) by {
      forall j | j in Active(m) ensures j in Image(n, Active(p)) {
        assert Twin(n, p.items[n.from[j]], m, n.from[j]) && n.to[n.from[j]] == j;
      }
    }
  }

  /** Archiving keeps the boards in step exactly when the mirror gets to know of it: always on a remote primary;
      on FreeForm if the wrapper has resolved the item before, or the item says archived already. Otherwise no
      naming makes the mirror the primary any more. */
  lemma ArchiveExact(n: Naming, s: Session<Board>, id: Id, other: Naming)
    requires InStep(n, s)
    ensures var call := ArchiveItem(id);
      var after := Step(s, BoardMirror(), call).0;
      if ArchiveFollows(s, id) then InStep(NextNaming(n, s, call), after)
      else !Mirrored(other, after.primary, after.mirror)
  {
    hide Step;
    hide Apply;
    if ArchiveFollows(s, id) {
      ArchiveInStep(n, s, ArchiveItem(id));
    } else {
      var p' := Dropped(s.primary, id);
      ActiveSize(n, s.primary, s.mirror);
      ArchiveUntold(s, id);
      assert Active(p') == Active(s.primary) - {id};
      if Mirrored(other, p', s.mirror) { ActiveSize(other, p', s.mirror); }
    }
  }

  lemma StoryGoes(p: Board, id: Id)
    requires !PurgeFollows(p, id)
    ensures Apply(p, PurgeUseCase(id)) == (Dropped(p, id), Ok(Done))
  {
  }

  lemma NoStoryRow(m: Board, j: Id)
    requires m.store.Native? && IsStory(m, j)
    ensures Apply(m, PurgeUseCase(j)).0 == m
  {
  }

  lemma StoryPurged(n: Naming, s: Session<Board>, id: Id)
    requires InStep(n, s) && !PurgeFollows(s.primary, id)
    ensures var after := Step(s, BoardMirror(), PurgeUseCase(id)).0;
      after.primary == Dropped(s.primary, id) && after.mirror == s.mirror
  {
    hide Apply;
    hide Resolve;
    hide Step;
    assert Twin(n, s.primary.items[id], s.mirror, id);
    StoryGoes(s.primary, id);
    NoStoryRow(s.mirror, n.to[id]);
    ResolveNamed(s, n, s.primary, id);
    PurgeTold(s, PurgeUseCase(id), Learned(s, n, id), Some(Some(n.to[id])));
  }

  /** Purging keeps the boards in step exactly when it is not FreeForm purging an active story. */
  lemma PurgeExact(n: Naming, s: Session<Board>, id: Id, other: Naming)
    requires InStep(n, s)
    ensures var after := Step(s, BoardMirror(), PurgeUseCase(id)).0;
      if PurgeFollows(s.primary, id) then InStep(n, after) else !Mirrored(other, after.primary, after.mirror)
  {
    hide Step;
    hide Apply;
    if PurgeFollows(s.primary, id) {
      PurgeInStep(n, s, PurgeUseCase(id));
    } else {
      var p' := Dropped(s.primary, id);
      ActiveSize(n, s.primary, s.mirror);
      StoryPurged(n, s, id);
      assert Active(p') == Active(s.primary) - {id};
      if Mirrored(other, p', s.mirror) { ActiveSize(other, p', s.mirror); }
    }
  }

  lemma {:induction false} FindNothing(b: Board, kind: Kind, logical: string, from: Id)
    requires TagFree(b, kind, logical)
    ensures Find(b, kind, logical, from) == None
    decreases b.next - from
  {
    if from < b.next {
      assert from in b.items ==> Tag(b.items[from]) != (kind, logical);
      FindNothing(b, kind, logical, from + 1);
    }
  }

  lemma RowRetired(n: Naming, p: Board, m: Board, j: Id)
    requires Mirrored(n, p, m) && j in m.items && TagFree(p, m.items[j].kind, m.items[j].logical)
    ensures Retired(p, m.items[j])
  {
    assert n.from[j] in p.items ==> Twin(n, p.items[n.from[j]], m, n.from[j]);
  }

  lemma RowOf(n: Naming, p: Board, m: Board, item: Item) returns (j: Id)
    requires Mirrored(n, Added(p, item), m)
    ensures j in m.items && Tag(m.items[j]) == Tag(item)
    ensures m.items[j].state == item.state || (p.store.Remote? && m.items[j].state == ARCHIVED)
  {
    assert Twin(n, Added(p, item).items[p.next], m, p.next);
    j := n.to[p.next];
  }

  /** A new item has no twin if the mirror does not get it: the only row with its logical id is an archived one. */
  lemma NoTwin(n: Naming, s: Session<Board>, call: Call, other: Naming)
    requires InStep(n, s) && call.CreateItem? && TagFree(s.primary, call.kind, call.logical)
    requires call.state != ARCHIVED || TagFree(s.mirror, call.kind, call.logical)
    ensures !Mirrored(other, Added(s.primary, NewItem(call)), s.mirror)
  {
    var p, m := s.primary, s.mirror;
    var p' := Added(p, NewItem(call));
    forall j | j in m.items && Tag(m.items[j]) == (call.kind, call.logical)
      ensures p.store.FreeForm? && m.items[j].state != call.state
    {
      RowRetired(n, p, m, j);
    }
    if Mirrored(other, p', m) {
      var j := RowOf(other, p, m, NewItem(call));
      assert false;
    }
  }

  /** A row the tables would not take, or an id nobody can resolve: the mirror stays as it is. */
  lemma CreateUntold(n: Naming, s: Session<Board>, call: Call)
    requires InStep(n, s) && call.CreateItem? && call.logical != "" && TagFree(s.primary, call.kind, call.logical)
    requires !(ParentFollows(s, call.kind, call.parent) && TagFree(s.mirror, call.kind, call.logical))
    ensures var after := Step(s, BoardMirror(), call).0;
      after.primary == Added(s.primary, NewItem(call)) && after.mirror == s.mirror
  {
    hide Apply;
    var p := s.primary;
    CreateOnPrimary(p, call);
    var ahead := s.(primary := Apply(p, call).0);
    NextIsNew(n, p, s.mirror);
    if call.parent.None? {
      FollowCreate(ahead, call, ahead, None, p.next);
      CreateOnTables(s.mirror, call);
    } else if Resolvable(s, call.parent.value) {
      var up := call.parent.value;
      ParentNamed(n, s, up);
      ParentResolved(n, ahead, s, up);
      FollowCreate(ahead, call, Learned(ahead, n, up), Some(n.to[up]), p.next);
      CreateOnTables(s.mirror, call.(parent := Some(n.to[up])));
    } else {
      UnresolvedUntold(s, call, ahead);
    }
  }

  /** The parent may be the new item itself, which the wrapper looks up by the logical id. */
  lemma UnresolvedUntold(s: Session<Board>, call: Call, ahead: Session<Board>)
    requires call.CreateItem? && call.logical != "" && s.mirror.store.Native? && s.primary.next !in s.primary.items
    requires call.parent.Some? && !Resolvable(s, call.parent.value)
    requires ahead == s.(primary := Added(s.primary, NewItem(call)))
    ensures Follow(ahead, BoardMirror(), call, Created(s.primary.next)).mirror == s.mirror
  {
    hide Apply;
    if TagFree(s.mirror, call.kind, call.logical) {
      FindNothing(s.mirror, call.kind, call.logical, 0);
    } else {
      var (s1, at) := ResolveParent(ahead, BoardMirror(), call.parent);
      if at.Some? {
        FollowCreate(ahead, call, s1, at.value, s.primary.next);
        CreateOnTables(s.mirror, call.(parent := at.value));
      }
    }
  }

  /** The tables give a story without a state another one than it has on the primary. */
  lemma StatelessDiffers(n: Naming, s: Session<Board>, call: Call, other: Naming)
    requires InStep(n, s) && call.CreateItem? && ParentFollows(s, call.kind, call.parent)
    requires TagFree(s.mirror, call.kind, call.logical) && call.kind.Story? && call.state == ""
    ensures var after := Step(s, BoardMirror(), call).0; !Mirrored(other, after.primary, after.mirror)
  {
    hide Step;
    hide Renamed;
    CreateTold(n, s, call);
    var p', m' := Added(s.primary, NewItem(call)), Added(s.mirror, RowTold(n, s, call));
    if Mirrored(other, p', m') {
      var j := RowOf(other, s.primary, m', NewItem(call));
      assert false;
    }
  }

  /** Creating keeps the boards in step exactly when its parent, if any, can be resolved to a story of the mirror
      (stories need only resolve it), no archived row has its logical id, and a story comes with a state. */
  lemma CreateExact(n: Naming, s: Session<Board>, call: Call, other: Naming)
    requires InStep(n, s) && call.CreateItem? && call.logical != ""
    requires call.state != ARCHIVED || TagFree(s.mirror, call.kind, call.logical)
    requires TagFree(s.primary, call.kind, call.logical)
    ensures var after := Step(s, BoardMirror(), call).0;
      if CreateFollows(s, call) then InStep(NextNaming(n, s, call), after)
      else !Mirrored(other, after.primary, after.mirror)
  {
    hide Step;
    hide Mirrored;
    hide ParentFollows;
    if CreateFollows(s, call) {
      CreateInStep(n, s, call);
    } else if ParentFollows(s, call.kind, call.parent) && TagFree(s.mirror, call.kind, call.logical) {
      StatelessDiffers(n, s, call, other);
    } else {
      CreateUntold(n, s, call);
      NoTwin(n, s, call, other);
    }
  }

  /** New criteria keep the boards in step exactly when the mirror's table takes them: none, or of a use case and
      with ids of their own. Otherwise the primary has criteria no row of the mirror has. */
  lemma CriteriaExact(n: Naming, s: Session<Board>, call: Call, other: Naming)
    requires InStep(n, s) && call.CreateCriteria? && call.id in s.primary.items
    ensures var after := Step(s, BoardMirror(), call).0;
      if Insertable(s.primary.items[call.id], call.texts) then InStep(n, after)
      else !Mirrored(other, after.primary, after.mirror)
  {
    hide Step;
    hide Mirrored;
    var p, m, item := s.primary, s.mirror, s.primary.items[call.id];
    if Insertable(item, call.texts) {
      EditInStep(n, s, call);
    } else {
      CriteriaRefused(n, s, call);
      var p' := Put(p, call.id, item.(criteria := item.criteria + NewCriteria(call.texts)));
      if Mirrored(other, p', m) {
        SameRow(n, other, p, p', m, call.id);
        assert false;
      }
    }
  }

  lemma CriteriaRefused(n: Naming, s: Session<Board>, call: Call)
    requires InStep(n, s) && call.CreateCriteria? && call.id in s.primary.items
    requires !Insertable(s.primary.items[call.id], call.texts)
    ensures var after := Step(s, BoardMirror(), call).0;
      var item := s.primary.items[call.id];
      && after.primary == Put(s.primary, call.id, item.(criteria := item.criteria + NewCriteria(call.texts)))
      && after.mirror == s.mirror
  {
    assert Twin(n, s.primary.items[call.id], s.mirror, call.id);
    EditTold(n, s, call);
    ApplyEdits(s.primary, call);
    ApplyEdits(s.mirror, Translated(n, call));
  }

  /** Whatever the naming, an item that kept its logical id can only have the row it had. */
  lemma SameRow(n: Naming, other: Naming, p: Board, p': Board, m: Board, id: Id)
    requires Mirrored(n, p, m) && Mirrored(other, p', m) && Distinct(m)
    requires id in p.items && id in p'.items && Tag(p'.items[id]) == Tag(p.items[id])
    ensures id in n.to && id in other.to && other.to[id] == n.to[id] && n.to[id] in m.items
    ensures Named(n, p.items[id].parent) && Named(other, p'.items[id].parent)
    ensures m.items[n.to[id]] == Renamed(n, id, p.items[id]) == Renamed(other, id, p'.items[id])
  {
    assert Twin(n, p.items[id], m, id) && Twin(other, p'.items[id], m, id);
    assert Lone(m, n.to[id]);
  }

  /** The new state is not what the row says, nor what archiving put in its place. */
  predicate StateShows(p: Board, row: Item, state: Option<string>) {
    && state.Some? && state.value != row.state
    && !(p.store.Remote? && row.state == ARCHIVED && (p.store.archived.None? || p.store.archived == state))
  }

  /** The new parent is another one, and one of the two is there. */
  predicate ParentShows(p: Board, item: Item, parent: Option<Id>) {
    && item.kind.UseCase? && parent.Some? && parent != item.parent
    && (item.parent.None? || item.parent.value in p.items || parent.value in p.items)
  }

  /** The update changes something of the item that its row should tell. */
  predicate Shows(p: Board, row: Item, call: Call)
    requires call.UpdateItem? && call.id in p.items
  {
    var item := p.items[call.id];
    || (call.newName.Some? && call.newName.value != item.name)
    || (call.newDescription.Some? && call.newDescription.value != item.description)
    || StateShows(p, row, call.newState) || ParentShows(p, item, call.newParent)
  }

  function Updated(item: Item, call: Call): Item
    requires call.UpdateItem?
  {
    item.(name := Or(call.newName, item.name), description := Or(call.newDescription, item.description),
          state := Or(call.newState, item.state),
          parent := if call.newParent.Some? then call.newParent else item.parent)
  }

  lemma UpdateOnPrimary(b: Board, call: Call)
    requires call.UpdateItem? && !b.store.Native? && call.id in b.items
    ensures Apply(b, call) == (Put(b, call.id, Updated(b.items[call.id], call)), Ok(Done))
  {
  }

  lemma UpdateRefused(b: Board, call: Call)
    requires call.UpdateItem? && b.store.Native? && call.id in b.items
    requires !ParentAllowed(b, b.items[call.id].kind, call.newParent)
    ensures Apply(b, call).0 == b
  {
  }

  lemma FollowUnresolved(s: Session<Board>, call: Call, reply: Reply, s1: Session<Board>, at: Id)
    requires call.UpdateItem? && Resolve(s, BoardMirror(), call.id) == (s1, Some(Some(at)))
    requires call.newParent.Some? && !Resolvable(s1, call.newParent.value)
    ensures Follow(s, BoardMirror(), call, reply) == s1
  {
  }

  /** A parent that cannot be resolved, or is no story of the mirror, keeps the whole update off the mirror. */
  lemma UpdateUntold(n: Naming, s: Session<Board>, call: Call)
    requires InStep(n, s) && call.UpdateItem? && call.id in s.primary.items
    requires !ParentFollows(s, s.primary.items[call.id].kind, call.newParent)
    ensures var after := Step(s, BoardMirror(), call).0;
      && after.primary == Put(s.primary, call.id, Updated(s.primary.items[call.id], call))
      && after.mirror == s.mirror
  {
    hide Apply;
    hide Find;
    var p, up := s.primary, call.newParent.value;
    assert Twin(n, p.items[call.id], s.mirror, call.id);
    UpdateOnPrimary(p, call);
    var s1 := s.(primary := Apply(p, call).0);
    ResolveNamed(s1, n, p, call.id);
    StepFollows(s, call);
    hide Step;
    hide Follow;
    hide Resolve;
    hide ResolveParent;
    var s2 := Learned(s1, n, call.id);
    if Resolvable(s, up) {
      ParentNamed(n, s, up);
      ParentResolved(n, s2, s, up);
      FollowUpdate(s1, call, Done, s2, n.to[call.id], Learned(s2, n, up), Some(n.to[up]));
      UpdateRefused(s.mirror, Readdressed(call, n.to[call.id]).(newParent := Some(n.to[up])));
    } else {
      FollowUnresolved(s1, call, Done, s2, n.to[call.id]);
    }
  }

  /** Whatever the naming, an update that shows is not what the old row says. */
  lemma ShownDiffers(n: Naming, other: Naming, p: Board, m: Board, call: Call)
    requires Mirrored(n, p, m) && Distinct(m) && call.UpdateItem? && call.id in p.items && call.id in n.to
    requires n.to[call.id] in m.items && Shows(p, m.items[n.to[call.id]], call)
    ensures !Mirrored(other, Put(p, call.id, Updated(p.items[call.id], call)), m)
  {
    var item := p.items[call.id];
    var p' := Put(p, call.id, Updated(item, call));
    if Mirrored(other, p', m) {
      SameRow(n, other, p, p', m, call.id);
      if item.parent.Some? && item.parent.value in p.items { SameRow(n, other, p, p', m, item.parent.value); }
      if call.newParent.Some? && call.newParent.value in p.items {
        SameRow(n, other, p, p', m, call.newParent.value);
      }
      hide Twin;
      assert false;
    }
  }

  /** An update keeps the boards in step exactly when its parent, if any, can be resolved to a story of the mirror
      (for stories, resolved); otherwise the mirror gets nothing of it, and if it shows, no naming helps. */
  lemma UpdateExact(n: Naming, s: Session<Board>, call: Call, other: Naming)
    requires InStep(n, s) && call.UpdateItem? && call.id in s.primary.items
    ensures call.id in n.to && n.to[call.id] in s.mirror.items
    ensures var after := Step(s, BoardMirror(), call).0;
      if ParentFollows(s, s.primary.items[call.id].kind, call.newParent) then InStep(NextNaming(n, s, call), after)
      else
        && after.mirror == s.mirror
        && (Shows(s.primary, s.mirror.items[n.to[call.id]], call) ==>
              !Mirrored(other, after.primary, after.mirror))
  {
    hide Step;
    hide ParentFollows;
    hide Shows;
    assert Twin(n, s.primary.items[call.id], s.mirror, call.id);
    hide Mirrored;
    if ParentFollows(s, s.primary.items[call.id].kind, call.newParent) {
      EditInStep(n, s, call);
    } else {
      UpdateUntold(n, s, call);
      if Shows(s.primary, s.mirror.items[n.to[call.id]], call) {
        ShownDiffers(n, other, s.primary, s.mirror, call);
      }
    }
  }

  /** One use case in the backlog on a FreeForm board and on its mirror. */
  function OneEach(cache: map<Id, Option<Id>>): Session<Board> {
    var item := Item(UseCase, "UC-001", "UC-001: Login", "", "backlog", None, None, []);
    Session(Board(FreeForm, map[0 := item], map[], 1), Board(Native, map[0 := item], map[], 1), cache)
  }

  const ONE_NAME := Naming(map[0 := 0], map[0 := 0], {})

  /** Archived without ever being resolved, the row stays in the mirror's backlog. */
  lemma ArchivedUnseen(other: Naming)
    ensures var s := OneEach(map[]);
      var after := Step(s, BoardMirror(), ArchiveItem(0)).0;
      && InStep(ONE_NAME, s) && after.primary.items == map[] && after.mirror == s.mirror
      && !Mirrored(other, after.primary, after.mirror)
  {
    ArchiveExact(ONE_NAME, OneEach(map[]), 0, other);
  }

  /** The same boards after the use case was archived. */
  function OneArchived(): Session<Board> {
    var row := Item(UseCase, "UC-001", "UC-001: Login", "", ARCHIVED, None, None, []);
    Session(Board(FreeForm, map[], map[], 1), Board(Native, map[0 := row], map[], 1), map[0 := Some(0)])
  }

  lemma OneIsArchived()
    ensures Step(OneEach(map[0 := Some(0)]), BoardMirror(), ArchiveItem(0)).0 == OneArchived()
    ensures InStep(ONE_NAME, OneArchived())
  {
    var s := OneEach(map[0 := Some(0)]);
    assert Archived(s.primary, 0).items == OneArchived().primary.items;
    assert Archived(s.mirror, 0).items == OneArchived().mirror.items;
  }

  /** Archived and created again under its old id, the item never gets its row back. */
  lemma ArchivedIdIsGone(other: Naming)
    ensures var call := CreateItem(UseCase, "UC-001", "UC-001: Login", "", "backlog", None);
      var archived := Step(OneEach(map[0 := Some(0)]), BoardMirror(), ArchiveItem(0)).0;
      var after := Step(archived, BoardMirror(), call).0;
      InStep(ONE_NAME, archived) && !Mirrored(other, after.primary, after.mirror)
  {
    hide Step;
    hide InStep;
    hide Mirrored;
    OneIsArchived();
    CreateExact(ONE_NAME, OneArchived(), CreateItem(UseCase, "UC-001", "UC-001: Login", "", "backlog", None), other);
    assert OneArchived().mirror.items[0].logical == "UC-001";
  }

  /** Created under a parent that nobody can resolve, an item never reaches the mirror. */
  lemma OrphanUntold(other: Naming)
    ensures var s := OneEach(map[]);
      var after := Step(s, BoardMirror(), CreateItem(UseCase, "UC-002", "UC-002: Logout", "", "backlog", Some(7))).0;
      && InStep(ONE_NAME, s) && after.primary.items.Keys == {0, 1} && after.mirror == s.mirror
      && !Mirrored(other, after.primary, after.mirror)
  {
    var call := CreateItem(UseCase, "UC-002", "UC-002: Logout", "", "backlog", Some(7));
    CreateExact(ONE_NAME, OneEach(map[]), call, other);
  }

  /** A new name given together with a parent that nobody can resolve: the row keeps the old one. */
  lemma NameUntold(other: Naming)
    ensures var s := OneEach(map[]);
      var after := Step(s, BoardMirror(), UpdateItem(0, Some("UC-001: Sign in"), None, None, Some(7))).0;
      && InStep(ONE_NAME, s) && after.mirror == s.mirror && !Mirrored(other, after.primary, after.mirror)
  {
    UpdateExact(ONE_NAME, OneEach(map[]), UpdateItem(0, Some("UC-001: Sign in"), None, None, Some(7)), other);
  }

  /** Two criteria under one id: the primary has both, the table refuses them. */
  lemma CriteriaUntold(other: Naming)
    ensures var s := OneEach(map[]);
      var after := Step(s, BoardMirror(), CreateCriteria(0, [("AC-01", "a"), ("AC-01", "b")])).0;
      && InStep(ONE_NAME, s) && 0 in after.primary.items && |after.primary.items[0].criteria| == 2
      && after.mirror == s.mirror && !Mirrored(other, after.primary, after.mirror)
  {
    hide Step;
    var texts := [("AC-01", "a"), ("AC-01", "b")];
    assert texts[0].0 == texts[1].0;
    CriteriaRefused(ONE_NAME, OneEach(map[]), CreateCriteria(0, texts));
    CriteriaExact(ONE_NAME, OneEach(map[]), CreateCriteria(0, texts), other);
  }

  /** A story purged on FreeForm: the mirror finds no use case to purge. */
  lemma StoryStays(other: Naming)
    ensures var item := Item(Story, "US-01", "US-01: Users", "", "backlog", None, None, []);
      var s := Session(Board(FreeForm, map[0 := item], map[], 1), Board(Native, map[0 := item], map[], 1), map[]);
      var after := Step(s, BoardMirror(), PurgeUseCase(0)).0;
      && InStep(ONE_NAME, s) && after.primary.items == map[] && after.mirror == s.mirror
      && !Mirrored(other, after.primary, after.mirror)
  {
    var item := Item(Story, "US-01", "US-01: Users", "", "backlog", None, None, []);
    var s := Session(Board(FreeForm, map[0 := item], map[], 1), Board(Native, map[0 := item], map[], 1), map[]);
    StoryPurged(ONE_NAME, s, 0);
    PurgeExact(ONE_NAME, s, 0, other);
  }

  /** A story created without a state: the row says `user_stories`. */
  lemma StateMadeUp(other: Naming)
    ensures var s := OneEach(map[]);
      var after := Step(s, BoardMirror(), CreateItem(Story, "US-01", "US-01: Users", "", "", None)).0;
      && InStep(ONE_NAME, s) && 1 in after.primary.items && after.primary.items[1].state == ""
      && 1 in after.mirror.items && after.mirror.items[1].state == "user_stories"
      && !Mirrored(other, after.primary, after.mirror)
  {
    hide Step;
    var call := CreateItem(Story, "US-01", "US-01: Users", "", "", None);
    CreateTold(ONE_NAME, OneEach(map[]), call);
    CreateExact(ONE_NAME, OneEach(map[]), call, other);
  }

  // ── Whole runs ───────────────────────────────────────────────────

  /** Every call of a run is grounded when it comes. */
  ghost predicate GroundedRun(s: Session<Board>, calls: seq<Call>) {
    forall i :: 0 <= i < |calls| ==> Grounded(RunDual(s, BoardMirror(), calls[..i]).0, calls[i])
  }

  /** Convergence: over any run of grounded calls the mirror stays equal to the primary up to a renaming of
      ids and its archived rows. */
  lemma {:induction false} MirrorConverges(n: Naming, s: Session<Board>, calls: seq<Call>) returns (n': Naming)
    requires InStep(n, s) && GroundedRun(s, calls)
    ensures InStep(n', RunDual(s, BoardMirror(), calls).0)
  {
    hide Grounded;
    hide InStep;
    hide Step;
    if calls == [] {
      n' := n;
    } else {
      var last := |calls| - 1;
      var front := calls[..last];
      forall i | 0 <= i < last ensures Grounded(RunDual(s, BoardMirror(), front[..i]).0, front[i]) {
        assert front[..i] == calls[..i] && front[i] == calls[i];
      }
      var mid := MirrorConverges(n, s, front);
      var before := RunDual(s, BoardMirror(), front).0;
      StepInStep(mid, before, calls[last]);
      n' := NextNaming(mid, before, calls[last]);
    }
  }
}
