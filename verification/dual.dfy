/** The dual backend (server/backends/dual_backend.py): every write goes to the primary board and then, best
    effort, to a mirror that knows the same items by other ids. */
module DualBackend {
  import opened Wrappers
  import opened Boards

  /** What the wrapper asks of the mirror. */
  datatype Request = FindItem(kind: Kind, logical: string) | Write(call: Call)

  datatype Answer = Found(at: Option<Id>) | Written(reply: Reply)

  /** How a mirror in state `m` reacts: its next state and its answer, or `None` when it raises. Nothing
      else is known of it. */
  type Mirror<!M> = (M, Request) -> (M, Option<Answer>)

  /** The session cache maps primary ids to mirror ids; `None` is known missing. */
  datatype Session<M> = Session(primary: Board, mirror: M, cache: map<Id, Option<Id>>)

  /** `_resolve_mirror_id`: outer `None` when a call raised. */
  function Resolve<M>(s: Session<M>, react: Mirror<M>, id: Id): (Session<M>, Option<Option<Id>>) {
    if id in s.cache then (s, Some(s.cache[id]))
    else if id !in s.primary.items then (s, None)
    else
      var item := s.primary.items[id];
      if item.logical == "" then (s.(cache := s.cache[id := None]), Some(None))
      else
        var (m, answer) := react(s.mirror, FindItem(item.kind, item.logical));
        if answer.None? || !answer.value.Found? then (s.(mirror := m), None)
        else (s.(mirror := m, cache := s.cache[id := answer.value.at]), Some(answer.value.at))
  }

  /** Resolve an optional id: `Some(None)` when there is none to resolve, `None` to give up. */
  function ResolveParent<M>(s: Session<M>, react: Mirror<M>, parent: Option<Id>): (Session<M>, Option<Option<Id>>) {
    if parent.None? then (s, Some(None))
    else
      var (after, at) := Resolve(s, react, parent.value);
      (after, if at.None? || at.value.None? then None else at)
  }

  function Tell<M>(s: Session<M>, react: Mirror<M>, call: Call): (Session<M>, Option<Answer>) {
    var (m, answer) := react(s.mirror, Write(call));
    (s.(mirror := m), answer)
  }

  /** The same call, addressed to another item. */
  function Readdressed(call: Call, id: Id): Call
    requires OnItem(call) || call.ArchiveItem? || call.PurgeUseCase?
  {
    match call
    case UpdateItem(_, a, b, c, d) => UpdateItem(id, a, b, c, d)
    case CreateCriteria(_, a) => CreateCriteria(id, a)
    case MarkCriterion(_, a, b) => MarkCriterion(id, a, b)
    case UpdateCriterion(_, a, b, c) => UpdateCriterion(id, a, b, c)
    case DeleteCriterion(_, a) => DeleteCriterion(id, a)
    case SetEpic(_, a) => SetEpic(id, a)
    case ArchiveItem(_) => ArchiveItem(id)
    case PurgeUseCase(_) => PurgeUseCase(id)
  }

  /** The mirror's part of a write the primary has done. */
  function Follow<M>(s: Session<M>, react: Mirror<M>, call: Call, reply: Reply): Session<M> {
    match call
    case CreateItem(kind, logical, name, description, state, parent) => (
      var (s1, at) := ResolveParent(s, react, parent);
      if at.None? then s1
      else
        var (s2, answer) := Tell(s1, react, call.(parent := at.value));
        if reply.Created? && answer.Some? && answer.value.Written? && answer.value.reply.Created? then
          s2.(cache := s2.cache[reply.item := Some(answer.value.reply.item)])
        else s2)
    case UpdateItem(id, _, _, _, parent) => (
      var (s1, at) := Resolve(s, react, id);
      if at.None? || at.value.None? then s1
      else
        var (s2, up) := ResolveParent(s1, react, parent);
        if up.None? then s2 else Tell(s2, react, Readdressed(call, at.value.value).(newParent := up.value)).0)
    case CreateEpic(_, _) => Tell(s, react, call).0
    case UpdateEpic(_, _, _, _) => Tell(s, react, call).0
    case DeleteEpic(_) => Tell(s, react, call).0
    case PurgeUseCase(_) => s
    case _ =>
      var (s1, at) := Resolve(s, react, call.id);
      if at.None? || at.value.None? then s1 else Tell(s1, react, Readdressed(call, at.value.value)).0
  }

  /** A write on the wrapper. A purge resolves the mirror id before the primary deletes the item. */
  function Step<M>(s: Session<M>, react: Mirror<M>, call: Call): (Session<M>, Result<Reply, Error>) {
    if call.PurgeUseCase? then
      var (s1, at) := Resolve(s, react, call.id);
      var (p, result) := Apply(s1.primary, call);
      var s2 := s1.(primary := p);
      (if result.Err? || at.None? || at.value.None? then s2
       else Tell(s2, react, PurgeUseCase(at.value.value)).0, result)
    else
      var (p, result) := Apply(s.primary, call);
      var s1 := s.(primary := p);
      (if result.Err? then s1 else Follow(s1, react, call, result.value), result)
  }

  // ── The wrapper as the program runs it ───────────────────────────

  class DualBackendWrapper<!M> {
    var primary: Board
    var mirror: M
    var cache: map<Id, Option<Id>>
    const react: Mirror<M>

    function Value(): Session<M>
      reads this
    {
      Session(primary, mirror, cache)
    }

    constructor (primary: Board, mirror: M, react: Mirror<M>)
      ensures Value() == Session(primary, mirror, map[]) && this.react == react
    {
      this.primary, this.mirror, this.cache, this.react := primary, mirror, map[], react;
    }

    /** `_resolve_mirror_id`; `raised` when the primary or the mirror raises. */
    method ResolveMirrorId(id: Id) returns (raised: bool, at: Option<Id>)
      modifies this`mirror, this`cache
      ensures (Value(), if raised then None else Some(at)) == Resolve(old(Value()), react, id)
    {
      raised, at := false, None;
      if id in cache { return false, cache[id]; }
      if id !in primary.items { return true, None; }
      var item := primary.items[id];
      if item.logical != "" {
        var (m, answer) := react(mirror, FindItem(item.kind, item.logical));
        mirror := m;
        if answer.None? || !answer.value.Found? { return true, None; }
        at := answer.value.at;
      }
      cache := cache[id := at];
    }

    method TellMirror(call: Call) returns (answer: Option<Answer>)
      modifies this`mirror
      ensures (Value(), answer) == Tell(old(Value()), react, call)
    {
      var (m, a) := react(mirror, Write(call));
      mirror, answer := m, a;
    }

    method ResolveOptional(parent: Option<Id>) returns (ok: bool, at: Option<Id>)
      modifies this`mirror, this`cache
      ensures (Value(), if ok then Some(at) else None) == ResolveParent(old(Value()), react, parent)
    {
      if parent.None? { return true, None; }
      var raised, found := ResolveMirrorId(parent.value);
      ok, at := !raised && found.Some?, found;
    }

    /** `create_item`: whatever the mirror does, the caller sees the primary. */
    method CreateItem(call: Call) returns (result: Result<Reply, Error>)
      requires call.CreateItem?
      modifies this
      ensures (Value(), result) == Step(old(Value()), react, call)
      ensures (primary, result) == Apply(old(primary), call)
    {
      var (p, r) := Apply(primary, call);
      primary, result := p, r;
      if result.Err? { return; }
      var ok, at := ResolveOptional(call.parent);
      if !ok { return; }
      var answer := TellMirror(call.(parent := at));
      if answer.Some? && answer.value.Written? && answer.value.reply.Created? {
        cache := cache[result.value.item := Some(answer.value.reply.item)];
      }
    }

    /** `update_item`. */
    method UpdateItem(call: Call) returns (result: Result<Reply, Error>)
      requires call.UpdateItem?
      modifies this
      ensures (Value(), result) == Step(old(Value()), react, call)
      ensures (primary, result) == Apply(old(primary), call)
    {
      var (p, r) := Apply(primary, call);
      primary, result := p, r;
      if result.Err? { return; }
      var raised, at := ResolveMirrorId(call.id);
      if raised || at.None? { return; }
      var ok, up := ResolveOptional(call.newParent);
      if !ok { return; }
      var moved := Readdressed(call, at.value);
      var _ := TellMirror(moved.(newParent := up));
    }

    /** The criteria calls, `set_us_epic` and `archive_item`: one item, resolved after the primary wrote. */
    method WriteOnItem(call: Call) returns (result: Result<Reply, Error>)
      requires (OnItem(call) && !call.UpdateItem?) || call.ArchiveItem?
      modifies this
      ensures (Value(), result) == Step(old(Value()), react, call)
      ensures (primary, result) == Apply(old(primary), call)
    {
      var (p, r) := Apply(primary, call);
      primary, result := p, r;
      if result.Err? { return; }
      var raised, at := ResolveMirrorId(call.id);
      if raised || at.None? { return; }
      var _ := TellMirror(Readdressed(call, at.value));
    }

    /** The epic calls: both boards know an epic by the same id. */
    method WriteEpic(call: Call) returns (result: Result<Reply, Error>)
      requires call.CreateEpic? || call.UpdateEpic? || call.DeleteEpic?
      modifies this
      ensures (Value(), result) == Step(old(Value()), react, call)
      ensures (primary, result) == Apply(old(primary), call)
    {
      var (p, r) := Apply(primary, call);
      primary, result := p, r;
      if result.Err? { return; }
      var _ := TellMirror(call);
    }

    /** `purge_use_case`. */
    method PurgeUseCase(call: Call) returns (result: Result<Reply, Error>)
      requires call.PurgeUseCase?
      modifies this
      ensures (Value(), result) == Step(old(Value()), react, call)
      ensures (primary, result) == Apply(old(primary), call)
    {
      var raised, at := ResolveMirrorId(call.id);
      var (p, r) := Apply(primary, call);
      primary, result := p, r;
      if result.Err? || raised || at.None? { return; }
      var _ := TellMirror(Call.PurgeUseCase(at.value));
    }
  }

  // ── The mirror never interferes ──────────────────────────────────

  lemma ResolveKeepsPrimary<M>(s: Session<M>, react: Mirror<M>, id: Id)
    ensures Resolve(s, react, id).0.primary == s.primary
  {
  }

  lemma FollowKeepsPrimary<M>(s: Session<M>, react: Mirror<M>, call: Call, reply: Reply)
    ensures Follow(s, react, call, reply).primary == s.primary
  {
  }

  function RunDual<M>(s: Session<M>, react: Mirror<M>, calls: seq<Call>): (Session<M>, seq<Result<Reply, Error>>) {
    if calls == [] then (s, [])
    else
      var (before, results) := RunDual(s, react, calls[..|calls| - 1]);
      var (after, result) := Step(before, react, calls[|calls| - 1]);
      (after, results + [result])
  }

  function RunAlone(b: Board, calls: seq<Call>): (Board, seq<Result<Reply, Error>>) {
    if calls == [] then (b, [])
    else
      var (before, results) := RunAlone(b, calls[..|calls| - 1]);
      var (after, result) := Apply(before, calls[|calls| - 1]);
      (after, results + [result])
  }

  /** Non-interference: whatever the mirror is and however it reacts, every call has the result it would have
      on the primary alone, and leaves the primary as it would be alone. */
  lemma {:induction false} MirrorNeverInterferes<M>(s: Session<M>, react: Mirror<M>, calls: seq<Call>)
    ensures RunDual(s, react, calls).1 == RunAlone(s.primary, calls).1
    ensures RunDual(s, react, calls).0.primary == RunAlone(s.primary, calls).0
  {
    if calls != [] {
      var front, call := calls[..|calls| - 1], calls[|calls| - 1];
      MirrorNeverInterferes(s, react, front);
      var before := RunDual(s, react, front).0;
      if call.PurgeUseCase? {
        ResolveKeepsPrimary(before, react, call.id);
      } else {
        var (p, result) := Apply(before.primary, call);
        if result.Ok? { FollowKeepsPrimary(before.(primary := p), react, call, result.value); }
      }
    }
  }

}
