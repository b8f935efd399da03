/** Fragments of a FreeForm board (server/backends/freeform_backend.py): the part of items.json a tool needs,
    with the highest US, UC and EP number of the whole board, so that new ids never repeat. */
module Fragments {
  import opened Wrappers
  import opened Decimals
  import opened Strings

  datatype Kind = US | UC | EP

  /** `metaUs`, `metaUc` and `epic` are `us_id`, `uc_id` and `epic_id` in the meta; `nameUs` and `nameUc` the ids
      the name starts with, "" when it has none. */
  datatype Item = Item(
    id: string, labels: seq<string>, name: string, state: string, parent: Option<string>,
    metaUs: Option<string>, metaUc: Option<string>, nameUs: string, nameUc: string,
    epic: Option<string>, position: int)

  predicate IsEpic(item: Item) { "EP" in item.labels }

  function Prefix(kind: Kind): string {
    match kind
    case US => "US-"
    case UC => "UC-"
    case EP => "EP-"
  }

  function LogicalId(item: Item, kind: Kind): string {
    match kind
    case US => if item.metaUs.Some? && item.metaUs.value != "" then item.metaUs.value else item.nameUs
    case UC => if item.metaUc.Some? && item.metaUc.value != "" then item.metaUc.value else item.nameUc
    case EP => if IsEpic(item) then item.id else ""
  }

  /** `_id_number`: the digits after the prefix, whatever comes after them. */
  function IdNumber(item: Item, kind: Kind): nat {
    var logical := LogicalId(item, kind);
    if !StartsWith(logical, Prefix(kind)) then 0 else Number(LeadingDigits(logical[3..]))
  }

  /** EPIC_ID_RE: a prefix and digits, and nothing after them. */
  predicate IsEpicId(s: string) { StartsWith(s, "EP-") && |s| > 3 && AllDigits(s[3..]) }

  function EpicId(n: nat): string { "EP-" + TwoDigits(n) }

  lemma EpicIdReads(n: nat)
    ensures IsEpicId(EpicId(n)) && Number(EpicId(n)[3..]) == n
  {
    TwoDigitsRead(n);
    assert EpicId(n)[3..] == TwoDigits(n);
  }

  function Max(a: nat, b: nat): nat { if a < b then b else a }

  /** The highest number among ids that are EP- and a number; others do not count. */
  function HighestEpic(ids: seq<string>): nat {
    if ids == [] then 0
    else
      var last := ids[|ids| - 1];
      Max(HighestEpic(ids[..|ids| - 1]), if IsEpicId(last) then Number(last[3..]) else 0)
  }

  /** `next_epic_id` */
  function NextEpicId(ids: seq<string>): string { EpicId(HighestEpic(ids) + 1) }

  lemma {:induction false} HighestBounds(ids: seq<string>, id: string)
    requires id in ids && IsEpicId(id)
    ensures Number(id[3..]) <= HighestEpic(ids)
  {
    var n := |ids| - 1;
    if id != ids[n] {
      assert ids == ids[..n] + [ids[n]];
      HighestBounds(ids[..n], id);
    }
  }

  /** The next id is above every id in use, written `EP-` and a number, so it is none of them. */
  lemma NextIsFresh(ids: seq<string>)
    ensures NextEpicId(ids) !in ids && IsEpicId(NextEpicId(ids))
    ensures Number(NextEpicId(ids)[3..]) == HighestEpic(ids) + 1
  {
    EpicIdReads(HighestEpic(ids) + 1);
    if NextEpicId(ids) in ids { HighestBounds(ids, NextEpicId(ids)); }
  }

  /** The highest number is one of them. */
  lemma {:induction false} HighestIsOne(ids: seq<string>)
    ensures HighestEpic(ids) == 0 || exists id :: id in ids && IsEpicId(id) && Number(id[3..]) == HighestEpic(ids)
  {
    if ids != [] {
      HighestIsOne(ids[..|ids| - 1]);
      assert ids == ids[..|ids| - 1] + [ids[|ids| - 1]];
    }
  }

  lemma {:induction false} HighestOfMore(ids: seq<string>, id: string)
    ensures HighestEpic(ids + [id]) == Max(HighestEpic(ids), if IsEpicId(id) then Number(id[3..]) else 0)
  {
    assert (ids + [id])[..|ids|] == ids;
  }

  // ── Floors ───────────────────────────────────────────────────────

  /** `max_ids`: one number a kind. */
  datatype Floors = Floors(us: nat, uc: nat, ep: nat)

  function FloorOf(f: Floors, kind: Kind): nat {
    match kind
    case US => f.us
    case UC => f.uc
    case EP => f.ep
  }

  predicate AtMost(a: Floors, b: Floors) { a.us <= b.us && a.uc <= b.uc && a.ep <= b.ep }

  predicate Bounds(f: Floors, item: Item) {
    IdNumber(item, US) <= f.us && IdNumber(item, UC) <= f.uc && IdNumber(item, EP) <= f.ep
  }

  /** The floors bound every id of the board. */
  ghost predicate BoundsAll(f: Floors, board: set<Item>) { forall item :: item in board ==> Bounds(f, item) }

  function Raised(f: Floors, items: seq<Item>): Floors {
    if items == [] then f
    else
      var before, last := Raised(f, items[..|items| - 1]), items[|items| - 1];
      Floors(Max(before.us, IdNumber(last, US)), Max(before.uc, IdNumber(last, UC)), Max(before.ep, IdNumber(last, EP)))
  }

  lemma BoundsMore(a: Floors, b: Floors, item: Item)
    requires Bounds(a, item) && AtMost(a, b)
    ensures Bounds(b, item)
  {
  }

  /** Returned floors never fall and bound every returned id. */
  lemma {:induction false} RaisedBounds(f: Floors, items: seq<Item>)
    ensures AtMost(f, Raised(f, items))
    ensures forall item :: item in items ==> Bounds(Raised(f, items), item)
  {
    hide IdNumber;
    if items != [] {
      var n := |items| - 1;
      var before, now := Raised(f, items[..n]), Raised(f, items);
      RaisedBounds(f, items[..n]);
      assert AtMost(before, now) && Bounds(now, items[n]);
      forall item | item in items ensures Bounds(now, item) {
        if item != items[n] {
          assert items == items[..n] + [items[n]];
          BoundsMore(before, now, item);
        }
      }
    }
  }

  /** The floors sent back are no higher than they must be: each is the one received or the number of an item. */
  lemma {:induction false} RaisedLeast(f: Floors, items: seq<Item>, kind: Kind)
    ensures FloorOf(Raised(f, items), kind) == FloorOf(f, kind)
      || exists item :: item in items && IdNumber(item, kind) == FloorOf(Raised(f, items), kind)
  {
    hide IdNumber;
    if items != [] {
      var n := |items| - 1;
      RaisedLeast(f, items[..n], kind);
      assert items[n] in items && forall item :: item in items[..n] ==> item in items;
    }
  }

  // ── Operations on the items ──────────────────────────────────────

  datatype Error = Invalid | Exists | NotFound

  /** The writes: epics are created (`dated`: the target date, if given, is one), deleted and given to stories;
      `Put` is any other item written, new or not, and `Drop` any item removed. */
  datatype Op =
    | CreateEpic(name: string, epicId: Option<string>, position: Option<int>, dated: bool)
    | DeleteEpic(id: string)
    | SetUsEpic(story: string, epicOf: Option<string>)
    | Put(item: Item)
    | Drop(id: string)

  function EpicIds(items: seq<Item>): seq<string> {
    if items == [] then []
    else EpicIds(items[..|items| - 1]) + if IsEpic(items[|items| - 1]) then [items[|items| - 1].id] else []
  }

  function LastPosition(items: seq<Item>, top: Option<int>): int {
    if items == [] then Or(top, 0)
    else if IsEpic(items[0]) && (top.None? || items[0].position > top.value) then
      LastPosition(items[1..], Some(items[0].position))
    else LastPosition(items[1..], top)
  }

  function FloorIds(floor: nat): seq<string> { if floor == 0 then [] else [EpicId(floor)] }

  /** The id of the next epic: after every epic that shows and after the floor. */
  function AutoId(items: seq<Item>, floor: nat): string { NextEpicId(EpicIds(items) + FloorIds(floor)) }

  function NewEpic(id: string, name: string, position: int): Item {
    Item(id, ["EP"], Strip(name), "", None, None, None, "", "", Some(id), position)
  }

  /** The story without the epic, if it was in it. */
  function Leave(item: Item, epic: string): Item {
    if "US" in item.labels && item.epic == Some(epic) then item.(epic := None) else item
  }

  function Leaves(items: seq<Item>, epic: string): seq<Item> {
    seq(|items|, i requires 0 <= i < |items| => Leave(items[i], epic))
  }

  /** The first epic with an id, or the length. */
  function FindEpic(items: seq<Item>, id: string): (i: nat)
    ensures i <= |items| && (i < |items| ==> IsEpic(items[i]) && items[i].id == id)
  {
    if items == [] || (IsEpic(items[0]) && items[0].id == id) then 0 else 1 + FindEpic(items[1..], id)
  }

  function FindStory(items: seq<Item>, id: string): (i: nat)
    ensures i <= |items| && (i < |items| ==> "US" in items[i].labels && items[i].id == id)
  {
    if items == [] || ("US" in items[0].labels && items[0].id == id) then 0 else 1 + FindStory(items[1..], id)
  }

  function FindItem(items: seq<Item>, id: string): (i: nat)
    ensures i <= |items| && (i < |items| ==> items[i].id == id)
  {
    if items == [] || items[0].id == id then 0 else 1 + FindItem(items[1..], id)
  }

  /** The items after a call, and the id of the epic it created. */
  function Apply(items: seq<Item>, floor: nat, op: Op): (seq<Item>, Result<Option<string>, Error>) {
    match op
    case CreateEpic(name, epicId, position, dated) =>
      if Strip(name) == "" || !dated || (epicId.Some? && !IsEpicId(epicId.value)) then (items, Err(Invalid))
      else if epicId.Some? && epicId.value in EpicIds(items) then (items, Err(Exists))
      else
        var id := if epicId.Some? then epicId.value else AutoId(items, floor);
        var at := if position.Some? then position.value else LastPosition(items, None) + 1;
        (items + [NewEpic(id, name, at)], Ok(Some(id)))
    case DeleteEpic(id) =>
      var i := FindEpic(items, id);
      if i == |items| then (items, Err(NotFound))
      else (Leaves(items, id)[..i] + Leaves(items, id)[i + 1..], Ok(None))
    case SetUsEpic(story, epic) =>
      var i := FindStory(items, story);
      if i == |items| || (epic.Some? && FindEpic(items, epic.value) == |items|) then (items, Err(NotFound))
      else (items[i := items[i].(epic := epic)], Ok(None))
    case Put(item) =>
      var i := FindItem(items, item.id);
      (if i == |items| then items + [item] else items[i := item], Ok(None))
    case Drop(id) =>
      var i := FindItem(items, id);
      if i == |items| then (items, Err(NotFound)) else (items[..i] + items[i + 1..], Ok(None))
  }

  lemma {:induction false} PositionFloor(items: seq<Item>, top: Option<int>)
    ensures top.Some? ==> LastPosition(items, top) >= top.value
  {
    if items != [] {
      PositionFloor(items[1..], if IsEpic(items[0]) then Some(items[0].position) else top);
      PositionFloor(items[1..], top);
    }
  }

  lemma {:induction false} PositionBound(items: seq<Item>, top: Option<int>, item: Item)
    requires item in items && IsEpic(item)
    ensures item.position <= LastPosition(items, top)
  {
    var next :=
      if IsEpic(items[0]) && (top.None? || items[0].position > top.value) then Some(items[0].position) else top;
    if item == items[0] {
      PositionFloor(items[1..], next);
    } else {
      PositionBound(items[1..], next, item);
    }
  }

  /** An epic created without a position comes after every epic of the list. */
  lemma NewEpicGoesLast(items: seq<Item>, floor: nat, name: string, epicId: Option<string>, item: Item)
    requires item in items && IsEpic(item) && Apply(items, floor, CreateEpic(name, epicId, None, true)).1.Ok?
    ensures var after := Apply(items, floor, CreateEpic(name, epicId, None, true)).0;
      |after| == |items| + 1 && after[..|items|] == items && IsEpic(after[|items|])
      && item.position < after[|items|].position && after[|items|].id != item.id
  {
    PositionBound(items, None, item);
    AutoIdFresh(items, floor, item);
    EpicIdsIn(items, item);
  }

  // ── One fragment ─────────────────────────────────────────────────

  lemma {:induction false} EpicIdsIn(items: seq<Item>, item: Item)
    requires item in items && IsEpic(item)
    ensures item.id in EpicIds(items)
  {
    var n := |items| - 1;
    if item != items[n] {
      assert items == items[..n] + [items[n]];
      EpicIdsIn(items[..n], item);
    }
  }

  /** An epic with an id that is `EP-` and a number of at most `floor`. */
  predicate BelowFloor(item: Item, floor: nat) {
    IsEpic(item) && IsEpicId(item.id) ==> Number(item.id[3..]) <= floor
  }

  /** An automatic id is no epic's of the fragment, nor any board's whose epic numbers the floor bounds. */
  lemma AutoIdFresh(items: seq<Item>, floor: nat, item: Item)
    requires IsEpic(item) && (item in items || BelowFloor(item, floor))
    ensures AutoId(items, floor) != item.id
  {
    var ids := EpicIds(items) + FloorIds(floor);
    NextIsFresh(ids);
    if item in items {
      EpicIdsIn(items, item);
    } else if IsEpicId(item.id) && floor != 0 {
      EpicIdReads(floor);
      HighestBounds(ids, EpicId(floor));
    }
  }

  lemma {:induction false} LeadingIsNumber(s: string)
    requires AllDigits(s)
    ensures Number(LeadingDigits(s)) == Number(s)
  {
    LeadingDigitsOfDigits(s);
  }

  lemma BoundsBelow(f: Floors, item: Item)
    requires Bounds(f, item)
    ensures BelowFloor(item, f.ep)
  {
    if IsEpic(item) && IsEpicId(item.id) { LeadingIsNumber(item.id[3..]); }
  }

  // ── Chains of fragments ──────────────────────────────────────────

  /** A round trip: the client sends a fragment, calls follow, and the fragment goes back with raised floors. */
  datatype Round = Round(fragment: seq<Item>, ops: seq<Op>)

  function RunOps(items: seq<Item>, floor: nat, ops: seq<Op>): seq<Item> {
    if ops == [] then items
    else Apply(RunOps(items, floor, ops[..|ops| - 1]), floor, ops[|ops| - 1]).0
  }

  /** What the client has: at most the items it had and the ones that came back, and the floors. */
  datatype Client = Client(board: set<Item>, floors: Floors)

  function Elements(items: seq<Item>): set<Item> { set item | item in items }

  function AfterRound(c: Client, round: Round): Client {
    var items := RunOps(round.fragment, c.floors.ep, round.ops);
    Client(c.board + Elements(items), Raised(c.floors, items))
  }

  function AfterRounds(c: Client, rounds: seq<Round>): Client {
    if rounds == [] then c else AfterRound(AfterRounds(c, rounds[..|rounds| - 1]), rounds[|rounds| - 1])
  }

  /** Every automatically numbered epic of a round is new on the whole board. */
  ghost predicate FreshRound(c: Client, round: Round) {
    forall n :: 0 <= n < |round.ops| ==> FreshOp(c, RunOps(round.fragment, c.floors.ep, round.ops[..n]), round.ops[n])
  }

  ghost predicate FreshOp(c: Client, items: seq<Item>, op: Op) {
    var result := Apply(items, c.floors.ep, op).1;
    op.CreateEpic? && op.epicId.None? && result.Ok? ==>
      && result.value.Some?
      && forall item :: item in c.board + Elements(items) && IsEpic(item) ==> item.id != result.value.value
  }

  lemma BoardFresh(c: Client, items: seq<Item>, op: Op)
    requires BoundsAll(c.floors, c.board)
    ensures FreshOp(c, items, op)
  {
    forall item | item in c.board + Elements(items) && IsEpic(item)
      ensures AutoId(items, c.floors.ep) != item.id
    {
      if item in c.board { BoundsBelow(c.floors, item); }
      AutoIdFresh(items, c.floors.ep, item);
    }
  }

  lemma RoundKeepsBounds(c: Client, round: Round)
    requires BoundsAll(c.floors, c.board)
    ensures BoundsAll(AfterRound(c, round).floors, AfterRound(c, round).board)
    ensures AtMost(c.floors, AfterRound(c, round).floors)
  {
    var items := RunOps(round.fragment, c.floors.ep, round.ops);
    RaisedBounds(c.floors, items);
    forall item | item in c.board ensures Bounds(Raised(c.floors, items), item) {
      BoundsMore(c.floors, Raised(c.floors, items), item);
    }
  }

  /** Over any chain of fragments, whatever is written in between, if the declared floors bound the board they
      go on bounding it and never fall, and no automatic epic id is an epic's of the whole board. */
  lemma {:induction false} IdsNeverCollide(c: Client, rounds: seq<Round>, round: Round)
    requires BoundsAll(c.floors, c.board)
    ensures BoundsAll(AfterRounds(c, rounds).floors, AfterRounds(c, rounds).board)
    ensures AtMost(c.floors, AfterRounds(c, rounds).floors)
    ensures FreshRound(AfterRounds(c, rounds), round)
  {
    if rounds != [] {
      IdsNeverCollide(c, rounds[..|rounds| - 1], round);
      RoundKeepsBounds(AfterRounds(c, rounds[..|rounds| - 1]), rounds[|rounds| - 1]);
    }
    var now := AfterRounds(c, rounds);
    forall n | 0 <= n < |round.ops|
      ensures FreshOp(now, RunOps(round.fragment, now.floors.ep, round.ops[..n]), round.ops[n])
    {
      BoardFresh(now, RunOps(round.fragment, now.floors.ep, round.ops[..n]), round.ops[n]);
    }
  }

  /** A floor below an epic that the fragment does not show lets the next id repeat it: the declared floor must
      bound every epic's number. */
  lemma LowFloorRepeats(n: nat)
    requires n > 0
    ensures AutoId([], n - 1) == EpicId(n) && !BelowFloor(NewEpic(EpicId(n), "x", 1), n - 1)
  {
    EpicIdReads(n);
    EpicIdReads(n - 1);
    OnlyFloor(n - 1);
    hide EpicId;
    hide IsEpicId;
    hide HighestEpic;
    hide FloorIds;
  }

  lemma OnlyFloor(floor: nat)
    ensures HighestEpic(EpicIds([]) + FloorIds(floor)) == floor
  {
    var ids := FloorIds(floor);
    assert EpicIds([]) + ids == ids;
    if floor > 0 {
      EpicIdReads(floor);
      hide EpicId;
      hide IsEpicId;
      HighestOfMore([], EpicId(floor));
      assert [] + [EpicId(floor)] == ids;
    }
  }

  // ── The backend as the program runs it ───────────────────────────

  /** In memory: the items of a whole board (no floors) or of a fragment. */
  class FreeformBackend {
    var items: seq<Item>
    const floors: Option<Floors>

    constructor (items: seq<Item>, floors: Option<Floors>)
      ensures this.items == items && this.floors == floors
    {
      this.items, this.floors := items, floors;
    }

    /** `logical_id_floor` */
    function LogicalIdFloor(kind: Kind): nat { if floors.Some? then FloorOf(floors.value, kind) else 0 }

    /** `create_epic` */
    method CreateEpic(name: string, epicId: Option<string>, position: Option<int>, dated: bool)
      returns (result: Result<Option<string>, Error>)
      modifies this`items
      ensures (items, result) == Apply(old(items), LogicalIdFloor(EP), Op.CreateEpic(name, epicId, position, dated))
    {
      if epicId.Some? && !IsEpicId(epicId.value) { return Err(Invalid); }
      if Strip(name) == "" { return Err(Invalid); }
      if !dated { return Err(Invalid); }
      var ids := EpicIds(items);
      var id;
      if epicId.None? {
        var floor := LogicalIdFloor(EP);
        id := NextEpicId(ids + FloorIds(floor));
      } else {
        if epicId.value in ids { return Err(Exists); }
        id := epicId.value;
      }
      var at := if position.Some? then position.value else LastPosition(items, None) + 1;
      items := items + [NewEpic(id, name, at)];
      result := Ok(Some(id));
    }

    /** `delete_epic`: its stories leave it one by one, then it goes. */
    method DeleteEpic(id: string) returns (result: Result<Option<string>, Error>)
      modifies this`items
      ensures (items, result) == Apply(old(items), LogicalIdFloor(EP), Op.DeleteEpic(id))
    {
      var at := FindEpic(items, id);
      if at == |items| { return Err(NotFound); }
      var was := items;
      for i := 0 to |was|
        invariant |items| == |was|
        invariant forall k :: 0 <= k < i ==> items[k] == Leave(was[k], id)
        invariant forall k :: i <= k < |was| ==> items[k] == was[k]
      {
        if "US" in items[i].labels && items[i].epic == Some(id) {
          items := items[i := items[i].(epic := None)];
        }
      }
      assert items == Leaves(was, id);
      items := items[..at] + items[at + 1..];
      result := Ok(None);
    }

    /** `set_us_epic` */
    method SetUsEpic(story: string, epic: Option<string>) returns (result: Result<Option<string>, Error>)
      modifies this`items
      ensures (items, result) == Apply(old(items), LogicalIdFloor(EP), Op.SetUsEpic(story, epic))
    {
      var i := FindStory(items, story);
      if i == |items| { return Err(NotFound); }
      if epic.Some? && FindEpic(items, epic.value) == |items| { return Err(NotFound); }
      items := items[i := items[i].(epic := epic)];
      result := Ok(None);
    }

    /** The floors `get_items_content` sends back with a fragment. */
    method ReturnedFloors() returns (raised: Option<Floors>)
      ensures raised == if floors.None? then None else Some(Raised(floors.value, items))
    {
      if floors.None? { return None; }
      var f := floors.value;
      for i := 0 to |items|
        invariant f == Raised(floors.value, items[..i])
      {
        assert items[..i + 1][..i] == items[..i];
        f := Floors(Max(f.us, IdNumber(items[i], US)), Max(f.uc, IdNumber(items[i], UC)),
                    Max(f.ep, IdNumber(items[i], EP)));
      }
      assert items[..|items|] == items;
      raised := Some(f);
    }
  }
}
