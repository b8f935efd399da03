/** The store of canonical decisions (server/app_docs/canonical.py): a value confirmed often enough in a
    row is promoted, and reused until another value is chosen, or it is invalidated or revoked. */
module Canonical {
  import opened Lists
  import opened Wrappers

  type Time = int

  datatype Invalidation = Invalidation(at: Time, reason: string)

  datatype Entry = Entry(
    key: string, value: string, promotedAt: Time, confirmations: int, lastSeen: Time,
    invalidated: Option<Invalidation>)

  datatype Counter = Counter(key: string, lastValue: string, streak: int, updatedAt: Time)

  datatype Store = Store(canonicals: seq<Entry>, counters: seq<Counter>)

  predicate IsActive(e: Entry, key: string) { e.key == key && e.invalidated.None? }

  /** The first active entry of a key. */
  function FindActive(entries: seq<Entry>, key: string): (at: Option<nat>)
    ensures at.Some? ==> at.value < |entries| && IsActive(entries[at.value], key)
    ensures at.Some? ==> forall k :: 0 <= k < at.value ==> !IsActive(entries[k], key)
    ensures at.None? ==> forall k :: 0 <= k < |entries| ==> !IsActive(entries[k], key)
  {
    if entries == [] then None
    else if IsActive(entries[0], key) then Some(0)
    else
      match FindActive(entries[1..], key)
      case None => None
      case Some(k) => Some(k + 1)
  }

  function FindCounter(counters: seq<Counter>, key: string): (at: Option<nat>)
    ensures at.Some? ==> at.value < |counters| && counters[at.value].key == key
    ensures at.Some? ==> forall k :: 0 <= k < at.value ==> counters[k].key != key
    ensures at.None? ==> forall k :: 0 <= k < |counters| ==> counters[k].key != key
  {
    if counters == [] then None
    else if counters[0].key == key then Some(0)
    else
      match FindCounter(counters[1..], key)
      case None => None
      case Some(k) => Some(k + 1)
  }

  function NotActive(key: string): Entry -> bool { (e: Entry) => !IsActive(e, key) }

  function OfKey(key: string): Counter -> bool { (c: Counter) => c.key == key }

  function NotOfKey(key: string): Counter -> bool { (c: Counter) => c.key != key }

  function Invalidated(): Entry -> bool { (e: Entry) => e.invalidated.Some? }

  datatype Event =
    | Record(key: string, value: string, threshold: int)
    | Invalidate(key: string, reason: string)
    | Revoke(key: string)

  /** The outcome of a call: `streak` and `promoted` of a confirmation, success of the other two. */
  datatype Reply = Recorded(promoted: bool, canonical: Option<Entry>, streak: int) | Outcome(ok: bool)

  function CountOn(counters: seq<Counter>, key: string, value: string, now: Time): (seq<Counter>, Counter) {
    match FindCounter(counters, key)
    case None =>
      var c := Counter(key, value, 1, now);
      (counters + [c], c)
    case Some(i) =>
      var c := Counter(key, value, if counters[i].lastValue == value then counters[i].streak + 1 else 1, now);
      (counters[i := c], c)
  }

  function ConfirmFresh(store: Store, key: string, value: string, threshold: int, now: Time): (Store, Reply) {
    var (counters, c) := CountOn(store.counters, key, value, now);
    if c.streak >= threshold then
      var e := Entry(key, value, now, c.streak, now, None);
      (Store(store.canonicals + [e], Filter(NotOfKey(key), counters)), Recorded(true, Some(e), c.streak))
    else (Store(store.canonicals, counters), Recorded(false, None, c.streak))
  }

  function Step(store: Store, event: Event, now: Time): (Store, Reply) {
    match event
    case Record(key, value, threshold) => (
      match FindActive(store.canonicals, key)
      case None => ConfirmFresh(store, key, value, threshold, now)
      case Some(i) =>
        var e := store.canonicals[i];
        if e.value == value then
          var seen := e.(lastSeen := now, confirmations := e.confirmations + 1);
          (store.(canonicals := store.canonicals[i := seen]), Recorded(false, Some(seen), seen.confirmations))
        else
          var dropped := e.(invalidated := Some(Invalidation(now, "user_chose_different_value")));
          ConfirmFresh(Store(store.canonicals[i := dropped], Filter(NotOfKey(key), store.counters)),
                       key, value, threshold, now))
    case Invalidate(key, reason) => (
      match FindActive(store.canonicals, key)
      case None => (store, Outcome(false))
      case Some(i) =>
        var dropped := store.canonicals[i].(invalidated := Some(Invalidation(now, reason)));
        (store.(canonicals := store.canonicals[i := dropped]), Outcome(true)))
    case Revoke(key) =>
      var kept := Filter(NotActive(key), store.canonicals);
      if |kept| == |store.canonicals| then (store, Outcome(false))
      else (store.(canonicals := kept), Outcome(true))
  }

  // ── The store as the program keeps it ────────────────────────────

  class CanonicalStore {
    var canonicals: seq<Entry>
    var counters: seq<Counter>

    function Value(): Store
      reads this
    {
      Store(canonicals, counters)
    }

    constructor ()
      ensures Value() == Store([], [])
    {
      canonicals, counters := [], [];
    }

    /** `get_canonical`. */
    method GetCanonical(key: string) returns (found: Option<Entry>)
      ensures match FindActive(canonicals, key)
        case None => found == None
        case Some(i) => found == Some(canonicals[i])
    {
      var i := SearchActive(key);
      found := if i < |canonicals| then Some(canonicals[i]) else None;
    }

    method SearchActive(key: string) returns (i: nat)
      ensures i <= |canonicals|
      ensures FindActive(canonicals, key) == if i < |canonicals| then Some(i) else None
    {
      i := 0;
      while i < |canonicals|
        invariant i <= |canonicals|
        invariant forall k :: 0 <= k < i ==> !IsActive(canonicals[k], key)
      {
        if IsActive(canonicals[i], key) { return; }
        i := i + 1;
      }
    }

    method DropCounters(key: string)
      modifies this`counters
      ensures counters == Filter(NotOfKey(key), old(counters))
    {
      var kept := [];
      for k := 0 to |counters|
        invariant kept == Filter(NotOfKey(key), counters[..k])
      {
        assert counters[..k + 1][..k] == counters[..k];
        if counters[k].key != key { kept := kept + [counters[k]]; }
      }
      assert counters[..|counters|] == counters;
      counters := kept;
    }

    /** `record_confirmation`. */
    method RecordConfirmation(key: string, value: string, threshold: int, now: Time) returns (reply: Reply)
      modifies this
      ensures (Value(), reply) == Step(old(Value()), Record(key, value, threshold), now)
    {
      var i := SearchActive(key);
      if i < |canonicals| {
        if canonicals[i].value == value {
          var seen := canonicals[i].(lastSeen := now, confirmations := canonicals[i].confirmations + 1);
          canonicals := canonicals[i := seen];
          return Recorded(false, Some(seen), seen.confirmations);
        }
        var cause := Invalidation(now, "user_chose_different_value");
        canonicals := canonicals[i := canonicals[i].(invalidated := Some(cause))];
        DropCounters(key);
      }
      var j := 0;
      while j < |counters| && counters[j].key != key
        invariant j <= |counters|
        invariant forall k :: 0 <= k < j ==> counters[k].key != key
      {
        j := j + 1;
      }
      var counter := Counter(key, value, 1, now);
      if j == |counters| {
        counters := counters + [counter];
      } else {
        if counters[j].lastValue == value {
          counter := counter.(streak := counters[j].streak + 1);
        }
        counters := counters[j := counter];
      }
      reply := Recorded(false, None, counter.streak);
      if counter.streak >= threshold {
        var e := Entry(key, value, now, counter.streak, now, None);
        canonicals := canonicals + [e];
        DropCounters(key);
        reply := Recorded(true, Some(e), counter.streak);
      }
    }

    /** `invalidate_canonical`. */
    method InvalidateCanonical(key: string, reason: string, now: Time) returns (reply: Reply)
      modifies this`canonicals
      ensures (Value(), reply) == Step(old(Value()), Invalidate(key, reason), now)
    {
      var i := SearchActive(key);
      reply := Outcome(i < |canonicals|);
      if i < |canonicals| {
        canonicals := canonicals[i := canonicals[i].(invalidated := Some(Invalidation(now, reason)))];
      }
    }

    /** `revoke_canonical`. */
    method RevokeCanonical(key: string, now: Time) returns (reply: Reply)
      modifies this`canonicals
      ensures (Value(), reply) == Step(old(Value()), Revoke(key), now)
    {
      var kept := [];
      for k := 0 to |canonicals|
        invariant kept == Filter(NotActive(key), canonicals[..k])
      {
        assert canonicals[..k + 1][..k] == canonicals[..k];
        if !IsActive(canonicals[k], key) { kept := kept + [canonicals[k]]; }
      }
      assert canonicals[..|canonicals|] == canonicals;
      reply := Outcome(|kept| != |canonicals|);
      if |kept| != |canonicals| { canonicals := kept; }
    }
  }

  // ── What the history says ────────────────────────────────────────

  /** The latest run of equal confirmations of a key: since when it has been promoted, if it has, and when it was
      last confirmed. */
  datatype Streak = NoStreak | Streak(value: string, length: nat, promotedAt: Option<Time>, last: Time)

  predicate Promoted(s: Streak) { s.Streak? && s.promotedAt.Some? }

  predicate Confirms(s: Streak, event: Event) { event.Record? && s.Streak? && s.value == event.value }

  /** A confirmation of the same value lengthens a streak, another value starts over, and only a promoted
      one can be invalidated or revoked. */
  function Next(s: Streak, event: Event, now: Time): (s': Streak)
    ensures event.Record? ==> s'.Streak?
  {
    match event
    case Record(_, value, threshold) =>
      var length := if Confirms(s, event) then s.length + 1 else 1;
      var since := if Confirms(s, event) then s.promotedAt else None;
      Streak(value, length, if since.None? && length >= threshold then Some(now) else since, now)
    case _ => if Promoted(s) then NoStreak else s
  }

  /** The entry of a promoted streak, and the counter of one that is not. */
  function Current(key: string, s: Streak): seq<Entry> {
    if Promoted(s) then [Entry(key, s.value, s.promotedAt.value, s.length, s.last, None)] else []
  }

  function Counting(key: string, s: Streak): seq<Counter> {
    if s.Streak? && !Promoted(s) then [Counter(key, s.value, s.length, s.last)] else []
  }

  /** What a promoted streak leaves behind when an event ends it: nothing when it is revoked. */
  function Ended(s: Streak, event: Event, now: Time): seq<Entry> {
    if !Promoted(s) || event.Revoke? || Confirms(s, event) then []
    else
      var cause := Invalidation(now, if event.Invalidate? then event.reason else "user_chose_different_value");
      [Current(event.key, s)[0].(invalidated := Some(cause))]
  }

  /** What a history made of a key: the entries it invalidated, oldest first, and its streak. */
  datatype Trace = Trace(audit: seq<Entry>, streak: Streak)

  function NextTrace(t: Trace, event: Event, now: Time): Trace {
    Trace(t.audit + Ended(t.streak, event, now), Next(t.streak, event, now))
  }

  /** The clock ticks once per event, starting at `start`. */
  function TraceOf(history: seq<Event>, start: Time, key: string): Trace {
    if history == [] then Trace([], NoStreak)
    else
      var before := TraceOf(history[..|history| - 1], start, key);
      var event := history[|history| - 1];
      if event.key == key then NextTrace(before, event, start + |history|) else before
  }

  /** With one threshold for the whole history, promoted means long enough. */
  lemma {:induction false} PromotedMeansLong(history: seq<Event>, start: Time, key: string, threshold: int)
    requires forall k :: 0 <= k < |history| && history[k].Record? ==> history[k].threshold == threshold
    ensures var s := TraceOf(history, start, key).streak;
      s.Streak? ==> s.length >= 1 && (Promoted(s) <==> s.length >= threshold)
  {
    if history != [] {
      PromotedMeansLong(history[..|history| - 1], start, key, threshold);
    }
  }

  function Mine(key: string): Entry -> bool { (e: Entry) => e.key == key }

  predicate AllInvalidated(entries: seq<Entry>) { forall e :: e in entries ==> e.invalidated.Some? }

  /** The store holds of the key exactly what its history made of it: the invalidated entries and then the active
      one, if it is promoted, and a counter if it is not. */
  ghost predicate Holds(store: Store, key: string, t: Trace) {
    && AllInvalidated(t.audit)
    && Filter(Mine(key), store.canonicals) == t.audit + Current(key, t.streak)
    && Filter(OfKey(key), store.counters) == Counting(key, t.streak)
  }

  function Run(history: seq<Event>, start: Time): Store {
    if history == [] then Store([], [])
    else Step(Run(history[..|history| - 1], start), history[|history| - 1], start + |history|).0
  }

  // ── The store refines the history ────────────────────────────────

  /** The active entry of a key is the one found, wherever it stands, and is the last of its key. */
  lemma FoundActive(entries: seq<Entry>, key: string, audit: seq<Entry>, e: Entry)
    requires Filter(Mine(key), entries) == audit + [e] && AllInvalidated(audit) && e.invalidated.None?
    ensures FindActive(entries, key).Some?
    ensures var i := FindActive(entries, key).value;
      entries[i] == e && Filter(Mine(key), entries[..i]) == audit && Filter(Mine(key), entries[i + 1..]) == []
  {
    FilterIn(Mine(key), entries, e);
    assert e in audit + [e];
    assert IsActive(e, key);
    var i := FindActive(entries, key).value;
    FilterAround(Mine(key), entries, i);
    var before, all := Filter(Mine(key), entries[..i]), Filter(Mine(key), entries);
    assert all[|before|] == entries[i];
    assert all == before + [entries[i]] + Filter(Mine(key), entries[i + 1..]);
    assert before == all[..|before|] == audit;
  }

  lemma FoundCounter(counters: seq<Counter>, key: string)
    requires |Filter(OfKey(key), counters)| == 1
    ensures FindCounter(counters, key).Some?
    ensures var i := FindCounter(counters, key).value;
      counters[i] == Filter(OfKey(key), counters)[0]
      && Filter(OfKey(key), counters[..i]) == [] && Filter(OfKey(key), counters[i + 1..]) == []
  {
    var c := Filter(OfKey(key), counters)[0];
    FilterIn(OfKey(key), counters, c);
    var i := FindCounter(counters, key).value;
    FilterNone(OfKey(key), counters[..i]);
    FilterAround(OfKey(key), counters, i);
  }

  lemma NoneFound(entries: seq<Entry>, key: string)
    requires AllInvalidated(Filter(Mine(key), entries))
    ensures FindActive(entries, key) == None
    ensures forall e :: e in entries ==> !IsActive(e, key)
  {
    forall e | e in entries ensures !IsActive(e, key) { FilterIn(Mine(key), entries, e); }
  }

  lemma CountOnHolds(counters: seq<Counter>, key: string, value: string, now: Time, s: Streak)
    requires !Promoted(s) && Filter(OfKey(key), counters) == Counting(key, s)
    ensures var n := if s.Streak? && s.value == value then s.length + 1 else 1;
      var c := Counter(key, value, n, now);
      CountOn(counters, key, value, now).1 == c
      && Filter(OfKey(key), CountOn(counters, key, value, now).0) == [c]
  {
    var c := CountOn(counters, key, value, now).1;
    if s.NoStreak? {
      if FindCounter(counters, key).Some? {
        FilterIn(OfKey(key), counters, counters[FindCounter(counters, key).value]);
      }
      FilterMore(OfKey(key), counters, c);
    } else {
      FoundCounter(counters, key);
      FilterUpdate(OfKey(key), counters, FindCounter(counters, key).value, c);
    }
  }

  lemma CountersDropped(counters: seq<Counter>, key: string)
    ensures Filter(OfKey(key), Filter(NotOfKey(key), counters)) == []
  {
    forall c | c in Filter(NotOfKey(key), counters) ensures c.key != key { FilterIn(NotOfKey(key), counters, c); }
    FilterNone(OfKey(key), Filter(NotOfKey(key), counters));
  }

  /** A confirmation of a key without an active entry, whatever was invalidated before. */
  lemma ConfirmHolds(store: Store, event: Event, now: Time, t: Trace)
    requires event.Record? && !Promoted(t.streak) && Holds(store, event.key, t)
    ensures var s' := Next(t.streak, event, now);
      var (after, reply) := ConfirmFresh(store, event.key, event.value, event.threshold, now);
      && Holds(after, event.key, Trace(t.audit, s'))
      && reply == Recorded(Promoted(s'), FirstOf(Current(event.key, s')), s'.length)
  {
    hide Filter;
    hide FindCounter;
    var key, value := event.key, event.value;
    CountOnHolds(store.counters, key, value, now, t.streak);
    var (counters, c) := CountOn(store.counters, key, value, now);
    CountersDropped(counters, key);
    FilterMore(Mine(key), store.canonicals, Entry(key, value, now, c.streak, now, None));
    assert t.audit + [] == t.audit;
  }

  function FirstOf(entries: seq<Entry>): Option<Entry> { if entries == [] then None else Some(entries[0]) }

  /** What one key has in the store. */
  ghost predicate SameFor(a: Store, b: Store, key: string) {
    && Filter(Mine(key), a.canonicals) == Filter(Mine(key), b.canonicals)
    && Filter(OfKey(key), a.counters) == Filter(OfKey(key), b.counters)
  }

  lemma ConfirmOther(store: Store, key: string, value: string, threshold: int, now: Time, other: string)
    requires other != key
    ensures SameFor(ConfirmFresh(store, key, value, threshold, now).0, store, other)
  {
    var (counters, c) := CountOn(store.counters, key, value, now);
    match FindCounter(store.counters, key) {
      case None => FilterMore(OfKey(other), store.counters, c);
      case Some(i) =>
        FilterAround(OfKey(other), store.counters, i);
        FilterUpdate(OfKey(other), store.counters, i, c);
    }
    FilterKept(OfKey(other), NotOfKey(key), counters);
    FilterMore(Mine(other), store.canonicals, Entry(key, value, now, c.streak, now, None));
  }

  lemma UpdateOther(store: Store, key: string, i: nat, e: Entry, other: string)
    requires i < |store.canonicals| && store.canonicals[i].key == key == e.key != other
    ensures SameFor(store.(canonicals := store.canonicals[i := e]), store, other)
  {
    FilterAround(Mine(other), store.canonicals, i);
    FilterUpdate(Mine(other), store.canonicals, i, e);
  }

  /** An event about one key leaves the others as they were. */
  lemma StepOther(store: Store, event: Event, now: Time, other: string)
    requires other != event.key
    ensures SameFor(Step(store, event, now).0, store, other)
  {
    match FindActive(store.canonicals, event.key) {
      case None =>
        if event.Record? { ConfirmOther(store, event.key, event.value, event.threshold, now, other); }
      case Some(i) =>
        var e := store.canonicals[i];
        if event.Record? && e.value == event.value {
          UpdateOther(store, event.key, i, e.(lastSeen := now, confirmations := e.confirmations + 1), other);
        } else if event.Record? {
          var dropped := e.(invalidated := Some(Invalidation(now, "user_chose_different_value")));
          UpdateOther(store, event.key, i, dropped, other);
          FilterKept(OfKey(other), NotOfKey(event.key), store.counters);
          ConfirmOther(Store(store.canonicals[i := dropped], Filter(NotOfKey(event.key), store.counters)),
                       event.key, event.value, event.threshold, now, other);
        } else if event.Invalidate? {
          UpdateOther(store, event.key, i, e.(invalidated := Some(Invalidation(now, event.reason))), other);
        }
    }
    if event.Revoke? { FilterKept(Mine(other), NotActive(event.key), store.canonicals); }
  }

  /** The active entry of a key replaced by another of the key. */
  lemma ActiveReplaced(entries: seq<Entry>, key: string, audit: seq<Entry>, e: Entry, e': Entry)
    requires Filter(Mine(key), entries) == audit + [e] && AllInvalidated(audit) && e.invalidated.None? && e'.key == key
    ensures FindActive(entries, key).Some?
    ensures var i := FindActive(entries, key).value;
      entries[i] == e && Filter(Mine(key), entries[i := e']) == audit + [e']
  {
    FoundActive(entries, key, audit, e);
    FilterUpdate(Mine(key), entries, FindActive(entries, key).value, e');
  }

  lemma RevokeEnds(entries: seq<Entry>, key: string, audit: seq<Entry>, e: Entry)
    requires Filter(Mine(key), entries) == audit + [e] && AllInvalidated(audit) && e.invalidated.None?
    ensures Filter(Mine(key), Filter(NotActive(key), entries)) == audit
    ensures |Filter(NotActive(key), entries)| < |entries|
  {
    hide Filter;
    FoundActive(entries, key, audit, e);
    var i := FindActive(entries, key).value;
    var a, b := entries[..i], entries[i + 1..];
    NoneFound(a, key);
    NoneFound(b, key);
    FilterAround(NotActive(key), entries, i);
    FilterAll(NotActive(key), a);
    FilterAll(NotActive(key), b);
    FilterConcat(Mine(key), a, b);
    assert entries[i] == e && Only(NotActive(key), e) == [];
    assert Filter(NotActive(key), entries) == a + b;
  }

  /** One event takes the store from what it holds of its key to what the history makes of that, and tells the
      caller so. */
  ghost predicate Follows(store: Store, t: Trace, event: Event, now: Time) {
    var (after, reply) := Step(store, event, now);
    var s, s' := t.streak, Next(t.streak, event, now);
    && Holds(after, event.key, NextTrace(t, event, now))
    && match reply
       case Outcome(ok) => !event.Record? && ok == Promoted(s)
       case Recorded(promoted, canonical, streak) =>
         && event.Record? && streak == s'.length && canonical == FirstOf(Current(event.key, s'))
         && (promoted <==> Promoted(s') && !(Promoted(s) && Confirms(s, event)))
  }

  lemma PromotedFollows(store: Store, t: Trace, event: Event, now: Time)
    requires Holds(store, event.key, t) && Promoted(t.streak)
    ensures Follows(store, t, event, now)
  {
    match event
    case Record(key, value, threshold) =>
      if value == t.streak.value {
        SameValueFollows(store, t, event, now);
      } else {
        OtherValueFollows(store, t, event, now);
      }
    case Invalidate(key, reason) => InvalidateFollows(store, t, event, now);
    case Revoke(key) => RevokeFollows(store, t, event, now);
  }

  lemma SameValueFollows(store: Store, t: Trace, event: Event, now: Time)
    requires Holds(store, event.key, t) && Promoted(t.streak) && event.Record? && event.value == t.streak.value
    ensures Follows(store, t, event, now)
  {
    hide Filter;
    var key, e := event.key, Current(event.key, t.streak)[0];
    ActiveReplaced(store.canonicals, key, t.audit, e, e.(lastSeen := now, confirmations := e.confirmations + 1));
    assert t.audit + [] == t.audit;
  }

  lemma InvalidateFollows(store: Store, t: Trace, event: Event, now: Time)
    requires Holds(store, event.key, t) && Promoted(t.streak) && event.Invalidate?
    ensures Follows(store, t, event, now)
  {
    hide Filter;
    var key, e := event.key, Current(event.key, t.streak)[0];
    var dropped := e.(invalidated := Some(Invalidation(now, event.reason)));
    ActiveReplaced(store.canonicals, key, t.audit, e, dropped);
    assert t.audit + [dropped] + [] == t.audit + [dropped];
  }

  lemma RevokeFollows(store: Store, t: Trace, event: Event, now: Time)
    requires Holds(store, event.key, t) && Promoted(t.streak) && event.Revoke?
    ensures Follows(store, t, event, now)
  {
    hide Filter;
    RevokeEnds(store.canonicals, event.key, t.audit, Current(event.key, t.streak)[0]);
    assert t.audit + [] + [] == t.audit;
  }

  lemma OtherValueFollows(store: Store, t: Trace, event: Event, now: Time)
    requires Holds(store, event.key, t) && Promoted(t.streak) && event.Record? && event.value != t.streak.value
    ensures Follows(store, t, event, now)
  {
    var key, e := event.key, Current(event.key, t.streak)[0];
    var dropped := e.(invalidated := Some(Invalidation(now, "user_chose_different_value")));
    ActiveReplaced(store.canonicals, key, t.audit, e, dropped);
    CountersDropped(store.counters, key);
    var i := FindActive(store.canonicals, key).value;
    var mid := Store(store.canonicals[i := dropped], Filter(NotOfKey(key), store.counters));
    var ended := Trace(t.audit + [dropped], NoStreak);
    assert ended.audit + [] == ended.audit;
    assert Holds(mid, key, ended);
    ConfirmHolds(mid, event, now, ended);
    assert Next(NoStreak, event, now) == Next(t.streak, event, now);
  }

  lemma UnpromotedFollows(store: Store, t: Trace, event: Event, now: Time)
    requires Holds(store, event.key, t) && !Promoted(t.streak)
    ensures Follows(store, t, event, now)
  {
    assert t.audit + [] == t.audit;
    NoneFound(store.canonicals, event.key);
    match event
    case Record(key, value, threshold) => ConfirmHolds(store, event, now, t);
    case Invalidate(_, _) =>
    case Revoke(key) => FilterAll(NotActive(key), store.canonicals);
  }

  lemma StepFollows(store: Store, t: Trace, event: Event, now: Time)
    requires Holds(store, event.key, t)
    ensures Follows(store, t, event, now)
  {
    if Promoted(t.streak) {
      PromotedFollows(store, t, event, now);
    } else {
      UnpromotedFollows(store, t, event, now);
    }
  }

  lemma OneMoreEvent(store: Store, t: Trace, event: Event, now: Time, key: string)
    requires Holds(store, key, t)
    ensures Holds(Step(store, event, now).0, key, if event.key == key then NextTrace(t, event, now) else t)
  {
    if event.key == key {
      StepFollows(store, t, event, now);
    } else {
      StepOther(store, event, now, key);
    }
  }

  /** Promotion refines history: after any run, with any thresholds, the store holds for every key exactly what its
      history spells: every field of the active entry or of the counter, and of every entry invalidated. */
  lemma {:induction false} StoreRefinesHistory(history: seq<Event>, start: Time, key: string)
    ensures Holds(Run(history, start), key, TraceOf(history, start, key))
  {
    hide Step;
    hide NextTrace;
    if history != [] {
      hide Holds;
      var before, event := history[..|history| - 1], history[|history| - 1];
      StoreRefinesHistory(before, start, key);
      OneMoreEvent(Run(before, start), TraceOf(before, start, key), event, start + |history|, key);
    }
  }

  /** What a caller is told next is what the history says. */
  lemma RepliesFollowHistory(history: seq<Event>, start: Time, event: Event, now: Time)
    ensures Follows(Run(history, start), TraceOf(history, start, event.key), event, now)
  {
    StoreRefinesHistory(history, start, event.key);
    StepFollows(Run(history, start), TraceOf(history, start, event.key), event, now);
  }

  // ── Audit trail ──────────────────────────────────────────────────

  /** One more entry at a place of the trail, or none. */
  ghost predicate Grows(before: seq<Entry>, after: seq<Entry>, at: nat, added: seq<Entry>) {
    at <= |before| && |added| <= 1 && after == before[..at] + added + before[at..]
  }

  lemma SameTrail(trail: seq<Entry>)
    ensures Grows(trail, trail, |trail|, [])
  {
    assert trail == trail[..|trail|] + [] + trail[|trail|..];
  }

  lemma TrailUpdate(entries: seq<Entry>, i: nat, e: Entry) returns (at: nat)
    requires i < |entries| && entries[i].invalidated.None?
    ensures Grows(Filter(Invalidated(), entries), Filter(Invalidated(), entries[i := e]), at, Only(Invalidated(), e))
  {
    var trail := Filter(Invalidated(), entries);
    FilterAround(Invalidated(), entries, i);
    FilterUpdate(Invalidated(), entries, i, e);
    at := |Filter(Invalidated(), entries[..i])|;
    assert trail == Filter(Invalidated(), entries[..i]) + Filter(Invalidated(), entries[i + 1..]);
    assert trail[..at] == Filter(Invalidated(), entries[..i]) && trail[at..] == Filter(Invalidated(), entries[i + 1..]);
  }

  lemma FreshKeepsTrail(store: Store, key: string, value: string, threshold: int, now: Time)
    ensures Filter(Invalidated(), ConfirmFresh(store, key, value, threshold, now).0.canonicals)
         == Filter(Invalidated(), store.canonicals)
  {
    var (_, c) := CountOn(store.counters, key, value, now);
    FilterMore(Invalidated(), store.canonicals, Entry(key, value, now, c.streak, now, None));
  }

  /** The audit trail only grows: an event leaves every invalidated entry as it was, in order, and adds at
      most one, the active entry of its key as it stood. */
  lemma AuditTrailGrows(store: Store, event: Event, now: Time) returns (at: nat, added: seq<Entry>)
    ensures Grows(Filter(Invalidated(), store.canonicals),
                  Filter(Invalidated(), Step(store, event, now).0.canonicals), at, added)
    ensures added != [] ==> FindActive(store.canonicals, event.key).Some?
    ensures added != [] ==>
      var e := store.canonicals[FindActive(store.canonicals, event.key).value];
      added[0] == e.(invalidated := added[0].invalidated) && added[0].invalidated.Some?
  {
    var entries := store.canonicals;
    var trail := Filter(Invalidated(), entries);
    at, added := |trail|, [];
    SameTrail(trail);
    match FindActive(entries, event.key) {
      case None =>
        if event.Record? { FreshKeepsTrail(store, event.key, event.value, event.threshold, now); }
      case Some(i) =>
        var e := entries[i];
        if event.Record? && e.value == event.value {
          at := TrailUpdate(entries, i, e.(lastSeen := now, confirmations := e.confirmations + 1));
        } else if !event.Revoke? {
          var reason := if event.Invalidate? then event.reason else "user_chose_different_value";
          var dropped := e.(invalidated := Some(Invalidation(now, reason)));
          at := TrailUpdate(entries, i, dropped);
          added := [dropped];
          if event.Record? {
            FreshKeepsTrail(Store(entries[i := dropped], Filter(NotOfKey(event.key), store.counters)),
                            event.key, event.value, event.threshold, now);
          }
        }
    }
    if event.Revoke? { FilterKept(Invalidated(), NotActive(event.key), entries); }
  }
}
