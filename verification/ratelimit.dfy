/** The sliding-window rate limiter (server/coordination/abuse_guard.py): per identity, the times of the
    hits of the last `window` seconds, at most `limit` of them; idle identities are forgotten. */
module RateLimit {
  import opened Lists
  import opened Wrappers

  const MAX_IDENTITIES: nat := 10_000

  type Hits = map<string, seq<real>>

  datatype Policy = Policy(limit: int, window: real)

  function Queue(hits: Hits, key: string): seq<real> { if key in hits then hits[key] else [] }

  /** The hits still inside the window: the old ones are popped from the front. */
  function Live(q: seq<real>, p: Policy, now: real): seq<real> {
    if q != [] && q[0] <= now - p.window then Live(q[1..], p, now) else q
  }

  function Repeat(x: real, n: nat): seq<real> { seq(n, i => x) }

  predicate Idle(q: seq<real>, p: Policy, now: real) {
    q == [] || q[|q| - 1] <= now - p.window
  }

  predicate Fits(q: seq<real>, p: Policy, cost: nat) { |q| + cost <= p.limit }

  /** What a rejected caller is told to wait. */
  function Wait(q: seq<real>, p: Policy, now: real): real {
    var oldest := if q == [] then now else q[0];
    if oldest + p.window - now > 0.0 then oldest + p.window - now else 0.0
  }

  /** One call on a single identity's queue. */
  function CallAlone(q: seq<real>, p: Policy, cost: nat, now: real): (seq<real>, Option<real>) {
    var live := Live(q, p, now);
    if Fits(live, p, cost) then (live + Repeat(now, cost), None) else (live, Some(Wait(live, p, now)))
  }

  function Forget(hits: Hits, p: Policy, now: real): Hits {
    if |hits| > MAX_IDENTITIES then map k | k in hits && !Idle(hits[k], p, now) :: hits[k] else hits
  }

  /** One call on the shared limiter. */
  function Call(hits: Hits, p: Policy, key: string, cost: nat, now: real): (Hits, Option<real>) {
    var (q, wait) := CallAlone(Queue(hits, key), p, cost, now);
    (if wait.None? then Forget(hits[key := q], p, now) else hits[key := q], wait)
  }

  class RateLimiter {
    const policy: Policy
    var hits: Hits

    constructor (limit: int, window: real)
      ensures policy == Policy(limit, window) && hits == map[]
    {
      policy, hits := Policy(limit, window), map[];
    }

    /** `acquire`: `None` when allowed, else the seconds to wait. */
    method Acquire(key: string, cost: nat, now: real) returns (wait: Option<real>)
      modifies this`hits
      ensures (hits, wait) == Call(old(hits), policy, key, cost, now)
    {
      var q := if key in hits then hits[key] else [];
      while q != [] && q[0] <= now - policy.window
        invariant Live(q, policy, now) == Live(Queue(old(hits), key), policy, now)
        decreases |q|
      {
        q := q[1..];
      }
      hits := hits[key := q];
      if |q| + cost > policy.limit {
        var oldest := if q != [] then q[0] else now;
        var left := oldest + policy.window - now;
        return Some(if left > 0.0 then left else 0.0);
      }
      hits := hits[key := q + Repeat(now, cost)];
      assert old(hits)[key := q][key := q + Repeat(now, cost)] == old(hits)[key := q + Repeat(now, cost)];
      if |hits| > MAX_IDENTITIES {
        hits := map k | k in hits && !Idle(hits[k], policy, now) :: hits[k];
      }
      wait := None;
    }
  }

  // ── One identity's queue ─────────────────────────────────────────

  ghost predicate Sorted(q: seq<real>) { forall i, j :: 0 <= i < j < |q| ==> q[i] <= q[j] }

  /** Hits up to now, in order. */
  ghost predicate Chronicle(q: seq<real>, now: real) {
    Sorted(q) && forall i :: 0 <= i < |q| ==> q[i] <= now
  }

  /** The live hits are a suffix: `dropped` expired ones go. */
  lemma {:induction false} LiveSuffix(q: seq<real>, p: Policy, now: real) returns (dropped: nat)
    requires Sorted(q)
    ensures dropped <= |q| && Live(q, p, now) == q[dropped..]
    ensures forall i :: 0 <= i < dropped ==> q[i] <= now - p.window
    ensures forall i :: dropped <= i < |q| ==> q[i] > now - p.window
  {
    if q != [] && q[0] <= now - p.window {
      var rest := LiveSuffix(q[1..], p, now);
      dropped := rest + 1;
      assert q[1..][rest..] == q[dropped..];
      forall i | 0 <= i < dropped ensures q[i] <= now - p.window { if i > 0 { assert q[1..][i - 1] == q[i]; } }
      forall i | dropped <= i < |q| ensures q[i] > now - p.window { assert q[1..][i - 1] == q[i]; }
    } else {
      dropped := 0;
    }
  }

  lemma IdleHasNoLive(q: seq<real>, p: Policy, now: real, later: real)
    requires Sorted(q) && Idle(q, p, now) && now <= later
    ensures Live(q, p, later) == []
  {
    var dropped := LiveSuffix(q, p, later);
  }

  lemma ChronicleStep(q: seq<real>, p: Policy, cost: nat, before: real, now: real)
    requires Chronicle(q, before) && before <= now
    ensures Chronicle(CallAlone(q, p, cost, now).0, now)
  {
    var dropped := LiveSuffix(q, p, now);
  }

  // ── Independence under garbage collection ────────────────────────

  datatype Ask = Ask(key: string, cost: nat, now: real)

  function Of(key: string): Ask -> bool { (a: Ask) => a.key == key }

  function Shared(asks: seq<Ask>, p: Policy): Hits {
    if asks == [] then map[]
    else
      var a := asks[|asks| - 1];
      Call(Shared(asks[..|asks| - 1], p), p, a.key, a.cost, a.now).0
  }

  /** A limiter of one identity, with its own calls only and nothing ever forgotten. */
  function Alone(own: seq<Ask>, p: Policy): seq<real> {
    if own == [] then []
    else
      var a := own[|own| - 1];
      CallAlone(Alone(own[..|own| - 1], p), p, a.cost, a.now).0
  }

  ghost predicate Until(asks: seq<Ask>, now: real) { forall i :: 0 <= i < |asks| ==> asks[i].now <= now }

  /** The clock never goes back. */
  ghost predicate Clock(asks: seq<Ask>) { forall i, j :: 0 <= i < j < |asks| ==> asks[i].now <= asks[j].now }

  /** Two queues no later call can tell apart. */
  ghost predicate Alike(a: seq<real>, b: seq<real>, p: Policy, now: real) {
    && Chronicle(a, now) && Chronicle(b, now)
    && forall t :: t >= now ==> Live(a, p, t) == Live(b, p, t)
  }

  lemma AlikeCall(a: seq<real>, b: seq<real>, p: Policy, cost: nat, before: real, now: real)
    requires Alike(a, b, p, before) && before <= now
    ensures CallAlone(a, p, cost, now) == CallAlone(b, p, cost, now)
    ensures Alike(CallAlone(a, p, cost, now).0, CallAlone(b, p, cost, now).0, p, now)
  {
    ChronicleStep(a, p, cost, before, now);
    assert Live(a, p, now) == Live(b, p, now);
  }

  /** Trimming one of two alike queues, or forgetting it while idle, keeps them alike. */
  lemma AlikeForget(a: seq<real>, b: seq<real>, p: Policy, now: real)
    requires Alike(a, b, p, now)
    ensures Idle(a, p, now) ==> Alike([], b, p, now)
  {
    if Idle(a, p, now) {
      forall t | t >= now ensures Live([], p, t) == Live(b, p, t) {
        IdleHasNoLive(a, p, now, t);
      }
    }
  }

  lemma AlikeLater(a: seq<real>, b: seq<real>, p: Policy, before: real, now: real)
    requires Alike(a, b, p, before) && before <= now
    ensures Alike(a, b, p, now)
  {
  }

  lemma CallAlike(hits: Hits, own: seq<real>, p: Policy, a: Ask, key: string, before: real)
    requires Alike(Queue(hits, key), own, p, before) && before <= a.now
    ensures var (after, wait) := Call(hits, p, a.key, a.cost, a.now);
      if a.key == key then
        && wait == CallAlone(own, p, a.cost, a.now).1
        && Alike(Queue(after, key), CallAlone(own, p, a.cost, a.now).0, p, a.now)
      else Alike(Queue(after, key), own, p, a.now)
  {
    AlikeLater(Queue(hits, key), own, p, before, a.now);
    var own' := if a.key == key then CallAlone(own, p, a.cost, a.now).0 else own;
    var (q, wait) := CallAlone(Queue(hits, a.key), p, a.cost, a.now);
    if a.key == key { AlikeCall(Queue(hits, key), own, p, a.cost, before, a.now); }
    var kept := hits[a.key := q];
    AlikeForget(Queue(kept, key), own', p, a.now);
  }

  /** The shared limiter answers every identity as if it were alone, whatever the others do and whoever is
      forgotten: the answer to a call is the one a limiter fed only with the caller's own calls gives. */
  lemma {:induction false} Independence(asks: seq<Ask>, p: Policy, key: string, now: real)
    requires Clock(asks) && Until(asks, now)
    ensures Alike(Queue(Shared(asks, p), key), Alone(Filter(Of(key), asks), p), p, now)
    ensures forall cost | cost >= 0 ::
      Call(Shared(asks, p), p, key, cost, now).1 == CallAlone(Alone(Filter(Of(key), asks), p), p, cost, now).1
  {
    var own := Filter(Of(key), asks);
    if asks != [] {
      var front, a := asks[..|asks| - 1], asks[|asks| - 1];
      Independence(front, p, key, a.now);
      CallAlike(Shared(front, p), Alone(Filter(Of(key), front), p), p, a, key, a.now);
      if a.key == key {
        assert own[..|own| - 1] == Filter(Of(key), front);
      } else {
        assert own == Filter(Of(key), front);
      }
      AlikeLater(Queue(Shared(asks, p), key), Alone(own, p), p, a.now, now);
    }
    forall cost | cost >= 0
      ensures Call(Shared(asks, p), p, key, cost, now).1 == CallAlone(Alone(own, p), p, cost, now).1
    {
      AlikeCall(Queue(Shared(asks, p), key), Alone(own, p), p, cost, now, now);
    }
  }

  // ── The bound ────────────────────────────────────────────────────

  /** Every hit ever accepted for one identity, in order. */
  function Accepted(own: seq<Ask>, p: Policy): seq<real> {
    if own == [] then []
    else
      var a := own[|own| - 1];
      var front := own[..|own| - 1];
      Accepted(front, p) + if Fits(Live(Alone(front, p), p, a.now), p, a.cost) then Repeat(a.now, a.cost) else []
  }

  /** The queue is what is left of the log: the hits taken off have expired, and the rest fits the limit. */
  ghost predicate Remembers(log: seq<real>, q: seq<real>, p: Policy, now: real) {
    && Chronicle(log, now) && |q| <= |log| && q == log[|log| - |q|..]
    && (forall i :: 0 <= i < |log| - |q| ==> log[i] <= now - p.window)
    && (q == [] || |q| <= p.limit)
  }

  /** Any `limit + 1` accepted hits in a row span at least the window. */
  ghost predicate Spread(log: seq<real>, p: Policy) {
    && (p.limit <= 0 ==> log == [])
    && forall i, j :: 0 <= i < j < |log| && j - i >= p.limit ==> log[j] - log[i] >= p.window
  }

  lemma TrimRemembers(log: seq<real>, q: seq<real>, p: Policy, before: real, now: real)
    requires Remembers(log, q, p, before) && before <= now
    ensures Remembers(log, Live(q, p, now), p, now)
  {
    var dropped := LiveSuffix(q, p, now);
    var live := q[dropped..];
    assert live == log[|log| - |live|..];
    forall i | 0 <= i < |log| - |live| ensures log[i] <= now - p.window {
      if i >= |log| - |q| { assert log[i] == q[i - (|log| - |q|)]; }
    }
  }

  lemma FitRemembers(log: seq<real>, live: seq<real>, p: Policy, cost: nat, now: real)
    requires Remembers(log, live, p, now) && Fits(live, p, cost)
    ensures Remembers(log + Repeat(now, cost), live + Repeat(now, cost), p, now)
  {
    var log' := log + Repeat(now, cost);
    assert live + Repeat(now, cost) == log'[|log'| - |live| - cost..];
  }

  lemma FitSpreads(log: seq<real>, live: seq<real>, p: Policy, cost: nat, now: real)
    requires Remembers(log, live, p, now) && Spread(log, p) && Fits(live, p, cost)
    ensures Spread(log + Repeat(now, cost), p)
  {
    var log' := log + Repeat(now, cost);
    forall i, j | 0 <= i < j < |log'| && j - i >= p.limit ensures log'[j] - log'[i] >= p.window {
      if j >= |log| { assert i < |log| - |live| && log'[i] == log[i]; }
    }
  }

  lemma AcceptSpreads(log: seq<real>, q: seq<real>, p: Policy, cost: nat, before: real, now: real)
    requires Remembers(log, q, p, before) && Spread(log, p) && before <= now
    ensures var log' := log + if Fits(Live(q, p, now), p, cost) then Repeat(now, cost) else [];
      Remembers(log', CallAlone(q, p, cost, now).0, p, now) && Spread(log', p)
  {
    TrimRemembers(log, q, p, before, now);
    if Fits(Live(q, p, now), p, cost) {
      FitRemembers(log, Live(q, p, now), p, cost, now);
      FitSpreads(log, Live(q, p, now), p, cost, now);
    } else {
      assert log + [] == log;
    }
  }

  lemma ClockFront(own: seq<Ask>, now: real)
    requires own != [] && Clock(own) && Until(own, now)
    ensures var n := |own| - 1;
      Clock(own[..n]) && Until(own[..n], own[n].now) && own[n].now <= now
  {
  }

  lemma RemembersLater(log: seq<real>, q: seq<real>, p: Policy, before: real, now: real)
    requires Remembers(log, q, p, before) && before <= now
    ensures Remembers(log, q, p, now)
  {
  }

  lemma {:induction false} LogSpread(own: seq<Ask>, p: Policy, now: real)
    requires Clock(own) && Until(own, now)
    ensures Remembers(Accepted(own, p), Alone(own, p), p, now) && Spread(Accepted(own, p), p)
  {
    if own != [] {
      hide Clock;
      hide Remembers;
      hide Spread;
      hide CallAlone;
      hide Live;
      var front, a := own[..|own| - 1], own[|own| - 1];
      ClockFront(own, now);
      LogSpread(front, p, a.now);
      AcceptSpreads(Accepted(front, p), Alone(front, p), p, a.cost, a.now, a.now);
      RemembersLater(Accepted(own, p), Alone(own, p), p, a.now, now);
    }
  }

  function Within(from: real, until: real): real -> bool { (x: real) => from <= x < until }

  lemma {:induction false} FilterShort(p: real -> bool, s: seq<real>)
    ensures |Filter(p, s)| <= |s|
  {
    if s != [] { FilterShort(p, s[..|s| - 1]); }
  }

  lemma SpreadFront(log: seq<real>, p: Policy)
    requires Sorted(log) && Spread(log, p) && log != []
    ensures Sorted(log[..|log| - 1]) && Spread(log[..|log| - 1], p)
  {
  }

  /** What was accepted `limit` hits before the last one in an interval lies before it. */
  lemma EarlyOutside(log: seq<real>, p: Policy, from: real, i: nat)
    requires Spread(log, p) && p.limit > 0 && i < |log| - p.limit
    requires Within(from, from + p.window)(log[|log| - 1])
    ensures !Within(from, from + p.window)(log[i])
  {
    assert log[|log| - 1] - log[i] >= p.window;
  }

  lemma {:induction false} NoneWithin(inside: real -> bool, s: seq<real>)
    requires forall i :: 0 <= i < |s| ==> !inside(s[i])
    ensures Filter(inside, s) == []
  {
    if s != [] { NoneWithin(inside, s[..|s| - 1]); }
  }

  lemma LastWithin(log: seq<real>, p: Policy, from: real)
    requires Spread(log, p) && 0 < p.limit < |log|
    requires Within(from, from + p.window)(log[|log| - 1])
    ensures |Filter(Within(from, from + p.window), log)| <= p.limit
  {
    var inside := Within(from, from + p.window);
    var cut := |log| - p.limit;
    var early, late := log[..cut], log[cut..];
    forall i | 0 <= i < |early| ensures !inside(early[i]) { EarlyOutside(log, p, from, i); }
    hide Spread;
    hide Within;
    NoneWithin(inside, early);
    FilterConcat(inside, early, late);
    assert log == early + late;
    FilterShort(inside, late);
  }

  lemma {:induction false} SpreadBounds(log: seq<real>, p: Policy, from: real)
    requires Sorted(log) && Spread(log, p)
    ensures |Filter(Within(from, from + p.window), log)| <= if p.limit > 0 then p.limit else 0
  {
    var inside := Within(from, from + p.window);
    var n := |log|;
    if n <= p.limit || n == 0 {
      FilterShort(inside, log);
    } else if !inside(log[n - 1]) {
      SpreadFront(log, p);
      SpreadBounds(log[..n - 1], p, from);
    } else {
      LastWithin(log, p, from);
    }
  }

  lemma BoundAlone(own: seq<Ask>, p: Policy, from: real)
    requires Clock(own)
    ensures |Filter(Within(from, from + p.window), Accepted(own, p))| <= if p.limit > 0 then p.limit else 0
  {
    LogSpread(own, p, if own == [] then 0.0 else own[|own| - 1].now);
    SpreadBounds(Accepted(own, p), p, from);
  }

  /** Every hit the shared limiter ever accepted for an identity, in order. */
  function AcceptedFor(asks: seq<Ask>, p: Policy, key: string): seq<real> {
    if asks == [] then []
    else
      var front, a := asks[..|asks| - 1], asks[|asks| - 1];
      AcceptedFor(front, p, key)
        + if a.key == key && Call(Shared(front, p), p, key, a.cost, a.now).1.None? then Repeat(a.now, a.cost) else []
  }

  lemma {:induction false} AcceptedAlone(asks: seq<Ask>, p: Policy, key: string)
    requires Clock(asks)
    ensures AcceptedFor(asks, p, key) == Accepted(Filter(Of(key), asks), p) && Clock(Filter(Of(key), asks))
  {
    hide Shared;
    hide Alone;
    hide Alike;
    hide Live;
    if asks != [] {
      var front, a := asks[..|asks| - 1], asks[|asks| - 1];
      var own, all := Filter(Of(key), front), Filter(Of(key), asks);
      AcceptedAlone(front, p, key);
      Independence(front, p, key, a.now);
      if a.key == key {
        assert all == own + [a] && all[..|all| - 1] == own;
        AskedBefore(front, key, a.now);
      } else {
        assert all == own;
        assert AcceptedFor(front, p, key) + [] == AcceptedFor(front, p, key);
      }
    }
  }

  lemma {:induction false} AskedBefore(asks: seq<Ask>, key: string, now: real)
    requires Until(asks, now)
    ensures Until(Filter(Of(key), asks), now)
  {
    if asks != [] { AskedBefore(asks[..|asks| - 1], key, now); }
  }

  /** The bound: whatever the identities ask and whoever is forgotten, the shared limiter accepts at most `limit`
      hits of each in any half-open interval as long as the window. */
  lemma RateBound(asks: seq<Ask>, p: Policy, key: string, from: real)
    requires Clock(asks)
    ensures |Filter(Within(from, from + p.window), AcceptedFor(asks, p, key))| <= if p.limit > 0 then p.limit else 0
  {
    AcceptedAlone(asks, p, key);
    BoundAlone(Filter(Of(key), asks), p, from);
  }

  // ── The wait ─────────────────────────────────────────────────────

  /** A call fits at a later time exactly when enough hits have expired by then. */
  lemma FitsWhenExpired(live: seq<real>, p: Policy, cost: nat, t: real)
    requires Sorted(live) && |live| + cost > p.limit
    ensures Fits(Live(live, p, t), p, cost)
      <==> cost <= p.limit && live[|live| + cost - p.limit - 1] + p.window <= t
  {
    var dropped := LiveSuffix(live, p, t);
  }

  lemma RememberedSorted(log: seq<real>, q: seq<real>, p: Policy, now: real)
    requires Remembers(log, q, p, now)
    ensures Sorted(q)
  {
    forall i, j | 0 <= i < j < |q| ensures q[i] <= q[j] {
      assert q[i] == log[|log| - |q| + i] && q[j] == log[|log| - |q| + j];
    }
  }

  lemma LiveIsRecent(q: seq<real>, p: Policy, now: real)
    requires Sorted(q)
    ensures Sorted(Live(q, p, now)) && forall i :: 0 <= i < |Live(q, p, now)| ==> now - p.window < Live(q, p, now)[i]
  {
    var dropped := LiveSuffix(q, p, now);
    forall i | 0 <= i < |q| - dropped ensures q[dropped..][i] == q[dropped + i] { }
  }

  lemma WaitOnQueue(live: seq<real>, p: Policy, cost: nat, now: real, t: real)
    requires Sorted(live) && (forall i :: 0 <= i < |live| ==> now - p.window < live[i]) && now <= t
    requires |live| + cost > p.limit && cost >= 1
    ensures var wait := Wait(live, p, now);
      var last := |live| + cost - p.limit - 1;
      && (Fits(Live(live, p, t), p, cost) ==> now + wait <= t)
      && (Fits(Live(live, p, t), p, cost) <==> cost <= p.limit && live[last] + p.window <= t)
      && (t == now + wait ==> (Fits(Live(live, p, t), p, cost) <==> cost <= p.limit && live[last] == live[0]))
  {
    FitsWhenExpired(live, p, cost, t);
    if cost <= p.limit {
      assert live[0] <= live[|live| + cost - p.limit - 1];
    }
  }

  function After(t: real): real -> bool { (x: real) => x > t }

  /** What is in the queue when its old hits are off: the accepted hits that are not older than the window. */
  lemma LiveIsLog(log: seq<real>, q: seq<real>, p: Policy, now: real)
    requires Remembers(log, q, p, now)
    ensures Live(q, p, now) == Filter(After(now - p.window), log)
  {
    TrimRemembers(log, q, p, now, now);
    RememberedSorted(log, q, p, now);
    LiveIsRecent(q, p, now);
    var live := Live(q, p, now);
    var n := |log| - |live|;
    assert log == log[..n] + live;
    FilterConcat(After(now - p.window), log[..n], live);
    FilterNone(After(now - p.window), log[..n]);
    FilterAll(After(now - p.window), live);
  }

  /** The rule: whatever the others ask, a call is accepted exactly when the hits accepted for its identity that are
      younger than the window, and its own, are at most `limit`. */
  lemma AcceptExact(asks: seq<Ask>, p: Policy, key: string, cost: nat, now: real)
    requires Clock(asks) && Until(asks, now)
    ensures Call(Shared(asks, p), p, key, cost, now).1.None?
      <==> |Filter(After(now - p.window), AcceptedFor(asks, p, key))| + cost <= p.limit
  {
    hide Shared;
    hide Clock;
    hide Spread;
    var own := Filter(Of(key), asks);
    Independence(asks, p, key, now);
    AcceptedAlone(asks, p, key);
    AskedBefore(asks, key, now);
    LogSpread(own, p, now);
    LiveIsLog(Accepted(own, p), Alone(own, p), p, now);
  }

  /** For several calls at once the returned wait is only a lower bound. It is enough if and only if the
      calls fit the limit at all and the hits that must expire are as old as the oldest one. */
  lemma WaitForMany(own: seq<Ask>, p: Policy, key: string, cost: nat, now: real, t: real)
    requires Clock(own) && Until(own, now) && p.limit >= 1 && cost >= 1
    requires CallAlone(Alone(own, p), p, cost, now).1.Some? && now <= t
    ensures var live := Live(Alone(own, p), p, now);
      var wait := CallAlone(Alone(own, p), p, cost, now).1.value;
      var later := CallAlone(Alone(own + [Ask(key, cost, now)], p), p, cost, t).1;
      var last := |live| + cost - p.limit - 1;
      && (later.None? ==> now + wait <= t)
      && (later.None? <==> cost <= p.limit && live[last] + p.window <= t)
      && (t == now + wait ==> (later.None? <==> cost <= p.limit && live[last] == live[0]))
      && (cost == 1 ==> last == 0)
  {
    hide Clock;
    hide Remembers;
    hide Spread;
    hide Accepted;
    hide Within;
    var q := Alone(own, p);
    LogSpread(own, p, now);
    RememberedSorted(Accepted(own, p), q, p, now);
    TrimRemembers(Accepted(own, p), q, p, now, now);
    var more := own + [Ask(key, cost, now)];
    assert more[..|own|] == own;
    LiveIsRecent(q, p, now);
    WaitOnQueue(Live(q, p, now), p, cost, now, t);
  }

  ghost predicate Silent(asks: seq<Ask>, key: string) { forall i :: 0 <= i < |asks| ==> asks[i].key != key }

  lemma ClockParts(asks: seq<Ask>, a: Ask, others: seq<Ask>, t: real)
    requires Clock(asks + [a] + others) && a.now <= t
    requires Until(others, t)
    ensures Clock(asks) && Until(asks, a.now) && Until(asks + [a] + others, t)
  {
    var all := asks + [a] + others;
    assert all[|asks|] == a;
    forall i | 0 <= i < |asks| ensures asks[i].now <= a.now { assert all[i] == asks[i]; }
    assert forall i :: 0 <= i < |asks| ==> all[i] == asks[i];
  }

  lemma OwnAsks(asks: seq<Ask>, a: Ask, others: seq<Ask>, key: string)
    requires a.key == key && Silent(others, key)
    ensures Filter(Of(key), asks + [a] + others) == Filter(Of(key), asks) + [a]
  {
    FilterMiddle(Of(key), asks, a, others);
    OthersFiltered(others, key);
  }

  lemma ExactAlone(own: seq<Ask>, p: Policy, key: string, now: real, t: real)
    requires Clock(own) && Until(own, now) && p.limit >= 1
    requires CallAlone(Alone(own, p), p, 1, now).1.Some? && now <= t
    ensures var wait := CallAlone(Alone(own, p), p, 1, now).1.value;
      CallAlone(Alone(own + [Ask(key, 1, now)], p), p, 1, t).1.None? <==> now + wait <= t
  {
    WaitForMany(own, p, key, 1, now, t);
  }

  /** The wait is exact: a caller rejected with one call, and then silent, is accepted by the shared limiter from
      the returned wait on and at no earlier time, whatever the others do in the meantime. */
  lemma WaitIsExact(asks: seq<Ask>, others: seq<Ask>, p: Policy, key: string, now: real, t: real)
    requires p.limit >= 1 && now <= t && Call(Shared(asks, p), p, key, 1, now).1.Some?
    requires Clock(asks + [Ask(key, 1, now)] + others)
    requires Until(others, t) && Silent(others, key)
    ensures var wait := Call(Shared(asks, p), p, key, 1, now).1.value;
      Call(Shared(asks + [Ask(key, 1, now)] + others, p), p, key, 1, t).1.None? <==> now + wait <= t
  {
    hide *;
    ClockParts(asks, Ask(key, 1, now), others, t);
    Independence(asks, p, key, now);
    Independence(asks + [Ask(key, 1, now)] + others, p, key, t);
    AcceptedAlone(asks, p, key);
    AskedBefore(asks, key, now);
    OwnAsks(asks, Ask(key, 1, now), others, key);
    ExactAlone(Filter(Of(key), asks), p, key, now, t);
  }

  lemma {:induction false} OthersFiltered(others: seq<Ask>, key: string)
    requires Silent(others, key)
    ensures Filter(Of(key), others) == []
  {
    if others != [] { OthersFiltered(others[..|others| - 1], key); }
  }

  /** Two hits wanted a minute after the first of two: at the announced time only the first has expired. */
  lemma WaitTooShort()
    ensures var own := [Ask("ana", 1, 0.0), Ask("ana", 1, 1.0)];
      var p := Policy(2, 60.0);
      && CallAlone(Alone(own, p), p, 2, 2.0).1 == Some(58.0)
      && CallAlone(Alone(own + [Ask("ana", 2, 2.0)], p), p, 2, 60.0).1.Some?
  {
    var own := [Ask("ana", 1, 0.0), Ask("ana", 1, 1.0)];
    var p := Policy(2, 60.0);
    assert own[..1] == [own[0]] && own[..1][..0] == [];
    assert Alone(own[..1], p) == [0.0];
    assert Alone(own, p) == [0.0, 1.0];
    WaitForMany(own, p, "ana", 2, 2.0, 60.0);
  }
}
