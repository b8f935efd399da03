/** The body loop of the abuse guard (server/coordination/abuse_guard.py): a request body is collected up
    to a limit, or refused and drained, and then replayed to the application as one message. */
module BodyGuard {
  import opened Wrappers

  type Byte = b: int | 0 <= b < 256

  datatype Message = Request(body: seq<Byte>, more: bool) | Disconnect

  /** `Waiting`: the client has sent no more so far. */
  datatype Verdict = Passed(body: seq<Byte>) | TooLarge | Gone | Waiting

  const DRAIN_FACTOR := 4

  /** The bytes of the first `n` messages. */
  function Bytes(stream: seq<Message>, n: nat): seq<Byte>
    requires n <= |stream|
  {
    if n == 0 then [] else Bytes(stream, n - 1) + if stream[n - 1].Request? then stream[n - 1].body else []
  }

  /** The first `n` messages are parts of a body with more to come, together within the limit. */
  ghost predicate Collecting(stream: seq<Message>, n: nat, max: nat) {
    n <= |stream| && |Bytes(stream, n)| <= max && forall i :: 0 <= i < n ==> stream[i].Request? && stream[i].more
  }

  /** Message `n` ends a body that fits. */
  ghost predicate EndsAt(stream: seq<Message>, n: nat, max: nat) {
    n < |stream| && Collecting(stream, n, max) && stream[n].Request? && !stream[n].more && |Bytes(stream, n + 1)| <= max
  }

  /** Message `n` is the one that goes over the limit. */
  ghost predicate OverflowsAt(stream: seq<Message>, n: nat, max: nat) {
    n < |stream| && Collecting(stream, n, max) && stream[n].Request? && |Bytes(stream, n + 1)| > max
  }

  lemma {:induction false} BytesGrow(stream: seq<Message>, m: nat, n: nat)
    requires m <= n <= |stream|
    ensures |Bytes(stream, m)| <= |Bytes(stream, n)|
  {
    if m < n { BytesGrow(stream, m, n - 1); }
  }

  /** The last of the messages up to `n` ends the body, or is none of it. */
  predicate Ended(stream: seq<Message>, n: nat)
    requires 0 < n <= |stream|
  {
    stream[n - 1].Disconnect? || !stream[n - 1].more
  }

  /** Reading from message `from` stops at `read`: at the first message that ends the body or takes it over the
      budget, or when there is none left; every message before that one is part of the body. */
  ghost predicate DrainedTo(stream: seq<Message>, from: nat, budget: int, read: nat)
    requires from <= |stream|
  {
    && from <= read <= |stream|
    && (forall i :: from <= i < read - 1 ==> stream[i].Request? && stream[i].more)
    && (read > from ==> |Bytes(stream, read - 1)| - |Bytes(stream, from)| <= budget)
    && (read == |stream| || |Bytes(stream, read)| - |Bytes(stream, from)| > budget
        || (read > from && Ended(stream, read)))
  }

  /** `_drain` */
  method Drain(stream: seq<Message>, from: nat, budget: int) returns (read: nat)
    requires from <= |stream|
    ensures DrainedTo(stream, from, budget, read)
  {
    read := from;
    var consumed := 0;
    while consumed <= budget && read < |stream|
      invariant from <= read <= |stream|
      invariant consumed == |Bytes(stream, read)| - |Bytes(stream, from)|
      invariant read > from ==> |Bytes(stream, read - 1)| - |Bytes(stream, from)| <= budget
      invariant forall i :: from <= i < read ==> stream[i].Request? && stream[i].more
    {
      var message := stream[read];
      read := read + 1;
      if message.Disconnect? { return; }
      consumed := consumed + |message.body|;
      if !message.more { return; }
    }
  }

  /** There is one such place. */
  lemma DrainStops(stream: seq<Message>, from: nat, budget: int, read: nat, read': nat)
    requires from <= |stream| && DrainedTo(stream, from, budget, read) && DrainedTo(stream, from, budget, read')
    ensures read == read'
  {
    if read < read' {
      BytesGrow(stream, read, read' - 1);
    } else if read' < read {
      BytesGrow(stream, read', read - 1);
    }
  }

  /** What is read of a body refused at message `n`: it is drained if more of it was to come. */
  ghost predicate RefusedAt(stream: seq<Message>, n: nat, max: nat, read: nat) {
    && OverflowsAt(stream, n, max)
    && if stream[n].more then DrainedTo(stream, n + 1, max * DRAIN_FACTOR - |Bytes(stream, n + 1)|, read)
       else read == n + 1
  }

  lemma DrainWithin(stream: seq<Message>, from: nat, budget: int, read: nat)
    requires from <= |stream| && DrainedTo(stream, from, budget, read)
    ensures from <= read <= |stream| && (read > from ==> |Bytes(stream, read - 1)| <= budget + |Bytes(stream, from)|)
  {
  }

  /** A verdict and how many messages were read for it: a body passes if and only if it ends within the limit, and then
      all of it; it is refused if and only if it is found too large, and then what is read is exactly what draining
      takes; all but the last message read stay within the drain limit. */
  ghost predicate Judged(stream: seq<Message>, max: nat, verdict: Verdict, read: nat) {
    && read <= |stream|
    && (verdict.Passed? <==> exists n: nat :: EndsAt(stream, n, max))
    && (verdict.Passed? ==> read > 0 && EndsAt(stream, read - 1, max) && verdict.body == Bytes(stream, read))
    && (verdict.TooLarge? <==> exists n: nat :: OverflowsAt(stream, n, max))
    && (verdict.TooLarge? ==> exists n: nat :: RefusedAt(stream, n, max, read))
    && (verdict.Gone? ==> read > 0 && Collecting(stream, read - 1, max) && stream[read - 1].Disconnect?)
    && (verdict.Waiting? ==> read == |stream| && Collecting(stream, |stream|, max))
    && (read > 0 ==> |Bytes(stream, read - 1)| <= max * DRAIN_FACTOR)
  }

  lemma GoneJudged(stream: seq<Message>, max: nat, at: nat)
    requires at < |stream| && Collecting(stream, at, max) && stream[at].Disconnect?
    ensures Judged(stream, max, Gone, at + 1)
  {
    VerdictAt(stream, at, max);
  }

  lemma PassedJudged(stream: seq<Message>, max: nat, at: nat)
    requires EndsAt(stream, at, max)
    ensures Judged(stream, max, Passed(Bytes(stream, at + 1)), at + 1)
  {
    VerdictAt(stream, at, max);
  }

  lemma RefusedJudged(stream: seq<Message>, max: nat, at: nat, read: nat)
    requires RefusedAt(stream, at, max, read)
    ensures Judged(stream, max, TooLarge, read)
  {
    VerdictAt(stream, at, max);
    if stream[at].more { DrainWithin(stream, at + 1, max * DRAIN_FACTOR - |Bytes(stream, at + 1)|, read); }
    hide DrainedTo;
  }

  lemma WaitingJudged(stream: seq<Message>, max: nat)
    requires Collecting(stream, |stream|, max)
    ensures Judged(stream, max, Waiting, |stream|)
  {
    VerdictAt(stream, |stream|, max);
    if stream != [] { BytesGrow(stream, |stream| - 1, |stream|); }
  }

  /** The loop of the guard. */
  method Gather(stream: seq<Message>, max: nat) returns (verdict: Verdict, read: nat)
    ensures Judged(stream, max, verdict, read)
  {
    hide DrainedTo;
    hide Judged;
    var chunks: seq<Byte> := [];
    var size := 0;
    read := 0;
    while read < |stream|
      invariant Collecting(stream, read, max)
      invariant chunks == Bytes(stream, read) && size == |chunks|
    {
      var message := stream[read];
      read := read + 1;
      if message.Disconnect? {
        GoneJudged(stream, max, read - 1);
        return Gone, read;
      }
      size := size + |message.body|;
      if size > max {
        ghost var at := read - 1;
        if message.more { read := Drain(stream, read, max * DRAIN_FACTOR - size); }
        RefusedJudged(stream, max, at, read);
        return TooLarge, read;
      }
      chunks := chunks + message.body;
      if !message.more {
        PassedJudged(stream, max, read - 1);
        return Passed(chunks), read;
      }
    }
    WaitingJudged(stream, max);
    verdict := Waiting;
  }

  predicate DeclaredTooLarge(declared: Option<nat>, max: nat) { declared.Some? && declared.value > max }

  /** The guard as a whole: a length declared too large decides alone, and the body is drained only when that
      stays within the drain limit; otherwise the stream decides. However long the body, all but the last message
      read stay within that limit. */
  method Collect(declared: Option<nat>, stream: seq<Message>, max: nat) returns (verdict: Verdict, read: nat)
    ensures read <= |stream|
    ensures verdict.Passed? <==> !DeclaredTooLarge(declared, max) && exists n: nat :: EndsAt(stream, n, max)
    ensures verdict.Passed? ==> read > 0 && EndsAt(stream, read - 1, max) && verdict.body == Bytes(stream, read)
    ensures verdict.TooLarge? <==> DeclaredTooLarge(declared, max) || exists n: nat :: OverflowsAt(stream, n, max)
    ensures DeclaredTooLarge(declared, max) ==>
      if declared.value > max * DRAIN_FACTOR then read == 0 else DrainedTo(stream, 0, max * DRAIN_FACTOR, read)
    ensures verdict.TooLarge? && !DeclaredTooLarge(declared, max)
      ==> exists n: nat :: RefusedAt(stream, n, max, read)
    ensures verdict.Gone? ==> read > 0 && Collecting(stream, read - 1, max) && stream[read - 1].Disconnect?
    ensures verdict.Waiting? ==> read == |stream| && Collecting(stream, |stream|, max)
    ensures read > 0 ==> |Bytes(stream, read - 1)| <= max * DRAIN_FACTOR
  {
    hide DrainedTo;
    hide EndsAt;
    hide OverflowsAt;
    hide RefusedAt;
    hide Collecting;
    if declared.Some? && declared.value > max {
      read := 0;
      if declared.value <= max * DRAIN_FACTOR {
        read := Drain(stream, 0, max * DRAIN_FACTOR);
        DrainWithin(stream, 0, max * DRAIN_FACTOR, read);
      }
      return TooLarge, read;
    }
    verdict, read := Gather(stream, max);
    assert Judged(stream, max, verdict, read);
  }

  /** A message that does not go on collecting decides the verdict alone. */
  lemma OnlyVerdict(stream: seq<Message>, at: nat, max: nat)
    requires Collecting(stream, at, max) && !Collecting(stream, at + 1, max)
    ensures forall n: nat :: EndsAt(stream, n, max) || OverflowsAt(stream, n, max) ==> n == at
  {
    forall n: nat | EndsAt(stream, n, max) || OverflowsAt(stream, n, max) ensures n == at {
      if n > at { NotLater(stream, at, n, max); } else if n < at { NotEarlier(stream, at, n, max); }
    }
  }

  /** Whether a body passes, or is refused, is settled there. */
  lemma VerdictAt(stream: seq<Message>, at: nat, max: nat)
    requires Collecting(stream, at, max) && !Collecting(stream, at + 1, max)
    ensures (exists n: nat :: EndsAt(stream, n, max)) <==> EndsAt(stream, at, max)
    ensures (exists n: nat :: OverflowsAt(stream, n, max)) <==> OverflowsAt(stream, at, max)
  {
    OnlyVerdict(stream, at, max);
    hide EndsAt;
    hide OverflowsAt;
  }

  lemma NotLater(stream: seq<Message>, at: nat, n: nat, max: nat)
    requires Collecting(stream, at, max) && !Collecting(stream, at + 1, max) && n > at
    ensures !EndsAt(stream, n, max) && !OverflowsAt(stream, n, max)
  {
    if Collecting(stream, n, max) { BytesGrow(stream, at + 1, n); }
  }

  lemma NotEarlier(stream: seq<Message>, at: nat, n: nat, max: nat)
    requires Collecting(stream, at, max) && n < at
    ensures !EndsAt(stream, n, max) && !OverflowsAt(stream, n, max)
  {
    BytesGrow(stream, n + 1, at);
  }

  // ── However the client cuts the body ─────────────────────────────

  function Whole(parts: seq<seq<Byte>>): seq<Byte> { if parts == [] then [] else parts[0] + Whole(parts[1..]) }

  /** A body sent in parts. */
  function Sent(parts: seq<seq<Byte>>): seq<Message> {
    seq(|parts|, i requires 0 <= i < |parts| => Request(parts[i], i < |parts| - 1))
  }

  lemma {:induction false} WholeMore(parts: seq<seq<Byte>>, part: seq<Byte>)
    ensures Whole(parts + [part]) == Whole(parts) + part
  {
    if parts == [] {
      assert Whole([part]) == part + [] == part;
    } else {
      assert (parts + [part])[1..] == parts[1..] + [part];
      WholeMore(parts[1..], part);
    }
  }

  lemma {:induction false} BytesSent(parts: seq<seq<Byte>>, tail: seq<Message>, n: nat)
    requires n <= |parts|
    ensures Bytes(Sent(parts) + tail, n) == Whole(parts[..n])
  {
    if n > 0 {
      BytesSent(parts, tail, n - 1);
      WholeMore(parts[..n - 1], parts[n - 1]);
      assert parts[..n] == parts[..n - 1] + [parts[n - 1]];
    }
  }

  lemma {:induction false} FirstOver(stream: seq<Message>, n: nat, max: nat) returns (at: nat)
    requires n <= |stream| && |Bytes(stream, n)| > max
    requires forall i :: 0 <= i < n ==> stream[i].Request? && (i < n - 1 ==> stream[i].more)
    ensures OverflowsAt(stream, at, max) && at < n
  {
    if n > 0 && |Bytes(stream, n - 1)| > max {
      at := FirstOver(stream, n - 1, max);
    } else {
      at := n - 1;
    }
  }

  /** Only the bytes decide, not the cuts: a body sent in any parts ends within the limit exactly when it is not longer,
      then it is that body, and it goes over the limit exactly when it is; whatever follows on the connection. */
  lemma CutsDoNotMatter(parts: seq<seq<Byte>>, tail: seq<Message>, max: nat)
    requires parts != []
    ensures var stream := Sent(parts) + tail;
      && Bytes(stream, |parts|) == Whole(parts)
      && (|Whole(parts)| <= max <==> EndsAt(stream, |parts| - 1, max))
      && (|Whole(parts)| <= max <==> exists n: nat :: EndsAt(stream, n, max))
      && (|Whole(parts)| > max <==> exists n: nat :: OverflowsAt(stream, n, max))
  {
    var stream, n := Sent(parts) + tail, |parts|;
    BytesSent(parts, tail, n);
    assert parts[..n] == parts;
    if |Whole(parts)| <= max {
      BytesGrow(stream, n - 1, n);
      assert EndsAt(stream, n - 1, max);
      OnlyVerdict(stream, n - 1, max);
    } else {
      var at := FirstOver(stream, n, max);
      OnlyVerdict(stream, at, max);
    }
  }

  /** What the application receives: the whole body once, then the rest of the connection. */
  class Replay {
    const body: seq<Byte>
    const stream: seq<Message>
    var next: nat
    var replayed: bool

    ghost predicate Valid()
      reads this
    {
      next <= |stream|
    }

    ghost function Pending(): seq<Message>
      reads this
      requires Valid()
    {
      (if replayed then [] else [Request(body, false)]) + stream[next..]
    }

    constructor (body: seq<Byte>, stream: seq<Message>, read: nat)
      requires read <= |stream|
      ensures Valid() && Pending() == [Request(body, false)] + stream[read..]
    {
      this.body, this.stream, next, replayed := body, stream, read, false;
    }

    method Receive() returns (message: Option<Message>)
      requires Valid()
      modifies this
      ensures Valid()
      ensures old(Pending()) == [] ==> message == None && Pending() == []
      ensures old(Pending()) != [] ==> message == Some(old(Pending())[0]) && Pending() == old(Pending())[1..]
    {
      if !replayed {
        replayed := true;
        return Some(Request(body, false));
      }
      if next == |stream| { return None; }
      message := Some(stream[next]);
      next := next + 1;
    }
  }
}
