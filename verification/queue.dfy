/** The operations on the decisions queue (server/app_docs/queue.py) and what they keep over whole runs. */
module DecisionsQueue {
  import opened QueueText
  import opened QueueRoundTrip
  import opened Wrappers

  /** Decisions that stay synchronous. */
  const INVIOLABLE := {
    "destructive_action", "image_cost_over_budget", "branch_to_main_push",
    "definition_quality_gate", "feature_problem_definition", "feedback_field_classification"}

  /** The calls that change the queue. The id and the times are drawn by the caller. */
  datatype Op =
    | Enqueue(entry: Entry)
    | Resolve(engineId: string, resolution: string, auto: bool, now: string)

  /** The position of the first entry with an id. */
  function FindEntry(entries: seq<Entry>, id: string): (i: nat)
    ensures i <= |entries| && (i < |entries| ==> entries[i].engineId == id)
    ensures forall k :: 0 <= k < i ==> entries[k].engineId != id
  {
    if entries == [] || entries[0].engineId == id then 0 else 1 + FindEntry(entries[1..], id)
  }

  /** `list.remove`: the first equal element goes. */
  function Remove(entries: seq<Entry>, e: Entry): seq<Entry> {
    if entries == [] then [] else if entries[0] == e then entries[1..] else [entries[0]] + Remove(entries[1..], e)
  }

  function Settled(e: Entry, resolution: string, auto: bool, now: string): Entry {
    e.(resolvedAt := Some(now), resolution := Some(resolution), autoResolved := auto)
  }

  /** The two lists after a call, and whether it was done. */
  function Step(q: Queue, op: Op): (Queue, bool) {
    match op
    case Enqueue(e) =>
      if e.decisionKey in INVIOLABLE then (q, false) else (q.(pending := q.pending + [e]), true)
    case Resolve(id, resolution, auto, now) =>
      var i := FindEntry(q.pending, id);
      if i == |q.pending| then (q, false)
      else
        var settled := Settled(q.pending[i], resolution, auto, now);
        (Queue(q.pending[..i] + q.pending[i + 1..], [settled] + q.resolved), true)
  }

  lemma {:induction false} RemoveFound(entries: seq<Entry>, i: nat)
    requires i < |entries| && forall k :: 0 <= k < i ==> entries[k] != entries[i]
    ensures Remove(entries, entries[i]) == entries[..i] + entries[i + 1..]
  {
    if i > 0 {
      assert entries[0] != entries[i];
      RemoveFound(entries[1..], i - 1);
      assert entries[1..][..i - 1] == entries[1..i] && entries[1..][i..] == entries[i + 1..];
      assert [entries[0]] + entries[1..i] == entries[..i];
    }
  }

  lemma FindEntryFirst(entries: seq<Entry>, id: string, i: nat)
    requires i <= |entries| && (i < |entries| ==> entries[i].engineId == id)
    requires forall k :: 0 <= k < i ==> entries[k].engineId != id
    ensures FindEntry(entries, id) == i
  {
  }

  lemma ResolveRemoves(q: Queue, id: string, resolution: string, auto: bool, now: string)
    requires FindEntry(q.pending, id) < |q.pending|
    ensures var target := q.pending[FindEntry(q.pending, id)];
      Step(q, Resolve(id, resolution, auto, now))
      == (Queue(Remove(q.pending, target), [Settled(target, resolution, auto, now)] + q.resolved), true)
  {
    RemoveFound(q.pending, FindEntry(q.pending, id));
  }

  const SKELETON := Queue([], [])

  /** The queue of a project: the text of its file, if there is one. */
  class QueueFile {
    var file: Option<string>

    constructor ()
      ensures file == None
    {
      file := None;
    }

    /** What the file says: a missing file counts as the empty skeleton. */
    function Contents(): Queue
      reads this
    {
      Parse(if file.Some? then file.value else Render(SKELETON))
    }

    /** `enqueue_decision`. */
    method EnqueueDecision(entry: Entry) returns (ok: bool)
      modifies this
      ensures ok == (entry.decisionKey !in INVIOLABLE)
      ensures file == if ok then Some(Render(Step(old(Contents()), Enqueue(entry)).0)) else old(file)
    {
      if entry.decisionKey in INVIOLABLE { return false; }
      if file.None? { file := Some(Render(SKELETON)); }
      var state := ParseEntries(file.value);
      state := state.(pending := state.pending + [entry]);
      file := Some(Render(state));
      ok := true;
    }

    /** The loop that looks for the target. */
    static method Search(entries: seq<Entry>, id: string) returns (i: nat)
      ensures i == FindEntry(entries, id)
    {
      i := 0;
      while i < |entries| && entries[i].engineId != id
        invariant i <= |entries|
        invariant forall k :: 0 <= k < i ==> entries[k].engineId != id
      {
        i := i + 1;
      }
      FindEntryFirst(entries, id, i);
    }

    /** `resolve_entry`. */
    method ResolveEntry(id: string, resolution: string, auto: bool, now: string) returns (ok: bool)
      modifies this
      ensures file.Some? == old(file).Some?
      ensures ok == (file.Some? && Step(old(Contents()), Resolve(id, resolution, auto, now)).1)
      ensures file ==
        if ok then Some(Render(Step(old(Contents()), Resolve(id, resolution, auto, now)).0)) else old(file)
    {
      if file.None? { return false; }
      var state := ParseEntries(file.value);
      var i := Search(state.pending, id);
      if i == |state.pending| { return false; }
      var target := state.pending[i];
      ResolveRemoves(state, id, resolution, auto, now);
      state := Queue(Remove(state.pending, target), [Settled(target, resolution, auto, now)] + state.resolved);
      file := Some(Render(state));
      ok := true;
    }
  }

  // ── Whole runs ───────────────────────────────────────────────────

  /** The fields of a call survive the file. */
  predicate ValidOp(op: Op) {
    match op
    case Enqueue(e) => ValidEntry(e) && Unresolved(e)
    case Resolve(_, resolution, _, now) => Clean(resolution) && resolution != "" && Clean(now) && now != ""
  }

  function Run(ops: seq<Op>): Queue {
    if ops == [] then SKELETON else Step(Run(ops[..|ops| - 1]), ops[|ops| - 1]).0
  }

  /** The file after a run: every call parses what the one before rendered. */
  function RunFile(ops: seq<Op>): string {
    if ops == [] then Render(SKELETON)
    else
      var before := RunFile(ops[..|ops| - 1]);
      var (q, done) := Step(Parse(before), ops[|ops| - 1]);
      if done then Render(q) else before
  }

  lemma StepValid(q: Queue, op: Op)
    requires ValidQueue(q) && ValidOp(op)
    ensures ValidQueue(Step(q, op).0)
  {
    if op.Resolve? {
      var i := FindEntry(q.pending, op.engineId);
      if i < |q.pending| {
        assert ValidEntry(Settled(q.pending[i], op.resolution, op.auto, op.now));
      }
    }
  }

  /** The Markdown file refines two lists: after any run of calls it parses to exactly the queue the calls
      make of two lists in memory. */
  lemma {:induction false} FileRefinesLists(ops: seq<Op>)
    requires forall i :: 0 <= i < |ops| ==> ValidOp(ops[i])
    ensures ValidQueue(Run(ops)) && Parse(RunFile(ops)) == Run(ops)
  {
    if ops == [] {
      ParseRender(SKELETON);
    } else {
      FileRefinesLists(ops[..|ops| - 1]);
      StepValid(Run(ops[..|ops| - 1]), ops[|ops| - 1]);
      ParseRender(Run(ops));
    }
  }

  /** An entry without its resolution. */
  function Core(e: Entry): Entry { e.(resolvedAt := None, resolution := None, autoResolved := false) }

  function Cores(entries: seq<Entry>): seq<Entry> { seq(|entries|, i requires 0 <= i < |entries| => Core(entries[i])) }

  /** What a run enqueued, in order. */
  function Enqueued(ops: seq<Op>): seq<Entry> {
    if ops == [] then []
    else
      var last := ops[|ops| - 1];
      Enqueued(ops[..|ops| - 1]) + if last.Enqueue? && last.entry.decisionKey !in INVIOLABLE then [last.entry] else []
  }

  /** Conservation: every entry enqueued is in exactly one of the two lists, once, and nothing else is; none
      of them is inviolable. */
  lemma {:induction false} EntriesConserved(ops: seq<Op>)
    requires forall i :: 0 <= i < |ops| ==> ValidOp(ops[i])
    ensures multiset(Cores(Run(ops).pending)) + multiset(Cores(Run(ops).resolved)) == multiset(Enqueued(ops))
    ensures NoneInviolable(Run(ops).pending) && NoneInviolable(Run(ops).resolved)
  {
    if ops != [] {
      var before, op := ops[..|ops| - 1], ops[|ops| - 1];
      EntriesConserved(before);
      StepConserves(Run(before), op);
      StepSparesInviolable(Run(before), op);
    }
  }

  lemma ResolveConserves(pending: seq<Entry>, i: nat, done: Entry, resolved: seq<Entry>)
    requires i < |pending| && Core(done) == Core(pending[i])
    ensures multiset(Cores(pending[..i] + pending[i + 1..])) + multiset(Cores([done] + resolved))
         == multiset(Cores(pending)) + multiset(Cores(resolved))
  {
    var a, b := Cores(pending)[..i], Cores(pending)[i + 1..];
    assert Cores([done] + resolved) == [Core(done)] + Cores(resolved);
    assert Cores(pending[..i] + pending[i + 1..]) == a + b;
    assert Cores(pending) == a + [Core(done)] + b;
  }

  lemma StepConserves(q: Queue, op: Op)
    requires ValidOp(op)
    ensures var after := Step(q, op).0;
      multiset(Cores(after.pending)) + multiset(Cores(after.resolved))
      == multiset(Cores(q.pending)) + multiset(Cores(q.resolved))
         + (if op.Enqueue? && op.entry.decisionKey !in INVIOLABLE then multiset{op.entry} else multiset{})
  {
    match op
    case Enqueue(e) =>
      assert Core(e) == e;
      assert Cores(q.pending + [e]) == Cores(q.pending) + [e];
    case Resolve(id, resolution, auto, now) =>
      var i := FindEntry(q.pending, id);
      if i < |q.pending| {
        ResolveConserves(q.pending, i, Settled(q.pending[i], resolution, auto, now), q.resolved);
      }
  }

  /** No decision that must stay synchronous is in a list. */
  ghost predicate NoneInviolable(entries: seq<Entry>) {
    forall i :: 0 <= i < |entries| ==> entries[i].decisionKey !in INVIOLABLE
  }

  lemma StepSparesInviolable(q: Queue, op: Op)
    requires NoneInviolable(q.pending) && NoneInviolable(q.resolved)
    ensures NoneInviolable(Step(q, op).0.pending) && NoneInviolable(Step(q, op).0.resolved)
  {
  }

  /** A resolved entry is put in front, the ones resolved before stay behind it in order, and the pending
      ones keep their order. */
  lemma NewestFirst(q: Queue, op: Op)
    requires op.Resolve? && Step(q, op).1
    ensures var after := Step(q, op).0;
      && after.resolved[1..] == q.resolved && after.resolved[0].engineId == op.engineId
      && after.resolved[0].resolution == Some(op.resolution)
      && exists i :: 0 <= i < |q.pending| && after.pending == q.pending[..i] + q.pending[i + 1..]
           && Core(after.resolved[0]) == Core(q.pending[i])
  {
    var i := FindEntry(q.pending, op.engineId);
    assert Step(q, op).0.pending == q.pending[..i] + q.pending[i + 1..];
  }

  /** The call resolves a decision that is pending when it is made. */
  ghost predicate Resolves(ops: seq<Op>, n: int) {
    && 0 <= n < |ops| && ops[n].Resolve?
    && exists e :: e in Run(ops[..n]).pending && e.engineId == ops[n].engineId
  }

  /** What the call said. */
  predicate SaysSo(e: Entry, op: Op) {
    && op.Resolve? && e.engineId == op.engineId && e.resolution == Some(op.resolution)
    && e.resolvedAt == Some(op.now) && e.autoResolved == op.auto
  }

  lemma {:induction false} FoundIfPending(entries: seq<Entry>, id: string)
    ensures FindEntry(entries, id) < |entries| <==> exists e :: e in entries && e.engineId == id
  {
    if FindEntry(entries, id) < |entries| { assert entries[FindEntry(entries, id)] in entries; }
  }

  /** The calls before the last resolve what they resolved before it came. */
  lemma SameCalls(ops: seq<Op>)
    requires ops != []
    ensures forall n :: n != |ops| - 1 ==> (Resolves(ops, n) <==> Resolves(ops[..|ops| - 1], n))
  {
    var front := ops[..|ops| - 1];
    forall n | 0 <= n < |front| ensures Resolves(ops, n) <==> Resolves(front, n) {
      assert ops[..n] == front[..n];
    }
  }

  /** `calls` are the calls that resolved something, latest first, and the entries say what they said. */
  ghost predicate LogOf(ops: seq<Op>, resolved: seq<Entry>, calls: seq<int>) {
    && (forall n :: n in calls <==> Resolves(ops, n))
    && (forall i, j :: 0 <= i < j < |calls| ==> calls[i] > calls[j])
    && |calls| == |resolved|
    && (forall k :: 0 <= k < |calls| && 0 <= calls[k] < |ops| ==> SaysSo(resolved[k], ops[calls[k]]))
  }

  lemma SameLog(ops: seq<Op>, resolved: seq<Entry>, calls: seq<int>)
    requires ops != [] && LogOf(ops[..|ops| - 1], resolved, calls) && !Resolves(ops, |ops| - 1)
    ensures LogOf(ops, resolved, calls)
  {
    SameCalls(ops);
    hide Resolves;
    forall k | 0 <= k < |calls| && 0 <= calls[k] < |ops| ensures SaysSo(resolved[k], ops[calls[k]]) {
      assert calls[k] in calls;
      assert ops[calls[k]] == ops[..|ops| - 1][calls[k]];
    }
  }

  lemma LongerLog(ops: seq<Op>, resolved: seq<Entry>, calls: seq<int>, e: Entry)
    requires ops != [] && LogOf(ops[..|ops| - 1], resolved, calls)
    requires Resolves(ops, |ops| - 1) && SaysSo(e, ops[|ops| - 1])
    ensures LogOf(ops, [e] + resolved, [|ops| - 1] + calls)
  {
    var n := |ops| - 1;
    var all := [n] + calls;
    SameCalls(ops);
    forall k | 0 <= k < |calls| ensures 0 <= calls[k] < n {
      assert calls[k] in calls;
    }
    hide Resolves;
    forall k | 0 <= k < |all| && 0 <= all[k] < |ops| ensures SaysSo(([e] + resolved)[k], ops[all[k]]) {
      if k > 0 { assert ops[calls[k - 1]] == ops[..n][calls[k - 1]]; }
    }
  }

  lemma {:induction false} PendingUnresolved(ops: seq<Op>)
    requires forall i :: 0 <= i < |ops| ==> ValidOp(ops[i])
    ensures forall e :: e in Run(ops).pending ==> Unresolved(e)
  {
    if ops != [] { PendingUnresolved(ops[..|ops| - 1]); }
  }

  /** The resolved list is the log of the calls that found their decision pending, latest first: each entry has the
      resolution, the time and the flag of its call. Pending entries have none. */
  lemma {:induction false} ResolvedAsTold(ops: seq<Op>) returns (calls: seq<int>)
    requires forall i :: 0 <= i < |ops| ==> ValidOp(ops[i])
    ensures LogOf(ops, Run(ops).resolved, calls)
    ensures forall e :: e in Run(ops).pending ==> Unresolved(e)
  {
    PendingUnresolved(ops);
    if ops == [] {
      calls := [];
    } else {
      var n := |ops| - 1;
      var q := Run(ops[..n]);
      calls := ResolvedAsTold(ops[..n]);
      FoundIfPending(q.pending, if ops[n].Resolve? then ops[n].engineId else "");
      hide LogOf;
      if Resolves(ops, n) {
        LongerLog(ops, q.resolved, calls, Run(ops).resolved[0]);
        calls := [n] + calls;
      } else {
        SameLog(ops, q.resolved, calls);
      }
    }
  }

  /** `calls` enqueued these entries, one after the other. */
  ghost predicate InOrder(ops: seq<Op>, pending: seq<Entry>, calls: seq<int>) {
    && |calls| == |pending|
    && (forall i, j :: 0 <= i < j < |calls| ==> calls[i] < calls[j])
    && (forall k :: 0 <= k < |calls| ==> 0 <= calls[k] < |ops| && ops[calls[k]] == Enqueue(pending[k]))
  }

  lemma StillInOrder(ops: seq<Op>, pending: seq<Entry>, calls: seq<int>)
    requires ops != [] && InOrder(ops[..|ops| - 1], pending, calls)
    ensures InOrder(ops, pending, calls)
    ensures ops[|ops| - 1].Enqueue? ==> InOrder(ops, pending + [ops[|ops| - 1].entry], calls + [|ops| - 1])
  {
    forall k | 0 <= k < |calls| ensures ops[calls[k]] == ops[..|ops| - 1][calls[k]] { }
  }

  lemma WithoutOne(ops: seq<Op>, pending: seq<Entry>, calls: seq<int>, i: nat)
    requires i < |pending| && InOrder(ops, pending, calls)
    ensures InOrder(ops, pending[..i] + pending[i + 1..], calls[..i] + calls[i + 1..])
  {
  }

  /** The pending list has the decisions as they were enqueued, oldest first. */
  lemma {:induction false} PendingInOrder(ops: seq<Op>) returns (calls: seq<int>)
    ensures InOrder(ops, Run(ops).pending, calls)
  {
    if ops == [] {
      calls := [];
    } else {
      var n := |ops| - 1;
      var q, op := Run(ops[..n]), ops[n];
      calls := PendingInOrder(ops[..n]);
      StillInOrder(ops, q.pending, calls);
      if op.Enqueue? && Step(q, op).1 {
        calls := calls + [n];
      } else if op.Resolve? && Step(q, op).1 {
        var i := FindEntry(q.pending, op.engineId);
        WithoutOne(ops, q.pending, calls, i);
        calls := calls[..i] + calls[i + 1..];
      }
    }
  }
}
