/** What an overlay holds, answers and reports, told from the calls alone: each path is a cell of its own, and the
    overlay of server/app_docs/workspace.py is what the calls made of the cells. */
module WorkspaceHistory {
  import Text
  import opened Workspace
  import opened Wrappers

  /** The text at a path: its last write or unlink decides, appends go to the end. */
  function Cell(o: Tree, ops: seq<Op>, k: string): Option<string> {
    if ops == [] then (if k in o then Some(o[k]) else None)
    else
      var was := Cell(o, ops[..|ops| - 1], k);
      match ops[|ops| - 1]
      case WriteText(path, data) => if path == k then Some(data) else was
      case AppendText(path, data) => if path == k then Some(Or(was, "") + data) else was
      case Unlink(path, _) => if path == k then None else was
      case _ => was
  }

  predicate Wrote(ops: seq<Op>, k: string) { exists n :: 0 <= n < |ops| && ops[n].WriteText? && ops[n].key == k }

  predicate Appended(ops: seq<Op>, k: string) {
    exists n :: 0 <= n < |ops| && ops[n].AppendText? && ops[n].key == k
  }

  /** Everything appended to a path, in order. */
  function AppendedText(ops: seq<Op>, k: string): string {
    if ops == [] then ""
    else
      var last := ops[|ops| - 1];
      AppendedText(ops[..|ops| - 1], k) + if last.AppendText? && last.key == k then last.data else ""
  }

  /** The path or one below it was made a directory. */
  predicate Made(ops: seq<Op>, k: string) {
    exists n, i :: 0 <= n < |ops| && ops[n].Mkdir? && 1 <= i <= |ops[n].parts| && Text.Join(ops[n].parts[..i], '/') == k
  }

  ghost predicate Dir(o: Tree, ops: seq<Op>, k: string) {
    k == "" || Made(ops, k) || exists f: string :: k + "/" <= f && Cell(o, ops, f).Some?
  }

  /** The call asks for the path and finds nothing there. */
  ghost predicate Misses(o: Tree, before: seq<Op>, op: Op, k: string) {
    && (op.Exists? || op.IsFile? || op.ReadText?) && op.key == k && Cell(o, before, k).None?
    && (op.Exists? || op.IsFile? ==> !Dir(o, before, k))
  }

  ghost predicate Missed(o: Tree, ops: seq<Op>, k: string) {
    exists n :: 0 <= n < |ops| && Misses(o, ops[..n], ops[n], k)
  }

  /** The overlay has at a path what the calls made of it. */
  ghost predicate Tells(o: Tree, ops: seq<Op>, s: State, k: string) {
    && (k in s.files <==> Cell(o, ops, k).Some?)
    && (k in s.files ==> Cell(o, ops, k) == Some(s.files[k]))
    && (k in s.written <==> Wrote(ops, k))
    && (k in s.appended <==> Appended(ops, k))
    && (k in s.appended ==> s.appended[k] == AppendedText(ops, k))
    && (k in s.dirs <==> Made(ops, k))
  }

  ghost predicate TellsAll(o: Tree, ops: seq<Op>, s: State) {
    s.original == o && forall k :: Tells(o, ops, s, k)
  }

  lemma DirTold(o: Tree, ops: seq<Op>, s: State, k: string)
    requires TellsAll(o, ops, s)
    ensures IsDir(s.files, s.dirs, k) <==> Dir(o, ops, k)
  {
    assert Tells(o, ops, s, k);
    forall f: string ensures f in s.files <==> Cell(o, ops, f).Some? { assert Tells(o, ops, s, f); }
  }

  lemma WroteMore(ops: seq<Op>, k: string)
    requires ops != []
    ensures var last := ops[|ops| - 1];
      Wrote(ops, k) <==> Wrote(ops[..|ops| - 1], k) || (last.WriteText? && last.key == k)
  {
    var n := |ops| - 1;
    if Wrote(ops, k) && !(ops[n].WriteText? && ops[n].key == k) {
      var i :| 0 <= i < |ops| && ops[i].WriteText? && ops[i].key == k;
      assert ops[..n][i] == ops[i];
    }
    if Wrote(ops[..n], k) {
      var i :| 0 <= i < n && ops[..n][i].WriteText? && ops[..n][i].key == k;
      assert ops[i].WriteText?;
    }
  }

  lemma AppendedMore(ops: seq<Op>, k: string)
    requires ops != []
    ensures var last := ops[|ops| - 1];
      Appended(ops, k) <==> Appended(ops[..|ops| - 1], k) || (last.AppendText? && last.key == k)
  {
    var n := |ops| - 1;
    if Appended(ops, k) && !(ops[n].AppendText? && ops[n].key == k) {
      var i :| 0 <= i < |ops| && ops[i].AppendText? && ops[i].key == k;
      assert ops[..n][i] == ops[i];
    }
    if Appended(ops[..n], k) {
      var i :| 0 <= i < n && ops[..n][i].AppendText? && ops[..n][i].key == k;
      assert ops[i].AppendText?;
    }
  }

  predicate MadeBy(op: Op, k: string) {
    op.Mkdir? && exists i :: 1 <= i <= |op.parts| && Text.Join(op.parts[..i], '/') == k
  }

  lemma MadeMore(ops: seq<Op>, k: string)
    requires ops != []
    ensures Made(ops, k) <==> Made(ops[..|ops| - 1], k) || MadeBy(ops[|ops| - 1], k)
  {
    var m := |ops| - 1;
    if Made(ops, k) && !MadeBy(ops[m], k) {
      var n, i :| 0 <= n < |ops| && ops[n].Mkdir? && 1 <= i <= |ops[n].parts|
        && Text.Join(ops[n].parts[..i], '/') == k;
      assert n < m && ops[..m][n] == ops[n];
    }
    if Made(ops[..m], k) {
      var n, i :| 0 <= n < m && ops[..m][n].Mkdir? && 1 <= i <= |ops[..m][n].parts|
        && Text.Join(ops[..m][n].parts[..i], '/') == k;
      assert ops[n] == ops[..m][n];
    }
    if MadeBy(ops[m], k) {
      var i :| 1 <= i <= |ops[m].parts| && Text.Join(ops[m].parts[..i], '/') == k;
      assert ops[m].Mkdir?;
    }
  }

  /** A path nothing was appended to has no appended text. */
  lemma {:induction false} NothingAppended(ops: seq<Op>, k: string)
    requires !Appended(ops, k)
    ensures AppendedText(ops, k) == ""
  {
    if ops != [] {
      AppendedMore(ops, k);
      NothingAppended(ops[..|ops| - 1], k);
    }
  }

  lemma FileTold(o: Tree, ops: seq<Op>, s: State, k: string)
    requires ops != [] && Tells(o, ops[..|ops| - 1], s, k)
    ensures var files := Step(s, ops[|ops| - 1]).0.files;
      (k in files <==> Cell(o, ops, k).Some?) && (k in files ==> Cell(o, ops, k) == Some(files[k]))
  {
    hide IsDir;
    hide Wrote;
    hide Appended;
    hide Made;
    hide AppendedText;
  }

  lemma AppendTold(o: Tree, ops: seq<Op>, s: State, k: string)
    requires ops != [] && Tells(o, ops[..|ops| - 1], s, k)
    ensures var appended := Step(s, ops[|ops| - 1]).0.appended;
      (k in appended <==> Appended(ops, k)) && (k in appended ==> appended[k] == AppendedText(ops, k))
  {
    hide IsDir;
    hide Wrote;
    hide Appended;
    hide Made;
    hide Cell;
    var before, last := ops[..|ops| - 1], ops[|ops| - 1];
    AppendedMore(ops, k);
    if !Appended(before, k) { NothingAppended(before, k); }
    if last.AppendText? && last.key == k { assert "" + last.data == last.data; }
    assert AppendedText(before, k) + "" == AppendedText(before, k);
  }

  lemma MarksTold(o: Tree, ops: seq<Op>, s: State, k: string)
    requires ops != [] && Tells(o, ops[..|ops| - 1], s, k)
    ensures var after := Step(s, ops[|ops| - 1]).0;
      (k in after.written <==> Wrote(ops, k)) && (k in after.dirs <==> Made(ops, k))
  {
    hide IsDir;
    hide Wrote;
    hide Appended;
    hide Made;
    hide Cell;
    WroteMore(ops, k);
    MadeMore(ops, k);
  }

  /** One path after one more call. */
  lemma PathTold(o: Tree, ops: seq<Op>, s: State, k: string)
    requires ops != [] && Tells(o, ops[..|ops| - 1], s, k)
    ensures Tells(o, ops, Step(s, ops[|ops| - 1]).0, k)
  {
    FileTold(o, ops, s, k);
    AppendTold(o, ops, s, k);
    MarksTold(o, ops, s, k);
    hide Step;
    hide Cell;
    hide Wrote;
    hide Appended;
    hide Made;
  }

  lemma {:induction false} RunTells(o: Tree, ops: seq<Op>)
    ensures TellsAll(o, ops, Run(Init(o), ops))
  {
    if ops != [] {
      var s := Run(Init(o), ops[..|ops| - 1]);
      RunTells(o, ops[..|ops| - 1]);
      forall k ensures Tells(o, ops, Run(Init(o), ops), k) { PathTold(o, ops, s, k); }
    }
  }

  lemma StepRequests(o: Tree, ops: seq<Op>, s: State, op: Op, k: string)
    requires TellsAll(o, ops, s)
    ensures k in Step(s, op).0.requested <==>
      k in s.requested || (k != "" && k !in o && Misses(o, ops, op, k))
  {
    if !op.Mkdir? {
      DirTold(o, ops, s, op.key);
      assert Tells(o, ops, s, op.key);
    }
  }

  lemma MissedMore(o: Tree, ops: seq<Op>, k: string)
    requires ops != []
    ensures var n := |ops| - 1; Missed(o, ops, k) <==> Missed(o, ops[..n], k) || Misses(o, ops[..n], ops[n], k)
  {
    hide Misses;
    var m := |ops| - 1;
    if Missed(o, ops, k) && !Misses(o, ops[..m], ops[m], k) {
      var n :| 0 <= n < |ops| && Misses(o, ops[..n], ops[n], k);
      assert ops[..m][..n] == ops[..n] && ops[..m][n] == ops[n];
    }
    if Missed(o, ops[..m], k) {
      var n :| 0 <= n < m && Misses(o, ops[..m][..n], ops[..m][n], k);
      assert ops[..m][..n] == ops[..n] && ops[..m][n] == ops[n];
    }
  }

  /** The raw requests are exactly the paths some call asked for and missed, but for those the client had sent. */
  lemma {:induction false} RequestsExact(o: Tree, ops: seq<Op>, k: string)
    ensures k in Run(Init(o), ops).requested <==> k != "" && k !in o && Missed(o, ops, k)
  {
    if ops != [] {
      var n := |ops| - 1;
      RequestsExact(o, ops[..n], k);
      RunTells(o, ops[..n]);
      StepRequests(o, ops[..n], Run(Init(o), ops[..n]), ops[n], k);
      MissedMore(o, ops, k);
    }
  }

  /** The report of a run, list by list: what was written and is there with another text than before; what was sent
      and is gone; what was only appended to, with all that was appended; and what was missed and is still missing. */
  lemma ReportExact(o: Tree, ops: seq<Op>, k: string)
    ensures var r, now := ReportOf(Run(Init(o), ops)), Cell(o, ops, k);
      && (k in r.changed <==> Wrote(ops, k) && now.Some? && !(k in o && Some(o[k]) == now))
      && (k in r.changed ==> Some(r.changed[k]) == now)
      && (k in r.deleted <==> k in o && now.None?)
      && (k in r.appended <==> Appended(ops, k) && !Wrote(ops, k))
      && (k in r.appended ==> r.appended[k] == AppendedText(ops, k))
      && (k in r.requested <==> k != "" && k !in o && now.None? && Missed(o, ops, k))
  {
    RunTells(o, ops);
    RequestsExact(o, ops, k);
    assert Tells(o, ops, Run(Init(o), ops), k);
  }

  /** The answer of a call after others: what the paths are then. */
  lemma AnswersExact(o: Tree, ops: seq<Op>, op: Op)
    ensures op.Exists? ==>
      Step(Run(Init(o), ops), op).1 == Bool(Cell(o, ops, op.key).Some? || Dir(o, ops, op.key))
    ensures op.IsFile? ==> Step(Run(Init(o), ops), op).1 == Bool(Cell(o, ops, op.key).Some?)
    ensures op.ReadText? && Cell(o, ops, op.key).Some? ==>
      Step(Run(Init(o), ops), op).1 == Content(Cell(o, ops, op.key).value)
    ensures op.ReadText? && Cell(o, ops, op.key).None? ==> Step(Run(Init(o), ops), op).1 == NotFound
    ensures op.WriteText? ==> Step(Run(Init(o), ops), op).1 == Written(|op.data|)
    ensures op.AppendText? || op.Mkdir? ==> Step(Run(Init(o), ops), op).1 == Done
    ensures op.Unlink? ==>
      Step(Run(Init(o), ops), op).1 == if Cell(o, ops, op.key).Some? || op.missingOk then Done else NotFound
  {
    RunTells(o, ops);
    if !op.Mkdir? { assert Tells(o, ops, Run(Init(o), ops), op.key); }
    if op.Exists? { DirTold(o, ops, Run(Init(o), ops), op.key); }
  }

  /** An empty upload and one question: the report asks for the path. */
  lemma MissIsReported(k: string)
    requires k != ""
    ensures ReportOf(Run(Init(map[]), [Exists(k)])).requested == {k}
  {
    var ops := [Exists(k)];
    assert ops[..0] == [];
    assert Run(Init(map[]), ops) == Step(Init(map[]), ops[0]).0;
  }
}
