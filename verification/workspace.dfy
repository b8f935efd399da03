/** The in-memory overlay of the client's files (server/app_docs/workspace.py):
    what a tool writes, appends, deletes and looks for, and the patch it reports. */
module Workspace {
  import Text
  import opened Strings
  import opened Wrappers

  type Tree = map<string, string>

  // ── Client paths ─────────────────────────────────────────────────

  /** `[p for p in PurePosixPath(rel).parts if p not in ("", ".")]`. */
  function Kept(parts: seq<string>): (kept: seq<string>)
    ensures forall i :: 0 <= i < |kept| ==> kept[i] != "" && kept[i] != "." && kept[i] in parts
  {
    if parts == [] then []
    else (if parts[0] == "" || parts[0] == "." then [] else [parts[0]]) + Kept(parts[1..])
  }

  /** `normalize_relpath`: `None` is WorkspacePathError. */
  function Normalize(rel: string): Option<string> {
    if IsBlank(rel) then None
    else if '\\' in rel || '\0' in rel || rel[0] == '/' || ':' in Text.Split(rel, '/')[0] then None
    else
      var parts := Kept(Text.Split(rel, '/'));
      if parts == [] || ".." in parts then None else Some(Text.Join(parts, '/'))
  }

  lemma {:induction false} KeptAll(parts: seq<string>)
    requires forall i :: 0 <= i < |parts| ==> parts[i] != "" && parts[i] != "."
    ensures Kept(parts) == parts
  {
    if parts != [] {
      KeptAll(parts[1..]);
      assert parts == [parts[0]] + parts[1..];
    }
  }

  lemma {:induction false} JoinClean(parts: seq<string>, bad: char)
    requires bad != '/' && forall i :: 0 <= i < |parts| ==> bad !in parts[i]
    ensures bad !in Text.Join(parts, '/')
  {
    if |parts| > 1 { JoinClean(parts[1..], bad); }
  }

  lemma {:induction false} SplitClean(s: string, bad: char)
    requires bad !in s
    ensures forall i :: 0 <= i < |Text.Split(s, '/')| ==> bad !in Text.Split(s, '/')[i]
  {
    if s != "" { SplitClean(s[1..], bad); }
  }

  /** A normalised path has no empty, `.` or `..` part, and is normal already, unless dropping leading
      `.` parts left a drive-like or blank head: that answer is refused when it is sent back. */
  lemma NormalizeTwice(rel: string)
    requires Normalize(rel).Some?
    ensures var key := Normalize(rel).value;
      var parts := Text.Split(key, '/');
      && (forall i :: 0 <= i < |parts| ==> parts[i] != "" && parts[i] != "." && parts[i] != "..")
      && (Normalize(key) == Some(key) <==> !IsBlank(key) && ':' !in parts[0])
      && (Normalize(key).Some? ==> Normalize(key) == Some(key))
  {
    var all := Text.Split(rel, '/');
    var parts := Kept(all);
    var key := Text.Join(parts, '/');
    Text.SplitJoin(parts, '/');
    KeptAll(parts);
    SplitClean(rel, '\\');
    SplitClean(rel, '\0');
    JoinClean(parts, '\\');
    JoinClean(parts, '\0');
    assert parts[0] != "" && '/' !in parts[0];
    assert key != "" && key[0] == parts[0][0];
  }

  predicate CleanPart(p: string) { '/' !in p && '\\' !in p && '\0' !in p }

  lemma NormalOf(all: seq<string>, rel: string, kept: seq<string>)
    requires all != [] && Text.Join(all, '/') == rel && Kept(all) == kept && kept != [] && ".." !in kept
    requires forall i :: 0 <= i < |all| ==> CleanPart(all[i])
    requires ':' !in all[0] && rel != "" && rel[0] != '/' && !IsBlank(rel)
    ensures Normalize(rel) == Some(Text.Join(kept, '/'))
  {
    Text.SplitJoin(all, '/');
    JoinClean(all, '\\');
    JoinClean(all, '\0');
  }

  lemma DriveLikeRefused(parts: seq<string>, key: string)
    requires parts != [] && ':' in parts[0] && Text.Join(parts, '/') == key
    requires forall i :: 0 <= i < |parts| ==> '/' !in parts[i]
    ensures Normalize(key) == None
  {
    Text.SplitJoin(parts, '/');
  }

  lemma DotFirst(parts: seq<string>, all: seq<string>, dotted: string)
    requires parts != [] && all == ["."] + parts && dotted == Text.Join(all, '/')
    requires forall i :: 0 <= i < |parts| ==> CleanPart(parts[i])
    ensures Kept(all) == Kept(parts) && dotted != "" && dotted[0] == '.' && !IsBlank(dotted)
    ensures forall i :: 0 <= i < |all| ==> CleanPart(all[i])
  {
    assert all[1..] == parts;
    assert dotted == "." + ['/'] + Text.Join(parts, '/');
    assert CleanPart(".");
    assert Kept(all) == Kept(all[1..]);
  }

  /** Any path with a drive-like head (`C:`, `x`) is refused as it stands and accepted after `./`. */
  lemma DriveLikeAnswerRefused(parts: seq<string>, key: string, dotted: string)
    requires parts != [] && ':' in parts[0]
    requires forall i :: 0 <= i < |parts| ==> parts[i] != "" && parts[i] != "." && parts[i] != ".."
    requires forall i :: 0 <= i < |parts| ==> CleanPart(parts[i])
    requires key == Text.Join(parts, '/') && dotted == Text.Join(["."] + parts, '/')
    ensures Normalize(dotted) == Some(key) && Normalize(key) == None
  {
    hide Normalize;
    var all := ["."] + parts;
    DotFirst(parts, all, dotted);
    KeptAll(parts);
    NormalOf(all, dotted, parts);
    DriveLikeRefused(parts, key);
  }

  // ── The overlay ──────────────────────────────────────────────────

  /** One call a tool makes on a path of the workspace. */
  datatype Op =
    | Exists(key: string)
    | IsFile(key: string)
    | ReadText(key: string)
    | WriteText(key: string, data: string)
    | AppendText(key: string, data: string)  // open(mode="a"), write, close
    | Unlink(key: string, missingOk: bool)
    | Mkdir(parts: seq<string>)

  /** What the tool sees of a call: `NotFound` is FileNotFoundError. */
  datatype Answer = Bool(found: bool) | Content(text: string) | Written(length: nat) | Done | NotFound

  datatype State = State(
    original: Tree, files: Tree, dirs: set<string>,
    written: set<string>, appended: Tree, requested: set<string>)

  /** `d.get(k, "")`. */
  function Get(d: Tree, k: string): string { if k in d then d[k] else "" }

  predicate IsDir(files: Tree, dirs: set<string>, key: string) {
    key == "" || key in dirs || exists f | f in files :: key + "/" <= f
  }

  /** `"/".join(parts[:i])` for every i from 1: the path and its parents. */
  function Chain(parts: seq<string>): set<string> {
    set i | 1 <= i <= |parts| :: Text.Join(parts[..i], '/')
  }

  function Init(sent: Tree): State { State(sent, sent, {}, {}, map[], {}) }

  function Request(s: State, key: string): State {
    if key != "" && key !in s.original then s.(requested := s.requested + {key}) else s
  }

  function Step(s: State, op: Op): (State, Answer) {
    match op
    case Exists(k) =>
      if k in s.files || IsDir(s.files, s.dirs, k) then (s, Bool(true)) else (Request(s, k), Bool(false))
    case IsFile(k) =>
      if k in s.files then (s, Bool(true))
      else (if IsDir(s.files, s.dirs, k) then s else Request(s, k), Bool(false))
    case ReadText(k) =>
      if k in s.files then (s, Content(s.files[k])) else (Request(s, k), NotFound)
    case WriteText(k, data) =>
      (s.(files := s.files[k := data], written := s.written + {k}), Written(|data|))
    case AppendText(k, data) =>
      (s.(files := s.files[k := Get(s.files, k) + data],
          appended := s.appended[k := Get(s.appended, k) + data]), Done)
    case Unlink(k, missingOk) =>
      if k in s.files then (s.(files := s.files - {k}), Done)
      else (s, if missingOk then Done else NotFound)
    case Mkdir(parts) => (s.(dirs := s.dirs + Chain(parts)), Done)
  }

  function Run(s: State, ops: seq<Op>): State {
    if ops == [] then s else Step(Run(s, ops[..|ops| - 1]), ops[|ops| - 1]).0
  }

  function Answers(s: State, ops: seq<Op>): seq<Answer> {
    if ops == [] then []
    else
      var before := ops[..|ops| - 1];
      Answers(s, before) + [Step(Run(s, before), ops[|ops| - 1]).1]
  }

  /** A tree in memory that a tool reads and writes as if it were the client's. */
  class MemoryWorkspace {
    var files: Tree
    const original: Tree
    var dirs: set<string>
    var written: set<string>
    var appended: Tree
    var requested: set<string>

    function Value(): State
      reads this
    {
      State(original, files, dirs, written, appended, requested)
    }

    constructor (sent: Tree)
      ensures Value() == Init(sent)
    {
      files, original := sent, sent;
      dirs, written, appended, requested := {}, {}, map[], {};
    }

    method Ask(key: string)
      modifies this`requested
      ensures Value() == Request(old(Value()), key)
    {
      if key != "" && key !in original {
        requested := requested + {key};
      }
    }

    method Exists(key: string) returns (found: bool)
      modifies this`requested
      ensures (Value(), Bool(found)) == Step(old(Value()), Op.Exists(key))
      ensures found <==> key in files || IsDir(files, dirs, key)
    {
      found := key in files || IsDir(files, dirs, key);
      if !found { Ask(key); }
    }

    method IsFile(key: string) returns (found: bool)
      modifies this`requested
      ensures (Value(), Bool(found)) == Step(old(Value()), Op.IsFile(key))
      ensures found <==> key in files
    {
      found := key in files;
      if !found && !IsDir(files, dirs, key) { Ask(key); }
    }

    method ReadText(key: string) returns (text: Option<string>)
      modifies this`requested
      ensures (Value(), if text.Some? then Content(text.value) else NotFound) == Step(old(Value()), Op.ReadText(key))
    {
      if key in files { return Some(files[key]); }
      Ask(key);
      text := None;
    }

    method WriteText(key: string, data: string) returns (length: nat)
      modifies this`files, this`written
      ensures (Value(), Written(length)) == Step(old(Value()), Op.WriteText(key, data))
    {
      files := files[key := data];
      written := written + {key};
      length := |data|;
    }

    /** `open("a")`, one write, `close()`. */
    method AppendText(key: string, data: string)
      modifies this`files, this`appended
      ensures (Value(), Done) == Step(old(Value()), Op.AppendText(key, data))
    {
      files := files[key := Get(files, key) + data];
      appended := appended[key := Get(appended, key) + data];
    }

    method Unlink(key: string, missingOk: bool) returns (ok: bool)
      modifies this`files
      ensures (Value(), if ok then Done else NotFound) == Step(old(Value()), Op.Unlink(key, missingOk))
    {
      if key in files {
        files := files - {key};
        ok := true;
      } else {
        ok := missingOk;
      }
    }

    method Mkdir(parts: seq<string>)
      modifies this`dirs
      ensures (Value(), Done) == Step(old(Value()), Op.Mkdir(parts))
    {
      var i := 1;
      while i <= |parts|
        invariant 1 <= i <= |parts| + 1
        invariant dirs == old(dirs) + set j | 1 <= j < i :: Text.Join(parts[..j], '/')
      {
        dirs := dirs + {Text.Join(parts[..i], '/')};
        i := i + 1;
      }
      assert dirs == old(dirs) + Chain(parts);
    }
  }

  // ── The patch ────────────────────────────────────────────────────

  datatype Report = Report(changed: Tree, deleted: set<string>, appended: Tree, requested: set<string>)

  function ReportOf(s: State): Report {
    Report(
      map k | k in s.written && k in s.files && !(k in s.original && s.original[k] == s.files[k]) :: s.files[k],
      set k | k in s.original && k !in s.files,
      map k | k in s.appended && k !in s.written :: s.appended[k],
      set k | k in s.requested && k !in s.files)
  }

  /** No path is in two of the three lists the client applies. */
  ghost predicate Disjoint(r: Report) {
    r.changed.Keys !! r.deleted && r.changed.Keys !! r.appended.Keys && r.deleted !! r.appended.Keys
  }

  /** What the client does with a report in its own tree. */
  function Apply(r: Report, tree: Tree): Tree {
    var base := (tree + r.changed) - r.deleted;
    map k | k in base.Keys + r.appended.Keys ::
      if k in r.appended then Get(base, k) + r.appended[k] else base[k]
  }

  /** All the text that unlinks of `k` threw away during the run. */
  ghost function Dropped(s: State, ops: seq<Op>, k: string): string {
    if ops == [] then ""
    else
      var before := ops[..|ops| - 1];
      var last := ops[|ops| - 1];
      Dropped(s, before, k) + if last.Unlink? && last.key == k then Get(Run(s, before).files, k) else ""
  }

  ghost predicate Conserved(o: Tree, s: State, dropped: string, k: string) {
    && s.original == o
    && (k !in s.written ==>
        && dropped + Get(s.files, k) == Get(o, k) + Get(s.appended, k)
        && (k in s.files ==> k in o || k in s.appended)
        && (k in o && k !in s.appended && k in s.files ==> s.files[k] == o[k]))
  }

  lemma ConservedByStep(o: Tree, s: State, dropped: string, op: Op, k: string)
    requires Conserved(o, s, dropped, k)
    ensures Conserved(o, Step(s, op).0,
                      dropped + if op.Unlink? && op.key == k then Get(s.files, k) else "", k)
  {
    assert dropped + "" == dropped;
    if op.AppendText? && op.key == k && k !in s.written {
      assert dropped + (Get(s.files, k) + op.data) == (dropped + Get(s.files, k)) + op.data;
      assert Get(o, k) + (Get(s.appended, k) + op.data) == (Get(o, k) + Get(s.appended, k)) + op.data;
    } else if op.Unlink? && op.key == k {
      assert dropped + Get(s.files, k) + "" == dropped + Get(s.files, k);
    }
  }

  /** Conservation: of a path never written, the text thrown away followed by the text it holds is
      the text it started with followed by the text appended to it. */
  lemma {:induction false} AppendsConserved(o: Tree, ops: seq<Op>, k: string)
    ensures Conserved(o, Run(Init(o), ops), Dropped(Init(o), ops, k), k)
  {
    if ops == [] {
      assert "" + Get(o, k) == Get(o, k) + "";
    } else {
      var before := ops[..|ops| - 1];
      AppendsConserved(o, before, k);
      ConservedByStep(o, Run(Init(o), before), Dropped(Init(o), before, k), ops[|ops| - 1], k);
    }
  }

  /** Every path reported as appended still exists, and no unlink ever threw text of it away. */
  ghost predicate AppendsKept(s: State, ops: seq<Op>) {
    var f := Run(s, ops);
    forall k :: k in f.appended && k !in f.written ==> k in f.files && Dropped(s, ops, k) == ""
  }

  /** What replaying the patch leaves at a path. */
  lemma ReplayAt(o: Tree, f: State, dropped: string, k: string)
    requires Conserved(o, f, dropped, k)
    ensures var r := ReportOf(f);
      if k in f.appended && k !in f.written then
        && k !in r.changed && k in Apply(r, o)
        && Apply(r, o)[k] == (if k in r.deleted then "" else Get(o, k)) + f.appended[k]
      else
        && k !in r.appended && !(k in r.changed && k in r.deleted)
        && (k in Apply(r, o) <==> k in f.files) && (k in f.files ==> Apply(r, o)[k] == f.files[k])
  {
  }

  /** Where appended text was kept, the patch leaves what the run left. */
  lemma KeptReplaysAt(o: Tree, ops: seq<Op>, k: string)
    requires AppendsKept(Init(o), ops)
    ensures var f := Run(Init(o), ops);
      var r, replayed := ReportOf(f), Apply(ReportOf(f), o);
      (k in replayed <==> k in f.files) && (k in f.files ==> replayed[k] == f.files[k])
      && !(k in r.appended && (k in r.changed || k in r.deleted)) && !(k in r.changed && k in r.deleted)
  {
    var f := Run(Init(o), ops);
    AppendsConserved(o, ops, k);
    ReplayAt(o, f, Dropped(Init(o), ops, k), k);
    if k in f.files { assert "" + f.files[k] == f.files[k]; }
  }

  lemma KeptReplays(o: Tree, ops: seq<Op>)
    requires AppendsKept(Init(o), ops)
    ensures var f := Run(Init(o), ops); Disjoint(ReportOf(f)) && Apply(ReportOf(f), o) == f.files
  {
    hide AppendsKept;
    hide Apply;
    var f := Run(Init(o), ops);
    forall k { KeptReplaysAt(o, ops, k); }
    var r, replayed := ReportOf(f), Apply(ReportOf(f), o);
    hide ReportOf;
    assert replayed.Keys == f.files.Keys;
  }

  /** And only where it was kept. */
  lemma ReplayedKept(o: Tree, ops: seq<Op>, k: string)
    requires var f := Run(Init(o), ops);
      Disjoint(ReportOf(f)) && Apply(ReportOf(f), o) == f.files && k in f.appended && k !in f.written
    ensures k in Run(Init(o), ops).files && Dropped(Init(o), ops, k) == ""
  {
    var f := Run(Init(o), ops);
    AppendsConserved(o, ops, k);
    ReplayAt(o, f, Dropped(Init(o), ops, k), k);
    assert k in ReportOf(f).appended && k !in ReportOf(f).deleted;
    assert |Dropped(Init(o), ops, k) + f.files[k]| == |f.files[k]|;
  }

  /** The patch is exact if and only if `AppendsKept`: its three lists are disjoint and applying
      them to the original tree gives the overlay's final files. */
  lemma PatchReplay(o: Tree, ops: seq<Op>)
    ensures var f := Run(Init(o), ops);
      Disjoint(ReportOf(f)) && Apply(ReportOf(f), o) == f.files <==> AppendsKept(Init(o), ops)
  {
    if AppendsKept(Init(o), ops) { KeptReplays(o, ops); }
    var f := Run(Init(o), ops);
    if Disjoint(ReportOf(f)) && Apply(ReportOf(f), o) == f.files {
      forall k | k in f.appended && k !in f.written
        ensures k in f.files && Dropped(Init(o), ops, k) == ""
      {
        ReplayedKept(o, ops, k);
      }
    }
  }

  /** A run that writes every path it both appends and unlinks keeps its appends. */
  lemma {:induction false} WrittenCoversUnlinked(o: Tree, ops: seq<Op>)
    requires forall i, j | 0 <= i < |ops| && 0 <= j < |ops| && ops[i].Unlink? && ops[j].AppendText?
               && ops[i].key == ops[j].key :: ops[i].key in Run(Init(o), ops).written
    ensures AppendsKept(Init(o), ops)
  {
    var f := Run(Init(o), ops);
    forall k | k in f.appended && k !in f.written
      ensures k in f.files && Dropped(Init(o), ops, k) == ""
    {
      AppendedByOp(o, ops, k);
      NeverUnlinked(o, ops, k);
    }
  }

  lemma {:induction false} AppendedByOp(o: Tree, ops: seq<Op>, k: string)
    requires k in Run(Init(o), ops).appended
    ensures exists j :: 0 <= j < |ops| && ops[j].AppendText? && ops[j].key == k
  {
    var n := |ops| - 1;
    if ops[n].AppendText? && ops[n].key == k {
    } else {
      AppendedByOp(o, ops[..n], k);
      var j :| 0 <= j < n && ops[..n][j].AppendText? && ops[..n][j].key == k;
      assert ops[j].AppendText? && ops[j].key == k;
    }
  }

  lemma {:induction false} NeverUnlinked(o: Tree, ops: seq<Op>, k: string)
    requires forall i :: 0 <= i < |ops| && ops[i].Unlink? ==> ops[i].key != k
    ensures Dropped(Init(o), ops, k) == ""
    ensures k in Run(Init(o), ops).appended ==> k in Run(Init(o), ops).files
  {
    if ops != [] {
      NeverUnlinked(o, ops[..|ops| - 1], k);
    }
  }

  /** Outside `AppendsKept` the patch is wrong: a log appended and then removed comes back. */
  lemma UnlinkedLogComesBack()
    ensures var ops := [AppendText("log", "x"), Unlink("log", false)];
      var f := Run(Init(map[]), ops);
      "log" !in f.files && Apply(ReportOf(f), map[]) == map["log" := "x"]
  {
    var ops := [AppendText("log", "x"), Unlink("log", false)];
    assert ops[..1] == [AppendText("log", "x")] && ops[..1][..0] == [];
    assert Run(Init(map[]), ops) == Step(Run(Init(map[]), ops[..1]), ops[1]).0;
    assert Run(Init(map[]), ops[..1]) == Step(Init(map[]), ops[0]).0;
    assert "" + "x" == "x";
  }

  // ── A run on a partial upload against the run on the whole tree ──

  /** No path is a file and a directory at once. */
  ghost predicate Tidy(s: State) { forall k :: k in s.files ==> !IsDir(s.files, s.dirs, k) }

  /** The client sent files of its tree, as they are. */
  ghost predicate PartOf(sent: Tree, full: Tree) {
    forall k :: k in sent ==> k in full && full[k] == sent[k]
  }

  /** What the overlay `p` over the sent files and the overlay `f` over the whole tree hold at a path. */
  ghost predicate Alike(sent: Tree, full: Tree, p: State, f: State, k: string) {
    if k in full && k !in sent && k !in p.written then
      && k in f.files && f.files[k] == full[k] + Get(p.appended, k)
      && (k in p.files <==> k in p.appended)
      && (k in p.files ==> p.files[k] == p.appended[k])
    else
      && (k in p.files <==> k in f.files)
      && (k in p.files ==> p.files[k] == f.files[k])
      && (k in full && k !in sent ==> k in p.files)
  }

  ghost predicate Simulates(sent: Tree, full: Tree, p: State, f: State) {
    && p.original == sent && f.original == full && PartOf(sent, full)
    && p.dirs == f.dirs && p.written == f.written && p.appended == f.appended
    && forall k :: Alike(sent, full, p, f, k)
  }

  /** A read of a path that exists on the client, was not sent, and was so far only appended to. */
  ghost predicate BlindRead(sent: Tree, full: Tree, p: State, op: Op) {
    op.ReadText? && op.key in full && op.key !in sent && full[op.key] != ""
    && op.key in p.appended && op.key !in p.written
  }

  /** Nothing in `asked` is a file or a directory of the tree. */
  ghost predicate Absent(asked: set<string>, full: Tree) {
    forall k :: k in asked ==> k !in full && !IsDir(full, {}, k)
  }

  lemma DirAgrees(sent: Tree, full: Tree, p: State, f: State, k: string)
    requires Simulates(sent, full, p, f) && IsDir(p.files, p.dirs, k)
    ensures IsDir(f.files, f.dirs, k)
  {
    forall x | k + "/" <= x ensures x in p.files ==> x in f.files { assert Alike(sent, full, p, f, x); }
  }

  /** The files the client kept to itself. */
  function Unsent(sent: Tree, full: Tree): Tree { full - sent.Keys }

  /** The question is answered as on the whole tree: what it misses is none of the files kept back, nor one of
      their directories, and what it reads is not the end of such a file. */
  ghost predicate Truthful(sent: Tree, full: Tree, p: State, op: Op) {
    var kept := Unsent(sent, full);
    match op
    case Exists(k) => k in p.files || IsDir(p.files, p.dirs, k) || (k !in kept && !IsDir(kept, {}, k))
    case IsFile(k) => k in p.files || k !in kept
    case ReadText(k) => if k in p.files then !BlindRead(sent, full, p, op) else k !in kept
    case _ => true
  }

  lemma MissedDir(sent: Tree, full: Tree, p: State, f: State, k: string)
    requires Simulates(sent, full, p, f) && !IsDir(p.files, p.dirs, k)
    ensures IsDir(f.files, f.dirs, k) <==> IsDir(Unsent(sent, full), {}, k)
  {
    forall x | k + "/" <= x ensures x in f.files <==> x in Unsent(sent, full) {
      assert Alike(sent, full, p, f, x);
    }
  }

  /** A question gets the same answer on both trees exactly when it is truthful. */
  lemma QuestionExact(sent: Tree, full: Tree, p: State, f: State, op: Op)
    requires op.Exists? || op.IsFile? || op.ReadText?
    requires Simulates(sent, full, p, f)
    ensures Step(p, op).1 == Step(f, op).1 <==> Truthful(sent, full, p, op)
  {
    assert Alike(sent, full, p, f, op.key);
    if op.Exists? && IsDir(p.files, p.dirs, op.key) {
      DirAgrees(sent, full, p, f, op.key);
    } else if op.Exists? {
      MissedDir(sent, full, p, f, op.key);
    } else if op.ReadText? && op.key in p.files && op.key in full && op.key !in sent && op.key !in p.written {
      assert |full[op.key] + p.appended[op.key]| == |full[op.key]| + |p.appended[op.key]|;
      if full[op.key] == "" { assert "" + p.appended[op.key] == p.appended[op.key]; }
    }
  }

  /** What a miss asks for is recorded, so nothing recorded on the tree means every question was truthful. */
  lemma AbsentTruthful(sent: Tree, full: Tree, p: State, f: State, op: Op)
    requires Simulates(sent, full, p, f) && Tidy(Init(full)) && Tidy(f)
    requires Absent(Step(p, op).0.requested, full) && !BlindRead(sent, full, p, op)
    ensures Truthful(sent, full, p, op)
  {
    if op.Exists? && op.key in sent { assert !IsDir(full, {}, op.key); }
    if op.IsFile? && IsDir(p.files, p.dirs, op.key) {
      DirAgrees(sent, full, p, f, op.key);
      assert Alike(sent, full, p, f, op.key);
    }
  }

  lemma AlikeAfterEdit(sent: Tree, full: Tree, p: State, f: State, op: Op, k: string)
    requires op.WriteText? || op.AppendText? || op.Unlink?
    requires p.appended == f.appended && p.written == f.written
    requires Alike(sent, full, p, f, k) && Alike(sent, full, p, f, op.key)
    requires op.Unlink? ==> op.key in sent || op.key !in full
    ensures Alike(sent, full, Step(p, op).0, Step(f, op).0, k)
  {
    if op.AppendText? && op.key == k && k in full {
      assert (full[k] + Get(p.appended, k)) + op.data == full[k] + (Get(p.appended, k) + op.data);
      assert "" + op.data == op.data;
    }
  }

  lemma AlikeFrame(sent: Tree, full: Tree, p: State, f: State, p': State, f': State, k: string)
    requires Alike(sent, full, p, f, k) && p'.files == p.files && f'.files == f.files
    requires p'.written == p.written && p'.appended == p.appended
    ensures Alike(sent, full, p', f', k)
  {
  }

  /** A step that changes neither files nor the record of them keeps the simulation. */
  lemma SameFilesSimulate(sent: Tree, full: Tree, p: State, f: State, op: Op)
    requires Simulates(sent, full, p, f) && !(op.WriteText? || op.AppendText? || op.Unlink?)
    ensures Simulates(sent, full, Step(p, op).0, Step(f, op).0)
  {
    hide Alike;
    var p', f' := Step(p, op).0, Step(f, op).0;
    forall k ensures Alike(sent, full, p', f', k) { AlikeFrame(sent, full, p, f, p', f', k); }
  }

  lemma EditSimulates(sent: Tree, full: Tree, p: State, f: State, op: Op)
    requires Simulates(sent, full, p, f) && (op.WriteText? || op.AppendText? || op.Unlink?)
    requires op.Unlink? ==> op.key in sent || op.key !in full
    ensures Simulates(sent, full, Step(p, op).0, Step(f, op).0)
  {
    var p', f' := Step(p, op).0, Step(f, op).0;
    assert Alike(sent, full, p, f, op.key);
    hide Alike;
    forall k ensures Alike(sent, full, p', f', k) { AlikeAfterEdit(sent, full, p, f, op, k); }
  }

  lemma EditAnswers(sent: Tree, full: Tree, p: State, f: State, op: Op)
    requires Simulates(sent, full, p, f) && !(op.Exists? || op.IsFile? || op.ReadText?)
    requires op.Unlink? ==> op.key in sent || op.key !in full
    ensures Step(p, op).1 == Step(f, op).1
  {
    if op.Unlink? { assert Alike(sent, full, p, f, op.key); }
  }

  /** One call on both trees: its answer is the same exactly when it is truthful, and what the overlays hold
      stays alike whatever the answer. */
  lemma StepAgrees(sent: Tree, full: Tree, p: State, f: State, op: Op)
    requires Simulates(sent, full, p, f)
    requires op.Unlink? ==> op.key in sent || op.key !in full
    ensures Step(p, op).1 == Step(f, op).1 <==> Truthful(sent, full, p, op)
    ensures Simulates(sent, full, Step(p, op).0, Step(f, op).0)
  {
    hide Step;
    hide Simulates;
    hide Unsent;
    hide IsDir;
    hide BlindRead;
    if op.WriteText? || op.AppendText? || op.Unlink? {
      EditSimulates(sent, full, p, f, op);
      EditAnswers(sent, full, p, f, op);
    } else {
      SameFilesSimulate(sent, full, p, f, op);
      if op.Mkdir? { EditAnswers(sent, full, p, f, op); } else { QuestionExact(sent, full, p, f, op); }
    }
  }

  /** What the tool unlinks was sent, or is not on the client. */
  ghost predicate UnlinksSent(sent: Tree, full: Tree, ops: seq<Op>) {
    forall n :: 0 <= n < |ops| && ops[n].Unlink? ==> ops[n].key in sent || ops[n].key !in full
  }

  ghost predicate AllTruthful(sent: Tree, full: Tree, ops: seq<Op>) {
    forall n :: 0 <= n < |ops| ==> Truthful(sent, full, Run(Init(sent), ops[..n]), ops[n])
  }

  lemma TruthfulSnoc(sent: Tree, full: Tree, ops: seq<Op>)
    requires ops != []
    ensures var n := |ops| - 1;
      AllTruthful(sent, full, ops)
      <==> AllTruthful(sent, full, ops[..n]) && Truthful(sent, full, Run(Init(sent), ops[..n]), ops[n])
  {
    hide Truthful;
    hide Run;
    var m := |ops| - 1;
    forall n | 0 <= n < m ensures ops[..m][..n] == ops[..n] && ops[..m][n] == ops[n] { }
    if AllTruthful(sent, full, ops[..m]) && Truthful(sent, full, Run(Init(sent), ops[..m]), ops[m]) {
      forall n | 0 <= n < |ops| ensures Truthful(sent, full, Run(Init(sent), ops[..n]), ops[n]) {
        if n < m { assert ops[..m][..n] == ops[..n]; }
      }
    }
    if AllTruthful(sent, full, ops) {
      forall n | 0 <= n < m ensures Truthful(sent, full, Run(Init(sent), ops[..m][..n]), ops[..m][n]) {
        assert ops[..m][..n] == ops[..n];
      }
    }
  }

  lemma {:induction false} RunSimulates(sent: Tree, full: Tree, ops: seq<Op>)
    requires PartOf(sent, full) && UnlinksSent(sent, full, ops)
    ensures Simulates(sent, full, Run(Init(sent), ops), Run(Init(full), ops))
  {
    if ops == [] {
      forall k ensures Alike(sent, full, Init(sent), Init(full), k) {
        if k in full { assert full[k] + "" == full[k]; }
      }
    } else {
      var n := |ops| - 1;
      RunSimulates(sent, full, ops[..n]);
      hide Simulates;
      hide PartOf;
      hide Step;
      StepAgrees(sent, full, Run(Init(sent), ops[..n]), Run(Init(full), ops[..n]), ops[n]);
    }
  }

  lemma {:induction false} RunAgrees(sent: Tree, full: Tree, ops: seq<Op>)
    requires PartOf(sent, full) && UnlinksSent(sent, full, ops)
    ensures Answers(Init(sent), ops) == Answers(Init(full), ops) <==> AllTruthful(sent, full, ops)
    ensures |Answers(Init(sent), ops)| == |Answers(Init(full), ops)|
  {
    hide Truthful;
    hide Simulates;
    hide PartOf;
    hide Step;
    hide Run;
    if ops != [] {
      var n := |ops| - 1;
      var before := ops[..n];
      assert UnlinksSent(sent, full, before);
      RunAgrees(sent, full, before);
      RunSimulates(sent, full, before);
      TruthfulSnoc(sent, full, ops);
      hide AllTruthful;
      var p, f := Run(Init(sent), before), Run(Init(full), before);
      StepAgrees(sent, full, p, f, ops[n]);
      assert Answers(Init(sent), ops) == Answers(Init(sent), before) + [Step(p, ops[n]).1];
      assert Answers(Init(full), ops) == Answers(Init(full), before) + [Step(f, ops[n]).1];
      SnocEqual(Answers(Init(sent), before), Answers(Init(full), before), Step(p, ops[n]).1, Step(f, ops[n]).1);
    }
  }

  lemma SnocEqual(a: seq<Answer>, b: seq<Answer>, x: Answer, y: Answer)
    requires |a| == |b|
    ensures a + [x] == b + [y] <==> a == b && x == y
  {
    if a + [x] == b + [y] {
      assert a == (a + [x])[..|a|] && x == (a + [x])[|a|];
      assert b == (b + [y])[..|b|] && y == (b + [y])[|b|];
    }
  }

  lemma ReplayAgrees(sent: Tree, full: Tree, p: State, f: State, k: string)
    requires PartOf(sent, full)
    requires p.original == sent && Alike(sent, full, p, f, k)
    requires k in p.appended && k !in p.written && k in p.files && Conserved(sent, p, "", k)
    ensures var replayed := Apply(ReportOf(p), full);
      k in replayed && k in f.files && replayed[k] == f.files[k]
  {
    assert "" + p.files[k] == p.files[k];
  }

  lemma ReplayAgreesUnappended(sent: Tree, full: Tree, p: State, f: State, dropped: string, k: string)
    requires PartOf(sent, full)
    requires p.original == sent && Alike(sent, full, p, f, k)
    requires !(k in p.appended && k !in p.written) && Conserved(sent, p, dropped, k)
    ensures var replayed := Apply(ReportOf(p), full);
      (k in replayed <==> k in f.files) && (k in replayed ==> replayed[k] == f.files[k])
  {
    if k in full { assert full[k] + "" == full[k]; }
  }

  lemma PatchFitsWholeTree(sent: Tree, full: Tree, ops: seq<Op>, f: State)
    requires Simulates(sent, full, Run(Init(sent), ops), f)
    requires AppendsKept(Init(sent), ops)
    ensures Apply(ReportOf(Run(Init(sent), ops)), full) == f.files
  {
    var p := Run(Init(sent), ops);
    var replayed := Apply(ReportOf(p), full);
    forall k ensures (k in replayed <==> k in f.files) && (k in replayed ==> replayed[k] == f.files[k]) {
      assert Alike(sent, full, p, f, k);
      AppendsConserved(sent, ops, k);
      if k in p.appended && k !in p.written {
        ReplayAgrees(sent, full, p, f, k);
      } else {
        ReplayAgreesUnappended(sent, full, p, f, Dropped(Init(sent), ops, k), k);
      }
    }
  }

  lemma FittingKept(sent: Tree, full: Tree, ops: seq<Op>, f: State, k: string)
    requires Simulates(sent, full, Run(Init(sent), ops), f) && UnlinksSent(sent, full, ops)
    requires var p := Run(Init(sent), ops);
      Apply(ReportOf(p), full) == f.files && k in p.appended && k !in p.written
    ensures k in Run(Init(sent), ops).files && Dropped(Init(sent), ops, k) == ""
  {
    var p, dropped := Run(Init(sent), ops), Dropped(Init(sent), ops, k);
    assert Alike(sent, full, p, f, k);
    AppendsConserved(sent, ops, k);
    assert k in ReportOf(p).appended && k in Apply(ReportOf(p), full);
    if k in full && k !in sent {
      NeverUnlinked(sent, ops, k);
    } else {
      assert k !in ReportOf(p).deleted && k !in ReportOf(p).changed;
      assert f.files[k] == Get(full, k) + p.appended[k] && Get(full, k) == Get(sent, k);
      assert |dropped + p.files[k]| == |p.files[k]|;
    }
  }

  /** What a run on a partial upload is worth, exactly. The tool saw every answer it would have seen on the
      client's whole tree if and only if each of its questions was truthful; and applying the patch to the whole
      tree gives what the tool would have made of it if and only if appended text was kept. */
  lemma PartialUploadExact(sent: Tree, full: Tree, ops: seq<Op>)
    requires PartOf(sent, full) && UnlinksSent(sent, full, ops)
    ensures Answers(Init(sent), ops) == Answers(Init(full), ops) <==> AllTruthful(sent, full, ops)
    ensures Apply(ReportOf(Run(Init(sent), ops)), full) == Run(Init(full), ops).files
      <==> AppendsKept(Init(sent), ops)
  {
    hide AllTruthful;
    hide Apply;
    hide ReportOf;
    var p, f := Run(Init(sent), ops), Run(Init(full), ops);
    RunAgrees(sent, full, ops);
    RunSimulates(sent, full, ops);
    hide Simulates;
    if AppendsKept(Init(sent), ops) { PatchFitsWholeTree(sent, full, ops, f); }
    if Apply(ReportOf(p), full) == f.files {
      forall k | k in p.appended && k !in p.written ensures k in p.files && Dropped(Init(sent), ops, k) == "" {
        FittingKept(sent, full, ops, f, k);
      }
    }
  }

  /** No path that exists on the client and was not sent is read after only being appended to. */
  ghost predicate NoBlindRead(sent: Tree, full: Tree, ops: seq<Op>) {
    forall n :: 0 <= n < |ops| ==> !BlindRead(sent, full, Run(Init(sent), ops[..n]), ops[n])
  }

  /** No path is a file and a directory at once, at any moment of the run. */
  ghost predicate TidyRun(full: Tree, ops: seq<Op>) {
    forall n :: 0 <= n <= |ops| ==> Tidy(Run(Init(full), ops[..n]))
  }

  lemma StepRequests(s: State, op: Op)
    ensures s.requested <= Step(s, op).0.requested
  {
  }

  lemma {:induction false} RequestsGrow(s: State, ops: seq<Op>, n: nat)
    requires n <= |ops|
    ensures Run(s, ops[..n]).requested <= Run(s, ops).requested
  {
    if n == |ops| {
      assert ops[..n] == ops;
    } else {
      var before := ops[..|ops| - 1];
      assert before[..n] == ops[..n];
      RequestsGrow(s, before, n);
      StepRequests(Run(s, before), ops[|ops| - 1]);
      hide Step;
    }
  }

  lemma StepRequested(s: State, ops: seq<Op>, n: nat)
    requires n < |ops|
    ensures Step(Run(s, ops[..n]), ops[n]).0.requested <= Run(s, ops).requested
  {
    assert ops[..n + 1][..n] == ops[..n] && ops[..n + 1][n] == ops[n];
    RequestsGrow(s, ops, n + 1);
  }

  lemma MissesRecorded(sent: Tree, full: Tree, ops: seq<Op>, n: nat)
    requires PartOf(sent, full) && UnlinksSent(sent, full, ops)
    requires TidyRun(full, ops) && NoBlindRead(sent, full, ops) && n < |ops|
    requires Absent(Run(Init(sent), ops).requested, full)
    ensures Truthful(sent, full, Run(Init(sent), ops[..n]), ops[n])
  {
    assert Run(Init(full), ops[..0]) == Init(full);
    RunSimulates(sent, full, ops[..n]);
    StepRequested(Init(sent), ops, n);
    hide Simulates;
    hide Truthful;
    hide Tidy;
    hide BlindRead;
    hide Step;
    AbsentTruthful(sent, full, Run(Init(sent), ops[..n]), Run(Init(full), ops[..n]), ops[n]);
  }

  /** Partial-upload soundness, from what the workspace records: when nothing among the raw requests is a file or
      directory of the whole tree, every question was truthful. */
  lemma PartialUploadSound(sent: Tree, full: Tree, ops: seq<Op>)
    requires PartOf(sent, full) && UnlinksSent(sent, full, ops)
    requires TidyRun(full, ops) && NoBlindRead(sent, full, ops)
    requires Absent(Run(Init(sent), ops).requested, full)
    ensures AllTruthful(sent, full, ops) && Answers(Init(sent), ops) == Answers(Init(full), ops)
  {
    hide Truthful;
    forall n | 0 <= n < |ops| ensures Truthful(sent, full, Run(Init(sent), ops[..n]), ops[n]) {
      MissesRecorded(sent, full, ops, n);
    }
    RunAgrees(sent, full, ops);
  }

  // ── Tools that react to what they see ────────────────────────────

  /** A tool chooses its next call from the answers it has had. */
  type Tool = seq<Answer> -> Op

  function Calls(tool: Tool, s: State, n: nat): (ops: seq<Op>)
    ensures |ops| == n
  {
    if n == 0 then [] else
      var before := Calls(tool, s, n - 1);
      before + [tool(Answers(s, before))]
  }

  /** The same tool makes the same calls on the partial upload and on the whole tree, while the answers it had
      there are truthful. */
  lemma {:induction false} ToolCannotTell(tool: Tool, sent: Tree, full: Tree, n: nat)
    requires PartOf(sent, full) && UnlinksSent(sent, full, Calls(tool, Init(sent), n))
    requires AllTruthful(sent, full, Calls(tool, Init(sent), n))
    ensures Calls(tool, Init(sent), n) == Calls(tool, Init(full), n)
    ensures Answers(Init(sent), Calls(tool, Init(sent), n)) == Answers(Init(full), Calls(tool, Init(full), n))
  {
    hide AllTruthful;
    hide PartOf;
    var calls := Calls(tool, Init(sent), n);
    RunAgrees(sent, full, calls);
    if n != 0 {
      var before := Calls(tool, Init(sent), n - 1);
      assert calls[..n - 1] == before;
      TruthfulSnoc(sent, full, calls);
      ToolCannotTell(tool, sent, full, n - 1);
    }
  }

  /** The reported `files_requested` drops paths written later, so an empty one proves nothing:
      here the tool saw `false` where the whole tree answers `true`. */
  lemma ReportedRequestsMislead()
    ensures var ops := [Exists("a"), WriteText("a", "y")];
      var full := map["a" := "x"];
      && ReportOf(Run(Init(map[]), ops)).requested == {}
      && Answers(Init(map[]), ops) != Answers(Init(full), ops)
  {
    var ops := [Exists("a"), WriteText("a", "y")];
    assert ops[..1] == [ops[0]] && ops[..1][..0] == [];
    var full: Tree := map["a" := "x"];
    var s := Init(map[]);
    assert Run(s, ops) == Step(Run(s, ops[..1]), ops[1]).0;
    assert Run(s, ops[..1]) == Step(s, ops[0]).0;
    assert Answers(s, ops)[0] == Bool(false) && Answers(Init(full), ops)[0] == Bool(true);
  }
}
