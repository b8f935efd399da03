/** Which client paths are accepted (server/app_docs/workspace.py:37-46), and what becomes of them. */
module WorkspacePaths {
  import Text
  import opened Lists
  import opened Strings
  import opened Workspace
  import opened Wrappers

  predicate Dropped(part: string) { part == "" || part == "." }

  /** The parts of a path that stay, by their places: those not dropped, in order. */
  ghost predicate StayAt(parts: seq<string>, at: seq<nat>, kept: seq<string>) {
    && |at| == |kept|
    && (forall i: nat :: i in at <==> i < |parts| && !Dropped(parts[i]))
    && Increasing(at)
    && (forall k :: 0 <= k < |at| && at[k] < |parts| ==> kept[k] == parts[at[k]])
  }

  lemma PartsPoint(parts: seq<string>, first: bool, rest: seq<nat>, kept: seq<string>)
    requires parts != [] && |rest| == |kept|
    requires forall k :: 0 <= k < |rest| ==> rest[k] < |parts[1..]| && kept[k] == parts[1..][rest[k]]
    ensures var at, all := Shifted(first, rest), (if first then [parts[0]] else []) + kept;
      |at| == |all| && forall k :: 0 <= k < |at| && at[k] < |parts| ==> all[k] == parts[at[k]]
  {
  }

  lemma PartsFollow(parts: seq<string>, first: bool, rest: seq<nat>, kept: seq<string>)
    requires parts != [] && StayAt(parts[1..], rest, kept) && first == !Dropped(parts[0])
    ensures StayAt(parts, Shifted(first, rest), (if first then [parts[0]] else []) + kept)
  {
    forall i: nat ensures i in Shifted(first, rest) <==> i < |parts| && !Dropped(parts[i]) {
      ShiftedIn(first, rest, i);
      if 0 < i < |parts| { assert parts[i] == parts[1..][i - 1]; }
    }
    ShiftedRises(first, rest);
    forall k | 0 <= k < |rest| ensures rest[k] < |parts[1..]| { assert rest[k] in rest; }
    PartsPoint(parts, first, rest, kept);
    hide Shifted;
    hide Dropped;
  }

  lemma {:induction false} KeptAt(parts: seq<string>) returns (at: seq<nat>)
    ensures StayAt(parts, at, Kept(parts))
  {
    if parts == [] {
      at := [];
    } else {
      var rest := KeptAt(parts[1..]);
      at := Shifted(!Dropped(parts[0]), rest);
      PartsFollow(parts, !Dropped(parts[0]), rest, Kept(parts[1..]));
    }
  }

  lemma {:induction false} FirstPart(s: string, c: char)
    requires c != '/'
    ensures c in Text.Split(s, '/')[0] <==>
      exists i :: 0 <= i < |s| && s[i] == c && forall j :: 0 <= j < i ==> s[j] != '/'
  {
    if s != "" {
      FirstPart(s[1..], c);
      if s[0] != '/' {
        if i :| 0 <= i < |s[1..]| && s[1..][i] == c && forall j :: 0 <= j < i ==> s[1..][j] != '/' {
          assert s[i + 1] == c;
          forall j | 0 <= j < i + 1 ensures s[j] != '/' { if j > 0 { assert s[j] == s[1..][j - 1]; } }
        }
        if i :| 0 <= i < |s| && s[i] == c && forall j :: 0 <= j < i ==> s[j] != '/' {
          if i > 0 {
            assert s[1..][i - 1] == c;
            forall j | 0 <= j < i - 1 ensures s[1..][j] != '/' { assert s[1..][j] == s[j + 1]; }
          }
        }
      }
    }
  }

  lemma ParentStays(parts: seq<string>, at: seq<nat>, kept: seq<string>)
    requires StayAt(parts, at, kept)
    ensures ".." in parts <==> ".." in kept
    ensures kept == [] <==> at == []
  {
    if ".." in parts {
      var i :| 0 <= i < |parts| && parts[i] == "..";
      assert i in at;
      var k :| 0 <= k < |at| && at[k] == i;
      assert kept[k] == "..";
    }
    if ".." in kept {
      var k :| 0 <= k < |kept| && kept[k] == "..";
      assert at[k] in at;
    }
  }

  lemma BlankExact(s: string)
    ensures IsBlank(s) <==> !exists c :: c in s && !IsSpace(c)
  {
  }

  /** A path is accepted exactly when it is not blank, has no backslash and no NUL, does not start with a slash, has no
      colon before its first slash, no `..` among its parts, and a part to keep; then it becomes the parts that stay. */
  lemma NormalizeExact(rel: string) returns (at: seq<nat>)
    ensures var parts := Text.Split(rel, '/');
      Normalize(rel).Some? <==>
        && (exists c :: c in rel && !IsSpace(c))
        && '\\' !in rel && '\0' !in rel && !("/" <= rel)
        && !(exists i :: 0 <= i < |rel| && rel[i] == ':' && forall j :: 0 <= j < i ==> rel[j] != '/')
        && ".." !in parts && at != []
    ensures forall i: nat :: i in at <==> i < |Text.Split(rel, '/')| && !Dropped(Text.Split(rel, '/')[i])
    ensures Normalize(rel).Some? ==> StayAt(Text.Split(rel, '/'), at, Text.Split(Normalize(rel).value, '/'))
  {
    var parts := Text.Split(rel, '/');
    var kept := Kept(parts);
    at := KeptAt(parts);
    FirstPart(rel, ':');
    ParentStays(parts, at, kept);
    BlankExact(rel);
    if Normalize(rel).Some? {
      Text.SplitJoin(kept, '/');
    }
  }
}
