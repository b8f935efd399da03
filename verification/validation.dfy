/** Validation of a parsed document (server/app_docs/zones.py:214-287): which issues it has, and that all of them are
    listed. */
module Validation {
  import opened Zones
  import opened Signature

  datatype Issue =
    | ParseFault(fault: Fault)
    | DuplicateId(id: string, line: int, first: int)
    | ManualAutoSync(id: string)      // a warning, not an error
    | MissingZone(id: string)
    | WrongKind(id: string, kind: Kind)

  predicate IsError(issue: Issue) { !issue.ManualAutoSync? }

  ghost predicate HasZone(zones: seq<Zone>, want: (string, Kind)) {
    exists k :: 0 <= k < |zones| && zones[k].id == want.0 && zones[k].kind == want.1
  }

  /** What a document without validation errors is. */
  ghost predicate Validates(doc: ParsedDoc, required: seq<(string, Kind)>) {
    && doc.faults == [] && UniqueIds(doc.zones)
    && forall k :: 0 <= k < |required| ==> HasZone(doc.zones, required[k])
  }

  ghost predicate NoErrors(issues: seq<Issue>) {
    forall k :: 0 <= k < |issues| ==> !IsError(issues[k])
  }

  /** Among the first `n` zones, the first with the id starts on this line. */
  ghost predicate FirstSeen(zones: seq<Zone>, n: nat, id: string, line: int) {
    exists j :: 0 <= j < n && j < |zones| && zones[j].id == id && zones[j].startLine == line
                && forall i :: 0 <= i < j ==> zones[i].id != id
  }

  ghost predicate IsDuplicate(zones: seq<Zone>, n: nat, issue: Issue) {
    issue.DuplicateId?
    && exists k :: 0 <= k < n && k < |zones| && zones[k].id == issue.id && zones[k].startLine == issue.line
                   && FirstSeen(zones, k, issue.id, issue.first)
  }

  ghost predicate IsManualSync(zones: seq<Zone>, n: nat, issue: Issue) {
    issue.ManualAutoSync?
    && exists k :: 0 <= k < n && k < |zones| && zones[k].id == issue.id && zones[k].kind.Manual?
                   && zones[k].autoSyncOn != []
  }

  /** The last zone with an id. */
  ghost predicate IsLast(zones: seq<Zone>, k: nat, id: string) {
    k < |zones| && zones[k].id == id && forall i :: k < i < |zones| ==> zones[i].id != id
  }

  /** What is wrong about a zone the document must have. */
  ghost predicate Lacks(zones: seq<Zone>, want: (string, Kind), issue: Issue) {
    match issue
    case MissingZone(id) => id == want.0 && forall k :: 0 <= k < |zones| ==> zones[k].id != id
    case WrongKind(id, kind) =>
      id == want.0 && kind == want.1 && exists k: nat :: IsLast(zones, k, id) && zones[k].kind != kind
    case _ => false
  }

  ghost predicate LacksRequired(zones: seq<Zone>, required: seq<(string, Kind)>, n: nat, issue: Issue) {
    exists k :: 0 <= k < n && k < |required| && Lacks(zones, required[k], issue)
  }

  ghost predicate IsIssue(doc: ParsedDoc, required: seq<(string, Kind)>, issue: Issue) {
    || (issue.ParseFault? && issue.fault in doc.faults)
    || IsDuplicate(doc.zones, |doc.zones|, issue)
    || IsManualSync(doc.zones, |doc.zones|, issue)
    || LacksRequired(doc.zones, required, |required|, issue)
  }

  /** `validate_document`: just the issues the document has are listed. */
  method ValidateDocument(doc: ParsedDoc, required: seq<(string, Kind)>) returns (issues: seq<Issue>)
    ensures forall issue :: issue in issues <==> IsIssue(doc, required, issue)
  {
    issues := seq(|doc.faults|, i requires 0 <= i < |doc.faults| => ParseFault(doc.faults[i]));
    ghost var faults := issues;
    forall f | f in doc.faults ensures ParseFault(f) in faults {
      var i :| 0 <= i < |doc.faults| && doc.faults[i] == f;
      assert faults[i] == ParseFault(f);
    }
    var duplicates := ReportDuplicates(doc.zones);
    var manual := ReportManual(doc.zones);
    var lacking := ReportRequired(doc.zones, required);
    issues := issues + duplicates + manual + lacking;
    forall issue ensures issue in issues <==> IsIssue(doc, required, issue) {
      assert issue in issues <==> issue in faults || issue in duplicates || issue in manual || issue in lacking;
    }
  }

  /** The ids of the first `n` zones, with the line each was first seen on. */
  ghost predicate SeenUpTo(zones: seq<Zone>, n: nat, seen: map<string, int>) {
    && (forall k :: 0 <= k < n && k < |zones| ==> zones[k].id in seen)
    && (forall id :: id in seen ==> FirstSeen(zones, n, id, seen[id]))
  }

  lemma FirstOnce(zones: seq<Zone>, n: nat, id: string, a: int, b: int)
    requires FirstSeen(zones, n, id, a) && FirstSeen(zones, n, id, b)
    ensures a == b
  {
  }

  lemma SeenMore(zones: seq<Zone>, n: nat, seen: map<string, int>)
    requires n < |zones| && SeenUpTo(zones, n, seen)
    ensures var z := zones[n];
      SeenUpTo(zones, n + 1, if z.id in seen then seen else seen[z.id := z.startLine])
  {
    forall id | id in seen ensures FirstSeen(zones, n + 1, id, seen[id]) {
      var j :| 0 <= j < n && zones[j].id == id && zones[j].startLine == seen[id]
        && forall i :: 0 <= i < j ==> zones[i].id != id;
    }
    if zones[n].id !in seen { assert FirstSeen(zones, n + 1, zones[n].id, zones[n].startLine); }
  }

  lemma DuplicatesMore(zones: seq<Zone>, n: nat, seen: map<string, int>, issue: Issue)
    requires n < |zones| && SeenUpTo(zones, n, seen)
    ensures var z := zones[n];
      IsDuplicate(zones, n + 1, issue) <==>
        IsDuplicate(zones, n, issue) || (z.id in seen && issue == DuplicateId(z.id, z.startLine, seen[z.id]))
  {
    var z := zones[n];
    if z.id in seen && issue.DuplicateId? && FirstSeen(zones, n, z.id, issue.first) {
      FirstOnce(zones, n, z.id, issue.first, seen[z.id]);
    }
    if z.id in seen && issue == DuplicateId(z.id, z.startLine, seen[z.id]) { assert 0 <= n < n + 1; }
  }

  method ReportDuplicates(zones: seq<Zone>) returns (issues: seq<Issue>)
    ensures forall issue :: issue in issues <==> IsDuplicate(zones, |zones|, issue)
  {
    issues := [];
    var seen: map<string, int> := map[];
    for i := 0 to |zones|
      invariant SeenUpTo(zones, i, seen)
      invariant forall issue :: issue in issues <==> IsDuplicate(zones, i, issue)
    {
      var z := zones[i];
      forall issue ensures IsDuplicate(zones, i + 1, issue) <==>
        IsDuplicate(zones, i, issue) || (z.id in seen && issue == DuplicateId(z.id, z.startLine, seen[z.id]))
      {
        DuplicatesMore(zones, i, seen, issue);
      }
      SeenMore(zones, i, seen);
      hide IsDuplicate;
      hide SeenUpTo;
      if z.id in seen {
        issues := issues + [DuplicateId(z.id, z.startLine, seen[z.id])];
      } else {
        seen := seen[z.id := z.startLine];
      }
    }
  }

  method ReportManual(zones: seq<Zone>) returns (issues: seq<Issue>)
    ensures forall issue :: issue in issues <==> IsManualSync(zones, |zones|, issue)
  {
    issues := [];
    for i := 0 to |zones|
      invariant forall issue :: issue in issues <==> IsManualSync(zones, i, issue)
    {
      var z := zones[i];
      if z.kind.Manual? && z.autoSyncOn != [] {
        issues := issues + [ManualAutoSync(z.id)];
      }
    }
  }

  /** The last zone of every id. */
  ghost predicate LastOfEach(zones: seq<Zone>, present: map<string, Zone>) {
    && (forall k :: 0 <= k < |zones| ==> zones[k].id in present)
    && (forall id :: id in present ==> exists k: nat :: IsLast(zones, k, id) && zones[k] == present[id])
  }

  lemma LastMore(zones: seq<Zone>, n: nat, present: map<string, Zone>)
    requires n < |zones| && LastOfEach(zones[..n], present)
    ensures LastOfEach(zones[..n + 1], present[zones[n].id := zones[n]])
  {
    var all, more := zones[..n + 1], present[zones[n].id := zones[n]];
    forall id | id in more ensures exists k: nat :: IsLast(all, k, id) && all[k] == more[id] {
      if id == zones[n].id {
        assert IsLast(all, n, id);
      } else {
        var k: nat :| IsLast(zones[..n], k, id) && zones[..n][k] == present[id];
        assert IsLast(all, k, id);
      }
    }
  }

  lemma LacksExact(zones: seq<Zone>, present: map<string, Zone>, want: (string, Kind), issue: Issue)
    requires LastOfEach(zones, present)
    ensures Lacks(zones, want, issue) <==>
      if want.0 !in present then issue == MissingZone(want.0)
      else present[want.0].kind != want.1 && issue == WrongKind(want.0, want.1)
  {
    if want.0 in present {
      var k: nat :| IsLast(zones, k, want.0) && zones[k] == present[want.0];
    }
  }

  lemma LacksMore(zones: seq<Zone>, required: seq<(string, Kind)>, n: nat, issue: Issue)
    requires n < |required|
    ensures LacksRequired(zones, required, n + 1, issue) <==>
      LacksRequired(zones, required, n, issue) || Lacks(zones, required[n], issue)
  {
    hide Lacks;
    if Lacks(zones, required[n], issue) { assert 0 <= n < n + 1; }
  }

  method ReportRequired(zones: seq<Zone>, required: seq<(string, Kind)>) returns (issues: seq<Issue>)
    ensures forall issue :: issue in issues <==> LacksRequired(zones, required, |required|, issue)
  {
    hide Lacks;
    hide LastOfEach;
    var present := LastZones(zones);
    issues := [];
    for i := 0 to |required|
      invariant forall issue :: issue in issues <==> LacksRequired(zones, required, i, issue)
    {
      var (id, kind) := required[i];
      forall issue ensures LacksRequired(zones, required, i + 1, issue) <==>
        LacksRequired(zones, required, i, issue) || Lacks(zones, required[i], issue)
      {
        LacksMore(zones, required, i, issue);
      }
      forall issue ensures Lacks(zones, required[i], issue) <==>
        if id !in present then issue == MissingZone(id)
        else present[id].kind != kind && issue == WrongKind(id, kind)
      {
        LacksExact(zones, present, required[i], issue);
      }
      hide LacksRequired;
      if id !in present {
        issues := issues + [MissingZone(id)];
      } else if present[id].kind != kind {
        issues := issues + [WrongKind(id, kind)];
      }
    }
  }

  method LastZones(zones: seq<Zone>) returns (present: map<string, Zone>)
    ensures LastOfEach(zones, present)
  {
    present := map[];
    for i := 0 to |zones|
      invariant LastOfEach(zones[..i], present)
    {
      LastMore(zones, i, present);
      hide LastOfEach;
      present := present[zones[i].id := zones[i]];
    }
    assert zones[..|zones|] == zones;
  }

  /** No error is listed exactly when the document `Validates`. */
  lemma ErrorFree(doc: ParsedDoc, required: seq<(string, Kind)>, issues: seq<Issue>)
    requires forall issue :: issue in issues <==> IsIssue(doc, required, issue)
    ensures NoErrors(issues) <==> Validates(doc, required)
  {
    if NoErrors(issues) {
      NoErrorsValidates(doc, required, issues);
    }
    if Validates(doc, required) {
      forall k | 0 <= k < |issues| ensures !IsError(issues[k]) {
        assert issues[k] in issues;
        ValidHasNone(doc, required, issues[k]);
      }
    }
  }

  lemma ValidHasNone(doc: ParsedDoc, required: seq<(string, Kind)>, issue: Issue)
    requires Validates(doc, required) && IsIssue(doc, required, issue)
    ensures issue.ManualAutoSync?
  {
    forall k | 0 <= k < |required| ensures !Lacks(doc.zones, required[k], issue) {
      assert HasZone(doc.zones, required[k]);
    }
  }

  lemma NotListed(doc: ParsedDoc, required: seq<(string, Kind)>, issues: seq<Issue>, issue: Issue)
    requires forall issue :: issue in issues <==> IsIssue(doc, required, issue)
    requires NoErrors(issues) && IsError(issue)
    ensures !IsIssue(doc, required, issue)
  {
  }

  lemma NoErrorsValidates(doc: ParsedDoc, required: seq<(string, Kind)>, issues: seq<Issue>)
    requires forall issue :: issue in issues <==> IsIssue(doc, required, issue)
    requires NoErrors(issues)
    ensures Validates(doc, required)
  {
    if doc.faults != [] { NotListed(doc, required, issues, ParseFault(doc.faults[0])); }
    forall i, j | 0 <= i < j < |doc.zones| ensures doc.zones[i].id != doc.zones[j].id {
      if doc.zones[i].id == doc.zones[j].id {
        var first := EarliestWith(doc.zones, j, doc.zones[j].id);
        NotListed(doc, required, issues, DuplicateId(doc.zones[j].id, doc.zones[j].startLine, first));
      }
    }
    forall k | 0 <= k < |required| ensures HasZone(doc.zones, required[k]) {
      var (id, kind) := required[k];
      var missing, wrong := MissingZone(id), WrongKind(id, kind);
      NotListed(doc, required, issues, missing);
      NotListed(doc, required, issues, wrong);
      assert !Lacks(doc.zones, required[k], missing) && !Lacks(doc.zones, required[k], wrong);
      var last := LatestWith(doc.zones, |doc.zones|, id);
    }
  }

  lemma {:induction false} EarliestWith(zones: seq<Zone>, n: nat, id: string) returns (line: int)
    requires n <= |zones| && exists k :: 0 <= k < n && zones[k].id == id
    ensures FirstSeen(zones, n, id, line)
  {
    if k :| 0 <= k < n - 1 && zones[k].id == id {
      line := EarliestWith(zones, n - 1, id);
    } else {
      line := zones[n - 1].startLine;
    }
  }

  lemma {:induction false} LatestWith(zones: seq<Zone>, n: nat, id: string) returns (k: nat)
    requires n <= |zones| && exists k :: 0 <= k < n && zones[k].id == id
    requires forall k :: n <= k < |zones| ==> zones[k].id != id
    ensures IsLast(zones, k, id)
  {
    k := n - 1;
    if zones[k].id != id { k := LatestWith(zones, n - 1, id); }
  }
}
