/** What a reader is told about a use case as a whole (server/prd_parser.py:169-194), from the phases as they were
    reported. */
module PrdVerdict {
  import opened Strings
  import opened PrdText
  import opened PrdDeltas
  import opened PrdRoundTrip
  import opened PrdAppend
  import opened PrdStatus

  /** The phase differs from its plan and the text says so, or there was no plan to differ from. */
  ghost predicate Counts(p: Phase) {
    || p.plan.None?
    || (Differs(p) && !SomeSays(Listed(ExtraFiles(p))) && !SomeSays(Listed(MissingFiles(p))))
  }

  ghost function Counting(phases: seq<Phase>): set<int> { set i | 0 <= i < |phases| && Counts(phases[i]) }

  ghost function Healed(phases: seq<Phase>): set<int> { set i | 0 <= i < |phases| && phases[i].healing != [] }

  predicate SomeFailed(phases: seq<Phase>) { exists i :: 0 <= i < |phases| && phases[i].status == "failed" }

  /** A failed phase hides differences, and differences hide conformity; both kinds of events are counted. */
  ghost predicate Verdict(s: UcStatus, phases: seq<Phase>) {
    && (s.overall == "parcial" <==> SomeFailed(phases))
    && (s.overall == "con_deltas" <==> !SomeFailed(phases) && Counting(phases) != {})
    && (s.overall == "conforme" <==> !SomeFailed(phases) && Counting(phases) == {} && phases != [])
    && (s.overall == "not_implemented" <==> phases == [])
    && s.deltaCount == |Counting(phases)| + |Healed(phases)|
  }

  lemma CountsRead(p: Phase)
    requires Good(p)
    ensures HasDeltas(ReadBack(p)) <==> Counts(p)
  {
    CountedWhenDiffers(p);
    PhaseReadsBack(p);
  }

  lemma {:induction false} ReadBackEach(phases: seq<Phase>)
    ensures |ReadBackAll(phases)| == |phases|
    ensures forall i :: 0 <= i < |phases| ==> ReadBackAll(phases)[i] == ReadBack(phases[i])
  {
    if phases != [] { ReadBackEach(phases[..|phases| - 1]); }
  }

  // ── The phases as they are read ──────────────────────────────────

  function Differing(read: seq<PhaseStatus>): set<int> { set i | 0 <= i < |read| && HasDeltas(read[i]) }

  predicate WasHealed(p: PhaseStatus) { p.healing.Some? && p.healing.value != "" }

  function HealedRead(read: seq<PhaseStatus>): set<int> { set i | 0 <= i < |read| && WasHealed(read[i]) }

  lemma DifferingMore(read: seq<PhaseStatus>)
    requires read != []
    ensures var n := |read| - 1;
      |Differing(read)| == |Differing(read[..n])| + if HasDeltas(read[n]) then 1 else 0
  {
    hide HasDeltas;
    var n := |read| - 1;
    var before := Differing(read[..n]);
    assert Differing(read) == if HasDeltas(read[n]) then before + {n} else before;
  }

  lemma HealedMore(read: seq<PhaseStatus>)
    requires read != []
    ensures var n := |read| - 1;
      |HealedRead(read)| == |HealedRead(read[..n])| + if WasHealed(read[n]) then 1 else 0
  {
    hide WasHealed;
    var n := |read| - 1;
    var before := HealedRead(read[..n]);
    assert HealedRead(read) == if WasHealed(read[n]) then before + {n} else before;
  }

  lemma {:induction false} DeltasCounted(read: seq<PhaseStatus>)
    ensures CountDeltas(read) == |Differing(read)| + |HealedRead(read)|
  {
    hide HasDeltas;
    hide Differing;
    hide HealedRead;
    if read == [] {
      assert Differing(read) == {} && HealedRead(read) == {} by { NothingRead(); }
    } else {
      DeltasCounted(read[..|read| - 1]);
      DifferingMore(read);
      HealedMore(read);
    }
  }

  lemma NothingRead()
    ensures Differing([]) == {} && HealedRead([]) == {}
  {
  }

  lemma OverallTold(read: seq<PhaseStatus>)
    ensures Overall(read) ==
      if exists i :: 0 <= i < |read| && read[i].status == "failed" then "parcial"
      else if Differing(read) != {} then "con_deltas"
      else if read != [] then "conforme"
      else "not_implemented"
  {
    hide HasDeltas;
    if p :| p in read && p.status == "failed" {
      var i :| 0 <= i < |read| && read[i] == p;
    }
    if p :| p in read && HasDeltas(p) {
      var i :| 0 <= i < |read| && read[i] == p;
      assert i in Differing(read);
    }
    if Differing(read) != {} {
      var i :| i in Differing(read);
      assert read[i] in read;
    }
  }

  /** As they are read and as they were reported. */
  lemma SameCounts(phases: seq<Phase>)
    requires AllGood(phases)
    ensures var read := ReadBackAll(phases);
      && |read| == |phases| && Differing(read) == Counting(phases) && HealedRead(read) == Healed(phases)
      && forall i :: 0 <= i < |read| ==> read[i].status == phases[i].status
  {
    var read := ReadBackAll(phases);
    ReadBackEach(phases);
    forall i | 0 <= i < |phases|
      ensures HasDeltas(read[i]) <==> Counts(phases[i])
      ensures WasHealed(read[i]) <==> phases[i].healing != []
      ensures read[i].status == phases[i].status
    {
      CountsRead(phases[i]);
    }
    hide Counts;
    hide HasDeltas;
    hide WasHealed;
    hide ReadBack;
    hide ReadBackAll;
    hide AllGood;
  }

  lemma OverallByCases(overall: string, failed: bool, differ: bool, some: bool)
    requires overall ==
      if failed then "parcial" else if differ then "con_deltas" else if some then "conforme" else "not_implemented"
    ensures overall == "parcial" <==> failed
    ensures overall == "con_deltas" <==> !failed && differ
    ensures overall == "conforme" <==> !failed && !differ && some
    ensures overall == "not_implemented" <==> !failed && !differ && !some
  {
    assert "parcial"[0] == 'p' && "con_deltas"[3] == '_' && "conforme"[3] == 'f' && "not_implemented"[0] == 'n';
  }

  lemma OverallReported(phases: seq<Phase>, read: seq<PhaseStatus>)
    requires |read| == |phases| && Differing(read) == Counting(phases)
    requires forall i :: 0 <= i < |read| ==> read[i].status == phases[i].status
    ensures Overall(read) ==
      if SomeFailed(phases) then "parcial" else if Counting(phases) != {} then "con_deltas"
      else if phases != [] then "conforme" else "not_implemented"
  {
    OverallTold(read);
    SameFailed(phases, read);
    hide Overall;
    hide Differing;
    hide Counting;
    hide SomeFailed;
  }

  lemma StatusTells(uc: string, branch: string, timestamp: string, phases: seq<Phase>)
    requires AllGood(phases)
    ensures Verdict(StatusOf(uc, branch, timestamp, ReadBackAll(phases)), phases)
  {
    var read := ReadBackAll(phases);
    SameCounts(phases);
    DeltasCounted(read);
    OverallReported(phases, read);
    NothingReported(phases);
    StatusFields(uc, branch, timestamp, read);
    var failed, differ, some := SomeFailed(phases), Counting(phases) != {}, phases != [];
    OverallByCases(Overall(read), failed, differ, some);
    hide AllGood;
    hide ReadBackAll;
    hide Overall;
    hide CountDeltas;
    hide StatusOf;
    hide SomeFailed;
    hide Counting;
    hide Healed;
    hide Differing;
    hide HealedRead;
  }

  lemma SameFailed(phases: seq<Phase>, read: seq<PhaseStatus>)
    requires |read| == |phases| && forall i :: 0 <= i < |read| ==> read[i].status == phases[i].status
    ensures SomeFailed(phases) <==> exists i :: 0 <= i < |read| && read[i].status == "failed"
  {
    if i :| 0 <= i < |phases| && phases[i].status == "failed" { assert read[i].status == "failed"; }
    if i :| 0 <= i < |read| && read[i].status == "failed" { assert phases[i].status == "failed"; }
  }

  lemma StatusFields(uc: string, branch: string, timestamp: string, read: seq<PhaseStatus>)
    ensures var s := StatusOf(uc, branch, timestamp, read);
      s.overall == Overall(read) && s.deltaCount == CountDeltas(read)
  {
  }

  lemma NothingReported(phases: seq<Phase>)
    ensures phases == [] ==> Counting(phases) == {} && !SomeFailed(phases)
  {
  }

  /** The whole path: what the parser says of an appended status, in terms of the phases reported. */
  lemma VerdictReadsBack(content: string, uc: string, branch: string, timestamp: string, phases: seq<Phase>)
    requires IsUcId(uc) && MarkText(branch) && MarkText(timestamp) && AllGood(phases)
    requires HasSection(TrimmedLines(content)) || Find(content, PHRASE).None?
    ensures var all := ParseAll(Append(content, CompileUcStatus(uc, branch, PhaseTexts(phases), timestamp)));
      |all| == |ParseAll(content)| + 1 && Verdict(all[|all| - 1], phases)
  {
    StatusReadsBack(content, uc, branch, timestamp, phases);
    StatusTells(uc, branch, timestamp, phases);
  }
}
