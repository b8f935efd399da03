/** The comparison of a phase's files with its plan (server/delta_generator.py), and what the parser makes of it
    (server/prd_parser.py): a phase counts as differing from its plan by a phrase in its text. */
module PrdDeltas {
  import Text
  import opened PrdRoundTrip
  import opened PrdText
  import opened Strings
  import opened Wrappers

  const NONE := "sin deltas"

  // ── Sorted names ─────────────────────────────────────────────────

  /** In order, and each once. */
  ghost predicate Ascending(names: seq<string>) {
    forall i, j :: 0 <= i < j < |names| ==> AtMost(names[i], names[j]) && names[i] != names[j]
  }

  lemma {:induction false} InsertAscending(names: seq<string>, name: string)
    requires Ascending(names)
    ensures Ascending(InsertName(names, name))
  {
    if names != [] {
      var front, last := names[..|names| - 1], names[|names| - 1];
      assert Ascending(front);
      AtMostTotal(last, name);
      if last == name {
      } else if AtMost(last, name) {
        forall i | 0 <= i < |front| ensures AtMost(names[i], name) && names[i] != name {
          AtMostTransitive(names[i], last, name);
          AtMostTotal(names[i], last);
        }
      } else {
        InsertAscending(front, name);
        var out := InsertName(front, name);
        forall i | 0 <= i < |out| ensures AtMost(out[i], last) && out[i] != last {
          InsertNameIn(front, name, out[i]);
        }
      }
    }
  }

  /** What is listed of a difference of two lists of files is that difference, sorted and without repetition. */
  lemma {:induction false} SortedDifference(files: seq<string>, others: seq<string>)
    ensures Ascending(SortedWithout(files, others))
    ensures forall x :: x in SortedWithout(files, others) <==> x in files && x !in others
  {
    forall x ensures x in SortedWithout(files, others) <==> x in files && x !in others {
      SortedWithoutIn(files, others, x);
    }
    if files != [] {
      SortedDifference(files[..|files| - 1], others);
      InsertAscending(SortedWithout(files[..|files| - 1], others), files[|files| - 1]);
    }
  }

  // ── The phrase in a text ─────────────────────────────────────────

  lemma PrefixHas(part: string, s: string, c: char)
    requires part <= s && c in part
    ensures c in s
  {
    var i :| 0 <= i < |part| && part[i] == c;
    assert s[i] == c;
  }

  lemma {:induction false} NoneWithout(s: string, part: string, c: char)
    requires c in part && c !in s
    ensures Find(s, part) == None
  {
    if part <= s { PrefixHas(part, s, c); }
    if s != "" { NoneWithout(s[1..], part, c); }
  }

  lemma PrefixAcross(a: string, b: string, part: string)
    requires part <= a + b && b != ""
    ensures |part| > |a| ==> b[0] in part
  {
    if |part| > |a| { assert part[|a|] == (a + b)[|a|]; }
  }

  /** A phrase does not lie across a character it does not have. */
  lemma {:induction false} FindAcross(a: string, b: string, part: string)
    requires part != "" && b != "" && b[0] !in part
    ensures Find(a + b, part).Some? <==> Find(a, part).Some? || Find(b, part).Some?
  {
    if a == "" {
      assert a + b == b;
    } else {
      assert (a + b)[1..] == a[1..] + b;
      FindAcross(a[1..], b, part);
      if part <= a + b { PrefixAcross(a, b, part); }
      assert part <= a + b <==> part <= a;
    }
  }

  lemma LowerConcat(a: string, b: string)
    ensures Lower(a + b) == Lower(a) + Lower(b)
  {
  }

  predicate Mark(c: char) { LowerChar(c) !in NONE }

  /** The same for texts in any case of letters. */
  lemma SaysAcross(a: string, b: string)
    requires b != "" && Mark(b[0])
    ensures SaysNone(a + b) <==> SaysNone(a) || SaysNone(b)
  {
    LowerConcat(a, b);
    FindAcross(Lower(a), Lower(b), NONE);
  }

  lemma SaysNot(s: string, c: char, upper: char)
    requires c in NONE && c !in s && upper !in s && c == LowerChar(upper) && 'A' <= upper <= 'Z'
    ensures !SaysNone(s)
  {
    forall i | 0 <= i < |s| ensures Lower(s)[i] != c { assert s[i] != c && s[i] != upper; }
    NoneWithout(Lower(s), NONE, c);
  }

  ghost predicate SomeSays(names: seq<string>) { exists i :: 0 <= i < |names| && SaysNone(names[i]) }

  lemma QuotedSays(name: string)
    ensures SaysNone(Quoted(name)) <==> SaysNone(name)
  {
    TickMarks();
    SaysNot("`", 's', 'S');
    SaysAcross("`" + name, "`");
    assert Quoted(name) == ("`" + name) + "`";
    var low := Lower("`" + name);
    LowerConcat("`", name);
    assert low[1..] == Lower(name) && low[0] == '`' != NONE[0];
    SkipFirst(low);
  }

  lemma {:induction false} ListSays(names: seq<string>)
    requires names != []
    ensures SaysNone(QuotedList(names)) <==> SomeSays(names)
    ensures QuotedList(names) != "" && QuotedList(names)[0] == '`'
  {
    QuotedSays(names[0]);
    if |names| > 1 {
      var rest := QuotedList(names[1..]);
      ListSays(names[1..]);
      assert QuotedList(names) == (Quoted(names[0]) + ", ") + rest;
      SaysAcross(Quoted(names[0]) + ", ", rest);
      SaysAcross(Quoted(names[0]), ", ");
      SaysNot(", ", 's', 'S');
      assert SomeSays(names) <==> SaysNone(names[0]) || SomeSays(names[1..]) by {
        if SomeSays(names[1..]) {
          var i :| 0 <= i < |names[1..]| && SaysNone(names[1..][i]);
          assert SaysNone(names[i + 1]);
        }
        if SomeSays(names) && !SaysNone(names[0]) {
          var i :| 0 <= i < |names| && SaysNone(names[i]);
          assert SaysNone(names[1..][i - 1]);
        }
      }
    } else {
      assert names == [names[0]];
    }
  }

  lemma PartSays(caption: string, names: seq<string>)
    requires caption in {EXTRA, MISSING} && names != []
    ensures SaysNone(caption + QuotedList(Listed(names))) <==> SomeSays(Listed(names))
    ensures (caption + QuotedList(Listed(names)))[0] == 'A'
  {
    hide SaysNone;
    hide QuotedList;
    CaptionSays(caption);
    ListSays(Listed(names));
    TickMarks();
    SaysAcross(caption, QuotedList(Listed(names)));
  }

  lemma TickMarks()
    ensures Mark('`')
  {
  }

  lemma CaptionSays(caption: string)
    requires caption in {EXTRA, MISSING}
    ensures caption != "" && caption[0] == 'A' && !SaysNone(caption)
  {
    hide SaysNone;
    if caption == EXTRA { ExtraSays(caption); } else { MissingSays(caption); }
  }

  lemma ExtraSays(caption: string)
    requires caption == EXTRA
    ensures caption[0] == 'A' && !SaysNone(caption)
  {
    hide SaysNone;
    SaysNot(caption, 't', 'T');
  }

  lemma MissingSays(caption: string)
    requires caption == MISSING
    ensures caption[0] == 'A' && !SaysNone(caption)
  {
    hide SaysNone;
    SaysNot(caption, 'l', 'L');
  }

  lemma ThreeSay(a: string, b: string, c: string)
    requires !SaysNone(a) && !SaysNone(b) && !SaysNone(c) && b != "" && c != "" && Mark(b[0]) && Mark(c[0])
    ensures !SaysNone(a + (b + c))
  {
    hide SaysNone;
    assert (b + c)[0] == b[0];
    SaysAcross(b, c);
    SaysAcross(a, b + c);
  }

  lemma NoPlanHead(a: string)
    requires a == "Comparación no disponible "
    ensures 't' !in a && 'T' !in a
  {
  }

  lemma NoPlanMiddle(b: string)
    requires b == "— archivos listados sin "
    ensures b != "" && b[0] == '—' && 'e' !in b && 'E' !in b
  {
  }

  lemma NoPlanTail(c: string)
    requires c == "referencia al plan"
    ensures c != "" && c[0] == 'r' && 's' !in c && 'S' !in c
  {
  }

  lemma NoPlanSays()
    ensures !SaysNone(NO_PLAN)
  {
    NoPlanText("Comparación no disponible ", "— archivos listados sin ", "referencia al plan");
  }

  lemma NoPlanText(a: string, b: string, c: string)
    requires a == "Comparación no disponible " && b == "— archivos listados sin " && c == "referencia al plan"
    ensures !SaysNone(a + (b + c))
  {
    hide SaysNone;
    NoPlanHead(a);
    NoPlanMiddle(b);
    NoPlanTail(c);
    SaysNot(a, 't', 'T');
    SaysNot(b, 'e', 'E');
    SaysNot(c, 's', 'S');
    assert Mark('—') && Mark('r');
    ThreeSay(a, b, c);
  }

  lemma AsPlannedSays()
    ensures SaysNone(AS_PLANNED)
  {
    var d := " — implementación " + "conforme al plan";
    PrefixSays("Sin deltas", d);
  }

  lemma PrefixSays(a: string, d: string)
    requires a == "Sin deltas"
    ensures SaysNone(a + d)
  {
    LowerConcat(a, d);
    assert Lower(a) == NONE;
    assert NONE <= Lower(a + d);
  }

  // ── What counts as a difference ──────────────────────────────────

  function Names(files: seq<string>): set<string> { set f | f in files }

  /** The phase touched other files than planned. */
  ghost predicate Differs(p: Phase) {
    p.plan.Some? && Names(p.created + p.modified) != Names(p.plan.value)
  }

  lemma TwoParts(a: string, b: string)
    requires b != "" && b[0] == 'A'
    ensures SaysNone(Joined([a, b])) <==> SaysNone(a) || SaysNone(b)
  {
    assert [a, b][1..] == [b];
    assert Joined([a, b]) == a + ("; " + b);
    SaysAcross(a, "; " + b);
    SaysNot("; ", 's', 'S');
    SkipTwo(b);
  }

  lemma SkipTwo(b: string)
    ensures SaysNone("; " + b) <==> SaysNone(b)
  {
    LowerConcat("; ", b);
    var s := Lower("; " + b);
    assert NONE[0] == 's' && s[0] == ';' && s[1] == ' ';
    assert s[1..][1..] == Lower(b);
    SkipFirst(s);
    SkipFirst(s[1..]);
  }

  lemma SkipFirst(s: string)
    requires s != "" && s[0] != NONE[0]
    ensures Find(s, NONE).Some? <==> Find(s[1..], NONE).Some?
  {
  }

  /** When the text says that nothing differs. */
  lemma SaysNoneWhen(p: Phase)
    ensures SaysNone(DeltasOf(p)) <==>
      p.plan.Some? && (!Differs(p) || SomeSays(Listed(ExtraFiles(p))) || SomeSays(Listed(MissingFiles(p))))
    ensures DeltasOf(p) != ""
  {
    NoPlanSays();
    AsPlannedSays();
    if p.plan.Some? {
      var extra, missing := ExtraFiles(p), MissingFiles(p);
      SortedDifference(p.created + p.modified, p.plan.value);
      SortedDifference(p.plan.value, p.created + p.modified);
      NoneLeft(p);
      hide SaysNone;
      hide QuotedList;
      var a, b := EXTRA + QuotedList(Listed(extra)), MISSING + QuotedList(Listed(missing));
      if extra != [] { PartSays(EXTRA, extra); }
      if missing != [] { PartSays(MISSING, missing); }
      if extra != [] && missing != [] {
        TwoParts(a, b);
        assert [a] + [b] == [a, b];
      } else if extra != [] {
        assert [a] + [] == [a];
      } else if missing != [] {
        assert [] + [b] == [b];
      }
    }
  }

  lemma NoneLeft(p: Phase)
    requires p.plan.Some?
    ensures Differs(p) <==> ExtraFiles(p) != [] || MissingFiles(p) != []
  {
    var actual, plan := p.created + p.modified, p.plan.value;
    SortedDifference(actual, plan);
    SortedDifference(plan, actual);
    if ExtraFiles(p) != [] { assert ExtraFiles(p)[0] in ExtraFiles(p); }
    if MissingFiles(p) != [] { assert MissingFiles(p)[0] in MissingFiles(p); }
    if ExtraFiles(p) == [] && MissingFiles(p) == [] {
      forall f ensures f in actual <==> f in plan {
        assert f !in ExtraFiles(p) && f !in MissingFiles(p);
      }
    } else {
      var f := if ExtraFiles(p) != [] then ExtraFiles(p)[0] else MissingFiles(p)[0];
      assert (f in Names(actual)) != (f in Names(plan));
    }
  }

  /** A phase that reads back is counted as differing from its plan exactly when it does differ, and no file
      listed has the phrase in its name, or when it had no plan to differ from. */
  lemma CountedWhenDiffers(p: Phase)
    requires CleanPhase(p) && p.decisions != ["ninguna"] && |Words(Text.Join(PhaseLines(p), '\n'))| <= MAX_PHASE_TOKENS
    ensures TrimmedLines(PhaseText(p)) != []
    ensures HasDeltas(ParsePhase(TrimmedLines(PhaseText(p)))) <==>
      p.plan.None? || (Differs(p) && !SomeSays(Listed(ExtraFiles(p))) && !SomeSays(Listed(MissingFiles(p))))
  {
    PhaseReadsBack(p);
    SaysNoneWhen(p);
  }

  /** A file named after the phrase hides that it was not planned. */
  lemma PhraseInName()
    ensures var p := Phase(1, "Docs", "complete", ["sin deltas"], [], Some([]), [], [], None);
      Differs(p) && SaysNone(DeltasOf(p))
  {
    var p := Phase(1, "Docs", "complete", ["sin deltas"], [], Some([]), [], [], None);
    assert "sin deltas" in p.created + p.modified;
    SortedDifference(p.created + p.modified, []);
    NoneLeft(p);
    var extra := ExtraFiles(p);
    assert "sin deltas" in extra && extra[0] in extra && extra[0] == "sin deltas";
    assert Lower(extra[0]) == NONE;
    assert Listed(extra)[0] == extra[0] && SaysNone(Listed(extra)[0]);
    SaysNoneWhen(p);
  }
}
