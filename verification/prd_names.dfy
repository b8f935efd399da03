/** What a phase's text says in words (server/delta_generator.py:19-92): the files its comparison names, and one
    phase written out. */
module PrdNames {
  import opened Decimals
  import opened Wrappers
  import opened PrdText
  import opened PrdRoundTrip
  import opened PrdDeltas

  lemma ListMore(files: seq<string>, rest: string)
    requires |files| > 1
    ensures QuotedList(files) + rest == Quoted(files[0]) + (", " + (QuotedList(files[1..]) + rest))
  {
  }

  lemma {:induction false} ListThen(files: seq<string>, rest: string)
    requires FileNames(files)
    ensures Backticked(QuotedList(files) + rest) == files + Backticked(rest)
  {
    if files == [] {
      assert QuotedList(files) + rest == rest;
    } else if |files| == 1 {
      OneBackticked(files[0], rest);
    } else {
      ListThen(files[1..], rest);
      ListStep(files, rest);
    }
  }

  lemma ListStep(files: seq<string>, rest: string)
    requires |files| > 1 && FileName(files[0])
    requires Backticked(QuotedList(files[1..]) + rest) == files[1..] + Backticked(rest)
    ensures Backticked(QuotedList(files) + rest) == files + Backticked(rest)
  {
    ListMore(files, rest);
    hide *;
    var more := QuotedList(files[1..]) + rest;
    OneBackticked(files[0], ", " + more);
    SkipTo(", ", more);
    assert files == [files[0]] + files[1..];
  }

  lemma NameIsOld(files: seq<string>, others: seq<string>)
    requires FileNames(files)
    ensures FileNames(Listed(SortedWithout(files, others)))
  {
    SortedDifference(files, others);
    var names := SortedWithout(files, others);
    forall i | 0 <= i < |Listed(names)| ensures FileName(Listed(names)[i]) {
      assert names[i] in names;
    }
  }

  lemma TextNamed(caption: string, files: seq<string>, rest: string)
    requires '`' !in caption && FileNames(files)
    ensures Backticked((caption + QuotedList(files)) + rest) == files + Backticked(rest)
  {
    hide Backticked;
    hide QuotedList;
    ListThen(files, rest);
    assert (caption + QuotedList(files)) + rest == caption + (QuotedList(files) + rest);
    SkipTo(caption, QuotedList(files) + rest);
  }

  lemma TextsNamed(a: string, extra: seq<string>, b: string, missing: seq<string>)
    requires '`' !in a && '`' !in b && FileNames(extra) && FileNames(missing)
    ensures Backticked(a + QuotedList(extra)) == extra
    ensures Backticked((a + QuotedList(extra)) + ("; " + (b + QuotedList(missing)))) == extra + missing
  {
    NoBackticks("");
    hide Backticked;
    hide QuotedList;
    var s, t := a + QuotedList(extra), b + QuotedList(missing);
    TextNamed(a, extra, "");
    TextNamed(a, extra, "; " + t);
    SkipTo("; ", t);
    TextNamed(b, missing, "");
    assert s + "" == s && t + "" == t && extra + [] == extra && missing + [] == missing;
  }

  lemma NoTicks()
    ensures '`' !in EXTRA && '`' !in MISSING && '`' !in AS_PLANNED
  {
  }

  /** A phase with a plan names, between backticks, its first five unplanned files and then the first five planned
      ones it did not touch, both in order, and nothing else. */
  lemma DeltasNameFiles(p: Phase)
    requires p.plan.Some? && FileNames(p.created) && FileNames(p.modified) && FileNames(p.plan.value)
    ensures Backticked(DeltasOf(p)) == Listed(ExtraFiles(p)) + Listed(MissingFiles(p))
  {
    NoTicks();
    NameIsOld(p.created + p.modified, p.plan.value);
    NameIsOld(p.plan.value, p.created + p.modified);
    var extra, missing := ExtraFiles(p), MissingFiles(p);
    var a, b := EXTRA + QuotedList(Listed(extra)), MISSING + QuotedList(Listed(missing));
    TextsNamed(EXTRA, Listed(extra), MISSING, Listed(missing));
    TextsNamed(MISSING, Listed(missing), MISSING, []);
    NoBackticks(AS_PLANNED);
    DeltasSpelled(p, a, b);
  }

  lemma DeltasSpelled(p: Phase, a: string, b: string)
    requires p.plan.Some?
    requires a == EXTRA + QuotedList(Listed(ExtraFiles(p))) && b == MISSING + QuotedList(Listed(MissingFiles(p)))
    ensures DeltasOf(p) ==
      if ExtraFiles(p) != [] then (if MissingFiles(p) != [] then a + ("; " + b) else a)
      else if MissingFiles(p) != [] then b else AS_PLANNED
  {
    var parts := DeltaPart(EXTRA, ExtraFiles(p)) + DeltaPart(MISSING, MissingFiles(p));
    if ExtraFiles(p) != [] && MissingFiles(p) != [] {
      assert parts == [a, b] && parts[1..] == [b] && Joined([b]) == b;
      assert a + "; " + b == a + ("; " + b);
      assert Joined(parts) == a + "; " + b;
    } else if ExtraFiles(p) != [] {
      assert parts == [a];
    } else if MissingFiles(p) != [] {
      assert parts == [b];
    } else {
      assert parts == [];
    }
  }

  // ── One phase written out ────────────────────────────────────────

  const EXAMPLE := Phase(
    2, "API", "failed", ["b", "a"], [], Some(["c", "b"]), ["x"], [Healing("lint", true), Healing("build", false)],
    Some("boom"))

  lemma ExampleFiles()
    ensures ExtraFiles(EXAMPLE) == ["a"] && MissingFiles(EXAMPLE) == ["c"]
  {
    var p := EXAMPLE;
    var actual := p.created + p.modified;
    SortedDifference(actual, p.plan.value);
    SortedDifference(p.plan.value, actual);
    assert actual == ["b", "a"];
    Single(ExtraFiles(p), "a");
    Single(MissingFiles(p), "c");
  }

  lemma Single(names: seq<string>, name: string)
    requires Ascending(names) && forall f :: f in names <==> f == name
    ensures names == [name]
  {
    assert name in names;
    assert |names| > 1 ==> names[0] != names[1];
    forall i | 0 <= i < |names| ensures names[i] == name { assert names[i] in names; }
  }

  lemma FiveParts(a: string, b: string, c: string, d: string, e: string)
    ensures (a + b) + (c + (d + e)) == a + b + c + d + e
  {
  }

  lemma ExampleDeltas()
    ensures DeltasOf(EXAMPLE) == "Archivos adicionales: " + "`a`" + "; " + "Archivos esperados no tocados: " + "`c`"
  {
    ExampleFiles();
    FiveParts(EXTRA, "`a`", "; ", MISSING, "`c`");
    var a, b := EXTRA + "`a`", MISSING + "`c`";
    OneName("a");
    OneName("c");
    DeltasSpelled(EXAMPLE, a, b);
  }

  lemma OneName(name: string)
    ensures QuotedList(Listed([name])) == "`" + name + "`"
  {
    assert Listed([name]) == [name];
  }

  lemma ExampleValues()
    ensures FormatFileList(EXAMPLE.created) == "`b`, `a`" && FormatFileList(EXAMPLE.modified) == "ninguno"
    ensures DecisionsText(EXAMPLE.decisions) == "x" && ErrorText(EXAMPLE.errorSummary) == "boom"
    ensures HealingText(Healing("lint", true)) == "lint — resuelto"
    ensures HealingText(Healing("build", false)) == "build — no resuelto"
    ensures Digits(2) == "2"
  {
    assert ["b", "a"][1..] == ["a"];
  }

  lemma FieldLinesMore(fs: seq<Labelled>, f: Labelled)
    ensures FieldLines(fs + [f]) == FieldLines(fs) + [FieldLine(f)]
  {
    assert (fs + [f])[..|fs|] == fs;
  }

  lemma ExampleHealing()
    ensures HealingFields(EXAMPLE.healing) == [
      Labelled("Self-healing", SelfHealing, "lint — resuelto"),
      Labelled("Self-healing", SelfHealing, "build — no resuelto")]
  {
    ExampleValues();
    var hs := EXAMPLE.healing;
    assert hs[..1] == [hs[0]] && hs[..1][..0] == [];
    assert HealingFields(hs[..1]) == [Labelled("Self-healing", SelfHealing, "lint — resuelto")];
  }

  /** One phase, word for word. */
  lemma ExampleWritten()
    ensures PhaseLines(EXAMPLE) == [
      "#### Fase " + "2" + ": " + "API",
      "- **" + "Estado" + ":** " + "failed",
      "- **" + "Archivos creados" + ":** " + "`b`, `a`",
      "- **" + "Archivos modificados" + ":** " + "ninguno",
      "- **" + "Deltas vs plan" + ":** " + DeltasOf(EXAMPLE),
      "- **" + "Decisiones" + ":** " + "x",
      "- **" + "Self-healing" + ":** " + "lint — resuelto",
      "- **" + "Self-healing" + ":** " + "build — no resuelto",
      "- **" + "Error" + ":** " + "boom"]
  {
    var p := EXAMPLE;
    ExampleValues();
    ExampleHealing();
    hide FormatFileList;
    hide DecisionsText;
    hide ErrorText;
    hide HealingText;
    hide HealingFields;
    hide DeltasOf;
    var a := [Labelled("Estado", Estado, "failed")];
    var b := a + [Labelled("Archivos creados", Creados, "`b`, `a`")];
    var c := b + [Labelled("Archivos modificados", Modificados, "ninguno")];
    var d := c + [Labelled("Deltas vs plan", Deltas, DeltasOf(p))];
    var e := d + [Labelled("Decisiones", Decisiones, "x")];
    var f := e + [Labelled("Self-healing", SelfHealing, "lint — resuelto")];
    var g := f + [Labelled("Self-healing", SelfHealing, "build — no resuelto")];
    var h := g + [Labelled("Error", Error, "boom")];
    assert FirstFields(p) == e;
    assert Fields(p) == h;
    OneField(a[0]);
    FieldLinesMore(a, b[1]);
    FieldLinesMore(b, c[2]);
    FieldLinesMore(c, d[3]);
    FieldLinesMore(d, e[4]);
    FieldLinesMore(e, f[5]);
    FieldLinesMore(f, g[6]);
    FieldLinesMore(g, h[7]);
  }
}
