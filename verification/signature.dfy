/** The signature of a document (`compute_signature`), before hashing. */
module Signature {
  import opened Strings
  import Text
  import opened Zones

  const NUL := '\0'

  /** What a signature is about: not where a zone lies, nor its sync attributes. */
  datatype Fact = Fact(id: string, kind: Kind, body: string)

  function FactOf(z: Zone): Fact { Fact(z.id, z.kind, z.body) }

  function Facts(zones: seq<Zone>): seq<Fact> { seq(|zones|, i requires 0 <= i < |zones| => FactOf(zones[i])) }

  /** Insert after every zone whose id is at most as large: the sort is stable. */
  function Insert(sorted: seq<Zone>, z: Zone): (out: seq<Zone>)
    ensures multiset(out) == multiset(sorted) + multiset{z}
  {
    if sorted == [] then [z]
    else
      var last := sorted[|sorted| - 1];
      assert sorted == sorted[..|sorted| - 1] + [last];
      if AtMost(last.id, z.id) then sorted + [z]
      else Insert(sorted[..|sorted| - 1], z) + [last]
  }

  /** `sorted(zones, key=lambda z: z.id)`. */
  function SortById(zones: seq<Zone>): (out: seq<Zone>)
    ensures multiset(out) == multiset(zones)
  {
    if zones == [] then []
    else
      assert zones == zones[..|zones| - 1] + [zones[|zones| - 1]];
      Insert(SortById(zones[..|zones| - 1]), zones[|zones| - 1])
  }

  ghost predicate Sorted(zones: seq<Zone>) {
    forall i, j :: 0 <= i < j < |zones| ==> AtMost(zones[i].id, zones[j].id)
  }

  lemma {:induction false} InsertSorts(sorted: seq<Zone>, z: Zone)
    requires Sorted(sorted)
    ensures Sorted(Insert(sorted, z))
  {
    if sorted != [] {
      var front, last := sorted[..|sorted| - 1], sorted[|sorted| - 1];
      AtMostTotal(last.id, z.id);
      if AtMost(last.id, z.id) {
        forall i | 0 <= i < |front| ensures AtMost(sorted[i].id, z.id) {
          AtMostTransitive(sorted[i].id, last.id, z.id);
        }
      } else {
        InsertSorts(front, z);
        var out := Insert(front, z);
        forall i | 0 <= i < |out| ensures AtMost(out[i].id, last.id) {
          assert out[i] in multiset(out);
          assert out[i] in front || out[i] == z;
        }
      }
    }
  }

  lemma {:induction false} SortSorts(zones: seq<Zone>)
    ensures Sorted(SortById(zones))
  {
    if zones != [] {
      SortSorts(zones[..|zones| - 1]);
      InsertSorts(SortById(zones[..|zones| - 1]), zones[|zones| - 1]);
    }
  }

  /** What one zone feeds to the hasher. */
  function Fed(f: Fact): string {
    f.id + [NUL] + KindName(f.kind) + [NUL] + f.body + [NUL, NUL]
  }

  function FedAll(facts: seq<Fact>): string {
    if facts == [] then "" else FedAll(facts[..|facts| - 1]) + Fed(facts[|facts| - 1])
  }

  /** Everything the hasher is fed for a document. */
  function PreHash(zones: seq<Zone>): string { FedAll(Facts(SortById(zones))) }

  /** `compute_signature` up to the digest: the hasher is fed zone by zone. */
  method ComputeSignature(zones: seq<Zone>) returns (fed: string)
    ensures fed == PreHash(zones)
  {
    fed := "";
    var ordered := SortById(zones);
    for i := 0 to |ordered|
      invariant fed == FedAll(Facts(ordered)[..i])
    {
      var z := ordered[i];
      fed := fed + (z.id + [NUL] + KindName(z.kind) + [NUL] + z.body + [NUL, NUL]);
      assert Facts(ordered)[..i + 1][..i] == Facts(ordered)[..i];
    }
    assert Facts(ordered)[..|ordered|] == Facts(ordered);
  }

  ghost predicate NulFree(zones: seq<Zone>) {
    forall i :: 0 <= i < |zones| ==> NUL !in zones[i].id && NUL !in zones[i].body
  }

  ghost predicate UniqueIds(zones: seq<Zone>) {
    forall i, j :: 0 <= i < j < |zones| ==> zones[i].id != zones[j].id
  }

  ghost function FactSet(zones: seq<Zone>): set<Fact> { set z | z in zones :: FactOf(z) }

  /** The fields of the fed text, between NULs. */
  function Fields(facts: seq<Fact>): seq<string> {
    if facts == [] then []
    else
      var f := facts[|facts| - 1];
      Fields(facts[..|facts| - 1]) + Row(f)
  }

  lemma {:induction false} FedIsJoin(facts: seq<Fact>)
    ensures |Fields(facts)| == 4 * |facts|
    ensures FedAll(facts) == Text.Join(Fields(facts) + [""], NUL)
  {
    if facts == [] {
      assert Fields(facts) + [""] == [""];
    } else {
      var front, f := facts[..|facts| - 1], facts[|facts| - 1];
      FedIsJoin(front);
      var row := [f.id, KindName(f.kind), f.body, "", ""];
      assert Fields(facts) + [""] == Fields(front) + row by { assert Row(f) + [""] == row; }
      RowIsFed(f);
      if Fields(front) == [] {
        assert Fields(front) + row == row;
        assert FedAll(facts) == Text.Join(row, NUL);
      } else {
        Text.JoinConcat(Fields(front), row, NUL);
        Text.JoinConcat(Fields(front), [""], NUL);
        assert FedAll(front) == Text.Join(Fields(front), NUL) + [NUL];
      }
    }
  }

  lemma RowIsFed(f: Fact)
    ensures Text.Join([f.id, KindName(f.kind), f.body, "", ""], NUL) == Fed(f)
  {
    var row := [f.id, KindName(f.kind), f.body, "", ""];
    assert row[1..] == [KindName(f.kind), f.body, "", ""];
    assert row[1..][1..] == [f.body, "", ""];
    assert row[1..][1..][1..] == ["", ""];
    assert Text.Join(["", ""], NUL) == [NUL];
    assert Text.Join([f.body, "", ""], NUL) == f.body + [NUL] + [NUL];
  }

  lemma {:induction false} FieldsNulFree(facts: seq<Fact>)
    requires forall i :: 0 <= i < |facts| ==> NUL !in facts[i].id && NUL !in facts[i].body
    ensures forall i :: 0 <= i < |Fields(facts)| ==> NUL !in Fields(facts)[i]
  {
    if facts != [] { FieldsNulFree(facts[..|facts| - 1]); }
  }

  lemma AppendInjective(x: seq<string>, r: seq<string>, y: seq<string>, t: seq<string>)
    requires x + r == y + t && |r| == |t|
    ensures x == y && r == t
  {
    assert x == (x + r)[..|x|] && y == (y + t)[..|x|];
    assert r == (x + r)[|x|..] && t == (y + t)[|x|..];
  }

  function Row(f: Fact): seq<string> { [f.id, KindName(f.kind), f.body, ""] }

  lemma RowInjective(f: Fact, g: Fact)
    requires Row(f) == Row(g)
    ensures f == g
  {
    assert Row(f)[0] == Row(g)[0] && Row(f)[2] == Row(g)[2];
    assert Row(f)[1] == Row(g)[1] && KindName(f.kind)[0] == KindName(g.kind)[0];
  }

  lemma {:induction false} FieldsInjective(a: seq<Fact>, b: seq<Fact>)
    requires Fields(a) == Fields(b)
    ensures a == b
  {
    FedIsJoin(a);
    FedIsJoin(b);
    if a != [] {
      var n := |a| - 1;
      AppendInjective(Fields(a[..n]), Row(a[n]), Fields(b[..n]), Row(b[n]));
      RowInjective(a[n], b[n]);
      FieldsInjective(a[..n], b[..n]);
      assert a == a[..n] + [a[n]] && b == b[..n] + [b[n]];
    }
  }

  /** The fed text determines the facts, in order. */
  lemma FedInjective(a: seq<Fact>, b: seq<Fact>)
    requires forall i :: 0 <= i < |a| ==> NUL !in a[i].id && NUL !in a[i].body
    requires forall i :: 0 <= i < |b| ==> NUL !in b[i].id && NUL !in b[i].body
    requires FedAll(a) == FedAll(b)
    ensures a == b
  {
    FedIsJoin(a);
    FedIsJoin(b);
    FieldsNulFree(a);
    FieldsNulFree(b);
    Text.SplitJoin(Fields(a) + [""], NUL);
    Text.SplitJoin(Fields(b) + [""], NUL);
    assert Fields(a) == (Fields(a) + [""])[..|Fields(a)|];
    assert Fields(b) == (Fields(b) + [""])[..|Fields(b)|];
    FieldsInjective(a, b);
  }

  ghost predicate StrictlySorted(facts: seq<Fact>) {
    forall i, j :: 0 <= i < j < |facts| ==> AtMost(facts[i].id, facts[j].id) && facts[i].id != facts[j].id
  }

  /** Facts have one strictly sorted listing. */
  lemma {:induction false} SortedListingUnique(a: seq<Fact>, b: seq<Fact>)
    requires StrictlySorted(a) && StrictlySorted(b)
    requires forall f :: f in a <==> f in b
    ensures a == b
  {
    assert (a != [] ==> a[0] in a) && (b != [] ==> b[0] in b);
    if a != [] && b != [] {
      var n, m := |a| - 1, |b| - 1;
      assert a[n] in b && b[m] in a;
      AtMostTotal(a[n].id, b[m].id);
      assert a[n] == b[m];
      forall f ensures f in a[..n] <==> f in b[..m] {
        assert f in a <==> f in a[..n] || f == a[n];
        assert f in b <==> f in b[..m] || f == b[m];
      }
      SortedListingUnique(a[..n], b[..m]);
      assert a == a[..n] + [a[n]] && b == b[..m] + [b[m]];
    }
  }

  lemma {:induction false} InsertUnique(sorted: seq<Zone>, z: Zone)
    requires UniqueIds(sorted) && forall i :: 0 <= i < |sorted| ==> sorted[i].id != z.id
    ensures UniqueIds(Insert(sorted, z))
  {
    if sorted != [] && !AtMost(sorted[|sorted| - 1].id, z.id) {
      var front, last := sorted[..|sorted| - 1], sorted[|sorted| - 1];
      InsertUnique(front, z);
      var out := Insert(front, z);
      forall i | 0 <= i < |out| ensures out[i].id != last.id {
        assert out[i] in multiset(out);
        assert out[i] in front || out[i] == z;
      }
    }
  }

  lemma {:induction false} SortUnique(zones: seq<Zone>)
    requires UniqueIds(zones)
    ensures UniqueIds(SortById(zones))
  {
    if zones != [] {
      var front, z := zones[..|zones| - 1], zones[|zones| - 1];
      SortUnique(front);
      var out := SortById(front);
      forall i | 0 <= i < |out| ensures out[i].id != z.id {
        assert out[i] in multiset(out);
        assert out[i] in front;
      }
      InsertUnique(out, z);
    }
  }

  lemma SortKeeps(zones: seq<Zone>)
    requires UniqueIds(zones)
    ensures StrictlySorted(Facts(SortById(zones)))
    ensures forall z :: z in SortById(zones) <==> z in zones
  {
    SortSorts(zones);
    SortUnique(zones);
    forall z ensures z in SortById(zones) <==> z in zones {
      assert z in multiset(SortById(zones)) <==> z in multiset(zones);
    }
  }

  lemma FactsAreSet(zones: seq<Zone>, sorted: seq<Zone>, f: Fact)
    requires forall z :: z in sorted <==> z in zones
    ensures f in Facts(sorted) <==> f in FactSet(zones)
  {
    if f in FactSet(zones) {
      var z :| z in zones && FactOf(z) == f;
      var i :| 0 <= i < |sorted| && sorted[i] == z;
      assert Facts(sorted)[i] == f;
    }
    if f in Facts(sorted) {
      var i :| 0 <= i < |sorted| && Facts(sorted)[i] == f;
      assert sorted[i] in zones;
    }
  }

  /** The signature is exact: two documents with unique ids and no NUL are fed alike if and only if
      they have the same zones, kinds and bodies, in whatever order and whatever stands around them. */
  lemma PreHashExact(a: seq<Zone>, b: seq<Zone>)
    requires UniqueIds(a) && UniqueIds(b) && NulFree(a) && NulFree(b)
    ensures PreHash(a) == PreHash(b) <==> FactSet(a) == FactSet(b)
  {
    var x, y := SortById(a), SortById(b);
    SortKeeps(a);
    SortKeeps(b);
    forall f ensures f in Facts(x) <==> f in FactSet(a) { FactsAreSet(a, x, f); }
    forall f ensures f in Facts(y) <==> f in FactSet(b) { FactsAreSet(b, y, f); }
    if PreHash(a) == PreHash(b) {
      SortedNulFree(a, x);
      SortedNulFree(b, y);
      FedInjective(Facts(x), Facts(y));
    }
    if FactSet(a) == FactSet(b) {
      SortedListingUnique(Facts(x), Facts(y));
    }
  }

  lemma SortedNulFree(zones: seq<Zone>, sorted: seq<Zone>)
    requires NulFree(zones) && forall z :: z in sorted <==> z in zones
    ensures forall i :: 0 <= i < |Facts(sorted)| ==> NUL !in Facts(sorted)[i].id && NUL !in Facts(sorted)[i].body
  {
    forall i | 0 <= i < |sorted| ensures NUL !in sorted[i].id && NUL !in sorted[i].body {
      assert sorted[i] in zones;
    }
  }

  /** Two zones out of order, as they are fed to the hasher. */
  lemma TwoZonesFed(late: Zone, early: Zone)
    requires late.id == "b" && late.kind == Auto && late.body == "y"
    requires early.id == "a" && early.kind == Manual && early.body == "x"
    ensures PreHash([late, early])
      == "a" + [NUL] + "manual" + [NUL] + "x" + [NUL, NUL] + "b" + [NUL] + "auto" + [NUL] + "y" + [NUL, NUL]
  {
    TwoZonesSorted(late, early);
    var a, b := FactOf(early), FactOf(late);
    assert Facts([early, late]) == [a, b];
    TwoFactsFed(a, b);
    hide SortById;
    hide FedAll;
    hide Facts;
  }

  lemma TwoZonesSorted(late: Zone, early: Zone)
    requires late.id == "b" && early.id == "a"
    ensures SortById([late, early]) == [early, late]
  {
    assert [late, early][..1] == [late] && [late][..0] == [];
    assert SortById([late]) == [late];
    assert !AtMost("b", "a");
  }

  lemma TwoFactsFed(a: Fact, b: Fact)
    ensures FedAll([a, b]) == Fed(a) + Fed(b)
  {
    hide Fed;
    assert [a, b][..1] == [a] && [a][..0] == [];
    assert FedAll([a]) == Fed(a);
  }
}
