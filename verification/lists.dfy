/** Filters on lists, as list comprehensions use them, lists that only grow at the end, and places in a list. */
module Lists {

  /** `b` is `a` with more at the end. */
  predicate Grown<T(==)>(a: seq<T>, b: seq<T>) { |a| <= |b| && b[..|a|] == a }

  lemma GrownTwice<T>(a: seq<T>, b: seq<T>, c: seq<T>)
    requires Grown(a, b) && Grown(b, c)
    ensures Grown(a, c)
  {
    assert c[..|a|] == c[..|b|][..|a|];
  }

  /** `[x for x in s if p(x)]`. */
  function Filter<T(!new)>(p: T -> bool, s: seq<T>): seq<T> {
    if s == [] then []
    else Filter(p, s[..|s| - 1]) + if p(s[|s| - 1]) then [s[|s| - 1]] else []
  }

  lemma {:induction false} FilterIn<T(!new)>(p: T -> bool, s: seq<T>, x: T)
    ensures x in Filter(p, s) <==> x in s && p(x)
  {
    if s != [] {
      FilterIn(p, s[..|s| - 1], x);
      assert s == s[..|s| - 1] + [s[|s| - 1]];
    }
  }

  lemma {:induction false} FilterConcat<T(!new)>(p: T -> bool, a: seq<T>, b: seq<T>)
    ensures Filter(p, a + b) == Filter(p, a) + Filter(p, b)
  {
    if b == [] {
      assert a + b == a;
    } else {
      assert (a + b)[..|a + b| - 1] == a + b[..|b| - 1];
      FilterConcat(p, a, b[..|b| - 1]);
    }
  }

  function Only<T(!new)>(p: T -> bool, x: T): seq<T> { if p(x) then [x] else [] }

  lemma FilterMore<T(!new)>(p: T -> bool, a: seq<T>, x: T)
    ensures Filter(p, a + [x]) == Filter(p, a) + Only(p, x)
  {
    assert (a + [x])[..|a|] == a;
  }

  lemma FilterMiddle<T(!new)>(p: T -> bool, a: seq<T>, x: T, b: seq<T>)
    ensures Filter(p, a + [x] + b) == Filter(p, a) + Only(p, x) + Filter(p, b)
  {
    FilterMore(p, a, x);
    FilterConcat(p, a + [x], b);
  }

  lemma Around<T>(s: seq<T>, i: nat)
    requires i < |s|
    ensures s[..i] + [s[i]] + s[i + 1..] == s
  {
  }

  lemma FilterAround<T(!new)>(p: T -> bool, s: seq<T>, i: nat)
    requires i < |s|
    ensures Filter(p, s) == Filter(p, s[..i]) + Only(p, s[i]) + Filter(p, s[i + 1..])
  {
    var a, x, b := s[..i], s[i], s[i + 1..];
    Around(s, i);
    FilterMiddle(p, a, x, b);
  }

  /** Replacing one element replaces its share of the filtered list. */
  lemma FilterUpdate<T(!new)>(p: T -> bool, s: seq<T>, i: nat, x: T)
    requires i < |s|
    ensures Filter(p, s[i := x]) == Filter(p, s[..i]) + Only(p, x) + Filter(p, s[i + 1..])
  {
    FilterMiddle(p, s[..i], x, s[i + 1..]);
    assert s[i := x] == s[..i] + [x] + s[i + 1..];
  }

  lemma {:induction false} FilterNone<T(!new)>(p: T -> bool, s: seq<T>)
    requires forall x :: x in s ==> !p(x)
    ensures Filter(p, s) == []
  {
    if s != [] { FilterNone(p, s[..|s| - 1]); }
  }

  /** What `q` drops, `p` would have dropped. */
  lemma {:induction false} FilterKept<T(!new)>(p: T -> bool, q: T -> bool, s: seq<T>)
    requires forall x :: p(x) ==> q(x)
    ensures Filter(p, Filter(q, s)) == Filter(p, s)
  {
    if s != [] {
      var front, last := s[..|s| - 1], s[|s| - 1];
      FilterKept(p, q, front);
      if q(last) {
        FilterMore(p, Filter(q, front), last);
      } else {
        assert Filter(q, front) + [] == Filter(q, front);
      }
    }
  }

  /** Dropping nothing. */
  lemma {:induction false} FilterAll<T(!new)>(p: T -> bool, s: seq<T>)
    ensures |Filter(p, s)| <= |s|
    ensures |Filter(p, s)| == |s| <==> forall x :: x in s ==> p(x)
    ensures |Filter(p, s)| == |s| ==> Filter(p, s) == s
  {
    if s != [] {
      var front, last := s[..|s| - 1], s[|s| - 1];
      FilterAll(p, front);
      assert s == front + [last];
      assert forall x :: x in s <==> x in front || x == last;
    }
  }

  // ── Places in a list ─────────────────────────────────────────────

  /** Strictly increasing. */
  predicate Increasing(at: seq<nat>) { forall i, j :: 0 <= i < j < |at| ==> at[i] < at[j] }

  /** The places one further on, and 0 in front of them if `first`. */
  function Shifted(first: bool, rest: seq<nat>): seq<nat> {
    (if first then [0] else []) + seq(|rest|, k requires 0 <= k < |rest| => rest[k] + 1)
  }

  lemma ShiftedIn(first: bool, rest: seq<nat>, i: nat)
    ensures i in Shifted(first, rest) <==> if i == 0 then first else i - 1 in rest
  {
    var later := seq(|rest|, k requires 0 <= k < |rest| => rest[k] + 1);
    if i > 0 && i - 1 in rest {
      var k :| 0 <= k < |rest| && rest[k] == i - 1;
      assert later[k] == i;
    }
  }

  lemma ShiftedRises(first: bool, rest: seq<nat>)
    requires Increasing(rest)
    ensures Increasing(Shifted(first, rest))
  {
  }
}
