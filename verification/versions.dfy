/** Engine versions as text (server/app_docs/registry.py:155-191): the numbers a version is compared by. */
module Versions {
  import opened Decimals
  import opened Registry
  import opened Wrappers

  /** `re.findall(r"\d+", version)`, as numbers. */
  function Numbers(s: string): seq<nat>
    decreases |s|
  {
    if s == "" then []
    else if !IsDigit(s[0]) then Numbers(s[1..])
    else
      var digits := LeadingDigits(s);
      LeadingLength(s);
      [Number(digits)] + Numbers(s[|digits|..])
  }

  lemma {:induction false} LeadingLength(s: string)
    ensures |LeadingDigits(s)| <= |s| && (s != "" && IsDigit(s[0]) ==> LeadingDigits(s) != "")
  {
    if s != "" && IsDigit(s[0]) { LeadingLength(s[1..]); }
  }

  /** `_semver_tuple` */
  function Semver(version: string): seq<nat> { if Numbers(version) == [] then [0] else Numbers(version) }

  /** `docs_for_version`: no version, and the version "unknown", are the same. */
  function DocsFor(docs: seq<CanonicalDoc>, version: Option<string>): seq<CanonicalDoc> {
    DocsForVersion(docs, if version in {None, Some("unknown")} then None else Some(Semver(version.value)))
  }

  /** The numbers with dots between. */
  function Dotted(numbers: seq<nat>): string {
    if numbers == [] then ""
    else if |numbers| == 1 then Digits(numbers[0])
    else Digits(numbers[0]) + ("." + Dotted(numbers[1..]))
  }

  lemma OneNumber(n: nat, rest: string)
    requires rest == "" || !IsDigit(rest[0])
    ensures Numbers(Digits(n) + rest) == [n] + Numbers(rest)
  {
    DigitsRead(n);
    LeadingDigitsThen(Digits(n), rest);
    var s := Digits(n) + rest;
    assert s[0] == Digits(n)[0] && s[|Digits(n)|..] == rest;
  }

  lemma DotSkipped(s: string)
    ensures Numbers("." + s) == Numbers(s)
  {
    assert ("." + s)[1..] == s;
  }

  lemma DottedMore(numbers: seq<nat>, suffix: string)
    requires |numbers| > 1
    ensures Dotted(numbers) + suffix == Digits(numbers[0]) + ("." + (Dotted(numbers[1..]) + suffix))
  {
    hide Digits;
  }

  lemma OneNumberMore(numbers: seq<nat>, suffix: string)
    requires |numbers| > 1
    requires Numbers(Dotted(numbers[1..]) + suffix) == numbers[1..] + Numbers(suffix)
    ensures Numbers(Dotted(numbers) + suffix) == numbers + Numbers(suffix)
  {
    hide Numbers;
    hide Dotted;
    hide Digits;
    var rest := Dotted(numbers[1..]) + suffix;
    DottedMore(numbers, suffix);
    OneNumber(numbers[0], "." + rest);
    DotSkipped(rest);
    assert numbers == [numbers[0]] + numbers[1..];
  }

  lemma {:induction false} NumbersRead(numbers: seq<nat>, suffix: string)
    requires numbers != [] && (suffix == "" || !IsDigit(suffix[0]))
    ensures Numbers(Dotted(numbers) + suffix) == numbers + Numbers(suffix)
  {
    if |numbers| == 1 {
      OneNumber(numbers[0], suffix);
    } else {
      hide Numbers;
      hide Dotted;
      NumbersRead(numbers[1..], suffix);
      OneNumberMore(numbers, suffix);
    }
  }

  lemma StartsWithDigit(numbers: seq<nat>)
    requires numbers != []
    ensures Dotted(numbers) != "" && IsDigit(Dotted(numbers)[0])
  {
    DigitsRead(numbers[0]);
  }

  /** A dotted version is read as its numbers, and whatever follows it adds those it has. */
  lemma VersionReads(docs: seq<CanonicalDoc>, numbers: seq<nat>, suffix: string)
    requires numbers != [] && (suffix == "" || !IsDigit(suffix[0]))
    ensures DocsFor(docs, Some(Dotted(numbers) + suffix)) == DocsForVersion(docs, Some(numbers + Numbers(suffix)))
  {
    NumbersRead(numbers, suffix);
    StartsWithDigit(numbers);
    assert "unknown"[0] == 'u' && (Dotted(numbers) + suffix)[0] == Dotted(numbers)[0];
  }

  /** A suffix never makes a version earlier: the documents a release has, its pre-releases have. */
  lemma SuffixKeepsDocs(docs: seq<CanonicalDoc>, numbers: seq<nat>, suffix: string, d: CanonicalDoc)
    requires numbers != [] && (suffix == "" || !IsDigit(suffix[0]))
    requires d in DocsFor(docs, Some(Dotted(numbers)))
    ensures d in DocsFor(docs, Some(Dotted(numbers) + suffix))
  {
    VersionReads(docs, numbers, suffix);
    VersionReads(docs, numbers, "");
    assert Dotted(numbers) + "" == Dotted(numbers) && numbers + Numbers("") == numbers;
    VersionOrder(numbers, numbers + Numbers(suffix));
    EligibleDocsGrow(docs, numbers, numbers + Numbers(suffix), d);
  }

  lemma {:induction false} NoDigits(name: string, rest: string)
    requires forall i :: 0 <= i < |name| ==> !IsDigit(name[i])
    ensures Numbers(name + rest) == Numbers(rest)
  {
    if name == "" {
      assert name + rest == rest;
    } else {
      assert (name + rest)[1..] == name[1..] + rest;
      NoDigits(name[1..], rest);
    }
  }

  lemma LongerIsLater(numbers: seq<nat>, n: nat)
    ensures !Earlier(numbers + [n], numbers)
  {
    forall i | 0 <= i < |numbers| ensures (numbers + [n])[i] == numbers[i] { }
  }

  /** The numbers of a suffix count, too: `6.0.0-rc.1` comes after `6.0.0`. */
  lemma PreReleaseIsLater(numbers: seq<nat>, name: string, n: nat)
    requires numbers != [] && name != "" && forall i :: 0 <= i < |name| ==> !IsDigit(name[i])
    ensures Semver(Dotted(numbers) + (name + Digits(n))) == numbers + [n] && !Earlier(numbers + [n], numbers)
  {
    NumbersRead(numbers, name + Digits(n));
    NoDigits(name, Digits(n));
    OneNumber(n, "");
    assert Digits(n) + "" == Digits(n) && [n] + Numbers("") == [n];
    LongerIsLater(numbers, n);
  }
}
