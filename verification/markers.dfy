/** The marker grammar of zone documents (server/app_docs/zones.py): what one line of the program's documents
    says. Patterns ignore the case of ASCII letters. */
module Markers {
  import Text
  import opened Strings
  import opened Wrappers
  import opened Zones

  /** What follows `<!-- @specbox:zone ` at the start of a text. */
  function AfterOpening(s: string): Option<string> {
    if !StartsWith(s, "<!--") then None
    else
      var t := LStrip(s[4..]);
      if |t| < 14 || Lower(t[..13]) != "@specbox:zone" || !IsSpace(t[13]) then None else Some(LStrip(t[13..]))
  }

  /** The attributes of a start marker at the start of a text: everything up to the first `>`, which must close
      the marker; at least one character. */
  function StartAt(s: string): Option<string> {
    match AfterOpening(s)
    case None => None
    case Some(t) =>
      if |t| < 6 || Lower(t[..5]) != "start" || !IsSpace(t[5]) then None
      else
        var r := t[5..];
        var g := IndexOf(r, '>');
        if 4 <= g < |r| && r[g - 2..g] == "--" then Some(r[1..g - 2]) else None
  }

  predicate EndAt(s: string) {
    var t := AfterOpening(s);
    t.Some? && |t.value| >= 3 && Lower(t.value[..3]) == "end" && StartsWith(LStrip(t.value[3..]), "-->")
  }

  /** The first start marker of a line. */
  function FindStart(line: string): Option<string> {
    if StartAt(line).Some? then StartAt(line) else if line == "" then None else FindStart(line[1..])
  }

  predicate HasEnd(line: string) { EndAt(line) || (line != "" && HasEnd(line[1..])) }

  // ── Attributes ───────────────────────────────────────────────────

  predicate IsWord(c: char) { 'a' <= c <= 'z' || 'A' <= c <= 'Z' || '0' <= c <= '9' || c == '_' }

  function WordLength(s: string): (n: nat)
    ensures n <= |s|
  {
    if s == "" || !IsWord(s[0]) then 0 else 1 + WordLength(s[1..])
  }

  /** `name="value"` at the start of a text: name, value and what follows. */
  function AttrAt(s: string): (attr: Option<(string, string, string)>)
    ensures attr.Some? ==> |attr.value.2| < |s|
  {
    var t := LStrip(s[WordLength(s)..]);
    LStripShorter(s[WordLength(s)..]);
    if t == "" || t[0] != '=' then None
    else
      var u := LStrip(t[1..]);
      LStripShorter(t[1..]);
      if u == "" || u[0] != '"' then None
      else
        var q := IndexOf(u[1..], '"');
        if q == |u| - 1 then None else Some((s[..WordLength(s)], u[1..q + 1], u[q + 2..]))
  }

  /** `_parse_attrs`: of two attributes with a name the last counts. */
  function Attrs(s: string): map<string, string>
    decreases |s|
  {
    if s == "" then map[]
    else if !IsWord(s[0]) then Attrs(s[1..])
    else
      match AttrAt(s)
      case None => Attrs(s[WordLength(s)..])
      case Some((name, value, rest)) => map[name := value] + Attrs(rest)
  }

  function KindOf(name: string): Option<Kind> {
    match name
    case "manual" => Some(Manual)
    case "auto" => Some(Auto)
    case "hybrid" => Some(Hybrid)
    case _ => None
  }

  function Get(m: map<string, string>, name: string): string { if name in m then m[name] else "" }

  function Lookup(m: map<string, string>, name: string): Option<string> { if name in m then Some(m[name]) else None }

  function StartMark(m: map<string, string>): Mark {
    var kind := KindOf(Get(m, "kind"));
    if kind.None? then BadStart("invalid kind")
    else if Get(m, "id") == "" then BadStart("missing id")
    else
      var events := Stripped(Text.Split(Get(m, "auto_sync_on"), ','));
      Start(kind.value, m["id"], events, Lookup(m, "merge"), Lookup(m, "status"))
  }

  /** The marker reader of the program. */
  function Read(line: string): Mark {
    var start := FindStart(line);
    if start.Some? && HasEnd(line) then Both
    else if start.Some? then StartMark(Attrs(start.value))
    else if HasEnd(line) then End
    else Plain
  }

  // ── Lines that are no markers ────────────────────────────────────

  /** A line without a comment opening is plain. */
  lemma {:induction false} NoCommentIsPlain(line: string)
    requires Find(line, "<!--") == None
    ensures Read(line) == Plain
  {
    NoCommentNoMark(line);
  }

  lemma {:induction false} NoCommentNoMark(line: string)
    requires Find(line, "<!--") == None
    ensures FindStart(line) == None && !HasEnd(line)
  {
    assert StartsWith(line, "<!--") ==> "<!--" <= line;
    if line != "" { NoCommentNoMark(line[1..]); }
  }

  const ZONE_TAG := "@specbox:zone"

  /** No comment opening, or no zone tag in any case of letters. */
  predicate Innocent(line: string) { Find(line, "<!--") == None || Find(Lower(line), ZONE_TAG) == None }

  lemma {:induction false} LStripSuffix(s: string) returns (k: nat)
    ensures k <= |s| && LStrip(s) == s[k..]
  {
    if s != "" && IsSpace(s[0]) {
      k := LStripSuffix(s[1..]);
      assert s[1..][k..] == s[k + 1..];
      k := k + 1;
    } else {
      k := 0;
    }
  }

  lemma OpeningHasTag(s: string)
    requires AfterOpening(s).Some?
    ensures Find(Lower(s), ZONE_TAG).Some?
  {
    var k := LStripSuffix(s[4..]);
    var t := s[4..][k..];
    assert t == s[4 + k..] && Lower(s)[4 + k..] == Lower(t) && Lower(t)[..13] == Lower(t[..13]);
    FindShorter(Lower(s), 4 + k, ZONE_TAG);
  }

  lemma {:induction false} NoTagNoMark(line: string)
    requires Find(Lower(line), ZONE_TAG) == None
    ensures FindStart(line) == None && !HasEnd(line)
  {
    if AfterOpening(line).Some? { OpeningHasTag(line); }
    if line != "" {
      assert Lower(line)[1..] == Lower(line[1..]);
      NoTagNoMark(line[1..]);
    }
  }

  /** A line is plain when it opens no comment, or never names the zone tag. */
  lemma InnocentIsPlain(line: string)
    requires Innocent(line)
    ensures Read(line) == Plain
  {
    if Find(line, "<!--") == None { NoCommentNoMark(line); } else { NoTagNoMark(line); }
  }

  lemma {:induction false} NoTag(s: string)
    requires '@' !in s
    ensures Find(s, ZONE_TAG) == None
  {
    assert ZONE_TAG[0] == '@';
    if s != "" { NoTag(s[1..]); }
  }

  /** The comment line of the decisions renderer is no marker. */
  lemma EngineNoteIsPlain()
    ensures Read("<!-- engine-entries-below -->") == Plain
  {
    var line := "<!-- engine-entries-below -->";
    NoTag(Lower(line));
    InnocentIsPlain(line);
  }

  // ── Markers as the templates write them ──────────────────────────

  const OPENING := "<!-- @specbox:zone "

  function AttrText(name: string, value: string): string { name + "=\"" + value + "\"" }

  function StartLine(kind: Kind, id: string): string {
    OPENING + "start " + AttrText("kind", KindName(kind)) + " " + AttrText("id", id) + " -->"
  }

  const END_LINE := OPENING + "end -->"

  lemma BlankFirst(rest: string)
    requires rest == "" || !IsSpace(rest[0])
    ensures LStrip(" " + rest) == rest
  {
    LStripTrimmed(" " + rest, 1);
    assert (" " + rest)[1..] == rest;
  }

  lemma NameReads(t: string, name: string, rest: string)
    requires name == "@specbox:zone" && t == name + " " + rest && (rest == "" || !IsSpace(rest[0]))
    ensures |t| >= 14 && Lower(t[..13]) == "@specbox:zone" && IsSpace(t[13]) && LStrip(t[13..]) == rest
  {
    assert t[..13] == name && t[13..] == " " + rest;
    BlankFirst(rest);
  }

  lemma OpeningReads(rest: string)
    requires rest == "" || !IsSpace(rest[0])
    ensures AfterOpening(OPENING + rest) == Some(rest)
  {
    hide Lower;
    hide LStrip;
    var t := "@specbox:zone" + " " + rest;
    var s := OPENING + rest;
    NameReads(t, "@specbox:zone", rest);
    assert s == "<!--" + (" " + t);
    assert s[..4] == "<!--" && s[4..] == " " + t;
    BlankFirst(t);
  }

  /** The end marker reads as one. */
  lemma EndReads()
    ensures Read(END_LINE) == End
  {
    OpeningReads("end -->");
    assert END_LINE == OPENING + "end -->";
    var t := "end -->";
    assert Lower(t[..3]) == "end" && t[3..] == " -->";
    LStripTrimmed(" -->", 1);
    assert " -->"[1..] == "-->";
    assert EndAt(END_LINE);
    assert Lower(t[..5])[0] == 'e';
    OnlyAtFront(END_LINE, "end -->");
  }

  /** A line with one comment opening, at its front, has a start marker only there. */
  lemma OnlyAtFront(line: string, rest: string)
    requires line == OPENING + rest && '<' !in rest && StartAt(line) == None
    ensures FindStart(line) == None
  {
    var tail := "!-- @specbox:zone " + rest;
    assert line == "<" + tail && line[1..] == tail;
    assert '<' !in "!-- @specbox:zone ";
    NoAngle(tail);
  }

  lemma NoOpening(s: string)
    requires s == "" || s[0] != '<'
    ensures AfterOpening(s) == None
  {
    assert "<!--"[0] == '<';
  }

  lemma {:induction false} NoAngle(s: string)
    requires '<' !in s
    ensures FindStart(s) == None && !HasEnd(s)
  {
    NoOpening(s);
    if s != "" { NoAngle(s[1..]); }
  }

  lemma NoEndAfter(line: string, rest: string)
    requires line == OPENING + rest && '<' !in rest && !EndAt(line)
    ensures !HasEnd(line)
  {
    var tail := "!-- @specbox:zone " + rest;
    assert line == "<" + tail && line[1..] == tail;
    assert '<' !in "!-- @specbox:zone ";
    NoAngle(tail);
  }

  /** A value that fits between quotes in a marker. */
  predicate Quotable(s: string) { '"' !in s && '>' !in s && '<' !in s }

  predicate IsName(s: string) { s != "" && forall i :: 0 <= i < |s| ==> IsWord(s[i]) }

  lemma {:induction false} WordOf(name: string, rest: string)
    requires (forall i :: 0 <= i < |name| ==> IsWord(name[i])) && (rest == "" || !IsWord(rest[0]))
    ensures WordLength(name + rest) == |name|
  {
    if name == "" {
      assert name + rest == rest;
    } else {
      assert (name + rest)[1..] == name[1..] + rest;
      WordOf(name[1..], rest);
    }
  }

  lemma ValueReads(u: string, value: string, rest: string)
    requires '"' !in value && u == "\"" + (value + ['"'] + rest)
    ensures IndexOf(u[1..], '"') == |value| && |u| == |value| + 2 + |rest|
    ensures u[1..|value| + 1] == value && u[|value| + 2..] == rest
  {
    assert u[1..] == value + ['"'] + rest;
    IndexOfFirst(value, '"', rest);
  }

  lemma AttrGrouped(name: string, value: string, rest: string)
    ensures AttrText(name, value) + rest == name + ("=" + ("\"" + (value + ['"'] + rest)))
  {
    assert "=\"" == "=" + "\"" && "\"" == ['"'];
  }

  lemma AttrReads(name: string, value: string, rest: string)
    requires IsName(name) && '"' !in value
    ensures AttrAt(AttrText(name, value) + rest) == Some((name, value, rest))
  {
    hide IndexOf;
    hide WordLength;
    hide LStrip;
    var u := "\"" + (value + ['"'] + rest);
    var tail := "=" + u;
    AttrGrouped(name, value, rest);
    AttrSplits(name + tail, name, tail, u, value, rest);
  }

  lemma AttrSplits(s: string, name: string, tail: string, u: string, value: string, rest: string)
    requires IsName(name) && '"' !in value && s == name + tail && tail == "=" + u && u == "\"" + (value + ['"'] + rest)
    ensures AttrAt(s) == Some((name, value, rest))
  {
    hide IndexOf;
    hide WordLength;
    hide LStrip;
    WordOf(name, tail);
    assert s[|name|..] == tail && s[..|name|] == name;
    LStripTrimmed(tail, 0);
    assert tail[1..] == u;
    LStripTrimmed(u, 0);
    ValueReads(u, value, rest);
  }

  lemma AttrsRead(name: string, value: string, rest: string)
    requires IsName(name) && '"' !in value
    ensures Attrs(AttrText(name, value) + rest) == map[name := value] + Attrs(rest)
  {
    AttrReads(name, value, rest);
    assert (AttrText(name, value) + rest)[0] == name[0];
  }

  lemma TwoAttrs(kind: string, id: string)
    requires Quotable(kind) && Quotable(id)
    ensures Attrs(AttrText("kind", kind) + " " + AttrText("id", id)) == map["kind" := kind, "id" := id]
  {
    var second := AttrText("id", id);
    AttrsRead("id", id, "");
    assert second + "" == second;
    assert (" " + second)[1..] == second;
    assert Attrs(" " + second) == Attrs(second);
    AttrsRead("kind", kind, " " + second);
    assert AttrText("kind", kind) + " " + second == AttrText("kind", kind) + (" " + second);
  }

  /** A start marker whose attributes hold no angle bracket. */
  lemma StartFound(attrs: string)
    requires attrs != "" && '<' !in attrs && '>' !in attrs
    ensures var line := OPENING + ("start " + attrs + " -->");
      StartAt(line) == Some(attrs + " ") && !HasEnd(line)
  {
    var rest := "start " + attrs + " -->";
    var line := OPENING + rest;
    OpeningReads(rest);
    assert rest[..5] == "start" && Lower("start") == "start";
    var inner := " " + attrs + " --";
    var r := inner + ['>'] + "";
    assert rest[5..] == r;
    assert '>' !in inner;
    IndexOfFirst(inner, '>', "");
    assert r[|inner| - 2..|inner|] == "--";
    assert r[1..|inner| - 2] == attrs + " ";
    assert Lower(rest[..3])[0] == 's';
    assert '<' !in rest;
    NoEndAfter(line, rest);
  }

  lemma {:induction false} TrailingBlank(s: string)
    ensures Attrs(s + " ") == Attrs(s)
    decreases |s|
  {
    if s == "" {
      assert s + " " == " " && " "[1..] == "";
    } else if !IsWord(s[0]) {
      assert (s + " ")[1..] == s[1..] + " ";
      TrailingBlank(s[1..]);
    } else {
      AttrBlank(s);
      match AttrAt(s)
      case None =>
        WordBlank(s);
        assert (s + " ")[WordLength(s)..] == s[WordLength(s)..] + " ";
        WordGoes(s);
        TrailingBlank(s[WordLength(s)..]);
      case Some((name, value, rest)) => TrailingBlank(rest);
    }
  }

  lemma WordGoes(s: string)
    requires s != "" && IsWord(s[0])
    ensures WordLength(s) > 0
  {
  }

  lemma {:induction false} WordBlank(s: string)
    ensures WordLength(s + " ") == WordLength(s)
  {
    if s != "" && IsWord(s[0]) {
      assert (s + " ")[1..] == s[1..] + " ";
      WordBlank(s[1..]);
    }
  }

  lemma {:induction false} LStripBlank(s: string)
    ensures LStrip(s + " ") == if LStrip(s) == "" then "" else LStrip(s) + " "
  {
    if s == "" {
      assert s + " " == " " && " "[1..] == "";
    } else if IsSpace(s[0]) {
      assert (s + " ")[1..] == s[1..] + " ";
      LStripBlank(s[1..]);
    }
  }

  lemma {:induction false} IndexBlank(s: string)
    ensures IndexOf(s + " ", '"') == if IndexOf(s, '"') == |s| then |s| + 1 else IndexOf(s, '"')
  {
    if s == "" {
      assert s + " " == " " && " "[1..] == "";
    } else {
      assert (s + " ")[1..] == s[1..] + " ";
      if s[0] != '"' { IndexBlank(s[1..]); }
    }
  }

  lemma AttrBlank(s: string)
    ensures AttrAt(s + " ") ==
      match AttrAt(s)
      case None => None
      case Some((name, value, rest)) => Some((name, value, rest + " "))
  {
    var w := WordLength(s);
    WordBlank(s);
    assert (s + " ")[w..] == s[w..] + " " && (s + " ")[..w] == s[..w];
    LStripBlank(s[w..]);
    var t := LStrip(s[w..]);
    if t != "" && t[0] == '=' {
      assert (t + " ")[1..] == t[1..] + " ";
      LStripBlank(t[1..]);
      var u := LStrip(t[1..]);
      if u != "" && u[0] == '"' {
        assert (u + " ")[1..] == u[1..] + " ";
        IndexBlank(u[1..]);
        var q := IndexOf(u[1..], '"');
        if q < |u| - 1 {
          assert (u + " ")[1..q + 1] == u[1..q + 1] && (u + " ")[q + 2..] == u[q + 2..] + " ";
        }
      }
    }
  }

  lemma PlainStart(kind: Kind, id: string)
    requires id != ""
    ensures StartMark(map["kind" := KindName(kind), "id" := id]) == Start(kind, id, [], None, None)
  {
    assert Text.Split("", ',') == [""];
    assert Stripped([""]) == [];
  }

  /** A start marker as the templates write it reads back: kind and id. */
  lemma StartReads(kind: Kind, id: string)
    requires Quotable(id) && id != ""
    ensures Read(StartLine(kind, id)) == Start(kind, id, [], None, None)
  {
    var attrs := AttrText("kind", KindName(kind)) + " " + AttrText("id", id);
    StartLineGrouped(kind, id, attrs);
    TwoAttrs(KindName(kind), id);
    PlainStart(kind, id);
    hide *;
    AttrsStart(StartLine(kind, id), attrs);
  }

  lemma StartLineGrouped(kind: Kind, id: string, attrs: string)
    requires attrs == AttrText("kind", KindName(kind)) + " " + AttrText("id", id) && Quotable(id)
    ensures StartLine(kind, id) == OPENING + ("start " + attrs + " -->")
    ensures attrs != "" && '<' !in attrs && '>' !in attrs
  {
  }

  lemma AttrsStart(line: string, attrs: string)
    requires attrs != "" && '<' !in attrs && '>' !in attrs && line == OPENING + ("start " + attrs + " -->")
    ensures Read(line) == StartMark(Attrs(attrs))
  {
    hide Attrs;
    hide StartMark;
    hide StartAt;
    hide HasEnd;
    StartFound(attrs);
    TrailingBlank(attrs);
  }

  /** A document of one zone, as a template writes it, parses to that zone and no fault. */
  lemma OneZoneParses(kind: Kind, id: string, body: seq<string>)
    requires Quotable(id) && id != "" && forall k :: 0 <= k < |body| ==> Find(body[k], "<!--") == None
    ensures var doc := ParseLines(Read, [StartLine(kind, id)] + body + [END_LINE]);
      doc.zones == [Zone(kind, id, [], None, None, 1, |body| + 2, Text.Join(body, '\n'))]
      && doc.chunks == [] && doc.faults == []
  {
    StartReads(kind, id);
    EndReads();
    forall k | 0 <= k < |body| ensures Read(body[k]).Plain? { NoCommentIsPlain(body[k]); }
    hide *;
    MarkedBody(StartLine(kind, id), body, END_LINE, Zone(kind, id, [], None, None, 1, 0, ""));
  }

  lemma MarkedBody(first: string, body: seq<string>, last: string, z: Zone)
    requires Read(first) == Start(z.kind, z.id, [], None, None) && Read(last).End?
    requires forall k :: 0 <= k < |body| ==> Read(body[k]).Plain?
    requires z == Zone(z.kind, z.id, [], None, None, 1, 0, "")
    ensures var doc := ParseLines(Read, [first] + body + [last]);
      doc.zones == [z.(endLine := |body| + 2, body := Text.Join(body, '\n'))] && doc.chunks == [] && doc.faults == []
  {
    hide Read;
    hide ParseTo;
    var lines := [first] + body + [last];
    assert lines[1..|lines| - 1] == body;
    BodyCloses(lines, z, body);
    assert lines[|lines|..] == [];
  }

  lemma BodyCloses(lines: seq<string>, z: Zone, body: seq<string>)
    requires |lines| == |body| + 2 && lines[1..|lines| - 1] == body && Read(lines[|lines| - 1]).End?
    requires Read(lines[0]) == Start(z.kind, z.id, [], None, None) && z == Zone(z.kind, z.id, [], None, None, 1, 0, "")
    requires forall k :: 0 <= k < |body| ==> Read(body[k]).Plain?
    ensures ParseTo(Read, lines, |lines|)
      == State([z.(endLine := |lines|, body := Text.Join(body, '\n'))], [], [], None, [], |lines|)
  {
    hide Read;
    FirstOpens(lines, z);
    hide ParseTo;
    SplicedPlain(Read, lines, 1, body);
    ThroughBody(Read, lines, 1, |lines|);
    PlainOnlyAll(Read, body);
  }

  lemma FirstOpens(lines: seq<string>, z: Zone)
    requires lines != [] && Read(lines[0]) == Start(z.kind, z.id, [], None, None)
    requires z == Zone(z.kind, z.id, [], None, None, 1, 0, "")
    ensures ParseTo(Read, lines, 1) == State([], [], [], Some(z), [], 0)
  {
    hide Read;
    assert ParseTo(Read, lines, 0) == Fresh();
  }
}
