/**
 Editing a setting whose line the user wrote: a string in either kind of quotes, in any spelling,
 with nothing but a comment behind it. The edit disturbs no other setting. A string in triple
 quotes is not such a line: the editor takes its first two quotes for an empty string.
 */
module ConfigOrdinary {
  import opened Wrappers
  import opened TomlScanner
  import opened ConfigEdit
  import opened ConfigLines
  import opened ConfigDocument
  import opened ConfigIdentity

  // ---------------------------------------------------------------- the first match of a key

  /** The parts of the first line that sets the key. */
  function Matched(text: string, key: string): Option<Match> {
    MatchedIn(Split(text), key)
  }

  function MatchedIn(lines: seq<string>, key: string): Option<Match> {
    var i := FirstMatch(lines, key);
    if i.None? then None else MatchSetting(Body(lines[i.value]), key)
  }

  /** The value is a string in triple quotes, read as an empty string and a tail. */
  predicate TripleBasic(m: Match) {
    m.token == "\"\"" && m.tail != "" && m.tail[0] == '"'
  }

  predicate TripleLiteral(m: Match) {
    m.token == "''" && m.tail != "" && m.tail[0] == '\''
  }

  predicate OrdinaryLine(line: string, key: string) {
    IsLine(line) && Matches(line, key) && TailOk(MatchSetting(Body(line), key).value.tail)
  }

  // ---------------------------------------------------------------- what the scanner sees of a value

  lemma {:induction false} BasicScan(s: string, more: string)
    requires BasicEnd(s).Some?
    ensures Scan(s + more, Some(BASIC)) == Scan(s[BasicEnd(s).value..] + more, None)
    decreases |s|
  {
    var size := if s[0] == '\\' then 2 else 1;
    assert (s + more)[size..] == s[size..] + more;
    if s[0] != '"' {
      BasicScan(s[size..], more);
      assert s[size..][BasicEnd(s[size..]).value..] == s[BasicEnd(s).value..];
    }
  }

  const LITERAL := Quote('\'', false)

  lemma {:induction false} LiteralScan(s: string, more: string)
    requires LiteralEnd(s).Some?
    ensures Scan(s + more, Some(LITERAL)) == Scan(s[LiteralEnd(s).value..] + more, None)
    decreases |s|
  {
    assert (s + more)[1..] == s[1..] + more;
    if s[0] != '\'' {
      LiteralScan(s[1..], more);
      assert s[1..][LiteralEnd(s[1..]).value..] == s[LiteralEnd(s).value..];
    }
  }

  /** A value that nothing but blank space or a comment follows is a closed string to the scanner. */
  lemma TokenScan(s: string, n: nat, more: string)
    requires TokenLength(s) == Some(n)
    requires var after := s[n..] + more; after == "" || !IsMark(after[0])
    ensures Scan(s + more, None) == Scan(s[n..] + more, None)
  {
    var inner := s[1..];
    TokenOpens(s, n, more);
    assert (s + more)[1..] == inner + more;
    assert inner[n - 1..] == s[n..];
    if s[0] == '"' { BasicScan(inner, more); } else { LiteralScan(inner, more); }
  }

  lemma TokenOpens(s: string, n: nat, more: string)
    requires TokenLength(s) == Some(n)
    requires var after := s[n..] + more; after == "" || !IsMark(after[0])
    ensures n >= 2 && IsMark(s[0]) && !Opens3(s + more, s[0])
  {
    var all, after := s + more, s[n..] + more;
    assert n > 1;
    assert all[1] == s[1];
    if s[1] == s[0] {
      assert n == 2;
      assert all[2..] == after;
      assert |all| > 2 ==> all[2] == after[0];
    }
  }

  lemma TailScan(tail: string, ending: string)
    requires TailOk(tail) && forall i :: 0 <= i < |ending| ==> LineEnd(ending[i])
    ensures Scan(tail + ending, None) == None
  {
    var lead := LeadShape(tail);
    var t := StripLeft(tail);
    if t == "" {
      assert tail == lead;
      BlankScan(tail + ending);
    } else {
      CommentScan(lead, t, ending, tail + ending);
    }
  }

  lemma BlankScan(s: string)
    requires AllSpace(s)
    ensures Scan(s, None) == None
  {
    CodeScan(s, "");
    assert s + "" == s;
  }

  lemma CommentScan(lead: string, t: string, ending: string, s: string)
    requires AllSpace(lead) && t != "" && t[0] == '#' && s == lead + t + ending
    ensures Scan(s, None) == None
  {
    assert s == lead + (t + ending);
    CodeScan(lead, t + ending);
  }

  lemma TailIsNoMark(tail: string, ending: string)
    requires TailOk(tail) && forall i :: 0 <= i < |ending| ==> LineEnd(ending[i])
    ensures var after := tail + ending; after == "" || !IsMark(after[0])
  {
    assert tail != "" ==> tail[0] == '#' || Space(tail[0]);
  }

  // ---------------------------------------------------------------- one line

  /** A line that sets the key, in parts. */
  lemma LineParts(line: string, key: string) returns (p: Prefix, ending: string)
    requires IsLine(line) && Matches(line, key)
    ensures var m := MatchSetting(Body(line), key).value;
      && IsPrefix(p) && m.prefix == PrefixText(p, key)
      && line == m.prefix + (m.token + (m.tail + ending)) && ending == line[|Body(line)|..]
      && TokenLength(m.token + m.tail) == Some(|m.token|)
      && '\n' !in m.prefix && '\n' !in m.tail && (m.tail == "" || !LineEnd(m.tail[|m.tail| - 1]))
      && (forall i :: 0 <= i < |ending| ==> LineEnd(ending[i])) && (forall i :: 0 <= i < |ending| - 1 ==> ending[i] != '\n')
  {
    var b := Body(line);
    var m := MatchSetting(b, key).value;
    BodyShape(line);
    BodyHasNoLf(line);
    TailEnd(m, b);
    p := MatchPrefix(b, key);
    ending := line[|b|..];
    InParts(m.prefix, m.token, m.tail, ending, line, b);
    MatchToken(b, key, m);
    NoLfIn(m, b);
    assert forall i :: 0 <= i < |ending| ==> ending[i] == line[|b| + i];
  }

  lemma NoLfIn(m: Match, b: string)
    requires b == m.prefix + m.token + m.tail && '\n' !in b
    ensures '\n' !in m.prefix && '\n' !in m.tail
  {
    assert forall c :: c in m.prefix || c in m.tail ==> c in b;
  }

  lemma MatchToken(b: string, key: string, m: Match)
    requires MatchSetting(b, key) == Some(m)
    ensures TokenLength(m.token + m.tail) == Some(|m.token|)
  {
    var n := PrefixLength(b, key).value;
    var t := TokenLength(b[n..]).value;
    assert b[n..] == b[n..n + t] + b[n + t..];
  }

  /** What an ordinary line is to the scanner, to the headers and to another key. */
  lemma OrdinaryFacts(line: string, key: string)
    requires IsKey(key) && OrdinaryLine(line, key)
    ensures Scan(line, None) == None
  {
    var m := MatchSetting(Body(line), key).value;
    var p, ending := LineParts(line, key);
    PrefixIsCode(p, key);
    CodeScan(m.prefix, m.token + (m.tail + ending));
    TailScan(m.tail, ending);
    TailIsNoMark(m.tail, ending);
    var value := m.token + m.tail;
    assert value[|m.token|..] == m.tail && m.token + (m.tail + ending) == value + ending;
    TokenScan(value, |m.token|, ending);
  }

  lemma MatchedIsNoHeader(line: string, key: string)
    requires IsKey(key) && IsLine(line) && Matches(line, key)
    ensures !StartsTable(line)
  {
    var m := MatchSetting(Body(line), key).value;
    var p, ending := LineParts(line, key);
    LineStart(p, key, m.token + (m.tail + ending), line);
  }

  lemma MatchedSetsNoOther(line: string, key: string, other: string)
    requires IsKey(key) && IsKey(other) && key != other && IsLine(line) && Matches(line, key)
    ensures !Matches(line, other)
  {
    var m := MatchSetting(Body(line), key).value;
    var p := MatchPrefix(Body(line), key);
    assert Body(line) == PrefixText(p, key) + (m.token + m.tail);
    OtherBody(p, key, m.token + m.tail, other);
  }

  /** An edited line sets the new value, and only that part of it changed. */
  lemma EditedMatch(line: string, key: string, v: string)
    requires IsKey(key) && IsLine(line) && Matches(line, key)
    ensures var m := MatchSetting(Body(line), key).value; var e := EditLine(line, key, Some(v));
      && IsLine(e) && Ended(e) == Ended(line)
      && MatchSetting(Body(e), key) == Some(Match(m.prefix, Dumps(v), m.tail))
  {
    var m := MatchSetting(Body(line), key).value;
    EditText(line, key, v);
    EditedAs(line, key, v, m, m.prefix + (Dumps(v) + m.tail), EditLine(line, key, Some(v)));
  }

  lemma EditText(line: string, key: string, v: string)
    requires Matches(line, key)
    ensures var m := MatchSetting(Body(line), key).value;
      EditLine(line, key, Some(v)) == m.prefix + (Dumps(v) + m.tail) + line[|Body(line)|..]
  {
    var m := MatchSetting(Body(line), key).value;
    FourParts(m.prefix, Dumps(v), m.tail, line[|Body(line)|..]);
  }

  lemma EditedAs(line: string, key: string, v: string, m: Match, b: string, e: string)
    requires IsKey(key) && IsLine(line) && MatchSetting(Body(line), key) == Some(m)
    requires b == m.prefix + (Dumps(v) + m.tail) && e == b + line[|Body(line)|..]
    ensures IsLine(e) && Ended(e) == Ended(line)
    ensures MatchSetting(Body(e), key) == Some(Match(m.prefix, Dumps(v), m.tail))
  {
    var p, ending := LineParts(line, key);
    EditedBody(m, v, b, ending, e);
    BodyHasNoLf(line);
    EndingEnds(line, Body(line), ending);
    EditedParts(p, key, v, m.prefix, m.tail);
  }

  lemma FourParts(a: string, b: string, c: string, d: string)
    ensures a + b + c + d == a + (b + c) + d
  {
  }

  lemma EditedParts(p: Prefix, key: string, v: string, prefix: string, tail: string)
    requires IsPrefix(p) && IsKey(key) && prefix == PrefixText(p, key)
    ensures MatchSetting(prefix + (Dumps(v) + tail), key) == Some(Match(prefix, Dumps(v), tail))
  {
    PrefixIs(p, key, Dumps(v) + tail);
    DumpsToken(v, tail);
    MatchIs(prefix, Dumps(v), tail, key);
  }

  lemma EditedBody(m: Match, v: string, b: string, ending: string, e: string)
    requires b == m.prefix + (Dumps(v) + m.tail) && e == b + ending
    requires '\n' !in m.prefix && '\n' !in m.tail && (m.tail == "" || !LineEnd(m.tail[|m.tail| - 1]))
    requires (forall i :: 0 <= i < |ending| ==> LineEnd(ending[i])) && (forall i :: 0 <= i < |ending| - 1 ==> ending[i] != '\n')
    ensures Body(e) == b && IsLine(e) && Ended(e) == Ended(ending)
  {
    assert b[|b| - 1] == if m.tail == "" then '"' else m.tail[|m.tail| - 1];
    BodyIs(b, ending);
    DumpsOneLine(v);
    assert forall c :: c in b ==> c in m.prefix || c == '"' || c in EscapeAll(v) || c in m.tail;
    OneLine(b, ending, e);
  }

  lemma EndingEnds(line: string, b: string, ending: string)
    requires b <= line && ending == line[|b|..] && '\n' !in b
    ensures Ended(ending) == Ended(line)
  {
    if line != "" && ending == "" { assert line == b && line[|line| - 1] in b; }
  }

  // ---------------------------------------------------------------- what a removed setting leaves

  lemma {:induction false} StripStart(s: string)
    ensures Strip(s) == "" <==> StripLeft(s) == ""
    ensures Strip(s) != "" ==> Strip(s)[0] == StripLeft(s)[0]
    ensures forall c :: c in Strip(s) ==> c in s
    decreases |s|
  {
    var lead := LeadShape(s);
    var t := StripLeft(s);
    if t != "" && Space(t[|t| - 1]) {
      StripStart(t[..|t| - 1]);
      assert forall c :: c in t[..|t| - 1] ==> c in t;
    }
  }

  /** Removing a setting leaves nothing or a comment exactly if that is all that stands behind it. */
  lemma RemovalLeaves(line: string, key: string)
    requires IsLine(line) && Matches(line, key)
    ensures var e := EditLine(line, key, None); (e == "" || e[0] == '#') <==> OrdinaryLine(line, key)
  {
    StripStart(MatchSetting(Body(line), key).value.tail);
  }

  lemma RemovedIsComment(line: string, key: string)
    requires OrdinaryLine(line, key) && EditLine(line, key, None) != ""
    ensures var e := EditLine(line, key, None); IsLine(e) && Ended(e) && e[0] == '#'
  {
    var tail := MatchSetting(Body(line), key).value.tail;
    var p, ending := LineParts(line, key);
    StripStart(tail);
    OneLine(Strip(tail), "\n", Strip(tail) + "\n");
  }

  lemma CommentFacts(e: string, key: string)
    requires e != "" && e[0] == '#' && IsKey(key)
    ensures Scan(e, None) == None && !StartsTable(e) && !Matches(e, key)
  {
    BodyShape(e);
    var b := Body(e);
    assert b != "" ==> b[0] == '#';
    assert AfterPrefix(b, key).None?;
  }

  // ---------------------------------------------------------------- the document

  lemma EditedLinesAre(text: string, key: string, value: Option<string>, edited: seq<string>)
    requires edited == Apply(Split(text), key, value) && IsLines(edited)
    ensures Split(Edited(text, key, value)) == edited
  {
    EditedLines(text, key, value);
    SplitJoin(edited);
  }

  lemma ReplacedIsLines(lines: seq<string>, i: nat, e: string)
    requires IsLines(lines) && i < |lines| && IsLine(e) && (Ended(e) || !Ended(lines[i]))
    ensures IsLines(lines[i := e])
  {
  }

  lemma RemovedIsLines(lines: seq<string>, i: nat)
    requires IsLines(lines) && i < |lines|
    ensures IsLines(Removed(lines, i))
  {
  }

  /** After an edit to a value, whatever stands behind it, the first match is the edited line. */
  lemma EditedFirst(text: string, key: string, v: string)
    requires IsKey(key) && Matched(text, key).Some?
    ensures var m := Matched(text, key).value;
      Matched(Edited(text, key, Some(v)), key) == Some(Match(m.prefix, Dumps(v), m.tail))
  {
    var lines := Split(text);
    var i := FirstMatch(lines, key).value;
    var e := EditLine(lines[i], key, Some(v));
    var edited := lines[i := e];
    FirstMatchExact(lines, key, i);
    EditedMatch(lines[i], key, v);
    ReplacedIsLines(lines, i, e);
    EditedLinesAre(text, key, Some(v), edited);
    MatchedIsNoHeader(e, key);
    SameBefore(lines, edited, i);
    FirstStays(lines, edited, key, i);
  }

  lemma SameBefore(lines: seq<string>, edited: seq<string>, i: nat)
    requires i < |lines| == |edited| && edited[..i] == lines[..i]
    ensures forall j: nat :: j <= i ==> Visible(edited, j) == Visible(lines, j)
    ensures forall j: nat :: j < i ==> edited[j] == lines[j]
  {
    forall j: nat | j <= i
      ensures Visible(edited, j) == Visible(lines, j) && (j < i ==> edited[j] == lines[j])
    {
      assert edited[..i][..j] == edited[..j] && lines[..i][..j] == lines[..j];
      assert j < i ==> edited[j] == edited[..i][j] == lines[..i][j];
    }
  }

  lemma FirstStays(lines: seq<string>, edited: seq<string>, key: string, i: nat)
    requires IsFirstMatch(lines, key, i) && i < |edited|
    requires forall j: nat :: j <= i ==> Visible(edited, j) == Visible(lines, j)
    requires forall j: nat :: j < i ==> edited[j] == lines[j]
    requires !StartsTable(edited[i]) && Matches(edited[i], key)
    ensures FirstMatch(edited, key) == Some(i)
  {
    HeadersBefore(lines, edited, i);
    assert TopLevel(edited, i);
    forall j: nat | j < i
      ensures !Sets(edited, key, j)
    {
      assert !Sets(lines, key, j) && !Header(lines, j);
      assert TopLevel(lines, j) == TopLevel(edited, j);
    }
    FirstMatchExact(edited, key, i);
  }

  lemma HeadersBefore(lines: seq<string>, edited: seq<string>, i: nat)
    requires TopLevel(lines, i) && i < |edited| && !StartsTable(edited[i])
    requires forall j: nat :: j <= i ==> Visible(edited, j) == Visible(lines, j)
    requires forall j: nat :: j < i ==> edited[j] == lines[j]
    ensures forall j: nat :: j <= i ==> !Header(edited, j) && !Header(lines, j)
    ensures forall j: nat :: j <= i ==> TopLevel(edited, j) == TopLevel(lines, j)
  {
    forall j: nat | j <= i
      ensures !Header(edited, j) && !Header(lines, j)
    {
      assert !Header(lines, j);
      assert j < i ==> edited[j] == lines[j];
    }
  }

  /** The first match of the key is an ordinary line. */
  predicate OrdinaryFirst(lines: seq<string>, key: string) {
    FirstMatch(lines, key).Some? && OrdinaryLine(lines[FirstMatch(lines, key).value], key)
  }

  lemma FirstIsVisible(lines: seq<string>, key: string)
    requires IsLines(lines) && IsKey(key) && OrdinaryFirst(lines, key)
    ensures var i := FirstMatch(lines, key).value;
      Visible(lines, i) && !StartsTable(lines[i]) && Scan(lines[i], None) == None
  {
    var i := FirstMatch(lines, key).value;
    FirstMatchExact(lines, key, i);
    OrdinaryFacts(lines[i], key);
    MatchedIsNoHeader(lines[i], key);
  }

  /** Replacing the line of one key by a closed line that sets no other leaves the others alone. */
  lemma ReplacedOther(lines: seq<string>, i: nat, e: string, other: string)
    requires i < |lines| && Visible(lines, i) && Scan(lines[i], None) == None && Scan(e, None) == None
    requires !StartsTable(lines[i]) && !StartsTable(e) && !Matches(lines[i], other) && !Matches(e, other)
    ensures MatchedIn(lines[i := e], other) == MatchedIn(lines, other)
  {
    Replaced(lines, i, e);
    ReplacedMatch(lines, i, e, other);
    var r := FirstMatch(lines, other);
    if r.Some? { assert r.value != i; }
  }

  lemma RemovedOther(lines: seq<string>, i: nat, other: string)
    requires i < |lines| && Visible(lines, i) && Scan(lines[i], None) == None
    requires !StartsTable(lines[i]) && !Matches(lines[i], other)
    ensures MatchedIn(Removed(lines, i), other) == MatchedIn(lines, other)
  {
    RemovedLine(lines, i, other, Removed(lines, i));
  }

  lemma OrdinaryEditLines(lines: seq<string>, key: string, value: Option<string>, other: string)
    requires IsLines(lines) && IsKey(key) && IsKey(other) && key != other && OrdinaryFirst(lines, key)
    ensures var edited := Apply(lines, key, value); IsLines(edited) && MatchedIn(edited, other) == MatchedIn(lines, other)
  {
    var i := FirstMatch(lines, key).value;
    var e := EditLine(lines[i], key, value);
    FirstIsVisible(lines, key);
    MatchedSetsNoOther(lines[i], key, other);
    if value.Some? {
      EditedMatch(lines[i], key, value.value);
      OrdinaryFacts(e, key);
      MatchedIsNoHeader(e, key);
      MatchedSetsNoOther(e, key, other);
      ReplacedIsLines(lines, i, e);
      ReplacedOther(lines, i, e, other);
    } else if e == "" {
      RemovedIsLines(lines, i);
      RemovedOther(lines, i, other);
    } else {
      RemovedIsComment(lines[i], key);
      CommentFacts(e, other);
      ReplacedIsLines(lines, i, e);
      ReplacedOther(lines, i, e, other);
    }
  }

  /** Editing or removing a setting on an ordinary line leaves every other setting as it is. */
  lemma OrdinaryEdit(text: string, key: string, value: Option<string>, other: string)
    requires IsKey(key) && IsKey(other) && key != other
    requires Matched(text, key).Some? && TailOk(Matched(text, key).value.tail)
    ensures Matched(Edited(text, key, value), other) == Matched(text, other)
  {
    OrdinaryEditLines(Split(text), key, value, other);
    EditedLinesAre(text, key, value, Apply(Split(text), key, value));
  }

  // ---------------------------------------------------------------- triple quotes

  lemma SameEdit(line: string, key: string, v: string)
    requires Matches(line, key) && MatchSetting(Body(line), key).value.token == Dumps(v)
    ensures EditLine(line, key, Some(v)) == line
  {
    var b := Body(line);
    assert b + line[|b|..] == line;
  }

  /** Writing a value changes nothing exactly if the value stands there as the editor writes it. */
  lemma SameEditExact(text: string, key: string, v: string)
    requires IsKey(key) && Matched(text, key).Some?
    ensures Edited(text, key, Some(v)) == text <==> Matched(text, key).value.token == Dumps(v)
  {
    var lines := Split(text);
    var i := FirstMatch(lines, key).value;
    if Matched(text, key).value.token == Dumps(v) {
      SameEdit(lines[i], key, v);
      assert lines[i := lines[i]] == lines;
      JoinSplit(text);
    } else {
      EditedFirst(text, key, v);
    }
  }

  /** Writing the empty string changes nothing exactly if the value is read as an empty string:
      because it is one, or because it is in triple quotes. */
  lemma EmptyEditExact(text: string, key: string)
    requires IsKey(key) && Matched(text, key).Some?
    ensures Edited(text, key, Some("")) == text <==> Matched(text, key).value.token == "\"\""
  {
    SameEditExact(text, key, "");
    assert Dumps("") == "\"\"";
  }
}
