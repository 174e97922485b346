/**
 What editing one setting does to the lines of a document: the edited line sets the new value and
 nothing else about the document changes for the scanner or for another key.
 */
module ConfigLines {
  import opened Wrappers
  import opened TomlScanner
  import opened ConfigEdit

  // ---------------------------------------------------------------- values scan as closed strings

  predicate IsKey(key: string) {
    key != "" && forall i :: 0 <= i < |key| ==> KeyChar(key[i])
  }

  predicate KeyChar(c: char) {
    '0' <= c <= '9' || 'A' <= c <= 'Z' || 'a' <= c <= 'z' || c == '_' || c == '-'
  }

  /** An escaped character: itself, or a backslash, a character and up to four digits. */
  predicate IsEscaped(e: string) {
    || (|e| == 1 && e[0] != '"' && e[0] != '\\' && e[0] != '\n')
    || (|e| >= 2 && e[0] == '\\' && e[1] != '\n' && forall i :: 2 <= i < |e| ==> e[i] != '"' && e[i] != '\\' && e[i] != '\n')
  }

  lemma EscapeIsEscaped(c: char)
    ensures IsEscaped(Escape(c))
  {
  }

  const BASIC := Quote('"', false)

  function Later(n: Option<nat>, shift: nat): Option<nat> {
    if n.None? then None else Some(n.value + shift)
  }

  lemma {:induction false} PlainEnd(e: string, rest: string)
    requires forall i :: 0 <= i < |e| ==> e[i] != '"' && e[i] != '\\' && e[i] != '\n'
    ensures BasicEnd(e + rest) == Later(BasicEnd(rest), |e|)
    ensures Scan(e + rest, Some(BASIC)) == Scan(rest, Some(BASIC))
    decreases |e|
  {
    if e == "" {
      assert e + rest == rest;
    } else {
      assert (e + rest)[1..] == e[1..] + rest;
      PlainEnd(e[1..], rest);
    }
  }

  lemma PairEnd(c: char, rest: string)
    requires c != '\n'
    ensures BasicEnd(['\\', c] + rest) == Later(BasicEnd(rest), 2)
    ensures Scan(['\\', c] + rest, Some(BASIC)) == Scan(rest, Some(BASIC))
  {
    assert (['\\', c] + rest)[2..] == rest;
  }

  lemma EscapedEnd(e: string, rest: string)
    requires IsEscaped(e)
    ensures BasicEnd(e + rest) == Later(BasicEnd(rest), |e|)
    ensures Scan(e + rest, Some(BASIC)) == Scan(rest, Some(BASIC))
  {
    if |e| == 1 {
      PlainEnd(e, rest);
    } else {
      var digits := e[2..];
      assert e + rest == ['\\', e[1]] + (digits + rest);
      PlainEnd(digits, rest);
      PairEnd(e[1], digits + rest);
    }
  }

  lemma ClosingMark(rest: string)
    ensures BasicEnd("\"" + rest) == Some(1)
    ensures Scan("\"" + rest, Some(BASIC)) == Scan(rest, None)
  {
    assert ("\"" + rest)[1..] == rest;
  }

  lemma {:induction false} ValueEnd(s: string, rest: string)
    ensures BasicEnd(EscapeAll(s) + ("\"" + rest)) == Some(|EscapeAll(s)| + 1)
    ensures Scan(EscapeAll(s) + ("\"" + rest), Some(BASIC)) == Scan(rest, None)
    decreases |s|
  {
    var close := "\"" + rest;
    ClosingMark(rest);
    if s == "" {
      assert EscapeAll(s) + close == close;
    } else {
      EscapeIsEscaped(s[0]);
      ValueEnd(s[1..], rest);
      ValueStep(Escape(s[0]), EscapeAll(s[1..]), close, Scan(rest, None));
    }
  }

  lemma ValueStep(e: string, more: string, close: string, after: Mode)
    requires IsEscaped(e)
    requires BasicEnd(more + close) == Some(|more| + 1) && Scan(more + close, Some(BASIC)) == after
    ensures BasicEnd(e + more + close) == Some(|e + more| + 1) && Scan(e + more + close, Some(BASIC)) == after
  {
    EscapedEnd(e, more + close);
    assert e + more + close == e + (more + close);
  }

  lemma DumpsToken(v: string, rest: string)
    ensures TokenLength(Dumps(v) + rest) == Some(|Dumps(v)|)
  {
    assert (Dumps(v) + rest)[1..] == EscapeAll(v) + ("\"" + rest);
    ValueEnd(v, rest);
  }

  lemma DumpsNotTriple(v: string, rest: string)
    requires rest == "" || rest[0] != '"'
    ensures !Opens3(Dumps(v) + rest, '"')
  {
    if v == "" {
      assert Dumps(v) + rest == "\"\"" + rest;
    } else {
      EscapeIsEscaped(v[0]);
      assert (Dumps(v) + rest)[1] == Escape(v[0])[0];
    }
  }

  lemma OpeningMark(rest: string)
    requires !Opens3("\"" + rest, '"')
    ensures Scan("\"" + rest, None) == Scan(rest, Some(BASIC))
  {
    assert ("\"" + rest)[1..] == rest;
  }

  /** A value written by the editor is a closed string for the scanner. */
  lemma DumpsScan(v: string, rest: string)
    requires rest == "" || rest[0] != '"'
    ensures Scan(Dumps(v) + rest, None) == Scan(rest, None)
  {
    var inner := EscapeAll(v) + ("\"" + rest);
    assert Dumps(v) + rest == "\"" + inner;
    DumpsNotTriple(v, rest);
    OpeningMark(inner);
    ValueEnd(v, rest);
  }

  lemma {:induction false} CodeScan(p: string, rest: string)
    requires forall i :: 0 <= i < |p| ==> p[i] != '#' && !IsMark(p[i])
    ensures Scan(p + rest, None) == Scan(rest, None)
    decreases |p|
  {
    if p == "" {
      assert p + rest == rest;
    } else {
      assert (p + rest)[1..] == p[1..] + rest;
      CodeScan(p[1..], rest);
    }
  }

  lemma {:induction false} DumpsOneLine(v: string)
    ensures '\n' !in EscapeAll(v)
    decreases |v|
  {
    if v != "" {
      EscapeIsEscaped(v[0]);
      DumpsOneLine(v[1..]);
    }
  }

  // ---------------------------------------------------------------- the part before a value

  predicate AllSpace(s: string) {
    forall i :: 0 <= i < |s| ==> Space(s[i])
  }

  lemma {:induction false} LeadShape(s: string) returns (lead: string)
    ensures AllSpace(lead) && s == lead + StripLeft(s)
    ensures StripLeft(s) == "" || !Space(StripLeft(s)[0])
    decreases |s|
  {
    lead := "";
    if s != "" && Space(s[0]) {
      lead := LeadShape(s[1..]);
      lead := [s[0]] + lead;
    }
  }

  lemma {:induction false} LeadIs(a: string, rest: string)
    requires AllSpace(a) && (rest == "" || !Space(rest[0]))
    ensures StripLeft(a + rest) == rest
    decreases |a|
  {
    if a == "" {
      assert a + rest == rest;
    } else {
      assert (a + rest)[1..] == a[1..] + rest;
      LeadIs(a[1..], rest);
    }
  }

  /** The text before a value: the key and the equals sign, with spaces around them. */
  datatype Prefix = Prefix(a: string, b: string, c: string)

  function PrefixText(p: Prefix, key: string): string {
    p.a + (key + (p.b + ("=" + p.c)))
  }

  predicate IsPrefix(p: Prefix) {
    AllSpace(p.a) && AllSpace(p.b) && AllSpace(p.c)
  }

  lemma EqualsIs(b: string, c: string, rest: string)
    requires AllSpace(b) && AllSpace(c) && (rest == "" || !Space(rest[0]))
    ensures AfterEquals(b + ("=" + (c + rest))) == Some(rest)
  {
    var d := c + rest;
    LeadIs(b, "=" + d);
    assert ("=" + d)[1..] == d;
    LeadIs(c, rest);
  }

  lemma PrefixIs(p: Prefix, key: string, rest: string)
    requires IsPrefix(p) && IsKey(key) && (rest == "" || !Space(rest[0]))
    ensures PrefixLength(PrefixText(p, key) + rest, key) == Some(|PrefixText(p, key)|)
  {
    PrefixLengthIs(p, key, rest, PrefixText(p, key), PrefixText(p, key) + rest);
  }

  lemma PrefixLengthIs(p: Prefix, key: string, rest: string, pre: string, s: string)
    requires IsPrefix(p) && IsKey(key) && (rest == "" || !Space(rest[0]))
    requires pre == PrefixText(p, key) && s == pre + rest
    ensures PrefixLength(s, key) == Some(|pre|)
  {
    AfterPrefixIs(p, key, rest, s);
    assert |s| - |rest| == |pre|;
  }

  lemma AfterPrefixIs(p: Prefix, key: string, rest: string, s: string)
    requires IsPrefix(p) && IsKey(key) && (rest == "" || !Space(rest[0])) && s == PrefixText(p, key) + rest
    ensures AfterPrefix(s, key) == Some(rest)
  {
    EqualsIs(p.b, p.c, rest);
    KeyFirst(p, key, rest);
    AfterKey(s, key, p.b + ("=" + (p.c + rest)));
  }

  lemma AfterKey(s: string, key: string, after: string)
    requires StripLeft(s) == key + after
    ensures AfterPrefix(s, key) == AfterEquals(after)
  {
    assert (key + after)[|key|..] == after;
  }

  lemma KeyFirst(p: Prefix, key: string, rest: string)
    requires IsPrefix(p) && IsKey(key)
    ensures StripLeft(PrefixText(p, key) + rest) == key + (p.b + ("=" + (p.c + rest)))
  {
    var a := key + (p.b + ("=" + (p.c + rest)));
    assert PrefixText(p, key) + rest == p.a + a;
    assert a[0] == key[0] && KeyChar(key[0]);
    LeadIs(p.a, a);
  }

  lemma EqualsShape(s: string) returns (b: string, c: string)
    requires AfterEquals(s).Some?
    ensures AllSpace(b) && AllSpace(c) && s == b + ("=" + (c + AfterEquals(s).value))
  {
    var t := StripLeft(s);
    b := LeadShape(s);
    c := LeadShape(t[1..]);
    assert t == "=" + t[1..];
  }

  lemma PrefixShape(s: string, key: string) returns (p: Prefix)
    requires PrefixLength(s, key).Some?
    ensures IsPrefix(p) && s == PrefixText(p, key) + AfterPrefix(s, key).value
    ensures s[..PrefixLength(s, key).value] == PrefixText(p, key)
  {
    var t := StripLeft(s);
    var a := LeadShape(s);
    var b, c := EqualsShape(t[|key|..]);
    p := Prefix(a, b, c);
    assert t == key + t[|key|..];
    PrefixTextConcat(p, key, AfterPrefix(s, key).value);
    CutOff(PrefixText(p, key), AfterPrefix(s, key).value, s);
  }

  lemma PrefixTextConcat(p: Prefix, key: string, rest: string)
    ensures PrefixText(p, key) + rest == p.a + (key + (p.b + ("=" + (p.c + rest))))
  {
  }

  lemma CutOff(a: string, b: string, s: string)
    requires s == a + b
    ensures s[..|s| - |b|] == a
  {
  }

  /** A line that sets one key sets no other. */
  lemma OtherPrefix(p: Prefix, key: string, rest: string, other: string)
    requires IsPrefix(p) && IsKey(key) && IsKey(other) && key != other
    ensures PrefixLength(PrefixText(p, key) + rest, other) == None
  {
    KeyFirst(p, key, rest);
    OtherKey(key, p.b + ("=" + (p.c + rest)), other);
  }

  lemma OtherKey(key: string, b: string, other: string)
    requires IsKey(key) && IsKey(other) && key != other
    requires b != "" && (b[0] == '=' || Space(b[0]))
    ensures other <= key + b ==> AfterEquals((key + b)[|other|..]) == None
  {
    var a := key + b;
    if |other| > |key| {
      LongerKey(key, b, other);
    } else if other <= a {
      assert other == a[..|other|] == key[..|other|];
      assert |other| < |key|;
      var rest := a[|other|..];
      assert rest[0] == key[|other|] && KeyChar(rest[0]);
    }
  }

  lemma LongerKey(key: string, b: string, other: string)
    requires IsKey(other) && |other| > |key| && b != "" && !KeyChar(b[0])
    ensures !(other <= key + b)
  {
    assert KeyChar(other[|key|]) && (key + b)[|key|] == b[0];
  }

  // ---------------------------------------------------------------- one edited line

  predicate LineEnd(c: char) {
    c == '\r' || c == '\n'
  }

  lemma {:induction false} BodyIs(b: string, ending: string)
    requires b == "" || !LineEnd(b[|b| - 1])
    requires forall i :: 0 <= i < |ending| ==> LineEnd(ending[i])
    ensures Body(b + ending) == b
    decreases |ending|
  {
    if ending == "" {
      assert b + ending == b;
    } else {
      var n := |ending| - 1;
      assert (b + ending)[..|b| + n] == b + ending[..n];
      BodyIs(b, ending[..n]);
    }
  }

  lemma {:induction false} BodyShape(line: string)
    ensures var b := Body(line); b == "" || !LineEnd(b[|b| - 1])
    ensures forall i :: |Body(line)| <= i < |line| ==> LineEnd(line[i])
    decreases |line|
  {
    if line != "" && LineEnd(line[|line| - 1]) {
      BodyShape(line[..|line| - 1]);
    }
  }

  /** What may follow a value: nothing, or a comment. */
  predicate TailOk(tail: string) {
    var t := StripLeft(tail);
    t == "" || t[0] == '#'
  }

  predicate TidyMatch(m: Match, v: string) {
    m.token == Dumps(v) && TailOk(m.tail)
  }

  /** The line sets the key to `v`, written as the editor writes it, with nothing but a comment
      behind it. */
  predicate TidyLine(line: string, key: string, v: string) {
    IsLine(line) && Matches(line, key) && TidyMatch(MatchSetting(Body(line), key).value, v)
  }

  /** The parts of a tidy line. */
  datatype Parts = Parts(p: Prefix, tail: string, ending: string)

  predicate IsParts(x: Parts) {
    && IsPrefix(x.p) && '\n' !in x.p.a && '\n' !in x.p.b && '\n' !in x.p.c
    && '\n' !in x.tail && TailOk(x.tail) && (x.tail == "" || !LineEnd(x.tail[|x.tail| - 1]))
    && (forall i :: 0 <= i < |x.ending| ==> LineEnd(x.ending[i])) && (forall i :: 0 <= i < |x.ending| - 1 ==> x.ending[i] != '\n')
  }

  function LineOf(x: Parts, key: string, v: string): string {
    PrefixText(x.p, key) + (Dumps(v) + (x.tail + x.ending))
  }

  function BodyOf(x: Parts, key: string, v: string): string {
    PrefixText(x.p, key) + (Dumps(v) + x.tail)
  }

  lemma LineBody(x: Parts, key: string, v: string)
    requires IsParts(x)
    ensures Body(LineOf(x, key, v)) == BodyOf(x, key, v) && BodyOf(x, key, v) != ""
    ensures LineOf(x, key, v) == BodyOf(x, key, v) + x.ending
    ensures LineOf(x, key, v)[|BodyOf(x, key, v)|..] == x.ending
  {
    var b := BodyOf(x, key, v);
    assert LineOf(x, key, v) == b + x.ending;
    assert b[|b| - 1] == if x.tail == "" then '"' else x.tail[|x.tail| - 1];
    BodyIs(b, x.ending);
  }

  lemma LineMatches(x: Parts, key: string, v: string)
    requires IsParts(x) && IsKey(key)
    ensures MatchSetting(Body(LineOf(x, key, v)), key) == Some(Match(PrefixText(x.p, key), Dumps(v), x.tail))
  {
    LineBody(x, key, v);
    var pre, rest := PrefixText(x.p, key), Dumps(v) + x.tail;
    PrefixIs(x.p, key, rest);
    DumpsToken(v, x.tail);
    MatchIs(pre, Dumps(v), x.tail, key);
  }

  lemma MatchIs(pre: string, token: string, tail: string, key: string)
    requires PrefixLength(pre + (token + tail), key) == Some(|pre|) && TokenLength(token + tail) == Some(|token|)
    ensures MatchSetting(pre + (token + tail), key) == Some(Match(pre, token, tail))
  {
    Slices(pre, token, tail);
    MatchAt(pre + (token + tail), key, |pre|, |token|);
  }

  lemma Slices(a: string, b: string, c: string)
    ensures var s := a + (b + c);
      s[..|a|] == a && s[|a|..] == b + c && s[|a|..|a| + |b|] == b && s[|a| + |b|..] == c
  {
  }

  lemma MatchAt(s: string, key: string, n: nat, size: nat)
    requires PrefixLength(s, key) == Some(n) && TokenLength(s[n..]) == Some(size)
    ensures n + size <= |s| && MatchSetting(s, key) == Some(Match(s[..n], s[n..n + size], s[n + size..]))
  {
    MatchValueAt(s, n, size);
  }

  lemma MatchValueAt(s: string, n: nat, size: nat)
    requires n <= |s| && TokenLength(s[n..]) == Some(size)
    ensures n + size <= |s| && MatchValue(s, n) == Some(Match(s[..n], s[n..n + size], s[n + size..]))
  {
  }

  lemma PrefixIsCode(p: Prefix, key: string)
    requires IsPrefix(p) && IsKey(key)
    ensures forall i :: 0 <= i < |PrefixText(p, key)| ==> PrefixText(p, key)[i] != '#' && !IsMark(PrefixText(p, key)[i])
  {
    forall c | c in PrefixText(p, key)
      ensures c != '#' && !IsMark(c)
    {
      assert c in p.a || c in key || c in p.b || c == '=' || c in p.c;
    }
  }

  /** The scanner passes over the value: whatever the value, the line leaves it in the same mode. */
  lemma LineScan(x: Parts, key: string, v: string)
    requires IsParts(x) && IsKey(key)
    ensures Scan(LineOf(x, key, v), None) == Scan(x.tail + x.ending, None)
  {
    PrefixIsCode(x.p, key);
    NotAMark(x);
    ScanParts(PrefixText(x.p, key), v, x.tail + x.ending, LineOf(x, key, v));
  }

  lemma NotAMark(x: Parts)
    requires IsParts(x)
    ensures var after := x.tail + x.ending; after == "" || after[0] != '"'
  {
    assert x.tail != "" ==> x.tail[0] == '#' || Space(x.tail[0]);
  }

  lemma ScanParts(pre: string, v: string, after: string, line: string)
    requires forall i :: 0 <= i < |pre| ==> pre[i] != '#' && !IsMark(pre[i])
    requires after == "" || after[0] != '"'
    requires line == pre + (Dumps(v) + after)
    ensures Scan(line, None) == Scan(after, None)
  {
    CodeScan(pre, Dumps(v) + after);
    DumpsScan(v, after);
  }

  lemma LineIsNoHeader(x: Parts, key: string, v: string)
    requires IsParts(x) && IsKey(key)
    ensures !StartsTable(LineOf(x, key, v))
  {
    LineStart(x.p, key, Dumps(v) + (x.tail + x.ending), LineOf(x, key, v));
  }

  lemma LineStart(p: Prefix, key: string, rest: string, line: string)
    requires IsPrefix(p) && IsKey(key) && line == PrefixText(p, key) + rest
    ensures StripLeft(line) != "" && StripLeft(line)[0] == key[0] && KeyChar(key[0])
  {
    KeyFirst(p, key, rest);
  }

  lemma LineSetsNoOther(x: Parts, key: string, v: string, other: string)
    requires IsParts(x) && IsKey(key) && IsKey(other) && key != other
    ensures !Matches(LineOf(x, key, v), other)
  {
    LineBody(x, key, v);
    OtherBody(x.p, key, Dumps(v) + x.tail, other);
  }

  lemma OtherBody(p: Prefix, key: string, rest: string, other: string)
    requires IsPrefix(p) && IsKey(key) && IsKey(other) && key != other
    ensures MatchSetting(PrefixText(p, key) + rest, other) == None
  {
    OtherPrefix(p, key, rest, other);
  }

  lemma LineIsLine(x: Parts, key: string, v: string)
    requires IsParts(x) && IsKey(key)
    ensures IsLine(LineOf(x, key, v))
    ensures Ended(LineOf(x, key, v)) == Ended(x.ending)
  {
    DumpsOneLine(v);
    PrefixHasNoLf(x.p, key);
    LineBody(x, key, v);
    OneLine(BodyOf(x, key, v), x.ending, LineOf(x, key, v));
  }

  lemma PrefixHasNoLf(p: Prefix, key: string)
    requires '\n' !in p.a && '\n' !in p.b && '\n' !in p.c && IsKey(key)
    ensures '\n' !in PrefixText(p, key)
  {
    forall c | c in PrefixText(p, key)
      ensures c != '\n'
    {
      assert c in p.a || KeyChar(c) || c in p.b || c == '=' || c in p.c;
    }
  }

  lemma OneLine(b: string, ending: string, line: string)
    requires b != "" && '\n' !in b && line == b + ending
    requires forall i :: 0 <= i < |ending| - 1 ==> ending[i] != '\n'
    ensures IsLine(line) && Ended(line) == Ended(ending)
  {
    forall i | 0 <= i < |line| - 1
      ensures line[i] != '\n'
    {
      assert i < |b| ==> line[i] in b;
      assert i >= |b| ==> line[i] == ending[i - |b|];
    }
    assert ending == "" ==> line[|line| - 1] in b;
  }

  lemma LineIsTidy(x: Parts, key: string, v: string)
    requires IsParts(x) && IsKey(key)
    ensures TidyLine(LineOf(x, key, v), key, v)
  {
    LineMatches(x, key, v);
    LineIsLine(x, key, v);
  }

  /** A tidy line in parts. */
  lemma TidyParts(line: string, key: string, v: string) returns (x: Parts)
    requires IsKey(key) && TidyLine(line, key, v)
    ensures IsParts(x) && line == LineOf(x, key, v)
  {
    var b := Body(line);
    var m := MatchSetting(b, key).value;
    BodyShape(line);
    BodyHasNoLf(line);
    TailEnd(m, b);
    var p := MatchPrefix(b, key);
    NoLfInParts(p, key, b, m);
    x := Parts(p, m.tail, line[|b|..]);
    InParts(m.prefix, m.token, m.tail, x.ending, line, b);
  }

  lemma InParts(prefix: string, token: string, tail: string, ending: string, line: string, b: string)
    requires b == prefix + token + tail && b <= line && ending == line[|b|..]
    ensures line == prefix + (token + (tail + ending))
  {
    assert line == b + ending;
  }

  lemma MatchPrefix(b: string, key: string) returns (p: Prefix)
    requires MatchSetting(b, key).Some?
    ensures IsPrefix(p) && MatchSetting(b, key).value.prefix == PrefixText(p, key)
  {
    p := PrefixShape(b, key);
  }

  lemma TailEnd(m: Match, b: string)
    requires b == m.prefix + m.token + m.tail && (b == "" || !LineEnd(b[|b| - 1]))
    ensures m.tail == "" || !LineEnd(m.tail[|m.tail| - 1])
  {
    assert m.tail != "" ==> m.tail[|m.tail| - 1] == b[|b| - 1];
  }

  lemma NoLfInParts(p: Prefix, key: string, b: string, m: Match)
    requires b == PrefixText(p, key) + m.token + m.tail && '\n' !in b
    ensures '\n' !in p.a && '\n' !in p.b && '\n' !in p.c && '\n' !in m.tail
  {
    assert forall c :: c in m.tail || c in PrefixText(p, key) ==> c in b;
    assert forall c :: c in p.a || c in p.b || c in p.c ==> c in PrefixText(p, key);
  }

  lemma BodyHasNoLf(line: string)
    requires IsLine(line)
    ensures '\n' !in Body(line)
  {
    var b := Body(line);
    BodyShape(line);
    forall i | 0 <= i < |b|
      ensures b[i] != '\n'
    {
      assert b[i] == line[i];
      assert i < |line| - 1 || i == |b| - 1;
    }
  }

  /** The line with another value: it sets that value, editing it back restores the line, and for
      the scanner, the headers and every other key it is the line it was. */
  lemma EditLineExact(line: string, key: string, v: string, w: string)
    requires IsKey(key) && TidyLine(line, key, v)
    ensures var e := EditLine(line, key, Some(w));
      && TidyLine(e, key, w)
      && EditLine(e, key, Some(v)) == line
      && Scan(e, None) == Scan(line, None)
      && !StartsTable(line) && !StartsTable(e)
      && Ended(e) == Ended(line)
  {
    var x := TidyParts(line, key, v);
    var e := LineOf(x, key, w);
    LineMatches(x, key, v);
    LineMatches(x, key, w);
    LineIsTidy(x, key, w);
    LineScan(x, key, v);
    LineScan(x, key, w);
    LineIsNoHeader(x, key, v);
    LineIsNoHeader(x, key, w);
    LineIsLine(x, key, v);
    LineIsLine(x, key, w);
    LineBody(x, key, v);
    LineBody(x, key, w);
    assert EditLine(line, key, Some(w)) == e && EditLine(e, key, Some(v)) == line;
  }

  lemma TidySetsNoOther(line: string, key: string, v: string, other: string)
    requires IsKey(key) && IsKey(other) && key != other && TidyLine(line, key, v)
    ensures !Matches(line, other)
  {
    var x := TidyParts(line, key, v);
    LineSetsNoOther(x, key, v, other);
  }

  /** A setting added at the top of the text is a tidy line, and removing it leaves nothing. */
  lemma PrependedExact(key: string, v: string)
    requires IsKey(key)
    ensures TidyLine(Prepended(key, v), key, v)
    ensures EditLine(Prepended(key, v), key, None) == ""
    ensures Scan(Prepended(key, v), None) == None
    ensures !StartsTable(Prepended(key, v)) && Ended(Prepended(key, v))
  {
    var x := Parts(Prefix("", " ", " "), "", "\n");
    assert IsParts(x);
    PrependedParts(key, v, x);
    LineIsTidy(x, key, v);
    LineRemoved(x, key, v);
    LineScan(x, key, v);
    assert x.tail + x.ending == "\n" && "\n"[1..] == "";
    LineIsNoHeader(x, key, v);
    LineIsLine(x, key, v);
  }

  lemma PrependedParts(key: string, v: string, x: Parts)
    requires x == Parts(Prefix("", " ", " "), "", "\n")
    ensures Prepended(key, v) == LineOf(x, key, v)
  {
    assert PrefixText(x.p, key) == key + " = ";
  }

  lemma LineRemoved(x: Parts, key: string, v: string)
    requires IsParts(x) && IsKey(key) && x.tail == ""
    ensures Matches(LineOf(x, key, v), key) && EditLine(LineOf(x, key, v), key, None) == ""
  {
    LineMatches(x, key, v);
  }
}
