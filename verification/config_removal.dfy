/**
 What removing the provider table does to the lines around it. The line feed before the block goes
 with it, so a last line that nothing ended is continued by whatever stood behind the block. If
 that is a table header and the line is not blank, the document loses the header.
 */
module ConfigRemoval {
  import opened Wrappers
  import opened TomlScanner
  import opened ConfigEdit
  import opened ConfigLines
  import opened ConfigDocument
  import opened ConfigRestore
  import opened ConfigIdentity
  import opened ConfigRoundTrip

  // ---------------------------------------------------------------- cutting a section

  /** The result is the text without the block at `start` and without the line feed before it. */
  predicate PutBack(text: string, start: nat, block: string, result: string, from: nat) {
    && from <= start <= |text| && from <= |result|
    && (text[from..start] == "" || text[from..start] == "\n")
    && text == result[..from] + (text[from..start] + block) + result[from..]
  }

  /** The block goes exactly if it starts the section and only blank space stands behind it; what
      is left is the text with the block, and at most a line feed, taken out. */
  lemma CutPutsBack(text: string, start: nat, end: nat, block: string)
    requires start <= end <= |text|
    ensures var (result, removed) := CutBlock(text, start, end, block);
      && (removed <==> block <= text[start..end] && Strip(text[start..end][|block|..]) == "")
      && (!removed ==> result == text)
      && (removed ==> exists from: nat :: PutBack(text, start, block, result, from))
  {
    var (result, removed) := CutBlock(text, start, end, block);
    if removed {
      var from := if start > 0 && text[start - 1] == '\n' then start - 1 else start;
      assert text[start..end][..|block|] == block;
      assert text[start..start + |block|] == block;
      assert text == text[..from] + (text[from..start] + block) + text[start + |block|..];
      assert result[..from] == text[..from] && result[from..] == text[start + |block|..];
      assert PutBack(text, start, block, result, from);
    }
  }

  // ---------------------------------------------------------------- where the block stands

  function BlockStart(text: string, provider: string): (start: Option<nat>)
    ensures start.Some? ==> start.value <= |text|
  {
    var tables := AllTables(Split(text));
    var i := FindLabel(tables, HeaderLabel(provider));
    if i == |tables| then None
    else
      SectionBounds(text, i, SubPrefix(provider));
      Some(tables[i].start)
  }

  function LastLine(text: string): string {
    var lines := Split(text);
    if lines == [] then "" else lines[|lines| - 1]
  }

  /** The last line of the text is not blank, and a text added behind it would continue it. */
  predicate Continues(text: string) {
    !Ended(LastLine(text)) && StripLeft(LastLine(text)) != ""
  }

  predicate StartsWithHeader(text: string) {
    StartsTable(FirstLine(text))
  }

  /** Removing the block lets the line before it swallow the header directly behind it. */
  predicate Swallows(text: string, provider: string, block: string)
    requires block != ""
  {
    var (result, removed) := RemoveTable(text, provider, block);
    var start := BlockStart(text, provider);
    && removed && start.Some?
    && var from := if start.value > 0 && text[start.value - 1] == '\n' then start.value - 1 else start.value;
      from <= |result| && Continues(result[..from]) && StartsWithHeader(result[from..])
  }

  lemma BlockStartIs(text: string, provider: string, block: string, appended: string)
    requires Closed(text) && NoTable(text, HeaderLabel(provider))
    requires OwnBlock(block, provider) && Foreign(appended, provider)
    ensures BlockStart(text + block + appended, provider) == Some(|text| + 1)
  {
    NoTableClosed(text, HeaderLabel(provider));
    BlockText(text, block, appended);
    StartInParts(text, provider, block, appended, Split(text + "\n"), Split(block[1..]), text + "\n" + block[1..] + appended);
  }

  lemma StartInParts(text: string, provider: string, block: string, appended: string,
                     a: seq<string>, p: seq<string>, whole: string)
    requires |block| > 1 && whole == text + "\n" + block[1..] + appended
    requires a == Split(text + "\n") && ScanAll(a, None).None?
    requires p == Split(block[1..]) && AllEnded(p) && ScanAll(p, None).None?
    requires forall t :: t in AllTables(a) ==> t.title != HeaderLabel(provider)
    requires OwnTables(AllTables(p), provider) && Foreign(appended, provider)
    ensures BlockStart(whole, provider) == Some(|text| + 1)
  {
    WholeIs(text, block[1..], appended, a, p, whole);
    StartInLines(provider, block, appended, a, p, Split(appended), Split(whole), |text| + 1, whole);
  }

  lemma StartInLines(provider: string, block: string, appended: string,
                     a: seq<string>, p: seq<string>, q: seq<string>, all: seq<string>, m: nat, whole: string)
    requires |block| > 1 && all == Split(whole) && all == a + (p + q) && q == Split(appended)
    requires |Join(a)| == m && |Join(p)| == |block| - 1
    requires ScanAll(a, None).None? && ScanAll(p, None).None?
    requires forall t :: t in AllTables(a) ==> t.title != HeaderLabel(provider)
    requires OwnTables(AllTables(p), provider) && Foreign(appended, provider)
    ensures BlockStart(whole, provider) == Some(m)
  {
    var n := m + |block| - 1;
    JoinedTables(all, a, p, q, m, n);
    StartFound(provider, AllTables(a), AllTables(p), AllTables(q), m, n, whole);
  }

  lemma StartFound(provider: string, a: seq<Table>, p: seq<Table>, q: seq<Table>, m: nat, n: nat, whole: string)
    requires AllTables(Split(whole)) == a + (Shift(p, m) + Shift(q, n))
    requires forall t :: t in a ==> t.title != HeaderLabel(provider)
    requires OwnTables(p, provider) && (q != [] ==> !(SubPrefix(provider) <= q[0].title))
    ensures BlockStart(whole, provider) == Some(m)
  {
    BlockFound(a, p, q, m, n, provider, |whole|);
  }

  /** In an installed configuration that is so exactly if the text before the block ends in the
      middle of a line that is not blank, and a table was appended without a line between. */
  lemma SwallowsExactly(text: string, provider: string, block: string, appended: string)
    requires Closed(text) && NoTable(text, HeaderLabel(provider))
    requires OwnBlock(block, provider) && Foreign(appended, provider)
    ensures Swallows(text + block + appended, provider, block) <==> Continues(text) && StartsWithHeader(appended)
  {
    var whole := text + block + appended;
    RemoveExact(text, provider, block, appended);
    BlockStartIs(text, provider, block, appended);
    assert whole[|text|] == block[0];
    assert (text + appended)[..|text|] == text && (text + appended)[|text|..] == appended;
  }

  // ---------------------------------------------------------------- the header that is lost

  lemma {:induction false} LeftAppended(s: string, h: string)
    requires StripLeft(s) != ""
    ensures StripLeft(s + h) == StripLeft(s) + h
    decreases |s|
  {
    if Space(s[0]) {
      assert (s + h)[1..] == s[1..] + h;
      LeftAppended(s[1..], h);
    }
  }

  lemma StripTrailing(s: string, c: char)
    requires StripLeft(s) != "" && Space(c)
    ensures Strip(s + [c]) == Strip(s)
  {
    var t := StripLeft(s);
    LeftAppended(s, [c]);
    StripLeftTwice(s);
    assert (t + [c])[..|t|] == t;
  }

  /** Text before a header stays part of the line. */
  lemma {:induction false} StripKeepsBefore(u: string, h: string)
    requires StripLeft(u) != "" && StripLeft(h) != ""
    ensures |Strip(u + h)| > |Strip(h)|
    decreases |h|
  {
    var n := |h| - 1;
    LeftAppended(u, h);
    if Space(h[n]) {
      var less := h[..n];
      assert h == less + [h[n]] && u + h == (u + less) + [h[n]];
      LeftOfLess(less, h[n]);
      LeftAppended(u, less);
      StripTrailing(less, h[n]);
      StripTrailing(u + less, h[n]);
      StripKeepsBefore(u, less);
    }
  }

  lemma LeftOfLess(s: string, c: char)
    requires Space(c) && StripLeft(s + [c]) != ""
    ensures StripLeft(s) != ""
  {
    if StripLeft(s) == "" {
      var lead := LeadShape(s);
      assert s + [c] == (s + [c]) + "";
      LeadIs(s + [c], "");
    }
  }

  lemma BlankBefore(u: string, h: string)
    requires StripLeft(u) == "" && h != ""
    ensures StripLeft(u + h) == StripLeft(h) && Strip(u + h) == Strip(h)
  {
    var lead := LeadShape(u);
    var more := LeadShape(h);
    assert u + h == (lead + more) + StripLeft(h);
    LeadIs(lead + more, StripLeft(h));
  }

  lemma {:induction false} BlankScans(s: string, q: Quote)
    requires StripLeft(s) == "" && IsMark(q.mark)
    ensures Scan(s, Some(q)) == Some(q)
    decreases |s|
  {
    if s != "" { BlankScans(s[1..], q); }
  }

  predicate MarkedMode(mode: Mode) {
    mode.Some? ==> IsMark(mode.value.mark)
  }

  lemma {:induction false} ScanMarked(s: string, mode: Mode)
    requires MarkedMode(mode)
    ensures MarkedMode(Scan(s, mode))
    decreases |s|
  {
    if s != "" {
      match mode
      case None =>
        if s[0] != '#' {
          if IsMark(s[0]) {
            if Opens3(s, s[0]) { ScanMarked(s[3..], Some(Quote(s[0], true))); } else { ScanMarked(s[1..], Some(Quote(s[0], false))); }
          } else {
            ScanMarked(s[1..], None);
          }
        }
      case Some(q) =>
        if q.mark == '"' && s[0] == '\\' {
          if |s| >= 2 { ScanMarked(s[2..], mode); }
        } else if Closes(s, q) {
          ScanMarked(s[if q.triple then MarkRun(s, q.mark) else 1..], None);
        } else {
          ScanMarked(s[1..], mode);
        }
    }
  }

  lemma {:induction false} ScanAllMarked(lines: seq<string>, mode: Mode)
    requires MarkedMode(mode)
    ensures MarkedMode(ScanAll(lines, mode))
    decreases |lines|
  {
    if lines != [] {
      ScanMarked(lines[0], mode);
      ScanAllMarked(lines[1..], Scan(lines[0], mode));
    }
  }

  /** A blank last line of a closed text starts in code. */
  lemma BlankLastInCode(lines: seq<string>, last: string)
    requires ScanAll(lines + [last], None).None? && StripLeft(last) == ""
    ensures ScanAll(lines, None).None?
  {
    ScanAllConcat(lines, [last], None);
    assert [last][1..] == [];
    ScanAllMarked(lines, None);
    var mode := ScanAll(lines, None);
    if mode.Some? { BlankScans(last, mode.value); }
  }

  /** The lines of a text with another behind it, and which of them the other starts on. */
  lemma JoinedLines(text: string, appended: string) returns (before: seq<string>, part: string)
    requires appended != ""
    ensures var rest := Split(appended);
      && rest != [] && rest[0] == FirstLine(appended)
      && Split(text + appended) == before + ([part + rest[0]] + rest[1..])
      && !Ended(part) && (part == "" || part == LastLine(text))
      && (Continues(text) <==> StripLeft(part) != "")
      && CloseLines(Split(text)) == before + [part + "\n"]
  {
    var lines, rest := Split(text), Split(appended);
    JoinSplit(text);
    JoinSplit(appended);
    var n := |lines|;
    if n == 0 || Ended(lines[n - 1]) {
      before, part := lines, "";
      LinesThenLines(lines, rest, text + appended);
      NoPart(rest);
    } else {
      before, part := lines[..n - 1], lines[n - 1];
      assert lines == before + [part];
      JoinedLine(before, part, rest, text, appended);
    }
  }

  lemma NoPart(rest: seq<string>)
    requires rest != []
    ensures rest == ["" + rest[0]] + rest[1..] && "" + "\n" == "\n"
  {
    assert "" + rest[0] == rest[0];
  }

  lemma LinesThenLines(lines: seq<string>, rest: seq<string>, text: string)
    requires IsLines(lines) && IsLines(rest) && (lines == [] || Ended(lines[|lines| - 1])) && text == Join(lines) + Join(rest)
    ensures Split(text) == lines + rest
  {
    assert AllEnded(lines);
    EndedLines(lines, rest);
    JoinConcat(lines, rest);
    SplitJoin(lines + rest);
  }

  lemma JoinedLine(before: seq<string>, part: string, rest: seq<string>, text: string, appended: string)
    requires IsLines(before + [part]) && IsLines(rest) && rest != [] && !Ended(part)
    requires text == Join(before + [part]) && appended == Join(rest)
    ensures Split(text + appended) == before + ([part + rest[0]] + rest[1..])
    ensures CloseLines(before + [part]) == before + [part + "\n"]
  {
    PartLines(before, part, rest);
    JoinOfPart(before, part, rest);
    SplitJoin(before + ([part + rest[0]] + rest[1..]));
  }

  lemma JoinOfPart(before: seq<string>, part: string, rest: seq<string>)
    requires rest != []
    ensures Join(before + ([part + rest[0]] + rest[1..])) == Join(before + [part]) + Join(rest)
  {
    JoinConcat(before, [part]);
    JoinConcat(before, [part + rest[0]] + rest[1..]);
    JoinFirst(part, []);
    JoinFirst(part + rest[0], rest[1..]);
    assert [part] + [] == [part];
    Regroup(Join(before), part, rest[0], Join(rest[1..]));
  }

  lemma Regroup(a: string, b: string, c: string, d: string)
    ensures a + ((b + c) + d) == (a + (b + "")) + (c + d)
  {
  }

  lemma PartLines(before: seq<string>, part: string, rest: seq<string>)
    requires IsLines(before + [part]) && IsLines(rest) && rest != [] && !Ended(part)
    ensures IsLines(before + ([part + rest[0]] + rest[1..]))
  {
    var lines := before + [part];
    assert lines[|before|] == part && IsLine(part);
    forall i | 0 <= i < |before|
      ensures IsLine(before[i]) && Ended(before[i])
    {
      assert lines[i] == before[i];
    }
    assert AllEnded(before);
    var all := [part + rest[0]] + rest[1..];
    assert IsLine(part + rest[0]) && Ended(part + rest[0]) == Ended(rest[0]);
    assert forall i :: 1 <= i < |all| ==> all[i] == rest[i];
    EndedLines(before, all);
  }

  /** The header behind the block is still a header after the removal, with the same label, exactly
      if the text before the block does not end in the middle of a line that is not blank. */
  lemma HeaderSurvivesExactly(text: string, appended: string)
    requires Closed(text) && appended != "" && StartsWithHeader(appended)
    ensures var header := FirstLine(appended); var lines := Split(text + appended); var k := |CloseLines(Split(text))| - 1;
      k < |lines| && (Header(lines, k) && Strip(lines[k]) == Strip(header) <==> !Continues(text))
  {
    var before, part := JoinedLines(text, appended);
    SplitClosed(text);
    HeaderOnLine(before, part, FirstLine(appended), Split(appended)[1..], Split(text + appended));
  }

  lemma HeaderOnLine(before: seq<string>, part: string, header: string, rest: seq<string>, lines: seq<string>)
    requires ScanAll(before + [part + "\n"], None).None? && StartsTable(header)
    requires lines == before + ([part + header] + rest)
    ensures Header(lines, |before|) && Strip(lines[|before|]) == Strip(header) <==> StripLeft(part) == ""
  {
    assert lines[|before|] == part + header && lines[..|before|] == before;
    if StripLeft(part) == "" {
      BlankBefore(part, header);
      BlankBefore(part, "\n");
      BlankLastInCode(before, part + "\n");
    } else {
      StripKeepsBefore(part, header);
    }
  }

  // ---------------------------------------------------------------- a header that is lost

  /** A document of one line that nothing ended, and that is no header. */
  lemma LineAlone(text: string, title: string)
    requires IsLine(text) && !Ended(text) && Scan(text + "\n", None) == None && !StartsTable(text) && StripLeft(text) != ""
    ensures Closed(text) && NoTable(text, title) && Continues(text)
  {
    OneLineSplit(text);
    SplitClosed(text);
    assert CloseLines([text]) == [text + "\n"] && [text + "\n"][1..] == [];
    assert TablesUpTo([text], 0) == [] && !Header([text], 0);
  }

  lemma OneLineSplit(line: string)
    requires IsLine(line)
    ensures Split(line) == [line] && FirstLine(line) == line
  {
    assert line + "" == line;
    FirstLineIs(line, "");
    assert line[|line|..] == "" && [line] + [] == [line];
  }

  /** A document of one header. */
  lemma HeaderAlone(line: string, title: string, provider: string)
    requires IsLine(line) && StartsTable(line) && Strip(line) == title && !(SubPrefix(provider) <= title)
    ensures AllTables(Split(line)) == [Table(0, title)] && StartsWithHeader(line) && Foreign(line, provider)
  {
    OneLineSplit(line);
    assert TablesUpTo([line], 0) == [] && [line][..0] == [] && Header([line], 0);
    assert line[..0] == "";
  }

  lemma NoHeaderAlone(line: string)
    requires IsLine(line) && !StartsTable(line)
    ensures AllTables(Split(line)) == []
  {
    OneLineSplit(line);
    assert TablesUpTo([line], 0) == [] && !Header([line], 0);
  }

  lemma OtherFacts(line: string, provider: string)
    requires line == "[other]\n"
    ensures IsLine(line) && StartsTable(line) && Strip(line) == "[other]" && !(SubPrefix(provider) <= "[other]")
  {
    assert "[other]" + "\n" == line;
    StripEnd("[other]");
    assert SubPrefix(provider)[1] == 'm';
  }

  lemma NoteFacts(text: string)
    requires text == "# note"
    ensures IsLine(text) && !Ended(text) && Scan(text + "\n", None) == None && !StartsTable(text) && StripLeft(text) != ""
    ensures IsLine(text + "[other]\n") && !StartsTable(text + "[other]\n")
  {
  }

  predicate EndsWith(tables: seq<Table>, t: Table) {
    tables != [] && tables[|tables| - 1] == t
  }

  /** It happens: behind a comment without a line feed the header of the appended table is gone with
      the block. */
  lemma HeaderIsLost(provider: string, block: string) returns (text: string, appended: string)
    requires OwnBlock(block, provider)
    ensures text == "# note" && appended == "[other]\n"
    ensures RemoveTable(text + block + appended, provider, block) == (text + appended, true)
    ensures Swallows(text + block + appended, provider, block)
    ensures EndsWith(AllTables(Split(text + block + appended)), Table(6 + |block|, "[other]"))
    ensures AllTables(Split(text + appended)) == []
  {
    text, appended := "# note", "[other]\n";
    NoteFacts(text);
    LineAlone(text, HeaderLabel(provider));
    OtherFacts(appended, provider);
    HeaderAlone(appended, "[other]", provider);
    NoHeaderAlone(text + appended);
    HeaderGone(text, appended, provider, block, "[other]");
  }

  lemma HeaderGone(text: string, appended: string, provider: string, block: string, title: string)
    requires Closed(text) && NoTable(text, HeaderLabel(provider)) && Continues(text) && OwnBlock(block, provider)
    requires Foreign(appended, provider) && StartsWithHeader(appended) && AllTables(Split(appended)) == [Table(0, title)]
    ensures RemoveTable(text + block + appended, provider, block) == (text + appended, true)
    ensures Swallows(text + block + appended, provider, block)
    ensures EndsWith(AllTables(Split(text + block + appended)), Table(|text| + |block|, title))
  {
    RemoveExact(text, provider, block, appended);
    SwallowsExactly(text, provider, block, appended);
    TableBehind(text, provider, block, appended, title, text + block + appended);
  }

  /** The table behind the block is there before it is cut. */
  lemma TableBehind(text: string, provider: string, block: string, appended: string, title: string, whole: string)
    requires Closed(text) && OwnBlock(block, provider) && AllTables(Split(appended)) == [Table(0, title)]
    requires whole == text + block + appended
    ensures EndsWith(AllTables(Split(whole)), Table(|text| + |block|, title))
  {
    BlockText(text, block, appended);
    BehindParts(text, block, appended, Split(text + "\n"), Split(block[1..]), whole, title);
  }

  lemma BehindParts(text: string, block: string, appended: string, a: seq<string>, p: seq<string>, whole: string, title: string)
    requires |block| > 1 && whole == text + "\n" + block[1..] + appended
    requires a == Split(text + "\n") && ScanAll(a, None).None?
    requires p == Split(block[1..]) && AllEnded(p) && ScanAll(p, None).None?
    requires AllTables(Split(appended)) == [Table(0, title)]
    ensures EndsWith(AllTables(Split(whole)), Table(|text| + |block|, title))
  {
    WholeIs(text, block[1..], appended, a, p, whole);
    LastOfThree(Split(whole), a, p, Split(appended), |text| + 1, |text| + |block|, title);
  }

  lemma LastOfThree(all: seq<string>, a: seq<string>, p: seq<string>, q: seq<string>, m: nat, n: nat, title: string)
    requires all == a + (p + q) && |Join(a)| == m && m + |Join(p)| == n
    requires ScanAll(a, None).None? && ScanAll(p, None).None? && AllTables(q) == [Table(0, title)]
    ensures EndsWith(AllTables(all), Table(n, title))
  {
    JoinedTables(all, a, p, q, m, n);
    LastIn(AllTables(a), Shift(AllTables(p), m), Shift(AllTables(q), n), Table(n, title), AllTables(all));
  }

  lemma LastIn(a: seq<Table>, p: seq<Table>, q: seq<Table>, t: Table, all: seq<Table>)
    requires all == a + (p + q) && |q| == 1 && q[0] == t
    ensures EndsWith(all, t)
  {
  }
}
