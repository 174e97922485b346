/**
 The provider table: where the headers of a document are, that exactly the appended block is
 removed, and with it the round trip of a whole installation.
 */
module ConfigRoundTrip {
  import opened Wrappers
  import opened TomlScanner
  import opened ConfigEdit
  import opened ConfigLines
  import opened ConfigDocument
  import opened ConfigRestore
  import opened ConfigIdentity
  import opened ConfigOriginals

  // ---------------------------------------------------------------- headers of joined documents

  function AllTables(lines: seq<string>): seq<Table> {
    TablesUpTo(lines, |lines|)
  }

  function Shift(tables: seq<Table>, offset: nat): (r: seq<Table>)
    ensures |r| == |tables|
    ensures forall i :: 0 <= i < |r| ==> r[i] == Table(tables[i].start + offset, tables[i].title)
  {
    seq(|tables|, i requires 0 <= i < |tables| => Table(tables[i].start + offset, tables[i].title))
  }

  lemma {:induction false} TablesLocal(a: seq<string>, b: seq<string>, n: nat)
    requires n <= |a|
    ensures TablesUpTo(a + b, n) == TablesUpTo(a, n)
  {
    if n > 0 {
      TablesLocal(a, b, n - 1);
      assert (a + b)[..n - 1] == a[..n - 1] && (a + b)[n - 1] == a[n - 1];
    }
  }

  lemma HeaderAppended(a: seq<string>, b: seq<string>, n: nat)
    requires n < |b| && ScanAll(a, None).None?
    ensures Header(a + b, |a| + n) == Header(b, n)
    ensures Join((a + b)[..|a| + n]) == Join(a) + Join(b[..n])
  {
    assert (a + b)[..|a| + n] == a + b[..n] && (a + b)[|a| + n] == b[n];
    ScanAllConcat(a, b[..n], None);
    JoinConcat(a, b[..n]);
  }

  /** The header of line `n`, if it is one. */
  function HeaderAt(lines: seq<string>, n: nat): seq<Table>
    requires n < |lines|
  {
    if Header(lines, n) then [Table(|Join(lines[..n])|, Strip(lines[n]))] else []
  }

  lemma TablesNext(lines: seq<string>, n: nat)
    requires n < |lines|
    ensures TablesUpTo(lines, n + 1) == TablesUpTo(lines, n) + HeaderAt(lines, n)
  {
  }

  lemma HeaderAtAppended(a: seq<string>, b: seq<string>, n: nat)
    requires n < |b| && ScanAll(a, None).None?
    ensures HeaderAt(a + b, |a| + n) == Shift(HeaderAt(b, n), |Join(a)|)
  {
    HeaderAppended(a, b, n);
    assert (a + b)[|a| + n] == b[n];
  }

  lemma ShiftConcat(p: seq<Table>, q: seq<Table>, n: nat)
    ensures Shift(p + q, n) == Shift(p, n) + Shift(q, n)
  {
  }

  lemma {:induction false} TablesAppended(a: seq<string>, b: seq<string>, n: nat)
    requires n <= |b| && ScanAll(a, None).None?
    ensures TablesUpTo(a + b, |a| + n) == AllTables(a) + Shift(TablesUpTo(b, n), |Join(a)|)
  {
    if n == 0 {
      TablesLocal(a, b, |a|);
      assert Shift(TablesUpTo(b, 0), |Join(a)|) == [];
    } else {
      var m := n - 1;
      TablesAppended(a, b, m);
      TablesNext(a + b, |a| + m);
      TablesNext(b, m);
      HeaderAtAppended(a, b, m);
      ShiftConcat(TablesUpTo(b, m), HeaderAt(b, m), |Join(a)|);
    }
  }

  lemma {:induction false} FindLabelSkips(tables: seq<Table>, more: seq<Table>, title: string)
    requires forall t :: t in tables ==> t.title != title
    ensures FindLabel(tables + more, title) == |tables| + FindLabel(more, title)
    decreases |tables|
  {
    if tables == [] {
      assert tables + more == more;
    } else {
      assert (tables + more)[1..] == tables[1..] + more;
      FindLabelSkips(tables[1..], more, title);
    }
  }

  lemma {:induction false} SectionEndSkips(tables: seq<Table>, more: seq<Table>, prefix: string, end: nat)
    requires forall i :: 0 <= i < |tables| ==> prefix <= tables[i].title
    ensures SectionEnd(tables + more, prefix, end) == SectionEnd(more, prefix, end)
    decreases |tables|
  {
    if tables == [] {
      assert tables + more == more;
    } else {
      assert (tables + more)[1..] == tables[1..] + more;
      SectionEndSkips(tables[1..], more, prefix, end);
    }
  }

  // ---------------------------------------------------------------- the block and its surroundings

  /** The tables of the block, the first of which is the table itself. */
  predicate OwnTables(tables: seq<Table>, provider: string) {
    && tables != [] && tables[0] == Table(0, HeaderLabel(provider))
    && forall i :: 1 <= i < |tables| ==> SubPrefix(provider) <= tables[i].title
  }

  /** A block as the editor appends it: an empty line, the table's header, and lines that close
      what they open and whose only headers are those of its sub-tables. */
  predicate OwnBlock(block: string, provider: string) {
    && |block| > 1 && block[0] == '\n'
    && var lines := Split(block[1..]);
      AllEnded(lines) && ScanAll(lines, None).None? && OwnTables(AllTables(lines), provider)
  }

  /** No table of the text has the header. */
  predicate NoTable(text: string, title: string) {
    forall t :: t in AllTables(Split(text)) ==> t.title != title
  }

  /** How much of a text stands before its first table. */
  function BeforeTables(text: string): (n: nat)
    ensures n <= |text|
  {
    var tables := AllTables(Split(text));
    if tables == [] then |text|
    else
      JoinSplit(text);
      TablesInOrder(Split(text), |Split(text)|);
      assert Split(text)[..|Split(text)|] == Split(text);
      tables[0].start
  }

  /** Text added behind the block: blank space, then only tables of others. */
  predicate Foreign(text: string, provider: string) {
    && Strip(text[..BeforeTables(text)]) == ""
    && var tables := AllTables(Split(text)); tables != [] ==> !(SubPrefix(provider) <= tables[0].title)
  }

  lemma {:induction false} StripLeftTwice(s: string)
    ensures StripLeft(StripLeft(s)) == StripLeft(s)
    decreases |s|
  {
    if s != "" && Space(s[0]) { StripLeftTwice(s[1..]); }
  }

  lemma StripEnd(line: string)
    ensures Strip(line + "\n") == Strip(line)
  {
    BlankEnd(line);
    StripLeftTwice(line);
    var t := StripLeft(line);
    if t != "" { assert (t + "\n")[..|t|] == t; }
  }

  lemma {:induction false} TablesClosed(lines: seq<string>, n: nat)
    requires n <= |lines|
    ensures TablesUpTo(CloseLines(lines), n) == TablesUpTo(lines, n)
  {
    if n > 0 {
      var closed := CloseLines(lines);
      TablesClosed(lines, n - 1);
      assert closed[..n - 1] == lines[..n - 1];
      assert closed[n - 1] == lines[n - 1] || closed[n - 1] == lines[n - 1] + "\n";
      BodyEnd(lines[n - 1]);
      StripEnd(lines[n - 1]);
    }
  }

  lemma NoTableClosed(text: string, title: string)
    requires NoTable(text, title)
    ensures forall t :: t in AllTables(Split(text + "\n")) ==> t.title != title
  {
    var lines := Split(text);
    var closed := CloseLines(lines);
    SplitClosed(text);
    TablesClosed(lines, |lines|);
    if |closed| > |lines| {
      LoneLf("k");
      assert closed[|lines|] == "\n" && !Header(closed, |lines|);
      TablesNext(closed, |lines|);
    }
  }

  // ---------------------------------------------------------------- exactly the block is removed

  lemma CutExact(text: string, own: string, appended: string, n: nat)
    requires n <= |appended| && Strip(appended[..n]) == ""
    ensures var whole := text + "\n" + own + appended; var start := |text| + 1;
      CutBlock(whole, start, start + |own| + n, own) == (text + appended, true)
  {
    var whole, start := text + "\n" + own + appended, |text| + 1;
    var section := whole[start..start + |own| + n];
    assert section == own + appended[..n];
    assert section[|own|..] == appended[..n];
    assert whole[..|text|] == text && whole[start + |own|..] == appended;
  }

  lemma ShiftTwice(p: seq<Table>, q: seq<Table>, m: nat, n: nat)
    ensures Shift(p + Shift(q, m), n) == Shift(p, n) + Shift(q, n + m)
  {
  }

  /** The headers of three documents joined, the first two of which end in code. */
  lemma TablesOfParts(a: seq<string>, p: seq<string>, q: seq<string>)
    requires ScanAll(a, None).None? && ScanAll(p, None).None?
    ensures AllTables(a + (p + q)) ==
      AllTables(a) + (Shift(AllTables(p), |Join(a)|) + Shift(AllTables(q), |Join(a)| + |Join(p)|))
  {
    AllTablesAppended(a, p + q);
    AllTablesAppended(p, q);
    ShiftTwice(AllTables(p), AllTables(q), |Join(p)|, |Join(a)|);
  }

  lemma AllTablesAppended(a: seq<string>, b: seq<string>)
    requires ScanAll(a, None).None?
    ensures AllTables(a + b) == AllTables(a) + Shift(AllTables(b), |Join(a)|)
  {
    TablesAppended(a, b, |b|);
  }

  lemma LinesOfParts(a: seq<string>, p: seq<string>, q: seq<string>)
    requires AllEnded(a) && AllEnded(p) && IsLines(q)
    ensures Split(Join(a) + Join(p) + Join(q)) == a + (p + q)
    ensures Join(a + (p + q)) == Join(a) + Join(p) + Join(q)
  {
    JoinOfParts(a, p, q);
    EndedLines(p, q);
    EndedLines(a, p + q);
    SplitJoin(a + (p + q));
  }

  lemma JoinOfParts(a: seq<string>, p: seq<string>, q: seq<string>)
    ensures Join(a + (p + q)) == Join(a) + Join(p) + Join(q)
  {
    JoinConcat(p, q);
    JoinConcat(a, p + q);
    assert Join(a) + (Join(p) + Join(q)) == Join(a) + Join(p) + Join(q);
  }

  lemma WholeLines(text: string, own: string, appended: string)
    requires AllEnded(Split(own))
    ensures Split(text + "\n" + own + appended) == Split(text + "\n") + (Split(own) + Split(appended))
    ensures Join(Split(text + "\n") + (Split(own) + Split(appended))) == text + "\n" + own + appended
  {
    SplitClosed(text);
    JoinSplit(text + "\n");
    JoinSplit(own);
    JoinSplit(appended);
    LinesOfParts(Split(text + "\n"), Split(own), Split(appended));
  }

  lemma JoinedTables(all: seq<string>, a: seq<string>, p: seq<string>, q: seq<string>, m: nat, n: nat)
    requires all == a + (p + q) && m == |Join(a)| && n == m + |Join(p)|
    requires ScanAll(a, None).None? && ScanAll(p, None).None?
    ensures AllTables(all) == AllTables(a) + (Shift(AllTables(p), m) + Shift(AllTables(q), n))
  {
    TablesOfParts(a, p, q);
  }

  /** The block goes, with the line feed before it; what the user has before and behind it stays. */
  lemma RemoveExact(text: string, provider: string, block: string, appended: string)
    requires Closed(text) && NoTable(text, HeaderLabel(provider))
    requires OwnBlock(block, provider) && Foreign(appended, provider)
    ensures RemoveTable(text + block + appended, provider, block) == (text + appended, true)
  {
    NoTableClosed(text, HeaderLabel(provider));
    BlockText(text, block, appended);
    RemoveParts(text, provider, block, appended, Split(text + "\n"), Split(block[1..]), text + "\n" + block[1..] + appended);
  }

  lemma RemoveParts(text: string, provider: string, block: string, appended: string,
                    a: seq<string>, p: seq<string>, whole: string)
    requires |block| > 1 && whole == text + "\n" + block[1..] + appended
    requires a == Split(text + "\n") && ScanAll(a, None).None?
    requires p == Split(block[1..]) && AllEnded(p) && ScanAll(p, None).None?
    requires forall t :: t in AllTables(a) ==> t.title != HeaderLabel(provider)
    requires OwnTables(AllTables(p), provider) && Foreign(appended, provider)
    ensures RemoveTable(whole, provider, block) == (text + appended, true)
  {
    WholeIs(text, block[1..], appended, a, p, whole);
    RemoveLines(text, provider, block, appended, a, p, Split(appended), Split(whole), whole);
  }

  lemma RemoveLines(text: string, provider: string, block: string, appended: string,
                    a: seq<string>, p: seq<string>, q: seq<string>, all: seq<string>, whole: string)
    requires |block| > 1 && whole == text + "\n" + block[1..] + appended
    requires all == Split(whole) && all == a + (p + q) && q == Split(appended)
    requires |Join(a)| == |text| + 1 && |Join(p)| == |block| - 1
    requires ScanAll(a, None).None? && ScanAll(p, None).None?
    requires forall t :: t in AllTables(a) ==> t.title != HeaderLabel(provider)
    requires OwnTables(AllTables(p), provider) && Foreign(appended, provider)
    ensures RemoveTable(whole, provider, block) == (text + appended, true)
  {
    JoinedTables(all, a, p, q, |text| + 1, |text| + |block|);
    RemoveFound(text, provider, block, appended, AllTables(a), AllTables(p), AllTables(q), whole);
  }

  lemma WholeIs(text: string, own: string, appended: string, a: seq<string>, p: seq<string>, whole: string)
    requires whole == text + "\n" + own + appended && a == Split(text + "\n") && p == Split(own) && AllEnded(p)
    ensures Split(whole) == a + (p + Split(appended)) && |Join(a)| == |text| + 1 && |Join(p)| == |own|
  {
    WholeLines(text, own, appended);
    JoinSplit(text + "\n");
    JoinSplit(own);
  }

  lemma RemoveFound(text: string, provider: string, block: string, appended: string,
                    a: seq<Table>, p: seq<Table>, q: seq<Table>, whole: string)
    requires |block| > 1 && whole == text + "\n" + block[1..] + appended
    requires AllTables(Split(whole)) == a + (Shift(p, |text| + 1) + Shift(q, |text| + |block|))
    requires forall t :: t in a ==> t.title != HeaderLabel(provider)
    requires OwnTables(p, provider)
    requires q == AllTables(Split(appended)) && Foreign(appended, provider)
    ensures RemoveTable(whole, provider, block) == (text + appended, true)
  {
    var m, n := |text| + 1, |text| + |block|;
    var all := a + (Shift(p, m) + Shift(q, n));
    BlockFound(a, p, q, m, n, provider, |whole|);
    RemoveAt(whole, provider, block, all, |a|);
    EndOfBlock(appended, q);
    var end := SectionEnd(all[|a| + 1..], SubPrefix(provider), |whole|);
    CutAt(text, block[1..], appended, whole, all[|a|].start, end);
  }

  lemma CutAt(text: string, own: string, appended: string, whole: string, start: nat, end: nat)
    requires whole == text + "\n" + own + appended && start == |text| + 1
    requires end == start + |own| + BeforeTables(appended) && Strip(appended[..BeforeTables(appended)]) == ""
    ensures CutBlock(whole, start, end, own) == (text + appended, true)
  {
    CutExact(text, own, appended, BeforeTables(appended));
  }

  lemma EndOfBlock(appended: string, q: seq<Table>)
    requires q == AllTables(Split(appended))
    ensures BeforeTables(appended) == if q == [] then |appended| else q[0].start
  {
  }

  lemma BlockText(text: string, block: string, appended: string)
    requires |block| > 1 && block[0] == '\n'
    ensures text + block + appended == text + "\n" + block[1..] + appended
  {
    assert text + block == text + "\n" + block[1..];
  }

  lemma RemoveAt(text: string, provider: string, block: string, tables: seq<Table>, i: nat)
    requires block != "" && tables == AllTables(Split(text)) && FindLabel(tables, HeaderLabel(provider)) == i < |tables|
    ensures var end := SectionEnd(tables[i + 1..], SubPrefix(provider), |text|);
      && tables[i].start <= end <= |text|
      && RemoveTable(text, provider, block) == CutBlock(text, tables[i].start, end, block[1..])
  {
    SectionBounds(text, i, SubPrefix(provider));
    var lines := Split(text);
    assert tables == TablesUpTo(lines, |lines|);
  }

  lemma BlockFound(a: seq<Table>, p: seq<Table>, q: seq<Table>, m: nat, n: nat, provider: string, end: nat)
    requires forall t :: t in a ==> t.title != HeaderLabel(provider)
    requires OwnTables(p, provider)
    requires q != [] ==> !(SubPrefix(provider) <= q[0].title)
    ensures var all := a + (Shift(p, m) + Shift(q, n));
      && |a| < |all| && FindLabel(all, HeaderLabel(provider)) == |a| && all[|a|] == Shift(p, m)[0]
      && SectionEnd(all[|a| + 1..], SubPrefix(provider), end) == if q == [] then end else q[0].start + n
  {
    FindLabelSkips(a, Shift(p, m) + Shift(q, n), HeaderLabel(provider));
    RemoveEnd(a, p, q, m, n, provider, end);
  }

  lemma RemoveEnd(a: seq<Table>, p: seq<Table>, q: seq<Table>, m: nat, n: nat, provider: string, end: nat)
    requires p != [] && forall i :: 1 <= i < |p| ==> SubPrefix(provider) <= p[i].title
    requires q != [] ==> !(SubPrefix(provider) <= q[0].title)
    ensures var all := a + (Shift(p, m) + Shift(q, n));
      && all[|a|] == Shift(p, m)[0]
      && SectionEnd(all[|a| + 1..], SubPrefix(provider), end) == if q == [] then end else q[0].start + n
  {
    var all := a + (Shift(p, m) + Shift(q, n));
    assert all[|a| + 1..] == Shift(p, m)[1..] + Shift(q, n);
    SectionEndSkips(Shift(p, m)[1..], Shift(q, n), SubPrefix(provider), end);
  }

  // ---------------------------------------------------------------- the round trip

  /** The parser reads the document as installed: every setting and the table. */
  predicate IsInstalled(parse: Parser, text: string, wanted: seq<(string, string)>, provider: string, table: Value) {
    && parse(text).Some? && ReadsWanted(parse(text).value, wanted)
    && parse(text).value.tables.Some?
    && Get(parse(text).value.tables.value, provider) == Some(table)
  }

  /** The lines of an installed configuration. */
  function InstalledLines(text: string, record: Record): seq<string> {
    PutAll(Split(text + "\n"), record.owned)
  }

  /** The parser accepts the texts on the way from the installed configuration back. */
  predicate AcceptsRestore(parse: Parser, text: string, record: Record, appended: string)
    requires record.block != ""
  {
    && Accepts(parse, InstalledLines(text, record), Split(record.block[1..]) + Split(appended), record.owned)
    && parse(text + appended).Some?
  }

  /** Restoring an installation gives back the text it started from, byte for byte, followed by
      whatever foreign tables were appended in between, and retains no setting. It fails if and
      only if the parser refuses a text on the way. Of the text it asks that each setting to install
      is absent, or stands as the editor writes it with the string the parser reads. */
  lemma RestoreUndoesInstall(parse: Parser, text: string, wanted: seq<(string, string)>, provider: string, block: string,
                             table: Value, appended: string)
    requires OwnBlock(block, provider) && Foreign(appended, provider)
    requires Closed(text) && NoTable(text, HeaderLabel(provider))
    requires Install(parse, text, wanted, block).Success?
    requires DistinctWanted(wanted) && AllEditable(parse(text).value, Split(text), wanted)
    requires IsInstalled(parse, Install(parse, text, wanted, block).value.0 + appended, wanted, provider, table)
    ensures var record := RecordOf(parse, text, wanted, provider, block, table);
      Restore(parse, Install(parse, text, wanted, block).value.0 + appended, record) ==
        if AcceptsRestore(parse, text, record, appended) then Success((text + appended, [])) else Failure(ConfigurationInvalid)
  {
    var record := RecordOf(parse, text, wanted, provider, block, table);
    InstalledReady(parse, text, wanted, block);
    NamedInstalled(parse(Install(parse, text, wanted, block).value.0 + appended).value, record.owned, wanted);
    RestoreRecorded(parse, text, wanted, record, appended);
  }

  lemma RestoreRecorded(parse: Parser, text: string, wanted: seq<(string, string)>, record: Record, appended: string)
    requires OwnBlock(record.block, record.provider) && Foreign(appended, record.provider)
    requires Closed(text) && NoTable(text, HeaderLabel(record.provider))
    requires Install(parse, text, wanted, record.block).Success? && Names(record.owned, wanted)
    requires DistinctKeys(record.owned) && AllReady(Split(text), record.owned)
    requires IsInstalled(parse, Install(parse, text, wanted, record.block).value.0 + appended, wanted, record.provider, record.table)
    requires AllInstalled(parse(Install(parse, text, wanted, record.block).value.0 + appended).value, record.owned)
    ensures Restore(parse, Install(parse, text, wanted, record.block).value.0 + appended, record) ==
      if AcceptsRestore(parse, text, record, appended) then Success((text + appended, [])) else Failure(ConfigurationInvalid)
  {
    var edited := SetEach(parse, text, wanted).value;
    var whole := edited + record.block + appended;
    var lines, more := Split(text + "\n"), Split(record.block[1..]) + Split(appended);
    SetEachIs(parse, text, record.owned, wanted);
    ReadyWithLf(text, record.owned);
    WholeText(edited, record.block, appended);
    WholeText(text, record.block, appended);
    EndedLines(Split(record.block[1..]), Split(appended));
    RestoreAll(parse, parse(whole).value, lines, more, record.owned);
    RemoveExact(text, record.provider, record.block, appended);
  }

  lemma WholeText(text: string, block: string, appended: string)
    requires |block| > 1 && block[0] == '\n' && AllEnded(Split(block[1..]))
    ensures Join(Split(text + "\n") + (Split(block[1..]) + Split(appended))) == text + block + appended
  {
    WholeLines(text, block[1..], appended);
    BlockText(text, block, appended);
  }
}
