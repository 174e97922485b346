/**
 Configurations that show the premises of the merge can be met, and that each of them is needed:
 a parser of a few documents for which an installed value is restored, a user's value is kept, an
 empty original is not restored, and a removal leaves a setting behind that nobody wrote.
 */
module ConfigWitnesses {
  import opened Wrappers
  import opened TomlScanner
  import opened ConfigEdit
  import opened ConfigLines
  import opened ConfigDocument
  import opened ConfigRestore
  import opened ConfigIdentity
  import opened ConfigOriginals
  import opened ConfigRoundTrip
  import opened ConfigOrdinary
  import opened ConfigRemoval
  import opened ConfigMerge
  import ConfigRepeat

  const KEY := "model"

  lemma KeyIsKey()
    ensures IsKey(KEY)
  {
  }

  // ---------------------------------------------------------------- one setting and the block

  /** A document with one setting, with or without what the editor appended. */
  function Doc(x: string, block: string): string {
    Prepended(KEY, x) + block
  }

  predicate Known(x: string) {
    x == "a" || x == "b" || x == "c"
  }

  function Reading(x: string, provider: string, installed: bool): Toml {
    Toml(map[KEY := Text(x)], Some(if installed then map[provider := Text("table")] else map[]))
  }

  function Recorded(provider: string, block: string): Record {
    Record([Owned(KEY, "a", Some("b"))], provider, block, Text("table"))
  }

  // ---------------------------------------------------------------- the lines of such a document

  lemma {:induction false} FirstTable(lines: seq<string>, n: nat)
    requires IsLines(lines) && n <= |lines| && TablesUpTo(lines, n) != []
    ensures Header(lines, 0) || TablesUpTo(lines, n)[0].start > 0
  {
    if TablesUpTo(lines, n - 1) != [] {
      FirstTable(lines, n - 1);
    } else if n > 1 {
      assert lines[..n - 1][0] == lines[0] && Join(lines[..n - 1]) != "";
    }
  }

  /** Nothing in a block is a top-level setting. */
  lemma BlockSetsNothing(provider: string, block: string, key: string)
    requires (block == "" || OwnBlock(block, provider)) && IsKey(key)
    ensures Absent(Split(block), key)
  {
    var lines := Split(block);
    if block != "" {
      var more := Split(block[1..]);
      SplitLine("\n", block[1..]);
      assert "\n" + block[1..] == block;
      FirstTable(more, |more|);
      assert ScanAll(["\n"], None).None? by { assert ["\n"][1..] == [] && "\n"[1..] == ""; }
      HeaderAppended(["\n"], more, 0);
      LoneLf(key);
      assert Header(lines, 1);
      forall j: nat
        ensures !Sets(lines, key, j)
      {
        assert j >= 1 ==> !TopLevel(lines, j);
      }
    }
    FirstMatchExact(lines, key, 0);
  }

  lemma SplitLine(line: string, rest: string)
    requires IsLine(line) && Ended(line)
    ensures Split(line + rest) == [line] + Split(rest)
  {
    EndedLines([line], Split(rest));
    JoinSplit(rest);
    JoinFirst(line, Split(rest));
    SplitJoin([line] + Split(rest));
  }

  /** The one line that sets a key in the document. */
  lemma DocMatches(provider: string, block: string, x: string, key: string)
    requires (block == "" || OwnBlock(block, provider)) && IsKey(key)
    ensures key == KEY ==> Matched(Doc(x, block), key).Some? && TailOk(Matched(Doc(x, block), key).value.tail)
    ensures key != KEY ==> Matched(Doc(x, block), key).None?
  {
    PrependedExact(KEY, x);
    SplitLine(Prepended(KEY, x), block);
    BlockSetsNothing(provider, block, key);
    BlockSetsNothing(provider, block, KEY);
    PutAbsent(Split(block), KEY, x);
    if key != KEY { PutAbsentOther(Split(block), KEY, x, key); }
  }

  lemma PrependedEdit(x: string, y: string)
    ensures Matches(Prepended(KEY, x), KEY) && EditLine(Prepended(KEY, x), KEY, Some(y)) == Prepended(KEY, y)
  {
    var parts := Parts(Prefix("", " ", " "), "", "\n");
    PrependedParts(KEY, x, parts);
    PrependedParts(KEY, y, parts);
    LineMatches(parts, KEY, x);
    LineBody(parts, KEY, x);
    EditText(Prepended(KEY, x), KEY, y);
    assert Dumps(y) + "" == Dumps(y);
    LineBody(parts, KEY, y);
  }

  lemma DocEdits(provider: string, block: string, x: string, y: string)
    requires block == "" || OwnBlock(block, provider)
    ensures Edited(Doc(x, block), KEY, Some(y)) == Doc(y, block)
  {
    PrependedExact(KEY, x);
    SplitLine(Prepended(KEY, x), block);
    BlockSetsNothing(provider, block, KEY);
    PutAbsent(Split(block), KEY, x);
    PrependedEdit(x, y);
    JoinSplit(block);
    FirstReplaced(Doc(x, block), Prepended(KEY, x), Split(block), Some(y), Prepended(KEY, y), block);
  }

  lemma FirstReplaced(text: string, line: string, more: seq<string>, value: Option<string>, e: string, rest: string)
    requires Split(text) == [line] + more && Join(more) == rest && FirstMatch([line] + more, KEY) == Some(0)
    requires Matches(line, KEY) && EditLine(line, KEY, value) == e
    ensures Edited(text, KEY, value) == e + rest
  {
    EditedAt(text, value, [line] + more, e);
    assert ([line] + more)[0 := e] == [e] + more;
    JoinFirst(e, more);
  }

  lemma EditedAt(text: string, value: Option<string>, lines: seq<string>, e: string)
    requires Split(text) == lines && FirstMatch(lines, KEY) == Some(0)
    requires lines != [] && Matches(lines[0], KEY) && EditLine(lines[0], KEY, value) == e
    ensures Edited(text, KEY, value) == Join(lines[0 := e])
  {
  }

  lemma DocStands(provider: string, x: string)
    ensures Closed(Doc(x, "")) && NoTable(Doc(x, ""), HeaderLabel(provider))
  {
    PrependedExact(KEY, x);
    NothingBehind(Prepended(KEY, x), "");
    LineStands(Prepended(KEY, x), HeaderLabel(provider));
  }

  lemma LineStands(line: string, title: string)
    requires IsLine(line) && Ended(line) && Scan(line, None) == None && !StartsTable(line)
    ensures Closed(line) && NoTable(line, title)
  {
    SplitOne(line);
    SplitOne("\n");
    SplitLine(line, "\n");
    TwoLinesScan(line);
    assert TablesUpTo([line], 0) == [] && !Header([line], 0);
  }

  lemma TwoLinesScan(line: string)
    requires Scan(line, None) == None
    ensures ScanAll([line] + ["\n"], None) == None
  {
    ScanAllConcat([line], ["\n"], None);
    assert [line][1..] == [] && ["\n"][1..] == [] && "\n"[1..] == "";
  }

  lemma SplitOne(line: string)
    requires IsLine(line)
    ensures Split(line) == [line]
  {
    assert line + "" == line;
    FirstLineIs(line, "");
    assert line[|line|..] == "" && [line] + [] == [line];
  }

  lemma NothingForeign(provider: string)
    ensures Foreign("", provider)
  {
    assert AllTables(Split("")) == [];
    assert ""[..0] == "";
  }

  lemma DocRemoval(provider: string, block: string, x: string)
    requires OwnBlock(block, provider)
    ensures RemoveTable(Doc(x, block), provider, block) == (Doc(x, ""), true)
    ensures !Swallows(Doc(x, block), provider, block)
  {
    DocStands(provider, x);
    NothingForeign(provider);
    NothingBehind(Prepended(KEY, x), block);
    OnlyBlock(provider, block, Doc(x, ""), Doc(x, block));
  }

  lemma NothingBehind(line: string, block: string)
    ensures line + "" == line && line + block == line + "" + block + ""
  {
  }

  lemma OnlyBlock(provider: string, block: string, text: string, whole: string)
    requires OwnBlock(block, provider) && Closed(text) && NoTable(text, HeaderLabel(provider)) && Foreign("", provider)
    requires whole == text + block + ""
    ensures RemoveTable(whole, provider, block) == (text, true) && !Swallows(whole, provider, block)
  {
    RemoveExact(text, provider, block, "");
    SwallowsExactly(text, provider, block, "");
    assert text + "" == text && FirstLine("") == "" && StripLeft("") == "";
  }

  // ---------------------------------------------------------------- the premises are met

  type Documents = (string, bool) -> string

  /** What is needed of the documents with one setting: how they are edited, what sets a key in
      them, and that the block can be removed. */
  ghost predicate Edits(doc: Documents) {
    forall x: string, installed: bool, y: string {:trigger Edited(doc(x, installed), KEY, Some(y))} ::
      Edited(doc(x, installed), KEY, Some(y)) == doc(y, installed)
  }

  ghost predicate SetsKey(doc: Documents) {
    forall x: string, installed: bool, key: string {:trigger Matched(doc(x, installed), key)} :: IsKey(key) ==>
      if key == KEY then Matched(doc(x, installed), key).Some? && TailOk(Matched(doc(x, installed), key).value.tail)
      else Matched(doc(x, installed), key).None?
  }

  ghost predicate Removes(doc: Documents, provider: string, block: string)
    requires block != ""
  {
    forall x: string {:trigger RemoveTable(doc(x, true), provider, block)} {:trigger Swallows(doc(x, true), provider, block)} ::
      RemoveTable(doc(x, true), provider, block) == (doc(x, false), true) && !Swallows(doc(x, true), provider, block)
  }

  /** The parser reads three values of the setting, with and without the block, and no other text. */
  ghost predicate ReadsDocuments(parse: Parser, doc: Documents, provider: string) {
    && (forall x: string, installed: bool :: Known(x) ==> parse(doc(x, installed)) == Some(Reading(x, provider, installed)))
    && (forall text: string :: parse(text).Some? ==> exists x: string, installed: bool :: Known(x) && text == doc(x, installed))
  }

  lemma ReadsItsStrings(parse: Parser, doc: Documents, provider: string)
    requires SetsKey(doc) && ReadsDocuments(parse, doc, provider)
    ensures ReadsStrings(parse)
  {
    forall text: string, key: string | IsKey(key) && parse(text).Some? && Matched(text, key).Some?
      ensures TailOk(Matched(text, key).value.tail)
    {
      var x: string, installed: bool :| Known(x) && text == doc(x, installed);
    }
  }

  lemma SettingIsEdit(parse: Parser, text: string, key: string, value: Option<string>)
    requires parse(text).Some? && Matched(text, key).Some?
    ensures var next := Edited(text, key, value);
      Setting(parse, text, key, value) == if parse(next).None? then Failure(ConfigurationInvalid) else Success(next)
  {
  }

  lemma ReadsItsEdits(parse: Parser, doc: Documents, provider: string, block: string)
    requires Edits(doc) && SetsKey(doc) && ReadsDocuments(parse, doc, provider)
    ensures ReadsEdits(parse, Recorded(provider, block).owned)
  {
    var owned := Recorded(provider, block).owned;
    forall text: string, o: Owned | o in owned && Matched(text, o.key).Some? && Setting(parse, text, o.key, o.original).Success?
      ensures parse(Setting(parse, text, o.key, o.original).value)
           == Some(Toml(Updated(parse(text).value.settings, o.key, o.original), parse(text).value.tables))
    {
      var x: string, installed: bool :| Known(x) && text == doc(x, installed);
      SettingIsEdit(parse, text, KEY, Some("b"));
      UpdatedReading(x, provider, installed);
    }
  }

  lemma UpdatedReading(x: string, provider: string, installed: bool)
    ensures var before := Reading(x, provider, installed);
      Reading("b", provider, installed) == Toml(Updated(before.settings, KEY, Some("b")), before.tables)
  {
    assert map[KEY := Text(x)][KEY := Text("b")] == map[KEY := Text("b")];
  }

  lemma ReadsItsRemovals(parse: Parser, doc: Documents, provider: string, block: string)
    requires block != "" && Removes(doc, provider, block) && ReadsDocuments(parse, doc, provider)
    ensures ReadsRemovals(parse, Recorded(provider, block))
  {
    var record := Recorded(provider, block);
    forall text: string | HasTable(parse, text, record)
      ensures parse(RemoveTable(text, provider, block).0)
           == Some(Toml(parse(text).value.settings, Some(parse(text).value.tables.value - {provider})))
    {
      var x: string, installed: bool :| Known(x) && text == doc(x, installed);
      assert installed;
      assert map[provider := Text("table")] - {provider} == map[];
    }
  }

  /** The premises of the merge, with no setting stuck. */
  ghost predicate Mergeable(parse: Parser, text: string, record: Record) {
    && OwnsKeys(record) && Trusted(parse, record) && Restorable(parse, text, record)
    && !SomeStuck(parse, text, record)
  }

  lemma EachOf(parse: Parser, doc: Documents, provider: string, block: string, x: string)
    requires Edits(doc) && SetsKey(doc) && ReadsDocuments(parse, doc, provider) && Known(x)
    ensures RestoreEach(parse, Reading(x, provider, true), doc(x, true), Recorded(provider, block).owned)
         == Success(if x == "a" then (doc("b", true), []) else (doc(x, true), if x == "b" then [] else [KEY]))
  {
    var o := Owned(KEY, "a", Some("b"));
    var owned := Recorded(provider, block).owned;
    assert owned == [o] && owned[1..] == [];
    if x == "a" {
      SettingIsEdit(parse, doc(x, true), KEY, Some("b"));
    }
    assert [KEY] + [] == [KEY];
  }

  lemma OwnsOne(record: Record, o: Owned)
    requires record.owned == [o] && record.block != "" && o.key == KEY && (o.original.Some? ==> IsAscii(o.original.value))
    ensures OwnsKeys(record) && forall x :: x in record.owned ==> x == o
  {
    KeyIsKey();
    assert record.owned[1..] == [] && Apart(o, []) && DistinctKeys([]);
  }

  lemma DocMergeable(parse: Parser, doc: Documents, provider: string, block: string, x: string)
    requires block != "" && Edits(doc) && SetsKey(doc) && Removes(doc, provider, block) && ReadsDocuments(parse, doc, provider) && Known(x)
    ensures Mergeable(parse, doc(x, true), Recorded(provider, block))
  {
    var record := Recorded(provider, block);
    var o := Owned(KEY, "a", Some("b"));
    OwnsOne(record, o);
    ReadsItsStrings(parse, doc, provider);
    ReadsItsEdits(parse, doc, provider, block);
    ReadsItsRemovals(parse, doc, provider, block);
    EachOf(parse, doc, provider, block, x);
    assert parse(doc(x, true)) == Some(Reading(x, provider, true));
  }

  lemma DocRestored(parse: Parser, doc: Documents, provider: string, block: string, x: string)
    requires block != "" && Edits(doc) && SetsKey(doc) && Removes(doc, provider, block) && ReadsDocuments(parse, doc, provider) && (x == "a" || x == "c")
    ensures Restore(parse, doc(x, true), Recorded(provider, block))
         == Success(if x == "a" then (doc("b", false), []) else (doc("c", false), [KEY]))
  {
    EachOf(parse, doc, provider, block, x);
    var y := if x == "a" then "b" else "c";
    assert parse(doc(x, true)) == Some(Reading(x, provider, true)) && parse(doc(y, false)) == Some(Reading(y, provider, false));
    assert RemoveTable(doc(y, true), provider, block) == (doc(y, false), true);
  }

  function DocWith(block: string): Documents {
    (x: string, installed: bool) => Doc(x, if installed then block else "")
  }

  lemma DocsAreDocuments(provider: string, block: string)
    requires OwnBlock(block, provider)
    ensures Edits(DocWith(block)) && SetsKey(DocWith(block)) && Removes(DocWith(block), provider, block)
  {
    var doc := DocWith(block);
    forall x: string, installed: bool, y: string
      ensures Edited(doc(x, installed), KEY, Some(y)) == doc(y, installed)
    {
      DocEdits(provider, if installed then block else "", x, y);
    }
    forall x: string, installed: bool, key: string | IsKey(key)
      ensures if key == KEY then Matched(doc(x, installed), key).Some? && TailOk(Matched(doc(x, installed), key).value.tail)
              else Matched(doc(x, installed), key).None?
    {
      DocMatches(provider, if installed then block else "", x, key);
    }
    forall x: string
      ensures RemoveTable(doc(x, true), provider, block) == (doc(x, false), true) && !Swallows(doc(x, true), provider, block)
    {
      DocRemoval(provider, block, x);
    }
  }

  /** The character of the value tells which document a text may be. */
  function Read(provider: string, block: string, text: string): Option<Toml> {
    if |text| <= 9 || !Known([text[9]]) then None
    else if text == Doc([text[9]], block) then Some(Reading([text[9]], provider, true))
    else if text == Doc([text[9]], "") then Some(Reading([text[9]], provider, false))
    else None
  }

  function Parses(provider: string, block: string): Parser {
    text => Read(provider, block, text)
  }

  lemma DocText(x: string, block: string)
    requires Known(x)
    ensures |Doc(x, block)| == 12 + |block| && Doc(x, block)[9] == x[0] && [x[0]] == x
  {
    assert EscapeAll(x) == x by { assert x[1..] == ""; assert Escape(x[0]) == x; }
    assert Prepended(KEY, x) == "model = \"" + x + "\"\n";
  }

  lemma ParsesReads(provider: string, block: string)
    requires block != ""
    ensures ReadsDocuments(Parses(provider, block), DocWith(block), provider)
  {
    var parse, doc := Parses(provider, block), DocWith(block);
    forall x: string, installed: bool | Known(x)
      ensures parse(doc(x, installed)) == Some(Reading(x, provider, installed))
    {
      DocText(x, block);
      DocText(x, "");
    }
    forall text: string | parse(text).Some?
      ensures exists x: string, installed: bool :: Known(x) && text == doc(x, installed)
    {
      assert text == doc([text[9]], true) || text == doc([text[9]], false);
    }
  }

  /** For every block the editor can find again there is a parser that meets every premise of the
      merge, and a restore succeeds: an installed value that is still held gets its original back,
      and one the user changed is kept and reported; in both the table goes. */
  lemma MergeHappens(provider: string, block: string)
    requires OwnBlock(block, provider)
    ensures var parse, record := Parses(provider, block), Recorded(provider, block);
      && Mergeable(parse, Doc("a", block), record)
      && Restore(parse, Doc("a", block), record) == Success((Doc("b", ""), []))
      && Mergeable(parse, Doc("c", block), record)
      && Restore(parse, Doc("c", block), record) == Success((Doc("c", ""), [KEY]))
  {
    var parse, doc := Parses(provider, block), DocWith(block);
    DocsAreDocuments(provider, block);
    ParsesReads(provider, block);
    DocMergeable(parse, doc, provider, block, "a");
    DocMergeable(parse, doc, provider, block, "c");
    DocRestored(parse, doc, provider, block, "a");
    DocRestored(parse, doc, provider, block, "c");
  }

  function Wanted(): seq<(string, string)> {
    [(KEY, "a")]
  }

  lemma {:induction false} SetsOne(parse: Parser, text: string, next: string, wanted: seq<(string, string)>)
    requires |wanted| == 1 && Setting(parse, text, wanted[0].0, Some(wanted[0].1)) == Success(next)
    ensures SetEach(parse, text, wanted) == Success(next)
  {
    assert wanted[1..] == [];
    assert SetEach(parse, next, []) == Success(next);
  }

  lemma {:induction false} RecordsOne(document: Toml, wanted: seq<(string, string)>, original: string)
    requires |wanted| == 1 && Get(document.settings, wanted[0].0) == Some(Text(original))
    ensures Originals(document, wanted) == Some([Owned(wanted[0].0, wanted[0].1, Some(original))])
  {
    var rest := wanted[1..];
    assert rest == [] && Originals(document, rest) == Some([]);
    assert OriginalOf(document, wanted[0].0) == Some(Some(original));
    var first := Owned(wanted[0].0, wanted[0].1, Some(original));
    assert Originals(document, wanted) == Some([first] + []);
    assert [first] + [] == [first];
  }

  /** Installing one setting. */
  lemma {:induction false} OneInstalled(parse: Parser, text: string, next: string, wanted: seq<(string, string)>, block: string, original: string)
    requires |wanted| == 1
    requires parse(text).Some? && Get(parse(text).value.settings, wanted[0].0) == Some(Text(original))
    requires SetEach(parse, text, wanted) == Success(next) && parse(next + block).Some?
    ensures Install(parse, text, wanted, block) == Success((next + block, [Owned(wanted[0].0, wanted[0].1, Some(original))]))
  {
    RecordsOne(parse(text).value, wanted, original);
  }

  /** Installing into the document without the block. */
  lemma DocInstalled(parse: Parser, doc: Documents, provider: string, block: string)
    requires Edits(doc) && SetsKey(doc) && ReadsDocuments(parse, doc, provider) && doc("a", true) == doc("a", false) + block
    ensures Install(parse, doc("b", false), Wanted(), block) == Success((doc("a", true), [Owned(KEY, "a", Some("b"))]))
  {
    var text := doc("b", false);
    assert parse(text) == Some(Reading("b", provider, false)) && parse(doc("a", false)).Some? && parse(doc("a", true)).Some?;
    KeyIsKey();
    assert Matched(text, KEY).Some?;
    SettingIsEdit(parse, text, KEY, Some("a"));
    SetsOne(parse, text, doc("a", false), Wanted());
    OneInstalled(parse, text, doc("a", false), Wanted(), block, "b");
  }

  lemma DocEditable(provider: string, x: string)
    ensures AllEditable(Reading(x, provider, false), Split(Doc(x, "")), Wanted())
  {
    KeyIsKey();
    PrependedExact(KEY, x);
    NothingBehind(Prepended(KEY, x), "");
    SplitOne(Prepended(KEY, x));
    OneLineSets([Prepended(KEY, x)], Prepended(KEY, x), KEY);
  }

  /** The premises of the round trip of an installation, and of the merge of what it recorded. */
  ghost predicate Installs(parse: Parser, text: string, wanted: seq<(string, string)>, whole: string, record: Record) {
    && record.block != "" && Install(parse, text, wanted, record.block) == Success((whole, record.owned))
    && Closed(text) && NoTable(text, HeaderLabel(record.provider))
    && parse(text).value.tables.Some? && record.provider !in parse(text).value.tables.value
    && DistinctWanted(wanted) && AllEditable(parse(text).value, Split(text), wanted)
    && IsInstalled(parse, whole, wanted, record.provider, record.table)
    && OwnsKeys(record) && Trusted(parse, record)
  }

  /** It happens: an installation meets them all, and the installed document as well as the one not
      yet edited come back. */
  lemma InstallHappens(provider: string, block: string)
    requires OwnBlock(block, provider)
    ensures var parse, text, whole, record := Parses(provider, block), Doc("b", ""), Doc("a", block), Recorded(provider, block);
      && Installs(parse, text, Wanted(), whole, record)
      && Restore(parse, whole, record) == Success((text, [])) && Restore(parse, text, record) == Success((text, []))
  {
    var parse, doc := Parses(provider, block), DocWith(block);
    DocsAreDocuments(provider, block);
    ParsesReads(provider, block);
    DocWithBlock(block, "a");
    DocWithBlock(block, "b");
    DocInstalls(parse, doc, provider, block);
    DocRestored(parse, doc, provider, block, "a");
    UnchangedComesBack(parse, provider, block);
  }

  lemma DocWithBlock(block: string, x: string)
    ensures DocWith(block)(x, true) == Doc(x, block) && DocWith(block)(x, false) == Doc(x, "") && Doc(x, block) == Doc(x, "") + block
  {
    assert Doc(x, "") == Prepended(KEY, x);
  }

  lemma DocInstalls(parse: Parser, doc: Documents, provider: string, block: string)
    requires block != "" && Edits(doc) && SetsKey(doc) && Removes(doc, provider, block) && ReadsDocuments(parse, doc, provider)
    requires doc("b", false) == Doc("b", "") && doc("a", true) == doc("a", false) + block
    ensures Installs(parse, Doc("b", ""), Wanted(), doc("a", true), Recorded(provider, block))
    ensures parse(Doc("b", "")) == Some(Reading("b", provider, false))
  {
    DocMergeable(parse, doc, provider, block, "a");
    DocInstalled(parse, doc, provider, block);
    DocStands(provider, "b");
    DocEditable(provider, "b");
    assert parse(doc("b", false)) == Some(Reading("b", provider, false));
    assert parse(doc("a", true)) == Some(Reading("a", provider, true));
  }

  lemma UnchangedComesBack(parse: Parser, provider: string, block: string)
    requires block != "" && parse(Doc("b", "")) == Some(Reading("b", provider, false))
    requires OwnsKeys(Recorded(provider, block))
    ensures Restore(parse, Doc("b", ""), Recorded(provider, block)) == Success((Doc("b", ""), []))
  {
    ConfigRepeat.WrittenComesBack(parse, Doc("b", ""), Recorded(provider, block));
  }

  // ---------------------------------------------------------------- a document of one line

  /** What is set by a document that is one line. */
  lemma OneLineSets(lines: seq<string>, line: string, key: string)
    requires lines == [line] && IsLine(line) && Matches(line, KEY) && IsKey(key)
    ensures FirstMatch(lines, key) == if key == KEY then Some(0) else None
  {
    MatchedIsNoHeader(line, KEY);
    assert lines[..0] == [];
    if key == KEY {
      assert Sets(lines, key, 0);
    } else {
      MatchedSetsNoOther(line, KEY, key);
      assert forall j: nat :: !Sets(lines, key, j);
    }
    FirstMatchExact(lines, key, 0);
  }

  lemma OneLineDoc(line: string, m: Match, key: string)
    requires IsLine(line) && MatchSetting(Body(line), KEY) == Some(m) && IsKey(key)
    ensures Matched(line, key) == if key == KEY then Some(m) else None
  {
    SplitOne(line);
    OneLineSets(Split(line), line, key);
  }

  /** The key set to a string in triple quotes. */
  function TripleLine(tail: string): string {
    "model = " + ("\"\"" + tail) + "\n"
  }

  lemma TripleMatch(tail: string)
    requires '\n' !in tail && tail != "" && tail[|tail| - 1] == '"'
    ensures IsLine(TripleLine(tail)) && Ended(TripleLine(tail))
    ensures MatchSetting(Body(TripleLine(tail)), KEY) == Some(Match("model = ", "\"\"", tail))
  {
    TripleBody("model = ", "\"\"", tail, TripleLine(tail));
    TriplePrefix("\"\"" + tail);
    TokenOfTwo(tail);
    MatchIs("model = ", "\"\"", tail, KEY);
  }

  lemma TripleBody(prefix: string, token: string, tail: string, line: string)
    requires '\n' !in prefix && '\n' !in token && '\n' !in tail && tail != "" && tail[|tail| - 1] == '"'
    requires line == prefix + (token + tail) + "\n"
    ensures Body(line) == prefix + (token + tail) && IsLine(line) && Ended(line)
  {
    var b := prefix + (token + tail);
    assert b[|b| - 1] == tail[|tail| - 1];
    BodyIs(b, "\n");
    assert forall c :: c in b ==> c in prefix || c in token || c in tail;
    OneLine(b, "\n", line);
  }

  lemma TriplePrefix(rest: string)
    requires rest != "" && !Space(rest[0])
    ensures PrefixLength("model = " + rest, KEY) == Some(8)
  {
    var p := Prefix("", " ", " ");
    assert PrefixText(p, KEY) == "model = ";
    PrefixIs(p, KEY, rest);
  }

  lemma TokenOfTwo(tail: string)
    ensures TokenLength("\"\"" + tail) == Some(2)
  {
    assert ("\"\"" + tail)[1..] == "\"" + tail;
  }

  /** A document whose only setting is the key, in triple quotes. */
  ghost predicate OnlyTriple(text: string, m: Match) {
    && TripleBasic(m) && !TailOk(m.tail)
    && forall key: string {:trigger Matched(text, key)} :: IsKey(key) ==> Matched(text, key) == if key == KEY then Some(m) else None
  }

  lemma TripleIsOnly(tail: string)
    requires '\n' !in tail && |tail| > 1 && tail[0] == '"' && tail[|tail| - 1] == '"'
    ensures OnlyTriple(TripleLine(tail), Match("model = ", "\"\"", tail))
  {
    TripleMatch(tail);
    QuoteIsNoComment(tail);
    OneLineOnly(TripleLine(tail), Match("model = ", "\"\"", tail));
  }

  lemma QuoteIsNoComment(tail: string)
    requires tail != "" && tail[0] == '"'
    ensures !TailOk(tail)
  {
    assert StripLeft(tail) == tail;
  }

  lemma OneLineOnly(line: string, m: Match)
    requires IsLine(line) && MatchSetting(Body(line), KEY) == Some(m) && TripleBasic(m) && !TailOk(m.tail)
    ensures OnlyTriple(line, m)
  {
    forall key: string | IsKey(key)
      ensures Matched(line, key) == if key == KEY then Some(m) else None
    {
      OneLineDoc(line, m, key);
    }
  }

  // ---------------------------------------------------------------- an empty original that is not restored

  function OnlyReading(value: string): Toml {
    Toml(map[KEY := Text(value)], Some(map[]))
  }

  function RecordedOne(o: Owned, block: string): Record {
    Record([o], "p", block, Text("table"))
  }

  function ParsesOnly(text: string, value: string): Parser {
    t => if t == text then Some(OnlyReading(value)) else None
  }

  /** Without a provider table there is nothing to remove. */
  lemma NothingToRemove(parse: Parser, record: Record)
    requires record.block != "" && forall t: string :: parse(t).Some? ==> parse(t).value.tables == Some(map[])
    ensures ReadsRemovals(parse, record) && forall t: string :: CutsCleanly(parse, t, record)
  {
    assert forall t: string :: !HasTable(parse, t, record);
  }

  /** If no document has the key on an ordinary line, the parser is never asked to read an edit. */
  lemma NothingToEdit(parse: Parser, o: Owned)
    requires forall t: string :: parse(t).Some? ==> Matched(t, o.key).None? || !TailOk(Matched(t, o.key).value.tail)
    ensures ReadsEdits(parse, [o])
  {
    forall t: string, x: Owned | x in [o]
      ensures Setting(parse, t, x.key, x.original).Success? ==> Matched(t, x.key).None? || !TailOk(Matched(t, x.key).value.tail)
    {
      SettingReads(parse, t, x.key, x.original);
    }
  }

  lemma SettingReads(parse: Parser, text: string, key: string, value: Option<string>)
    ensures Setting(parse, text, key, value).Success? ==> parse(text).Some?
  {
  }

  lemma OnlyRestored(parse: Parser, text: string, next: string, o: Owned, block: string)
    requires block != "" && o.key == KEY && parse(text) == Some(OnlyReading(o.installed)) && parse(next).Some?
    requires Matched(text, KEY).Some? && Edited(text, KEY, o.original) == next
    ensures Restore(parse, text, RecordedOne(o, block)) == Success((next, []))
  {
    SettingIsEdit(parse, text, KEY, o.original);
    OneRestored(parse, text, next, o, [o]);
  }

  lemma OneRestored(parse: Parser, text: string, next: string, o: Owned, owned: seq<Owned>)
    requires owned == [o] && Setting(parse, text, o.key, o.original) == Success(next)
    requires o.key == KEY
    ensures RestoreEach(parse, OnlyReading(o.installed), text, owned) == Success((next, []))
  {
    assert owned[1..] == [];
  }

  /** A parser that reads strings only in documents whose one setting is in triple quotes. */
  lemma TripleReads(parse: Parser, text: string, m: Match)
    requires OnlyTriple(text, m)
    requires forall t: string :: parse(t).Some? ==> t == text || SetsNothing(t)
    ensures ReadsStrings(parse) && forall t: string :: parse(t).Some? ==> Matched(t, KEY).None? || !TailOk(Matched(t, KEY).value.tail)
  {
    KeyIsKey();
  }

  ghost predicate SetsNothing(text: string) {
    forall key: string {:trigger Matched(text, key)} :: IsKey(key) ==> Matched(text, key).None?
  }

  lemma StuckTrusted(text: string, m: Match, o: Owned, block: string)
    requires OnlyTriple(text, m) && block != "" && o == Owned(KEY, "c", Some(""))
    ensures OwnsKeys(RecordedOne(o, block)) && Trusted(ParsesOnly(text, "c"), RecordedOne(o, block))
    ensures Restorable(ParsesOnly(text, "c"), text, RecordedOne(o, block))
  {
    var parse, record := ParsesOnly(text, "c"), RecordedOne(o, block);
    OwnsOne(record, o);
    NothingToRemove(parse, record);
    TripleReads(parse, text, m);
    NothingToEdit(parse, o);
  }

  lemma StuckDocument(text: string, m: Match, block: string)
    requires OnlyTriple(text, m) && block != ""
    ensures var parse, record := ParsesOnly(text, "c"), RecordedOne(Owned(KEY, "c", Some("")), block);
      && OwnsKeys(record) && Trusted(parse, record) && Restorable(parse, text, record) && SomeStuck(parse, text, record)
      && Restore(parse, text, record) == Success((text, []))
  {
    var o := Owned(KEY, "c", Some(""));
    TripleMatched(text, m);
    EmptyEditExact(text, KEY);
    StuckTrusted(text, m, o, block);
    StuckSome(ParsesOnly(text, "c"), text, m, o, RecordedOne(o, block));
    OnlyRestored(ParsesOnly(text, "c"), text, text, o, block);
  }

  lemma TripleMatched(text: string, m: Match)
    requires OnlyTriple(text, m)
    ensures IsKey(KEY) && Matched(text, KEY) == Some(m)
  {
    KeyIsKey();
  }

  lemma StuckSome(parse: Parser, text: string, m: Match, o: Owned, record: Record)
    requires parse(text) == Some(OnlyReading("c")) && o == Owned(KEY, "c", Some("")) && record.owned == [o]
    requires Matched(text, KEY) == Some(m) && TripleBasic(m)
    ensures SomeStuck(parse, text, record)
  {
    assert o in record.owned && StillHeld(parse(text).value, o) && Stuck(text, o);
  }

  /** It happens: the installed value, now written in triple quotes over an original that was empty,
      is left as it is by a restore that succeeds and reports nothing. */
  lemma EmptyIsNotRestored(block: string)
    requires block != ""
    ensures var text := TripleLine("\"c\"\"\""); var parse := ParsesOnly(text, "c");
      var record := RecordedOne(Owned(KEY, "c", Some("")), block);
      && OwnsKeys(record) && Trusted(parse, record) && Restorable(parse, text, record) && SomeStuck(parse, text, record)
      && Restore(parse, text, record) == Success((text, [])) && parse(text).value.settings[KEY] == Text("c")
  {
    TripleIsOnly("\"c\"\"\"");
    StuckDocument(TripleLine("\"c\"\"\""), Match("model = ", "\"\"", "\"c\"\"\""), block);
  }

  // ---------------------------------------------------------------- a removal that leaves a setting behind

  const LEFT_TAIL := "\"a\" = 1 # \"\"\""

  const LEFT_VALUE := "a\" = 1 # "

  function ParsesBoth(text: string, left: string, value: string): Parser {
    t => if t == text then Some(OnlyReading(value)) else if t == left then Some(Toml(map["a" := Other(1)], Some(map[]))) else None
  }

  lemma LeftSetsNothing(tail: string, key: string)
    requires IsKey(key) && '\n' !in tail && |tail| > 1 && tail[0] == '"' && tail[|tail| - 1] == '"'
    ensures Matched(tail + "\n", key).None?
  {
    var line := tail + "\n";
    BodyIs(tail, "\n");
    assert AfterPrefix(tail, key).None? by { assert StripLeft(tail) == tail; }
    OneLine(tail, "\n", line);
    SplitOne(line);
    assert forall j: nat :: !Sets([line], key, j);
    FirstMatchExact([line], key, 0);
  }

  lemma LeftEdit(tail: string)
    requires '\n' !in tail && |tail| > 1 && tail[0] == '"' && tail[|tail| - 1] == '"'
    ensures Edited(TripleLine(tail), KEY, None) == tail + "\n"
  {
    TripleMatch(tail);
    LeftOf(TripleLine(tail), Match("model = ", "\"\"", tail), tail + "\n");
  }

  lemma LeftOf(line: string, m: Match, left: string)
    requires IsLine(line) && MatchSetting(Body(line), KEY) == Some(m) && left == m.tail + "\n"
    requires |m.tail| > 1 && m.tail[0] == '"' && m.tail[|m.tail| - 1] == '"'
    ensures Edited(line, KEY, None) == left
  {
    OneLineFirst(line, m);
    TailRemoved(line, m);
    OneLineReplaced(line, KEY, left);
  }

  lemma OneLineFirst(line: string, m: Match)
    requires IsLine(line) && MatchSetting(Body(line), KEY) == Some(m)
    ensures FirstMatch(Split(line), KEY) == Some(0)
  {
    KeyIsKey();
    SplitOne(line);
    OneLineSets([line], line, KEY);
  }

  lemma TailRemoved(line: string, m: Match)
    requires MatchSetting(Body(line), KEY) == Some(m)
    requires |m.tail| > 1 && m.tail[0] == '"' && m.tail[|m.tail| - 1] == '"'
    ensures EditLine(line, KEY, None) == m.tail + "\n"
  {
    assert StripLeft(m.tail) == m.tail && Strip(m.tail) == m.tail;
  }

  lemma OneLineReplaced(line: string, key: string, e: string)
    requires IsLine(line) && key == KEY && FirstMatch(Split(line), key) == Some(0) && Matches(line, key) && EditLine(line, key, None) == e
    ensures Edited(line, key, None) == e
  {
    SplitOne(line);
    assert [line] + [] == [line] && e + "" == e;
    FirstReplaced(line, line, [], None, e, "");
  }

  lemma LeftTrusted(text: string, m: Match, left: string, o: Owned, block: string)
    requires OnlyTriple(text, m) && block != "" && left != text && o.key == KEY && o.original.None?
    requires SetsNothing(left)
    ensures OwnsKeys(RecordedOne(o, block)) && Trusted(ParsesBoth(text, left, o.installed), RecordedOne(o, block))
  {
    var parse, record := ParsesBoth(text, left, o.installed), RecordedOne(o, block);
    OwnsOne(record, o);
    NothingToRemove(parse, record);
    TripleReads(parse, text, m);
    NothingToEdit(parse, o);
  }

  lemma LeftDocument(text: string, m: Match, left: string, value: string, block: string)
    requires OnlyTriple(text, m) && block != "" && left != text && Edited(text, KEY, None) == left
    requires SetsNothing(left)
    ensures var parse, record := ParsesBoth(text, left, value), RecordedOne(Owned(KEY, value, None), block);
      && OwnsKeys(record) && Trusted(parse, record) && !Restorable(parse, text, record)
      && Restore(parse, text, record) == Success((left, []))
  {
    var o := Owned(KEY, value, None);
    TripleMatched(text, m);
    LeftTrusted(text, m, left, o, block);
    LeftNotRestorable(ParsesBoth(text, left, value), text, m, o, RecordedOne(o, block));
    OnlyRestored(ParsesBoth(text, left, value), text, left, o, block);
  }

  lemma LeftNotRestorable(parse: Parser, text: string, m: Match, o: Owned, record: Record)
    requires parse(text) == Some(OnlyReading(o.installed)) && o.key == KEY && o.original.None? && record.owned == [o]
    requires record.block != "" && Matched(text, KEY) == Some(m) && !TailOk(m.tail)
    ensures !Restorable(parse, text, record)
  {
    assert o in record.owned && StillHeld(parse(text).value, o);
  }

  /** The parser reads the setting that was left. */
  lemma LeftIsRead(text: string, m: Match, left: string, value: string)
    requires OnlyTriple(text, m) && left != text && Edited(text, KEY, None) == left && SetsNothing(left)
    ensures ReadsLeftovers(ParsesBoth(text, left, value), (line: string) => "a")
  {
    var parse := ParsesBoth(text, left, value);
    forall t: string, key: string | IsKey(key) && Matched(t, key).Some? && Setting(parse, t, key, None).Success?
      ensures t == text && key == KEY && Setting(parse, t, key, None) == Success(left)
    {
      SettingReads(parse, t, key, None);
      SettingIsEdit(parse, t, key, None);
    }
  }

  /** It happens: removing a value in triple quotes makes a setting of what stood in the quotes. Such
      a configuration is not one that can be restored, and the merge is not exact on it. */
  lemma RemovalLeavesSetting(block: string)
    requires block != ""
    ensures var text, left := TripleLine(LEFT_TAIL), LEFT_TAIL + "\n"; var parse := ParsesBoth(text, left, LEFT_VALUE);
      var record := RecordedOne(Owned(KEY, LEFT_VALUE, None), block);
      && OwnsKeys(record) && Trusted(parse, record) && !Restorable(parse, text, record)
      && Restore(parse, text, record) == Success((left, []))
      && "a" !in parse(text).value.settings && "a" in parse(left).value.settings
      && ReadsLeftovers(parse, (line: string) => "a")
  {
    var text, left := TripleLine(LEFT_TAIL), LEFT_TAIL + "\n";
    TripleIsOnly(LEFT_TAIL);
    LeftEdit(LEFT_TAIL);
    forall key: string | IsKey(key)
      ensures Matched(left, key).None?
    {
      LeftSetsNothing(LEFT_TAIL, key);
    }
    assert text[0] == 'm' && left[0] == '"';
    LeftDocument(text, Match("model = ", "\"\"", LEFT_TAIL), left, LEFT_VALUE, block);
    LeftIsRead(text, Match("model = ", "\"\"", LEFT_TAIL), left, LEFT_VALUE);
  }
}
