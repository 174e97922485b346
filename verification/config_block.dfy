/**
 The provider block the editor appends. Whatever the values written into it, its lines close what
 they open and it holds the provider's table and, with a credential helper, one sub-table, so it
 can be found again and removed exactly.
 */
module ConfigBlock {
  import opened Wrappers
  import opened TomlScanner
  import opened ConfigEdit
  import opened ConfigLines
  import opened ConfigRestore
  import opened ConfigIdentity
  import opened ConfigDocument
  import opened ConfigOriginals
  import opened ConfigRoundTrip
  import TomlGrammar

  datatype Helper = Helper(command: string, entrypoint: string, home: string)

  /** A list of strings as `json.dumps` writes it, from its second element on. */
  function DumpsMore(items: seq<string>): string {
    if items == [] then "]" else ", " + Dumps(items[0]) + DumpsMore(items[1..])
  }

  function DumpsList(items: seq<string>): string
    requires items != []
  {
    "[" + Dumps(items[0]) + DumpsMore(items[1..])
  }

  function ArgsLine(items: seq<string>): string
    requires items != []
  {
    "args = " + DumpsList(items) + "\n"
  }

  /** A line of the block: a setting with a string, one with a list of strings, one with a number
      or a truth value, a table header, or an empty line. */
  datatype BlockLine =
    | Setting(key: string, value: string)
    | Args(items: seq<string>)
    | Fixed(key: string, text: string)
    | Title(title: string)
    | Blank

  function Render(l: BlockLine): string {
    match l
    case Setting(key, value) => Prepended(key, value)
    case Args(items) => if items == [] then "\n" else ArgsLine(items)
    case Fixed(key, text) => key + " = " + text + "\n"
    case Title(title) => title + "\n"
    case Blank => "\n"
  }

  function RenderAll(ls: seq<BlockLine>): (r: seq<string>)
    ensures |r| == |ls| && forall i :: 0 <= i < |ls| ==> r[i] == Render(ls[i])
  {
    seq(|ls|, i requires 0 <= i < |ls| => Render(ls[i]))
  }

  function NameLines(origin: string, display: string): seq<BlockLine> {
    [Setting("name", display), Setting("base_url", origin + "/v1"), Setting("wire_api", "responses")]
  }

  function VersionLines(origin: string, version: string): seq<BlockLine> {
    if version == "0.147.0" then []
    else [Fixed("supports_websockets", "false"), Fixed("request_max_retries", "0"), Fixed("stream_max_retries", "0"),
          Setting("model_catalog_url", origin + "/v1/models")]
  }

  function CredentialLines(credential: string, helper: Option<Helper>): seq<BlockLine> {
    if helper.None? then [Fixed("requires_openai_auth", "false"), Setting("env_key", credential)] else [Blank]
  }

  /** The table's own settings. */
  function TableLines(origin: string, credential: string, helper: Option<Helper>, version: string, display: string): seq<BlockLine> {
    NameLines(origin, display) + VersionLines(origin, version) + CredentialLines(credential, helper)
  }

  /** The settings of the sub-table for the credential helper. */
  function AuthLines(helper: Helper, generation: string): seq<BlockLine> {
    [Setting("command", helper.command),
     Args(["-I", helper.entrypoint, "--client-home", helper.home, "--generation", generation]),
     Fixed("timeout_ms", "5000"), Fixed("refresh_interval_ms", "0")]
  }

  function AuthLabel(provider: string): string {
    SubPrefix(provider) + "auth]"
  }

  function AuthSection(provider: string, helper: Option<Helper>, generation: string): seq<string> {
    if helper.None? then [] else [Render(Title(AuthLabel(provider)))] + RenderAll(AuthLines(helper.value, generation))
  }

  function BlockLines(provider: string, origin: string, credential: string, helper: Option<Helper>, generation: string,
                      version: string, display: string): seq<string> {
    [Render(Title(HeaderLabel(provider)))]
    + (RenderAll(TableLines(origin, credential, helper, version, display)) + AuthSection(provider, helper, generation))
  }

  function ProviderBlock(provider: string, origin: string, credential: string, helper: Option<Helper>, generation: string,
                         version: string, display: string): string {
    "\n" + Join(BlockLines(provider, origin, credential, helper, generation, version, display))
  }

  // ---------------------------------------------------------------- lines

  /** A complete line of code that closes every string it opens. */
  predicate Whole(line: string) {
    IsLine(line) && Ended(line) && Scan(line, None).None?
  }

  predicate Plain(line: string) {
    Whole(line) && !StartsTable(line)
  }

  predicate AllPlain(lines: seq<string>) {
    forall l :: l in lines ==> Plain(l)
  }

  predicate CodeText(s: string) {
    forall i :: 0 <= i < |s| ==> s[i] != '#' && !IsMark(s[i]) && s[i] != '\n'
  }

  lemma CodeIsWhole(s: string)
    requires CodeText(s)
    ensures Whole(s + "\n")
  {
    CodeScan(s + "\n", "");
    assert s + "\n" + "" == s + "\n";
  }

  lemma {:induction false} MoreScan(items: seq<string>)
    ensures Scan(DumpsMore(items) + "\n", None) == None && '\n' !in DumpsMore(items)
    ensures DumpsMore(items) != "" && DumpsMore(items)[0] != '"'
    decreases |items|
  {
    if items == [] {
      CodeIsWhole("]");
    } else {
      MoreScan(items[1..]);
      MoreStep(items[0], DumpsMore(items[1..]));
    }
  }

  lemma MoreStep(item: string, rest: string)
    requires Scan(rest + "\n", None) == None && '\n' !in rest && rest != "" && rest[0] != '"'
    ensures var more := ", " + Dumps(item) + rest; Scan(more + "\n", None) == None && '\n' !in more
  {
    WithLf(", ", Dumps(item), rest);
    ScanParts(", ", item, rest + "\n", ", " + Dumps(item) + rest + "\n");
    NoLfInMore(item, rest);
  }

  lemma WithLf(a: string, b: string, c: string)
    ensures a + b + c + "\n" == a + (b + (c + "\n"))
  {
  }

  lemma NoLfInMore(item: string, rest: string)
    requires '\n' !in rest
    ensures '\n' !in ", " + Dumps(item) + rest
  {
    DumpsOneLine(item);
  }

  lemma ArgsPlain(items: seq<string>)
    requires items != []
    ensures Plain(ArgsLine(items))
  {
    var start, more := "args = [", DumpsMore(items[1..]);
    MoreScan(items[1..]);
    DumpsOneLine(items[0]);
    ScanParts(start, items[0], more + "\n", start + (Dumps(items[0]) + (more + "\n")));
    OneLine(start + (Dumps(items[0]) + more), "\n", start + (Dumps(items[0]) + (more + "\n")));
    ArgsText(items);
    assert ArgsLine(items)[0] == 'a';
  }

  lemma ArgsText(items: seq<string>)
    requires items != []
    ensures ArgsLine(items) == "args = [" + (Dumps(items[0]) + (DumpsMore(items[1..]) + "\n"))
    ensures ArgsLine(items) == "args = [" + (Dumps(items[0]) + DumpsMore(items[1..])) + "\n"
  {
    Regroup("args = ", "[", Dumps(items[0]), DumpsMore(items[1..]), "\n");
    assert "args = " + "[" == "args = [";
  }

  lemma Regroup(a: string, b: string, c: string, d: string, e: string)
    ensures a + (b + c + d) + e == (a + b) + (c + (d + e))
    ensures a + (b + c + d) + e == (a + b) + (c + d) + e
  {
    assert a + (b + c + d) == (a + b) + (c + d);
    assert (a + b) + (c + d) + e == (a + b) + ((c + d) + e);
    assert (c + d) + e == c + (d + e);
  }

  /** A line that is no header: its key is one, or its text is code that is no header. */
  predicate Ordinary(l: BlockLine) {
    match l
    case Setting(key, _) => IsKey(key)
    case Args(items) => items != []
    case Fixed(key, text) => IsKey(key) && CodeText(text)
    case Title(_) => false
    case Blank => true
  }

  lemma OrdinaryPlain(l: BlockLine)
    requires Ordinary(l)
    ensures Plain(Render(l))
  {
    match l {
      case Setting(key, value) => PrependedExact(key, value);
      case Args(items) => ArgsPlain(items);
      case Fixed(key, text) => FixedPlain(key, text);
      case Blank =>
        CodeIsWhole("");
        LoneLf("k");
        assert "" + "\n" == "\n";
    }
  }

  lemma FixedPlain(key: string, text: string)
    requires IsKey(key) && CodeText(text)
    ensures Plain(key + " = " + text + "\n")
  {
    var line := key + " = " + text;
    assert forall i :: 0 <= i < |key| ==> KeyChar(key[i]);
    assert CodeText(line);
    CodeIsWhole(line);
    BodyEnd(line);
    assert line[0] == key[0] && StripLeft(line) == line;
  }

  predicate AllOrdinary(ls: seq<BlockLine>) {
    forall i :: 0 <= i < |ls| ==> Ordinary(ls[i])
  }

  lemma RenderPlain(ls: seq<BlockLine>)
    requires AllOrdinary(ls)
    ensures AllPlain(RenderAll(ls))
  {
    forall l | l in RenderAll(ls)
      ensures Plain(l)
    {
      var i :| 0 <= i < |ls| && RenderAll(ls)[i] == l;
      OrdinaryPlain(ls[i]);
    }
  }

  lemma TableOrdinary(origin: string, credential: string, helper: Option<Helper>, version: string, display: string)
    ensures AllOrdinary(TableLines(origin, credential, helper, version, display))
  {
    NameOrdinary(origin, display);
    VersionOrdinary(origin, version);
    CredentialOrdinary(credential, helper);
    OrdinaryConcat(NameLines(origin, display), VersionLines(origin, version), CredentialLines(credential, helper));
  }

  lemma NameOrdinary(origin: string, display: string)
    ensures AllOrdinary(NameLines(origin, display))
  {
  }

  /** The keys and values the block always spells the same way. */
  lemma FixedKeys()
    ensures IsKey("supports_websockets") && IsKey("request_max_retries") && IsKey("stream_max_retries")
    ensures IsKey("model_catalog_url") && IsKey("timeout_ms") && IsKey("refresh_interval_ms")
    ensures CodeText("false") && CodeText("0") && CodeText("5000")
  {
  }

  lemma VersionOrdinary(origin: string, version: string)
    ensures AllOrdinary(VersionLines(origin, version))
  {
    FixedKeys();
  }

  lemma CredentialOrdinary(credential: string, helper: Option<Helper>)
    ensures AllOrdinary(CredentialLines(credential, helper))
  {
  }

  lemma OrdinaryConcat(a: seq<BlockLine>, b: seq<BlockLine>, c: seq<BlockLine>)
    requires AllOrdinary(a) && AllOrdinary(b) && AllOrdinary(c)
    ensures AllOrdinary(a + b + c)
  {
  }

  lemma AuthOrdinary(helper: Helper, generation: string)
    ensures AllOrdinary(AuthLines(helper, generation))
  {
    var command := Setting("command", helper.command);
    var args := Args(["-I", helper.entrypoint, "--client-home", helper.home, "--generation", generation]);
    assert Ordinary(command);
    assert Ordinary(args);
    FixedKeys();
    assert AuthLines(helper, generation) == [command, args, Fixed("timeout_ms", "5000"), Fixed("refresh_interval_ms", "0")];
  }

  // ---------------------------------------------------------------- headers

  /** A header made of a bracket, code without spaces at its ends, and a bracket. */
  lemma HeaderLine(title: string)
    requires CodeText(title) && |title| >= 2 && title[0] == '[' && title[|title| - 1] == ']'
    ensures Whole(title + "\n") && StartsTable(title + "\n") && Strip(title + "\n") == title
  {
    CodeIsWhole(title);
    StripEnd(title);
    BodyEnd(title);
    BracketText(title);
  }

  lemma BracketText(title: string)
    requires |title| >= 2 && title[0] == '[' && title[|title| - 1] == ']'
    ensures StartsTable(title) && Strip(title) == title
  {
    assert StripLeft(title) == title;
  }

  lemma LabelsAreHeaders(provider: string)
    requires IsKey(provider)
    ensures Whole(HeaderLabel(provider) + "\n") && StartsTable(HeaderLabel(provider) + "\n")
    ensures Strip(HeaderLabel(provider) + "\n") == HeaderLabel(provider)
    ensures Whole(AuthLabel(provider) + "\n") && StartsTable(AuthLabel(provider) + "\n")
    ensures Strip(AuthLabel(provider) + "\n") == AuthLabel(provider)
  {
    LabelText("[model_providers.", provider, "]");
    LabelText("[model_providers.", provider, ".auth]");
    assert AuthLabel(provider) == "[model_providers." + provider + ".auth]";
    HeaderLine(HeaderLabel(provider));
    HeaderLine(AuthLabel(provider));
  }

  lemma LabelText(a: string, provider: string, b: string)
    requires CodeText(a) && CodeText(b) && IsKey(provider)
    ensures CodeText(a + provider + b)
  {
    assert forall i :: 0 <= i < |provider| ==> KeyChar(provider[i]);
  }

  // ---------------------------------------------------------------- tables of such lines

  predicate AllWhole(lines: seq<string>) {
    forall l :: l in lines ==> Whole(l)
  }

  lemma {:induction false} WholeScan(lines: seq<string>)
    requires AllWhole(lines)
    ensures ScanAll(lines, None).None? && AllEnded(lines)
    decreases |lines|
  {
    if lines != [] {
      assert lines[0] in lines && forall l :: l in lines[1..] ==> l in lines;
      WholeScan(lines[1..]);
    }
  }

  lemma {:induction false} PlainTables(lines: seq<string>, n: nat)
    requires AllPlain(lines) && n <= |lines|
    ensures TablesUpTo(lines, n) == []
  {
    if n > 0 {
      PlainTables(lines, n - 1);
      assert lines[n - 1] in lines;
    }
  }

  lemma OneTable(line: string)
    requires Whole(line) && StartsTable(line)
    ensures AllTables([line]) == [Table(0, Strip(line))]
  {
    assert [line][..0] == [] && TablesUpTo([line], 0) == [];
    assert Header([line], 0);
    TablesNext([line], 0);
  }

  lemma HeaderFacts(header: string, lines: seq<string>)
    requires Whole(header) && StartsTable(header) && lines == [header]
    ensures ScanAll(lines, None).None? && AllTables(lines) == [Table(0, Strip(header))] && |Join(lines)| == |header|
  {
    OneTable(header);
    WholeScan(lines);
    HeaderLength(header);
  }

  lemma PlainFacts(lines: seq<string>)
    requires AllPlain(lines)
    ensures ScanAll(lines, None).None? && AllTables(lines) == []
  {
    PlainTables(lines, |lines|);
    WholeScan(lines);
  }

  /** A header, lines without headers, and other lines. */
  lemma SectionIs(all: seq<string>, a: seq<string>, p: seq<string>, q: seq<string>, m: nat, n: nat, t: Table)
    requires all == a + (p + q) && m == |Join(a)| && n == m + |Join(p)|
    requires ScanAll(a, None).None? && ScanAll(p, None).None?
    requires AllTables(a) == [t] && AllTables(p) == []
    ensures AllTables(all) == [t] + Shift(AllTables(q), n)
  {
    JoinedTables(all, a, p, q, m, n);
    EmptyFirst([t], AllTables(p), Shift(AllTables(q), n), m);
  }

  lemma HeaderLength(header: string)
    ensures Join([header]) == header
  {
    assert Join([header]) == header + Join([]);
  }

  lemma EmptyFirst(a: seq<Table>, none: seq<Table>, b: seq<Table>, n: nat)
    requires none == []
    ensures a + (Shift(none, n) + b) == a + b
  {
  }

  // ---------------------------------------------------------------- the block

  lemma AuthIs(provider: string, helper: Option<Helper>, generation: string)
    requires IsKey(provider)
    ensures AllWhole(AuthSection(provider, helper, generation))
    ensures var tables := AllTables(AuthSection(provider, helper, generation));
      tables == [] || tables == [Table(0, AuthLabel(provider))]
  {
    if helper.Some? {
      var header := Render(Title(AuthLabel(provider)));
      var lines := RenderAll(AuthLines(helper.value, generation));
      LabelsAreHeaders(provider);
      AuthOrdinary(helper.value, generation);
      RenderPlain(AuthLines(helper.value, generation));
      HeaderFacts(header, [header]);
      PlainFacts(lines);
      OneSection([header], lines, [header] + lines, Table(0, AuthLabel(provider)));
      JoinedWhole(header, lines, []);
      assert lines + [] == lines;
    }
  }

  lemma OneSection(first: seq<string>, lines: seq<string>, all: seq<string>, t: Table)
    requires all == first + lines && ScanAll(first, None).None? && ScanAll(lines, None).None?
    requires AllTables(first) == [t] && AllTables(lines) == []
    ensures AllTables(all) == [t]
  {
    assert lines + [] == lines;
    SectionIs(all, first, lines, [], |Join(first)|, |Join(first)| + |Join(lines)|, t);
  }

  lemma JoinedWhole(header: string, plain: seq<string>, more: seq<string>)
    requires Whole(header) && AllPlain(plain) && AllWhole(more)
    ensures AllWhole([header] + (plain + more))
  {
    assert forall l :: l in [header] + (plain + more) ==> l == header || l in plain || l in more;
  }

  lemma BlockIs(provider: string, first: seq<string>, plain: seq<string>, more: seq<string>, all: seq<string>)
    requires all == first + (plain + more) && ScanAll(first, None).None? && ScanAll(plain, None).None?
    requires AllTables(first) == [Table(0, HeaderLabel(provider))] && AllTables(plain) == []
    requires AllTables(more) == [] || AllTables(more) == [Table(0, AuthLabel(provider))]
    ensures OwnTables(AllTables(all), provider)
  {
    SectionIs(all, first, plain, more, |Join(first)|, |Join(first)| + |Join(plain)|, Table(0, HeaderLabel(provider)));
    assert SubPrefix(provider) <= AuthLabel(provider);
  }

  /** Every block the editor appends is one it can find and remove exactly. */
  lemma ProviderBlockIsOwn(provider: string, origin: string, credential: string, helper: Option<Helper>, generation: string,
                           version: string, display: string)
    requires IsKey(provider)
    ensures OwnBlock(ProviderBlock(provider, origin, credential, helper, generation, version, display), provider)
  {
    var header := Render(Title(HeaderLabel(provider)));
    var plain := RenderAll(TableLines(origin, credential, helper, version, display));
    var more := AuthSection(provider, helper, generation);
    LabelsAreHeaders(provider);
    TableOrdinary(origin, credential, helper, version, display);
    RenderPlain(TableLines(origin, credential, helper, version, display));
    AuthIs(provider, helper, generation);
    OwnFromParts(provider, header, plain, more, [header] + (plain + more));
    OwnFromLines([header] + (plain + more), provider, ProviderBlock(provider, origin, credential, helper, generation, version, display));
  }

  lemma OwnFromParts(provider: string, header: string, plain: seq<string>, more: seq<string>, all: seq<string>)
    requires Whole(header) && StartsTable(header) && Strip(header) == HeaderLabel(provider)
    requires AllPlain(plain) && AllWhole(more) && all == [header] + (plain + more)
    requires AllTables(more) == [] || AllTables(more) == [Table(0, AuthLabel(provider))]
    ensures AllWhole(all) && OwnTables(AllTables(all), provider)
  {
    HeaderFacts(header, [header]);
    PlainFacts(plain);
    BlockIs(provider, [header], plain, more, all);
    JoinedWhole(header, plain, more);
  }

  lemma OwnFromLines(lines: seq<string>, provider: string, block: string)
    requires lines != [] && AllWhole(lines) && OwnTables(AllTables(lines), provider) && block == "\n" + Join(lines)
    ensures OwnBlock(block, provider)
  {
    WholeScan(lines);
    EndedSplit(lines, Join(lines));
    EndedLines(lines, []);
    assert lines + [] == lines;
    LastEnded(lines);
    assert block[1..] == Join(lines);
  }

  // ---------------------------------------------------------------- what the block says

  /** A line sets the key to the string. */
  predicate Says(lines: seq<string>, key: string, v: string) {
    exists i :: 0 <= i < |lines| && TidyLine(lines[i], key, v)
  }

  /** What is rendered as a setting is read as one: the line sets its key to its value. */
  lemma SettingSays(ls: seq<BlockLine>, key: string, v: string)
    requires Setting(key, v) in ls && IsKey(key)
    ensures Says(RenderAll(ls), key, v)
  {
    var i :| 0 <= i < |ls| && ls[i] == Setting(key, v);
    assert RenderAll(ls)[i] == Render(ls[i]);
    PrependedExact(key, v);
  }

  /** The provider's table: its name, the base URL under the origin, the protocol, the catalog of the
      later versions, and the key in the environment unless a helper hands the credential out. */
  lemma TableHolds(origin: string, credential: string, helper: Option<Helper>, version: string, display: string)
    ensures var ls := TableLines(origin, credential, helper, version, display);
      && Setting("name", display) in ls && Setting("base_url", origin + "/v1") in ls && Setting("wire_api", "responses") in ls
      && (version != "0.147.0" ==> Setting("model_catalog_url", origin + "/v1/models") in ls && Fixed("supports_websockets", "false") in ls)
      && (helper.None? ==> Setting("env_key", credential) in ls && Fixed("requires_openai_auth", "false") in ls)
      && (helper.Some? ==> forall l :: l in ls && l.Setting? ==> l.key != "env_key")
  {
    var a, b, c := NameLines(origin, display), VersionLines(origin, version), CredentialLines(credential, helper);
    assert forall l :: l in a + b + c <==> l in a || l in b || l in c;
    assert a[0] in a && a[1] in a && a[2] in a;
    if version != "0.147.0" { assert b[0] in b && b[3] in b; }
    if helper.None? { assert c[0] in c && c[1] in c; }
  }

  /** The round trip for real: a document of the grammar, the block the editor writes, and foreign
      tables appended behind it. */
  lemma DocumentRoundTrip(parse: Parser, d: TomlGrammar.Document, wanted: seq<(string, string)>, provider: string, table: Value,
                          appended: string, origin: string, credential: string, helper: Option<Helper>, generation: string,
                          version: string, display: string)
    requires TomlGrammar.IsDocument(d) && IsKey(provider) && Foreign(appended, provider)
    requires NoTable(TomlGrammar.PrintDocument(d), HeaderLabel(provider))
    requires var text := TomlGrammar.PrintDocument(d);
      var block := ProviderBlock(provider, origin, credential, helper, generation, version, display);
      && Install(parse, text, wanted, block).Success?
      && DistinctWanted(wanted) && AllEditable(parse(text).value, Split(text), wanted)
      && IsInstalled(parse, Install(parse, text, wanted, block).value.0 + appended, wanted, provider, table)
    ensures ProviderBlock(provider, origin, credential, helper, generation, version, display) != ""
    ensures var text := TomlGrammar.PrintDocument(d);
      var block := ProviderBlock(provider, origin, credential, helper, generation, version, display);
      var record := RecordOf(parse, text, wanted, provider, block, table);
      Restore(parse, Install(parse, text, wanted, block).value.0 + appended, record) ==
        if AcceptsRestore(parse, text, record, appended) then Success((text + appended, [])) else Failure(ConfigurationInvalid)
  {
    var block := ProviderBlock(provider, origin, credential, helper, generation, version, display);
    TomlGrammar.DocumentsAreClosed(d);
    ProviderBlockIsOwn(provider, origin, credential, helper, generation, version, display);
    RestoreUndoesInstall(parse, TomlGrammar.PrintDocument(d), wanted, provider, block, table, appended);
  }
}
