/**
 Installing the owned settings and one provider table into a configuration, and restoring it: each
 owned setting that still holds the installed value gets its original back, each other is left to
 the user, and the table is removed if it is still exactly the one installed.
 */
module ConfigRestore {
  import opened Wrappers
  import opened TomlScanner
  import opened ConfigEdit
  import opened ConfigDocument

  // ---------------------------------------------------------------- installing

  /** What the journal records of an installation. */
  datatype Record = Record(owned: seq<Owned>, provider: string, block: string, table: Value)

  /** The original of a setting, if the parser found none or a string. */
  function OriginalOf(document: Toml, key: string): Option<Option<string>> {
    if key !in document.settings then Some(None)
    else if document.settings[key].Text? then Some(Some(document.settings[key].text))
    else None
  }

  function Originals(document: Toml, wanted: seq<(string, string)>): Option<seq<Owned>> {
    if wanted == [] then Some([])
    else
      var original := OriginalOf(document, wanted[0].0);
      var more := Originals(document, wanted[1..]);
      if original.None? || more.None? then None
      else Some([Owned(wanted[0].0, wanted[0].1, original.value)] + more.value)
  }

  function SetEach(parse: Parser, text: string, wanted: seq<(string, string)>): Result<string, Error>
    decreases |wanted|
  {
    if wanted == [] then Success(text)
    else
      var r := Setting(parse, text, wanted[0].0, Some(wanted[0].1));
      if r.Failure? then r else SetEach(parse, r.value, wanted[1..])
  }

  function Install(parse: Parser, text: string, wanted: seq<(string, string)>, block: string): Result<(string, seq<Owned>), Error> {
    var document := parse(text);
    if document.None? then Failure(ConfigurationInvalid)
    else
      var edited := SetEach(parse, text, wanted);
      if edited.Failure? then Failure(edited.error)
      else
        var owned := Originals(document.value, wanted);
        if owned.None? then Failure(ShapeUnsupported)
        else if parse(edited.value + block).None? then Failure(ConfigurationInvalid)
        else Success((edited.value + block, owned.value))
  }

  method InstallConfiguration(parse: Parser, text: string, wanted: seq<(string, string)>, block: string)
    returns (r: Result<(string, seq<Owned>), Error>)
    ensures r == Install(parse, text, wanted, block)
  {
    var document := parse(text);
    if document.None? {
      return Failure(ConfigurationInvalid);
    }
    var edited := text;
    for i := 0 to |wanted|
      invariant SetEach(parse, text, wanted) == SetEach(parse, edited, wanted[i..])
    {
      assert wanted[i..][1..] == wanted[i + 1..];
      var step := EditSetting(parse, edited, wanted[i].0, Some(wanted[i].1));
      if step.Failure? {
        return Failure(step.error);
      }
      edited := step.value;
    }
    var owned := Originals(document.value, wanted);
    if owned.None? {
      return Failure(ShapeUnsupported);
    }
    edited := edited + block;
    if parse(edited).None? {
      return Failure(ConfigurationInvalid);
    }
    return Success((edited, owned.value));
  }

  // ---------------------------------------------------------------- the provider table

  /** A table header: where its line starts, and its text. */
  datatype Table = Table(start: nat, title: string)

  function TablesUpTo(lines: seq<string>, n: nat): (tables: seq<Table>)
    requires n <= |lines|
  {
    if n == 0 then []
    else TablesUpTo(lines, n - 1) + if Header(lines, n - 1) then [Table(|Join(lines[..n - 1])|, Strip(lines[n - 1]))] else []
  }

  predicate InOrder(tables: seq<Table>, end: nat) {
    && (forall j :: 0 <= j < |tables| ==> tables[j].start <= end)
    && (forall j, k :: 0 <= j < k < |tables| ==> tables[j].start <= tables[k].start)
  }

  /** Headers come in order, each where its line starts. */
  lemma {:induction false} TablesInOrder(lines: seq<string>, n: nat)
    requires n <= |lines|
    ensures InOrder(TablesUpTo(lines, n), |Join(lines[..n])|)
  {
    if n > 0 {
      TablesInOrder(lines, n - 1);
      JoinNext(lines, n - 1);
      OrderNext(TablesUpTo(lines, n - 1), |Join(lines[..n - 1])|, Strip(lines[n - 1]));
    }
  }

  lemma OrderNext(tables: seq<Table>, end: nat, title: string)
    requires InOrder(tables, end)
    ensures InOrder(tables + [Table(end, title)], end)
  {
  }

  lemma JoinNext(lines: seq<string>, i: nat)
    requires i < |lines|
    ensures Join(lines[..i + 1]) == Join(lines[..i]) + lines[i]
  {
    assert lines[..i + 1] == lines[..i] + [lines[i]];
    JoinConcat(lines[..i], [lines[i]]);
    assert Join([lines[i]]) == lines[i] + Join([]);
  }

  lemma {:induction false} JoinConcat(a: seq<string>, b: seq<string>)
    ensures Join(a + b) == Join(a) + Join(b)
    decreases |a|
  {
    if a == [] {
      assert a + b == b;
    } else {
      assert (a + b)[1..] == a[1..] + b;
      JoinConcat(a[1..], b);
    }
  }

  function HeaderLabel(provider: string): string {
    "[model_providers." + provider + "]"
  }

  function SubPrefix(provider: string): string {
    "[model_providers." + provider + "."
  }

  /** The first table with the title, or |tables|. */
  function FindLabel(tables: seq<Table>, title: string): (i: nat)
    ensures i <= |tables|
    ensures i < |tables| ==> tables[i].title == title
  {
    if tables == [] || tables[0].title == title then 0 else 1 + FindLabel(tables[1..], title)
  }

  /** Where the section of a table and its sub-tables ends. */
  function SectionEnd(following: seq<Table>, prefix: string, end: nat): nat {
    if following == [] then end
    else if prefix <= following[0].title then SectionEnd(following[1..], prefix, end)
    else following[0].start
  }

  lemma {:induction false} SectionEndBounds(following: seq<Table>, prefix: string, low: nat, end: nat)
    requires low <= end && forall t :: t in following ==> low <= t.start <= end
    ensures low <= SectionEnd(following, prefix, end) <= end
  {
    if following != [] { SectionEndBounds(following[1..], prefix, low, end); }
  }

  /** The text without the block whose header starts at `start`, if the section is the block and
      blank space. */
  function CutBlock(text: string, start: nat, end: nat, block: string): (string, bool)
    requires start <= end <= |text|
  {
    var section := text[start..end];
    if !(block <= section) || Strip(section[|block|..]) != "" then (text, false)
    else
      var from := if start > 0 && text[start - 1] == '\n' then start - 1 else start;
      (text[..from] + text[start + |block|..], true)
  }

  function RemoveTable(text: string, provider: string, block: string): (string, bool)
    requires block != ""
  {
    var lines := Split(text);
    var tables := TablesUpTo(lines, |lines|);
    var i := FindLabel(tables, HeaderLabel(provider));
    if i == |tables| then (text, false)
    else
      SectionBounds(text, i, SubPrefix(provider));
      CutBlock(text, tables[i].start, SectionEnd(tables[i + 1..], SubPrefix(provider), |text|), block[1..])
  }

  lemma SectionBounds(text: string, i: nat, prefix: string)
    requires i < |TablesUpTo(Split(text), |Split(text)|)|
    ensures var tables := TablesUpTo(Split(text), |Split(text)|);
      tables[i].start <= SectionEnd(tables[i + 1..], prefix, |text|) <= |text|
  {
    var lines := Split(text);
    var tables := TablesUpTo(lines, |lines|);
    JoinSplit(text);
    TablesInOrder(lines, |lines|);
    assert lines[..|lines|] == lines;
    forall t | t in tables[i + 1..]
      ensures tables[i].start <= t.start <= |text|
    {
      var j :| 0 <= j < |tables[i + 1..]| && tables[i + 1..][j] == t;
      assert t == tables[i + 1 + j];
    }
    SectionEndBounds(tables[i + 1..], prefix, tables[i].start, |text|);
  }

  /** The table headers among the lines that start in code. */
  method TableHeaders(lines: seq<string>) returns (tables: seq<Table>)
    ensures tables == TablesUpTo(lines, |lines|)
  {
    var positions: seq<nat> := [];
    var offset: nat := 0;
    for i := 0 to |lines|
      invariant |positions| == i && offset == |Join(lines[..i])|
      invariant forall j: nat :: j < i ==> positions[j] == |Join(lines[..j])|
    {
      JoinNext(lines, i);
      positions := positions + [offset];
      offset := offset + |lines[i]|;
    }
    var visible := DocumentLines(lines);
    tables := [];
    for index := 0 to |lines|
      invariant tables == TablesUpTo(lines, index)
    {
      if index in visible && StartsTable(lines[index]) {
        tables := tables + [Table(positions[index], Strip(lines[index]))];
      }
    }
  }

  method RemoveProviderTable(text: string, provider: string, block: string) returns (result: string, removed: bool)
    requires block != ""
    ensures (result, removed) == RemoveTable(text, provider, block)
  {
    var tables := TableHeaders(Split(text));
    var header := HeaderLabel(provider);
    for index := 0 to |tables|
      invariant FindLabel(tables, header) == index + FindLabel(tables[index..], header)
    {
      assert tables[index..][1..] == tables[index + 1..];
      if tables[index].title != header {
        continue;
      }
      SectionBounds(text, index, SubPrefix(provider));
      var end := SectionEnd(tables[index + 1..], SubPrefix(provider), |text|);
      result, removed := CutSection(text, tables[index].start, end, block[1..]);
      return;
    }
    return text, false;
  }

  /** Exactly the block's bytes go, and the line feed before them. */
  method CutSection(text: string, start: nat, end: nat, block: string) returns (result: string, removed: bool)
    requires start <= end <= |text|
    ensures (result, removed) == CutBlock(text, start, end, block)
  {
    var section := text[start..end];
    if !(block <= section) || Strip(section[|block|..]) != "" {
      return text, false;
    }
    var from, next := start, start + |block|;
    if from > 0 && text[from - 1] == '\n' {
      from := from - 1;
    }
    return text[..from] + text[next..], true;
  }

  // ---------------------------------------------------------------- restoring

  function Get<T>(m: map<string, T>, key: string): Option<T> {
    if key in m then Some(m[key]) else None
  }

  function OriginalValue(o: Owned): Option<Value> {
    if o.original.None? then None else Some(Text(o.original.value))
  }

  /** The settings that still hold the installed value get their originals back; the others that
      differ from their originals are reported. */
  function RestoreEach(parse: Parser, document: Toml, text: string, owned: seq<Owned>): Result<(string, seq<string>), Error>
    decreases |owned|
  {
    if owned == [] then Success((text, []))
    else
      var o := owned[0];
      var current := Get(document.settings, o.key);
      if current == Some(Text(o.installed)) then
        var r := Setting(parse, text, o.key, o.original);
        if r.Failure? then Failure(r.error) else RestoreEach(parse, document, r.value, owned[1..])
      else
        var r := RestoreEach(parse, document, text, owned[1..]);
        if r.Failure? || current == OriginalValue(o) then r else Success((r.value.0, [o.key] + r.value.1))
  }

  function Restore(parse: Parser, text: string, record: Record): Result<(string, seq<string>), Error>
    requires record.block != ""
  {
    var document := parse(text);
    if document.None? then Failure(ConfigurationInvalid)
    else if document.value.tables.None? then Failure(ShapeUnsupported)
    else
      var r := RestoreEach(parse, document.value, text, record.owned);
      if r.Failure? then r
      else
        var current := Get(document.value.tables.value, record.provider);
        var cut := if current == Some(record.table) then RemoveTable(r.value.0, record.provider, record.block)
                   else (r.value.0, false);
        var retained := if !cut.1 && current.Some? then r.value.1 + ["model_providers." + record.provider] else r.value.1;
        if parse(cut.0).None? then Failure(ConfigurationInvalid) else Success((cut.0, retained))
  }

  method RestoreConfiguration(parse: Parser, text: string, record: Record) returns (r: Result<(string, seq<string>), Error>)
    requires record.block != ""
    ensures r == Restore(parse, text, record)
  {
    var document := parse(text);
    if document.None? {
      return Failure(ConfigurationInvalid);
    }
    if document.value.tables.None? {
      return Failure(ShapeUnsupported);
    }
    var edited := text;
    var retained: seq<string> := [];
    ghost var whole := RestoreEach(parse, document.value, text, record.owned);
    assert whole.Success? ==> [] + whole.value.1 == whole.value.1;
    for i := 0 to |record.owned|
      invariant whole == Reporting(retained, RestoreEach(parse, document.value, edited, record.owned[i..]))
    {
      assert record.owned[i..][1..] == record.owned[i + 1..];
      var o := record.owned[i];
      var current := Get(document.value.settings, o.key);
      if current == Some(Text(o.installed)) {
        var step := EditSetting(parse, edited, o.key, o.original);
        if step.Failure? {
          return Failure(step.error);
        }
        edited := step.value;
      } else if current != OriginalValue(o) {
        ReportingTwice(retained, [o.key], RestoreEach(parse, document.value, edited, record.owned[i + 1..]));
        retained := retained + [o.key];
      }
    }
    assert retained + [] == retained;
    var current := Get(document.value.tables.value, record.provider);
    var removed := false;
    if current == Some(record.table) {
      edited, removed := RemoveProviderTable(edited, record.provider, record.block);
    }
    if !removed && current.Some? {
      retained := retained + ["model_providers." + record.provider];
    }
    if parse(edited).None? {
      return Failure(ConfigurationInvalid);
    }
    return Success((edited, retained));
  }

  function Reporting(first: seq<string>, r: Result<(string, seq<string>), Error>): Result<(string, seq<string>), Error> {
    if r.Failure? then r else Success((r.value.0, first + r.value.1))
  }

  lemma ReportingTwice(a: seq<string>, b: seq<string>, r: Result<(string, seq<string>), Error>)
    ensures Reporting(a, Reporting(b, r)) == Reporting(a + b, r)
  {
    if r.Success? { assert a + (b + r.value.1) == a + b + r.value.1; }
  }
}
