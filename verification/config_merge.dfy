/**
 Restoring a configuration the user may have changed since: a three-way merge of the original, the
 installed and the current document.
 */
module ConfigMerge {
  import opened Wrappers
  import opened TomlScanner
  import opened ConfigEdit
  import opened ConfigLines
  import opened ConfigDocument
  import opened ConfigRestore
  import opened ConfigOrdinary
  import opened ConfigRemoval

  // ---------------------------------------------------------------- what the parser is trusted for

  function Updated(settings: map<string, Value>, key: string, value: Option<string>): map<string, Value> {
    if value.None? then settings - {key} else settings[key := Text(value.value)]
  }

  /** Behind a string that sets a key stands a comment or nothing, unless it is in triple quotes. */
  ghost predicate ReadsStrings(parse: Parser) {
    forall text: string, key: string {:trigger Matched(text, key)} ::
      IsKey(key) && parse(text).Some? && Matched(text, key).Some? ==>
        var m := Matched(text, key).value; TailOk(m.tail) || TripleBasic(m) || TripleLiteral(m)
  }

  /** Writing its original over an owned setting on an ordinary line changes what the parser reads
      of that key and nothing else. */
  ghost predicate ReadsEdits(parse: Parser, owned: seq<Owned>) {
    forall text: string, o: Owned {:trigger o in owned, Setting(parse, text, o.key, o.original)} ::
      o in owned && Matched(text, o.key).Some? && TailOk(Matched(text, o.key).value.tail)
      && Setting(parse, text, o.key, o.original).Success? ==>
        parse(Setting(parse, text, o.key, o.original).value)
        == Some(Toml(Updated(parse(text).value.settings, o.key, o.original), parse(text).value.tables))
  }

  /** Removing the recorded table where the document has exactly that table, and no line before it
      swallows the next header, removes that table and nothing else. */
  ghost predicate ReadsRemovals(parse: Parser, record: Record)
    requires record.block != ""
  {
    forall text: string {:trigger RemoveTable(text, record.provider, record.block)} ::
      HasTable(parse, text, record) && !Swallows(text, record.provider, record.block)
      && RemoveTable(text, record.provider, record.block).1
      && parse(RemoveTable(text, record.provider, record.block).0).Some? ==>
        parse(RemoveTable(text, record.provider, record.block).0).value
        == Toml(parse(text).value.settings, Some(parse(text).value.tables.value - {record.provider}))
  }

  predicate HasTable(parse: Parser, text: string, record: Record) {
    && parse(text).Some? && parse(text).value.tables.Some?
    && Get(parse(text).value.tables.value, record.provider) == Some(record.table)
  }

  ghost predicate Trusted(parse: Parser, record: Record)
    requires record.block != ""
  {
    ReadsStrings(parse) && ReadsEdits(parse, record.owned) && ReadsRemovals(parse, record)
  }

  // ---------------------------------------------------------------- the merge

  /** Does the document still hold what was installed? */
  predicate StillHeld(document: Toml, o: Owned) {
    Get(document.settings, o.key) == Some(Text(o.installed))
  }

  /** The merged value of an owned setting: the original where the document still holds the
      installed value, and the user's otherwise. */
  function MergedValue(document: Toml, o: Owned): Option<Value> {
    if StillHeld(document, o) then OriginalValue(o) else Get(document.settings, o.key)
  }

  /** The original is the empty string and the value is written in triple quotes: the edit changes
      nothing. */
  predicate Stuck(text: string, o: Owned) {
    o.original == Some("") && Matched(text, o.key).Some? && TripleBasic(Matched(text, o.key).value)
  }

  /** What a restore leaves of an owned setting. */
  function RestoredValue(document: Toml, text: string, o: Owned): Option<Value> {
    if StillHeld(document, o) && Stuck(text, o) then Some(Text(o.installed)) else MergedValue(document, o)
  }

  /** The settings after restoring one, and after restoring all. */
  function MergeOne(settings: map<string, Value>, document: Toml, text: string, o: Owned): map<string, Value> {
    if StillHeld(document, o) && !Stuck(text, o) then Updated(settings, o.key, o.original) else settings
  }

  function MergeAll(settings: map<string, Value>, document: Toml, text: string, owned: seq<Owned>): map<string, Value>
    decreases |owned|
  {
    if owned == [] then settings
    else MergeAll(MergeOne(settings, document, text, owned[0]), document, text, owned[1..])
  }

  /** The settings that differ from their originals after the merge, in order. */
  function Differing(document: Toml, owned: seq<Owned>): seq<string> {
    if owned == [] then []
    else (if MergedValue(document, owned[0]) == OriginalValue(owned[0]) then [] else [owned[0].key]) + Differing(document, owned[1..])
  }

  lemma {:induction false} MergeOthers(settings: map<string, Value>, document: Toml, text: string, owned: seq<Owned>, key: string)
    requires forall o :: o in owned ==> o.key != key
    ensures Get(MergeAll(settings, document, text, owned), key) == Get(settings, key)
    decreases |owned|
  {
    if owned != [] {
      assert owned[0] in owned;
      MergeOthers(MergeOne(settings, document, text, owned[0]), document, text, owned[1..], key);
    }
  }

  lemma {:induction false} MergeOwned(settings: map<string, Value>, document: Toml, text: string, owned: seq<Owned>, o: Owned)
    requires DistinctKeys(owned) && o in owned && Get(settings, o.key) == Get(document.settings, o.key)
    ensures Get(MergeAll(settings, document, text, owned), o.key) == RestoredValue(document, text, o)
    decreases |owned|
  {
    var first, more := owned[0], owned[1..];
    var next := MergeOne(settings, document, text, first);
    if o == first {
      MergeOthers(next, document, text, more, o.key);
    } else {
      assert o in more;
      MergeOwned(next, document, text, more, o);
    }
  }

  // ---------------------------------------------------------------- restoring each setting

  predicate IsAscii(s: string) {
    forall i :: 0 <= i < |s| ==> s[i] as int < 128
  }

  /** What a record owns: plain keys, each once, apart from the tables, with originals in ASCII. */
  predicate OwnsKeys(record: Record) {
    && record.block != "" && DistinctKeys(record.owned)
    && forall o :: o in record.owned ==> IsKey(o.key) && o.key != "model_providers" && (o.original.Some? ==> IsAscii(o.original.value))
  }

  /** Every owned setting that has to be removed is on an ordinary line. */
  predicate Removable(document: Toml, text: string, owned: seq<Owned>) {
    forall o :: o in owned && StillHeld(document, o) && o.original.None? && Matched(text, o.key).Some? ==>
      TailOk(Matched(text, o.key).value.tail)
  }

  /** The settings still to be restored stand in `text` as they stood in `start`. */
  predicate SameLines(parse: Parser, document: Toml, start: string, text: string, owned: seq<Owned>) {
    && parse(text).Some?
    && (forall o :: o in owned ==> Matched(text, o.key) == Matched(start, o.key))
    && (forall o :: o in owned ==> Get(parse(text).value.settings, o.key) == Get(document.settings, o.key))
  }

  lemma DumpsSize(v: string)
    ensures |Dumps(v)| == 2 ==> v == ""
  {
    if v != "" { EscapeIsEscaped(v[0]); }
  }

  /** A value in quotes written over a string in triple quotes is refused, but for the empty one. */
  lemma OverTriple(parse: Parser, text: string, o: Owned)
    requires ReadsStrings(parse) && IsKey(o.key) && o.original.Some? && Setting(parse, text, o.key, o.original).Success?
    requires Matched(text, o.key).Some? && !TailOk(Matched(text, o.key).value.tail)
    ensures Stuck(text, o) && Setting(parse, text, o.key, o.original).value == text
  {
    var v := o.original.value;
    var m := Matched(text, o.key).value;
    var next := Edited(text, o.key, o.original);
    EditedFirst(text, o.key, v);
    var n := Matched(next, o.key).value;
    assert n == Match(m.prefix, Dumps(v), m.tail);
    assert TripleBasic(n) || TripleLiteral(n);
    DumpsSize(v);
    EmptyEditExact(text, o.key);
  }

  /** One owned setting restored: what the parser reads, and that the others stay as they are. */
  lemma RestoreOne(parse: Parser, document: Toml, start: string, text: string, owned: seq<Owned>)
    requires ReadsStrings(parse) && ReadsEdits(parse, owned) && owned != [] && Removable(document, start, owned)
    requires DistinctKeys(owned) && (forall o :: o in owned ==> IsKey(o.key)) && SameLines(parse, document, start, text, owned)
    requires StillHeld(document, owned[0]) && Setting(parse, text, owned[0].key, owned[0].original).Success?
    ensures var o := owned[0]; var next := Setting(parse, text, o.key, o.original).value;
      && parse(next) == Some(Toml(MergeOne(parse(text).value.settings, document, start, o), parse(text).value.tables))
      && SameLines(parse, document, start, next, owned[1..])
  {
    var o := owned[0];
    assert o in owned && forall x :: x in owned[1..] ==> x in owned && x.key != o.key;
    OwnedIsMatched(parse, text, o);
    if TailOk(Matched(text, o.key).value.tail) {
      EditKeepsLines(parse, document, start, text, o, owned[1..]);
      TailIsNoQuote(Matched(text, o.key).value);
    } else {
      OverTriple(parse, text, o);
      StuckHere(text, start, o);
    }
  }

  lemma TailIsNoQuote(m: Match)
    requires TailOk(m.tail)
    ensures !TripleBasic(m)
  {
  }

  lemma StuckHere(text: string, start: string, o: Owned)
    requires Stuck(text, o) && Matched(text, o.key) == Matched(start, o.key)
    ensures Stuck(start, o)
  {
  }

  lemma OwnedIsMatched(parse: Parser, text: string, o: Owned)
    requires parse(text).Some? && o.key in parse(text).value.settings && Setting(parse, text, o.key, o.original).Success?
    ensures Matched(text, o.key).Some?
    ensures Setting(parse, text, o.key, o.original).value == Edited(text, o.key, o.original)
  {
  }

  /** A setting on an ordinary line restored. */
  lemma EditKeepsLines(parse: Parser, document: Toml, start: string, text: string, o: Owned, more: seq<Owned>)
    requires IsKey(o.key) && Matched(text, o.key).Some? && TailOk(Matched(text, o.key).value.tail)
    requires (forall x :: x in more ==> IsKey(x.key) && x.key != o.key) && SameLines(parse, document, start, text, more)
    requires parse(Edited(text, o.key, o.original))
          == Some(Toml(Updated(parse(text).value.settings, o.key, o.original), parse(text).value.tables))
    ensures SameLines(parse, document, start, Edited(text, o.key, o.original), more)
  {
    forall x | x in more
      ensures Matched(Edited(text, o.key, o.original), x.key) == Matched(start, x.key)
    {
      OrdinaryEdit(text, o.key, o.original, x.key);
    }
  }

  /** Restoring an original that was empty has no effect exactly if the installed value is now
      written in triple quotes. */
  lemma EmptyOverTriple(parse: Parser, text: string, owned: seq<Owned>, o: Owned)
    requires ReadsStrings(parse) && ReadsEdits(parse, owned) && o in owned && IsKey(o.key)
    requires o.original == Some("") && o.installed != "" && parse(text).Some? && StillHeld(parse(text).value, o)
    requires Setting(parse, text, o.key, o.original).Success?
    ensures var next := Setting(parse, text, o.key, o.original).value;
      && parse(next).Some? && Matched(text, o.key).Some?
      && (Get(parse(next).value.settings, o.key) != OriginalValue(o) <==> TripleBasic(Matched(text, o.key).value))
      && (TripleBasic(Matched(text, o.key).value) ==> next == text)
  {
    OwnedIsMatched(parse, text, o);
    var m := Matched(text, o.key).value;
    if TailOk(m.tail) {
      TailIsNoQuote(m);
    } else {
      OverTriple(parse, text, o);
    }
  }

  lemma FewerEdits(parse: Parser, owned: seq<Owned>)
    requires owned != [] && ReadsEdits(parse, owned)
    ensures ReadsEdits(parse, owned[1..])
  {
    assert forall o :: o in owned[1..] ==> o in owned;
  }

  lemma {:induction false} RestoreEachMerges(parse: Parser, document: Toml, start: string, text: string, owned: seq<Owned>)
    requires ReadsStrings(parse) && ReadsEdits(parse, owned) && Removable(document, start, owned)
    requires DistinctKeys(owned) && (forall o :: o in owned ==> IsKey(o.key)) && SameLines(parse, document, start, text, owned)
    requires RestoreEach(parse, document, text, owned).Success?
    ensures var r := RestoreEach(parse, document, text, owned).value;
      && parse(r.0) == Some(Toml(MergeAll(parse(text).value.settings, document, start, owned), parse(text).value.tables))
      && r.1 == Differing(document, owned)
    decreases |owned|
  {
    if owned != [] {
      var o := owned[0];
      assert o in owned && forall x :: x in owned[1..] ==> x in owned;
      FewerEdits(parse, owned);
      if StillHeld(document, o) {
        RestoreOne(parse, document, start, text, owned);
        RestoreEachMerges(parse, document, start, Setting(parse, text, o.key, o.original).value, owned[1..]);
      } else {
        RestoreEachMerges(parse, document, start, text, owned[1..]);
      }
    }
  }

  // ---------------------------------------------------------------- what restoring does to the document

  /** The name under which a table that is still there is reported. */
  function TableName(record: Record): string {
    "model_providers." + record.provider
  }

  /** The edited text is one from which the table can be cut without a line swallowing a header. */
  predicate CutsCleanly(parse: Parser, text: string, record: Record)
    requires record.block != ""
  {
    HasTable(parse, text, record) ==>
      var each := RestoreEach(parse, parse(text).value, text, record.owned);
      each.Success? ==> !Swallows(each.value.0, record.provider, record.block)
  }

  /** A configuration that can be restored: the settings to be removed are on ordinary lines, and
      the table can be cut cleanly. */
  predicate Restorable(parse: Parser, text: string, record: Record)
    requires record.block != ""
  {
    parse(text).Some? ==> Removable(parse(text).value, text, record.owned) && CutsCleanly(parse, text, record)
  }

  lemma {:induction false} DifferingExact(document: Toml, owned: seq<Owned>, key: string)
    requires DistinctKeys(owned)
    ensures key in Differing(document, owned) <==>
      exists o :: o in owned && o.key == key && MergedValue(document, o) != OriginalValue(o)
    decreases |owned|
  {
    if owned != [] {
      DifferingExact(document, owned[1..], key);
      assert forall o :: o in owned <==> o == owned[0] || o in owned[1..];
    }
  }

  /** What a restore reports: an owned setting that differs from its original after the merge, or the
      table if it is still there. */
  ghost predicate Reported(before: Toml, after: Toml, record: Record, name: string) {
    || (exists o :: o in record.owned && o.key == name && MergedValue(before, o) != OriginalValue(o))
    || (name == TableName(record) && after.tables.Some? && record.provider in after.tables.value)
  }

  lemma EachIs(parse: Parser, text: string, record: Record)
    requires OwnsKeys(record) && Trusted(parse, record) && Restorable(parse, text, record)
    requires Restore(parse, text, record).Success?
    ensures parse(text).Some? && parse(text).value.tables.Some?
    ensures var before := parse(text).value; var each := RestoreEach(parse, before, text, record.owned);
      && each.Success? && each.value.1 == Differing(before, record.owned)
      && parse(each.value.0) == Some(Toml(MergeAll(before.settings, before, text, record.owned), before.tables))
  {
    RestoreEachMerges(parse, parse(text).value, text, text, record.owned);
  }

  lemma NotRemoved(text: string, provider: string, block: string)
    requires block != ""
    ensures var cut := RemoveTable(text, provider, block); cut.1 || cut.0 == text
  {
  }

  /** The document after a restore. */
  lemma RestoredDocument(parse: Parser, text: string, record: Record)
    requires OwnsKeys(record) && Trusted(parse, record) && Restorable(parse, text, record)
    requires Restore(parse, text, record).Success?
    ensures parse(text).Some? && parse(text).value.tables.Some?
    ensures var before := parse(text).value; var r := Restore(parse, text, record).value;
      && parse(r.0).Some? && parse(r.0).value.tables.Some?
      && var after := parse(r.0).value;
        && after.settings == MergeAll(before.settings, before, text, record.owned)
        && (after.tables == before.tables
            || (HasTable(parse, text, record) && after.tables.value == before.tables.value - {record.provider}))
        && r.1 == Differing(before, record.owned) + if record.provider in after.tables.value then [TableName(record)] else []
  {
    EachIs(parse, text, record);
    var before := parse(text).value;
    var each := RestoreEach(parse, before, text, record.owned).value;
    NotRemoved(each.0, record.provider, record.block);
    var cut := RemoveTable(each.0, record.provider, record.block);
    if HasTable(parse, text, record) && cut.1 {
      assert HasTable(parse, each.0, record);
    }
    assert Differing(before, record.owned) + [] == Differing(before, record.owned);
  }

  /** Restoring is a three-way merge. Every owned setting ends with its original if it still held
      the installed value, with the user's value otherwise, and with the installed one if it is
      stuck; every other setting and every other table is untouched; and exactly the owned settings
      the user changed from their originals, and the table if it is still there, are reported. */
  lemma MergeExact(parse: Parser, text: string, record: Record)
    requires OwnsKeys(record) && Trusted(parse, record) && Restorable(parse, text, record)
    requires Restore(parse, text, record).Success?
    ensures parse(text).Some? && parse(text).value.tables.Some?
    ensures var before := parse(text).value; var r := Restore(parse, text, record).value;
      && parse(r.0).Some? && parse(r.0).value.tables.Some?
      && var after := parse(r.0).value;
        && (forall o :: o in record.owned ==> Get(after.settings, o.key) == RestoredValue(before, text, o))
        && (forall key: string :: (forall o :: o in record.owned ==> o.key != key) ==> Get(after.settings, key) == Get(before.settings, key))
        && (forall name: string :: name != record.provider ==> Get(after.tables.value, name) == Get(before.tables.value, name))
        && (Get(before.tables.value, record.provider) != Some(record.table) ==> after.tables == before.tables)
        && r.1 == Differing(before, record.owned) + (if record.provider in after.tables.value then [TableName(record)] else [])
        && (forall name: string :: name in r.1 <==> Reported(before, after, record, name))
  {
    RestoredDocument(parse, text, record);
    var before := parse(text).value;
    var after := parse(Restore(parse, text, record).value.0).value;
    forall o | o in record.owned
      ensures Get(after.settings, o.key) == RestoredValue(before, text, o)
    {
      MergeOwned(before.settings, before, text, record.owned, o);
    }
    forall key: string | forall o :: o in record.owned ==> o.key != key
      ensures Get(after.settings, key) == Get(before.settings, key)
    {
      MergeOthers(before.settings, before, text, record.owned, key);
    }
    forall name: string
      ensures name in Restore(parse, text, record).value.1 <==> Reported(before, after, record, name)
    {
      DifferingExact(before, record.owned, name);
    }
  }

  /** Some owned setting holds an installed value in triple quotes over an original that was empty. */
  predicate SomeStuck(parse: Parser, text: string, record: Record) {
    parse(text).Some? && exists o :: o in record.owned && StillHeld(parse(text).value, o) && Stuck(text, o) && o.installed != ""
  }

  /** Every owned setting is merged exactly if none is stuck. */
  lemma MergedUnlessStuck(parse: Parser, text: string, record: Record)
    requires OwnsKeys(record) && Trusted(parse, record) && Restorable(parse, text, record)
    requires Restore(parse, text, record).Success?
    ensures parse(text).Some? && parse(Restore(parse, text, record).value.0).Some?
    ensures var before := parse(text).value; var after := parse(Restore(parse, text, record).value.0).value;
      (forall o :: o in record.owned ==> Get(after.settings, o.key) == MergedValue(before, o)) <==> !SomeStuck(parse, text, record)
  {
    MergeExact(parse, text, record);
    var before := parse(text).value;
    var after := parse(Restore(parse, text, record).value.0).value;
    if SomeStuck(parse, text, record) {
      var o :| o in record.owned && StillHeld(before, o) && Stuck(text, o) && o.installed != "";
      assert Get(after.settings, o.key) == RestoredValue(before, text, o) != MergedValue(before, o);
    } else {
      forall o | o in record.owned
        ensures Get(after.settings, o.key) == MergedValue(before, o)
      {
        assert Get(after.settings, o.key) == RestoredValue(before, text, o);
      }
    }
  }

  // ---------------------------------------------------------------- removals that leave something

  /** The parser reads what a removal leaves behind a string in triple quotes: the line sets a key,
      and the document is read otherwise than before. */
  ghost predicate ReadsLeftovers(parse: Parser, keyOf: string -> string) {
    forall text: string, key: string {:trigger Setting(parse, text, key, None)} ::
      IsKey(key) && Matched(text, key).Some? && !TailOk(Matched(text, key).value.tail) && Setting(parse, text, key, None).Success? ==>
        var left := keyOf(Strip(Matched(text, key).value.tail));
        && left in parse(Setting(parse, text, key, None).value).value.settings
        && (left == key || Get(parse(Setting(parse, text, key, None).value).value.settings, left) != Get(parse(text).value.settings, left))
  }

  /** A removal is read as that removal exactly if the setting is on an ordinary line. */
  lemma RemovalReadExactly(parse: Parser, keyOf: string -> string, text: string, owned: seq<Owned>, o: Owned)
    requires ReadsEdits(parse, owned) && ReadsLeftovers(parse, keyOf) && o in owned && IsKey(o.key) && o.original.None?
    requires Matched(text, o.key).Some? && Setting(parse, text, o.key, None).Success?
    ensures parse(text).Some? && parse(Setting(parse, text, o.key, None).value).Some?
    ensures parse(Setting(parse, text, o.key, None).value).value
         == Toml(Updated(parse(text).value.settings, o.key, None), parse(text).value.tables)
       <==> TailOk(Matched(text, o.key).value.tail)
  {
    if !TailOk(Matched(text, o.key).value.tail) {
      var left := keyOf(Strip(Matched(text, o.key).value.tail));
      assert Get(Updated(parse(text).value.settings, o.key, None), left)
          == if left == o.key then None else Get(parse(text).value.settings, left);
    }
  }
}
