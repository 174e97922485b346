/**
 What an installation records of the user's settings: for every setting it installs, the value the
 parser read in the original text, or that there was none.
 */
module ConfigOriginals {
  import opened Wrappers
  import opened TomlScanner
  import opened ConfigEdit
  import opened ConfigLines
  import opened ConfigDocument
  import opened ConfigRestore
  import opened ConfigIdentity

  /** The setting is recorded with the value installed and the value the parser read before. */
  predicate Records(document: Toml, w: (string, string), o: Owned) {
    && o.key == w.0 && o.installed == w.1
    && if w.0 in document.settings then o.original.Some? && document.settings[w.0] == Text(o.original.value)
       else o.original.None?
  }

  /** Every setting to install is absent or holds a string. */
  predicate StringsOnly(document: Toml, wanted: seq<(string, string)>) {
    forall i :: 0 <= i < |wanted| && wanted[i].0 in document.settings ==> document.settings[wanted[i].0].Text?
  }

  lemma {:induction false} OriginalsExact(document: Toml, wanted: seq<(string, string)>)
    ensures Originals(document, wanted).Some? <==> StringsOnly(document, wanted)
    ensures Originals(document, wanted).Some? ==>
      var owned := Originals(document, wanted).value;
      |owned| == |wanted| && forall i :: 0 <= i < |wanted| ==> Records(document, wanted[i], owned[i])
    decreases |wanted|
  {
    if wanted != [] {
      OriginalsExact(document, wanted[1..]);
      assert forall i :: 1 <= i < |wanted| ==> wanted[i] == wanted[1..][i - 1];
      if StringsOnly(document, wanted) {
        var owned := Originals(document, wanted).value;
        forall i | 0 <= i < |wanted|
          ensures Records(document, wanted[i], owned[i])
        {
          if i > 0 { assert owned[i] == owned[1..][i - 1]; }
        }
      }
    }
  }

  /** An installation succeeds exactly if the parser accepts the text, each edit and the result, and
      reads every setting to install as absent or a string. It then appends the block to the edited
      text and records the setting's original as none if and only if the parser found none, and as
      the string it read otherwise. */
  lemma InstallRecords(parse: Parser, text: string, wanted: seq<(string, string)>, block: string)
    ensures Install(parse, text, wanted, block).Success? <==>
      && parse(text).Some? && StringsOnly(parse(text).value, wanted)
      && SetEach(parse, text, wanted).Success? && parse(SetEach(parse, text, wanted).value + block).Some?
    ensures Install(parse, text, wanted, block).Success? ==>
      var (edited, owned) := Install(parse, text, wanted, block).value;
      && edited == SetEach(parse, text, wanted).value + block
      && |owned| == |wanted| && forall i :: 0 <= i < |wanted| ==> Records(parse(text).value, wanted[i], owned[i])
  {
    if parse(text).Some? {
      OriginalsExact(parse(text).value, wanted);
    }
  }

  /** Why an installation or a restore is refused before a setting is edited, and why an edit is: a
      text the parser refuses is invalid; a setting it reads but no line sets, an original that is no
      string, and a provider key that holds no tables are of an unsupported shape. */
  lemma Refusals(parse: Parser, text: string, wanted: seq<(string, string)>, record: Record, key: string, value: Option<string>)
    requires record.block != ""
    ensures parse(text).None? ==>
      && Install(parse, text, wanted, record.block) == Failure(ConfigurationInvalid)
      && Restore(parse, text, record) == Failure(ConfigurationInvalid) && Setting(parse, text, key, value) == Failure(ConfigurationInvalid)
    ensures parse(text).Some? && SetEach(parse, text, wanted).Success? && !StringsOnly(parse(text).value, wanted) ==>
      Install(parse, text, wanted, record.block) == Failure(ShapeUnsupported)
    ensures parse(text).Some? && parse(text).value.tables.None? ==> Restore(parse, text, record) == Failure(ShapeUnsupported)
    ensures parse(text).Some? ==>
      (Setting(parse, text, key, value) == Failure(ShapeUnsupported) <==> Absent(Split(text), key) && key in parse(text).value.settings)
  {
    if parse(text).Some? {
      OriginalsExact(parse(text).value, wanted);
    }
  }

  /** What the journal holds after an installation. */
  function RecordOf(parse: Parser, text: string, wanted: seq<(string, string)>, provider: string, block: string, table: Value): Record
    requires Install(parse, text, wanted, block).Success?
  {
    Record(Install(parse, text, wanted, block).value.1, provider, block, table)
  }

  // ---------------------------------------------------------------- documents ready for an installation

  predicate DistinctWanted(wanted: seq<(string, string)>) {
    forall i, j :: 0 <= i < j < |wanted| ==> wanted[i].0 != wanted[j].0
  }

  /** The setting is absent, or stands as the editor writes it with the string the parser reads. */
  predicate Editable(document: Toml, lines: seq<string>, key: string) {
    && IsKey(key)
    && if key in document.settings then document.settings[key].Text? && Holds(lines, key, document.settings[key].text)
       else Absent(lines, key)
  }

  predicate AllEditable(document: Toml, lines: seq<string>, wanted: seq<(string, string)>) {
    forall i :: 0 <= i < |wanted| ==> Editable(document, lines, wanted[i].0)
  }

  /** The parser reads every setting with the value that was to be installed. */
  predicate ReadsWanted(document: Toml, wanted: seq<(string, string)>) {
    forall i :: 0 <= i < |wanted| ==> Get(document.settings, wanted[i].0) == Some(Text(wanted[i].1))
  }

  lemma {:induction false} NamedDistinct(owned: seq<Owned>, wanted: seq<(string, string)>)
    requires Names(owned, wanted) && DistinctWanted(wanted)
    ensures DistinctKeys(owned)
    decreases |owned|
  {
    if owned != [] {
      forall x | x in owned[1..]
        ensures x.key != owned[0].key
      {
        var i :| 0 <= i < |owned| - 1 && owned[1..][i] == x;
        assert wanted[0] == (owned[0].key, owned[0].installed) && wanted[i + 1] == (owned[i + 1].key, owned[i + 1].installed);
      }
      forall i, j | 0 <= i < j < |wanted| - 1
        ensures wanted[1..][i].0 != wanted[1..][j].0
      {
        assert wanted[1..][i] == wanted[i + 1] && wanted[1..][j] == wanted[j + 1];
      }
      NamedDistinct(owned[1..], wanted[1..]);
    }
  }

  /** The record of an installation into such a document is ready to be undone. */
  lemma InstalledReady(parse: Parser, text: string, wanted: seq<(string, string)>, block: string)
    requires Install(parse, text, wanted, block).Success? && DistinctWanted(wanted)
    requires AllEditable(parse(text).value, Split(text), wanted)
    ensures var owned := Install(parse, text, wanted, block).value.1;
      Names(owned, wanted) && DistinctKeys(owned) && AllReady(Split(text), owned)
  {
    InstallRecords(parse, text, wanted, block);
    var document := parse(text).value;
    var owned := Install(parse, text, wanted, block).value.1;
    forall i | 0 <= i < |owned|
      ensures wanted[i] == (owned[i].key, owned[i].installed) && Ready(Split(text), owned[i])
    {
      assert Records(document, wanted[i], owned[i]) && Editable(document, Split(text), wanted[i].0);
    }
    NamedDistinct(owned, wanted);
  }

  lemma NamedInstalled(document: Toml, owned: seq<Owned>, wanted: seq<(string, string)>)
    requires Names(owned, wanted) && ReadsWanted(document, wanted)
    ensures AllInstalled(document, owned)
  {
    forall o | o in owned
      ensures Get(document.settings, o.key) == Some(Text(o.installed))
    {
      var i :| 0 <= i < |owned| && owned[i] == o;
      assert wanted[i] == (o.key, o.installed);
    }
  }
}
