/**
 Recovery may be repeated: a restore of a restored configuration changes no byte and reports the
 same, so a crash between writing the configuration and saving the journal does no harm. Nor does
 a crash before the configuration was edited.
 */
module ConfigRepeat {
  import opened Wrappers
  import opened TomlScanner
  import opened ConfigEdit
  import opened ConfigLines
  import opened ConfigDocument
  import opened ConfigOriginals
  import opened ConfigRestore
  import opened ConfigIdentity
  import opened ConfigOrdinary
  import opened ConfigRemoval
  import opened ConfigRoundTrip
  import opened ConfigMerge

  // ---------------------------------------------------------------- values keep their spelling behind more text

  lemma {:induction false} BasicEndExtends(s: string, more: string)
    requires BasicEnd(s).Some?
    ensures BasicEnd(s + more) == BasicEnd(s)
    decreases |s|
  {
    if s[0] != '"' {
      var size := if s[0] == '\\' then 2 else 1;
      assert (s + more)[size..] == s[size..] + more;
      BasicEndExtends(s[size..], more);
    }
  }

  lemma {:induction false} LiteralEndExtends(s: string, more: string)
    requires LiteralEnd(s).Some?
    ensures LiteralEnd(s + more) == LiteralEnd(s)
    decreases |s|
  {
    if s[0] != '\'' {
      assert (s + more)[1..] == s[1..] + more;
      LiteralEndExtends(s[1..], more);
    }
  }

  lemma TokenExtends(s: string, more: string)
    requires TokenLength(s).Some?
    ensures TokenLength(s + more) == TokenLength(s) && s[0] == (s + more)[0] && IsMark(s[0])
  {
    assert (s + more)[1..] == s[1..] + more;
    if s[0] == '"' { BasicEndExtends(s[1..], more); } else { LiteralEndExtends(s[1..], more); }
  }

  lemma {:induction false} BodyKeeps(b: string, more: string)
    requires b != "" && !LineEnd(b[|b| - 1])
    ensures b <= Body(b + more)
    decreases |more|
  {
    if more == "" {
      assert b + more == b;
    } else {
      var n := |more| - 1;
      assert (b + more)[..|b + more| - 1] == b + more[..n];
      BodyKeeps(b, more[..n]);
    }
  }

  /** A line that sets a key sets it to the same token if more text is added to it. */
  lemma LineExtends(line: string, key: string, more: string)
    requires IsKey(key) && Matches(line, key)
    ensures Matches(line + more, key)
    ensures MatchSetting(Body(line + more), key).value.token == MatchSetting(Body(line), key).value.token
  {
    MatchedNotEmpty(Body(line), key);
    var rest := BodyExtends(line, more);
    MatchExtends(Body(line), key, rest);
  }

  lemma MatchedNotEmpty(b: string, key: string)
    requires IsKey(key) && MatchSetting(b, key).Some?
    ensures b != ""
  {
    var p := MatchPrefix(b, key);
  }

  lemma BodyExtends(line: string, more: string) returns (rest: string)
    requires Body(line) != ""
    ensures Body(line + more) == Body(line) + rest
  {
    var b := Body(line);
    BodyShape(line);
    assert line + more == b + (line[|b|..] + more);
    BodyKeeps(b, line[|b|..] + more);
    rest := Body(line + more)[|b|..];
  }

  lemma MatchExtends(b: string, key: string, rest: string)
    requires IsKey(key) && MatchSetting(b, key).Some?
    ensures MatchSetting(b + rest, key).Some? && MatchSetting(b + rest, key).value.token == MatchSetting(b, key).value.token
  {
    var m := MatchSetting(b, key).value;
    var p := MatchPrefix(b, key);
    MatchToken(b, key, m);
    TokenExtends(m.token + m.tail, rest);
    PartsExtend(p, key, m, b, rest);
  }

  lemma PartsExtend(p: Prefix, key: string, m: Match, b: string, rest: string)
    requires IsKey(key) && IsPrefix(p) && m.prefix == PrefixText(p, key) && b == m.prefix + m.token + m.tail
    requires TokenLength((m.token + m.tail) + rest) == Some(|m.token|) && m.token + m.tail != "" && IsMark((m.token + m.tail)[0])
    ensures MatchSetting(b + rest, key) == Some(Match(m.prefix, m.token, m.tail + rest))
  {
    MoreBehind(m.prefix, m.token, m.tail, rest);
    ValueStart(m.token + m.tail, rest);
    PrefixIs(p, key, m.token + (m.tail + rest));
    MatchIs(m.prefix, m.token, m.tail + rest, key);
  }

  lemma MoreBehind(a: string, b: string, c: string, d: string)
    ensures (b + c) + d == b + (c + d) && a + b + c + d == a + (b + (c + d))
  {
  }

  lemma ValueStart(value: string, rest: string)
    requires value != "" && IsMark(value[0])
    ensures value + rest != "" && !Space((value + rest)[0])
  {
  }

  // ---------------------------------------------------------------- a text with another behind it

  lemma MatchStays(lines: seq<string>, edited: seq<string>, key: string, i: nat)
    requires FirstMatch(lines, key) == Some(i) && i < |edited| && edited[..i] == lines[..i]
    requires !StartsTable(edited[i]) && Matches(edited[i], key)
    ensures FirstMatch(edited, key) == Some(i)
  {
    FirstMatchExact(lines, key, i);
    forall j: nat | j <= i
      ensures Visible(edited, j) == Visible(lines, j) && (j < i ==> edited[j] == lines[j])
    {
      assert edited[..i][..j] == edited[..j] && lines[..i][..j] == lines[..j];
      assert j < i ==> edited[j] == edited[..i][j] == lines[..i][j];
    }
    FirstStays(lines, edited, key, i);
  }

  /** The value of a key is spelled the same with more text behind the document. */
  lemma AppendedKeeps(text: string, appended: string, key: string)
    requires IsKey(key) && Matched(text, key).Some?
    ensures Matched(text + appended, key).Some?
    ensures Matched(text + appended, key).value.token == Matched(text, key).value.token
  {
    if appended == "" {
      assert text + appended == text;
    } else {
      var before, part := JoinedLines(text, appended);
      var rest := Split(appended);
      var k := FirstMatch(Split(text), key).value;
      ClosedMatch(Split(text), key);
      ClosedBody(Split(text), k);
      JoinedKeeps(before, part, rest[0], rest[1..], before + [part + "\n"], Split(text + appended), key, k);
    }
  }

  lemma ClosedBody(lines: seq<string>, k: nat)
    requires k < |lines|
    ensures k < |CloseLines(lines)| && Body(CloseLines(lines)[k]) == Body(lines[k])
  {
    BodyEnd(lines[k]);
  }

  lemma JoinedKeeps(before: seq<string>, part: string, first: string, rest: seq<string>, closed: seq<string>, joined: seq<string>,
                    key: string, k: nat)
    requires closed == before + [part + "\n"] && joined == before + ([part + first] + rest) && IsLines(joined)
    requires IsKey(key) && FirstMatch(closed, key) == Some(k)
    ensures FirstMatch(joined, key) == Some(k)
    ensures MatchSetting(Body(joined[k]), key).value.token == MatchSetting(Body(closed[k]), key).value.token
  {
    if k < |before| {
      assert joined[k] == closed[k];
    } else {
      BodyEnd(part);
      LineExtends(part, key, first);
    }
    MatchedIsNoHeader(joined[k], key);
    assert joined[..k] == closed[..k];
    MatchStays(closed, joined, key, k);
  }

  // ---------------------------------------------------------------- a document without its table

  lemma {:induction false} TableIndex(lines: seq<string>, n: nat, i: nat) returns (h: nat)
    requires n <= |lines| && i < |TablesUpTo(lines, n)|
    ensures h < n && Header(lines, h) && TablesUpTo(lines, n)[i].start == |Join(lines[..h])|
    decreases n
  {
    if i < |TablesUpTo(lines, n - 1)| { h := TableIndex(lines, n - 1, i); } else { h := n - 1; }
  }

  /** The first match of a key stands before every header. */
  lemma FirstInPrefix(lines: seq<string>, key: string, k: nat, h: nat)
    requires FirstMatch(lines, key) == Some(k) && Header(lines, h)
    ensures k < h && FirstMatch(lines[..h], key) == Some(k)
  {
    BeforeHeader(lines, key, k, h);
    assert lines[..h] + lines[h..] == lines;
    FirstInPart(lines[..h], lines[h..], key, k);
  }

  lemma BeforeHeader(lines: seq<string>, key: string, k: nat, h: nat)
    requires FirstMatch(lines, key) == Some(k) && Header(lines, h)
    ensures k < h
  {
    FirstMatchExact(lines, key, k);
  }

  lemma FirstInPart(head: seq<string>, more: seq<string>, key: string, k: nat)
    requires FirstMatch(head + more, key) == Some(k) && k < |head|
    ensures FirstMatch(head, key) == Some(k)
  {
    FirstMatchExact(head + more, key, k);
    Appended(head, more);
    forall j: nat | j <= k
      ensures Sets(head, key, j) == Sets(head + more, key, j)
    {
      assert (head + more)[j] == head[j];
    }
    FirstMatchExact(head, key, k);
  }

  lemma TextBefore(lines: seq<string>, h: nat) returns (before: string)
    requires IsLines(lines) && 0 < h < |lines|
    ensures before + "\n" == Join(lines[..h]) && Join(lines[..h]) <= Join(lines)
    ensures CloseLines(Split(before)) == lines[..h]
  {
    var head := lines[..h];
    assert head + lines[h..] == lines;
    JoinConcat(head, lines[h..]);
    assert IsLines(head) && Ended(head[h - 1]);
    LastEnded(head);
    before := Join(head)[..|Join(head)| - 1];
    assert before + "\n" == Join(head);
    SplitJoin(head);
    SplitClosed(before);
  }

  function CutFrom(text: string, start: nat): nat
    requires start <= |text|
  {
    if start > 0 && text[start - 1] == '\n' then start - 1 else start
  }

  /** The text without `size` characters at `start`, and without the line feed before them. */
  predicate IsCut(text: string, start: nat, size: nat, cut: string) {
    start + size <= |text| && cut == text[..CutFrom(text, start)] + text[start + size..]
  }

  lemma SectionCut(text: string, start: nat, end: nat, own: string)
    requires start <= end <= |text| && CutBlock(text, start, end, own).1
    ensures IsCut(text, start, |own|, CutBlock(text, start, end, own).0)
  {
  }

  /** Cutting the table leaves the text before it and the text behind it. */
  lemma CutIs(text: string, provider: string, block: string) returns (h: nat)
    requires block != "" && RemoveTable(text, provider, block).1
    ensures h < |Split(text)| && Header(Split(text), h)
    ensures IsCut(text, |Join(Split(text)[..h])|, |block| - 1, RemoveTable(text, provider, block).0)
  {
    var lines := Split(text);
    var tables := TablesUpTo(lines, |lines|);
    var i := FindLabel(tables, HeaderLabel(provider));
    h := TableIndex(lines, |lines|, i);
    CutOfTable(text, provider, block, tables, i);
  }

  lemma CutOfTable(text: string, provider: string, block: string, tables: seq<Table>, i: nat)
    requires block != "" && RemoveTable(text, provider, block).1
    requires tables == AllTables(Split(text)) && FindLabel(tables, HeaderLabel(provider)) == i < |tables|
    ensures IsCut(text, tables[i].start, |block| - 1, RemoveTable(text, provider, block).0)
  {
    RemoveAt(text, provider, block, tables, i);
    SectionCut(text, tables[i].start, SectionEnd(tables[i + 1..], SubPrefix(provider), |text|), block[1..]);
  }

  lemma CutText(text: string, before: string, start: nat, size: nat, cut: string)
    requires IsCut(text, start, size, cut) && |before| + 1 == start && before + "\n" <= text
    ensures cut == before + text[start + size..]
  {
    assert text[start - 1] == (before + "\n")[start - 1];
    assert text[..start] == before + "\n";
    assert text[..start - 1] == before;
  }

  /** The text before the table, in which the first match of a key is where it was. */
  lemma CutParts(text: string, lines: seq<string>, key: string, k: nat, h: nat, size: nat, cut: string)
    returns (before: string, behind: string)
    requires IsLines(lines) && text == Join(lines) && IsKey(key) && h < |lines| && Header(lines, h)
    requires FirstMatch(lines, key) == Some(k) && IsCut(text, |Join(lines[..h])|, size, cut)
    ensures cut == before + behind && Matched(before, key) == MatchSetting(Body(lines[k]), key)
  {
    FirstInPrefix(lines, key, k, h);
    before := TextBefore(lines, h);
    assert |before + "\n"| == |Join(lines[..h])|;
    CutText(text, before, |Join(lines[..h])|, size, cut);
    behind := text[|Join(lines[..h])| + size..];
    BeforeKeeps(before, lines, key, k, h);
  }

  /** Cutting the table leaves every value spelled as it was. */
  lemma CutKeeps(text: string, provider: string, block: string, key: string, m: Match)
    requires block != "" && IsKey(key) && RemoveTable(text, provider, block).1 && Matched(text, key) == Some(m)
    ensures var cut := RemoveTable(text, provider, block).0; Matched(cut, key).Some? && Matched(cut, key).value.token == m.token
  {
    var h := CutIs(text, provider, block);
    JoinSplit(text);
    CutLines(text, Split(text), key, m, h, |block| - 1, RemoveTable(text, provider, block).0);
  }

  lemma CutLines(text: string, lines: seq<string>, key: string, m: Match, h: nat, size: nat, cut: string)
    requires IsLines(lines) && text == Join(lines) && IsKey(key) && h < |lines| && Header(lines, h)
    requires MatchedIn(lines, key) == Some(m) && IsCut(text, |Join(lines[..h])|, size, cut)
    ensures Matched(cut, key).Some? && Matched(cut, key).value.token == m.token
  {
    var before, behind := CutParts(text, lines, key, FirstMatch(lines, key).value, h, size, cut);
    AppendedKeeps(before, behind, key);
  }

  lemma BeforeKeeps(before: string, lines: seq<string>, key: string, k: nat, h: nat)
    requires IsKey(key) && k < h < |lines| && FirstMatch(lines, key) == Some(k) && FirstMatch(lines[..h], key) == Some(k)
    requires CloseLines(Split(before)) == lines[..h]
    ensures Matched(before, key) == MatchSetting(Body(lines[k]), key)
  {
    ClosedMatch(Split(before), key);
    ClosedBody(Split(before), k);
    assert lines[..h][k] == lines[k];
  }

  // ---------------------------------------------------------------- what a restore has written

  /** One owned setting restored leaves every other key as it was. */
  lemma OtherKept(parse: Parser, text: string, o: Owned, key: string)
    requires ReadsStrings(parse) && IsKey(o.key) && IsKey(key) && o.key != key
    requires parse(text).Some? && o.key in parse(text).value.settings && Setting(parse, text, o.key, o.original).Success?
    requires o.original.None? && Matched(text, o.key).Some? ==> TailOk(Matched(text, o.key).value.tail)
    ensures Matched(Setting(parse, text, o.key, o.original).value, key) == Matched(text, key)
  {
    OwnedIsMatched(parse, text, o);
    if TailOk(Matched(text, o.key).value.tail) {
      OrdinaryEdit(text, o.key, o.original, key);
    } else {
      OverTriple(parse, text, o);
    }
  }

  /** The premises under which settings are restored one after the other. */
  ghost predicate Restoring(parse: Parser, document: Toml, start: string, text: string, owned: seq<Owned>) {
    && ReadsStrings(parse) && ReadsEdits(parse, owned) && Removable(document, start, owned)
    && DistinctKeys(owned) && (forall o :: o in owned ==> IsKey(o.key)) && SameLines(parse, document, start, text, owned)
    && RestoreEach(parse, document, text, owned).Success?
  }

  lemma RestoringOn(parse: Parser, document: Toml, start: string, text: string, owned: seq<Owned>) returns (next: string)
    requires Restoring(parse, document, start, text, owned) && owned != []
    ensures next == if StillHeld(document, owned[0]) then Setting(parse, text, owned[0].key, owned[0].original).value else text
    ensures StillHeld(document, owned[0]) ==> Setting(parse, text, owned[0].key, owned[0].original).Success?
    ensures Restoring(parse, document, start, next, owned[1..])
    ensures RestoreEach(parse, document, next, owned[1..]).value.0 == RestoreEach(parse, document, text, owned).value.0
  {
    var o := owned[0];
    assert o in owned && forall x :: x in owned[1..] ==> x in owned;
    FewerEdits(parse, owned);
    next := text;
    if StillHeld(document, o) {
      ConfigMerge.RestoreOne(parse, document, start, text, owned);
      next := Setting(parse, text, o.key, o.original).value;
    }
  }

  lemma {:induction false} OthersKept(parse: Parser, document: Toml, start: string, text: string, owned: seq<Owned>, key: string)
    requires Restoring(parse, document, start, text, owned) && IsKey(key) && forall o :: o in owned ==> o.key != key
    ensures Matched(RestoreEach(parse, document, text, owned).value.0, key) == Matched(text, key)
    decreases |owned|
  {
    if owned != [] {
      var o := owned[0];
      assert o in owned && forall x :: x in owned[1..] ==> x in owned;
      var next := RestoringOn(parse, document, start, text, owned);
      if StillHeld(document, o) { OtherKept(parse, text, o, key); }
      OthersKept(parse, document, start, next, owned[1..], key);
    }
  }

  /** The value of the setting stands as the editor writes it. */
  predicate Written(text: string, key: string, v: string) {
    Matched(text, key).Some? && Matched(text, key).value.token == Dumps(v)
  }

  lemma SettingWrites(parse: Parser, text: string, o: Owned)
    requires IsKey(o.key) && o.original.Some? && parse(text).Some? && o.key in parse(text).value.settings
    requires Setting(parse, text, o.key, o.original).Success?
    ensures Written(Setting(parse, text, o.key, o.original).value, o.key, o.original.value)
  {
    OwnedIsMatched(parse, text, o);
    EditedFirst(text, o.key, o.original.value);
  }

  /** After a restore every original that was put back stands as the editor writes it. */
  lemma {:induction false} OriginalsWritten(parse: Parser, document: Toml, start: string, text: string, owned: seq<Owned>, o: Owned)
    requires Restoring(parse, document, start, text, owned) && o in owned && StillHeld(document, o) && o.original.Some?
    ensures Written(RestoreEach(parse, document, text, owned).value.0, o.key, o.original.value)
    decreases |owned|
  {
    var next := RestoringOn(parse, document, start, text, owned);
    if o == owned[0] {
      SettingWrites(parse, text, o);
      OthersKept(parse, document, start, next, owned[1..], o.key);
    } else {
      assert o in owned[1..];
      OriginalsWritten(parse, document, start, next, owned[1..], o);
    }
  }

  // ---------------------------------------------------------------- repeated recovery

  /** Where every held setting is already written as its original, nothing is left to do. */
  lemma {:induction false} NothingToDo(parse: Parser, document: Toml, text: string, owned: seq<Owned>)
    requires forall o :: o in owned && StillHeld(document, o) ==> Setting(parse, text, o.key, o.original) == Success(text)
    ensures RestoreEach(parse, document, text, owned) == Success((text, Differing(document, owned)))
    decreases |owned|
  {
    if owned != [] {
      assert owned[0] in owned && forall x :: x in owned[1..] ==> x in owned;
      assert [] + Differing(document, owned[1..]) == Differing(document, owned[1..]);
      NothingToDo(parse, document, text, owned[1..]);
    }
  }

  lemma {:induction false} SameDiffering(a: Toml, b: Toml, owned: seq<Owned>)
    requires forall o :: o in owned ==> MergedValue(a, o) == MergedValue(b, o)
    ensures Differing(a, owned) == Differing(b, owned)
    decreases |owned|
  {
    if owned != [] {
      assert owned[0] in owned && forall x :: x in owned[1..] ==> x in owned;
      SameDiffering(a, b, owned[1..]);
    }
  }

  lemma WrittenStays(parse: Parser, text: string, o: Owned)
    requires IsKey(o.key) && o.original.Some? && parse(text).Some? && Written(text, o.key, o.original.value)
    ensures Setting(parse, text, o.key, o.original) == Success(text)
  {
    SameEditExact(text, o.key, o.original.value);
  }

  /** What a restore leaves held was held before, and is already written as its original. */
  lemma HeldIsWritten(parse: Parser, text: string, record: Record, o: Owned)
    requires OwnsKeys(record) && Trusted(parse, record) && Restorable(parse, text, record)
    requires Restore(parse, text, record).Success? && o in record.owned
    ensures parse(text).Some? && parse(Restore(parse, text, record).value.0).Some?
    ensures var once := Restore(parse, text, record).value.0;
      && MergedValue(parse(once).value, o) == MergedValue(parse(text).value, o)
      && (StillHeld(parse(once).value, o) ==> Setting(parse, once, o.key, o.original) == Success(once))
  {
    var once := Restore(parse, text, record).value.0;
    MergeExact(parse, text, record);
    var before := parse(text).value;
    assert Get(parse(once).value.settings, o.key) == RestoredValue(before, text, o);
    if StillHeld(parse(once).value, o) {
      EachIs(parse, text, record);
      OriginalsWritten(parse, before, text, text, record.owned, o);
      WrittenAfterCut(parse, text, record, o);
      WrittenStays(parse, once, o);
    }
  }

  lemma WrittenAfterCut(parse: Parser, text: string, record: Record, o: Owned)
    requires record.block != "" && Restore(parse, text, record).Success? && IsKey(o.key) && o.original.Some?
    requires parse(text).Some? && RestoreEach(parse, parse(text).value, text, record.owned).Success?
    requires Written(RestoreEach(parse, parse(text).value, text, record.owned).value.0, o.key, o.original.value)
    ensures Written(Restore(parse, text, record).value.0, o.key, o.original.value)
  {
    var each := RestoreEach(parse, parse(text).value, text, record.owned).value.0;
    RestoredText(parse, text, record);
    WrittenOnceCut(each, Restore(parse, text, record).value.0, record.provider, record.block, o.key, o.original.value);
  }

  /** What a restore writes is the edited text, with the table or without it. */
  lemma RestoredText(parse: Parser, text: string, record: Record)
    requires record.block != "" && Restore(parse, text, record).Success?
    requires parse(text).Some? && RestoreEach(parse, parse(text).value, text, record.owned).Success?
    ensures var each := RestoreEach(parse, parse(text).value, text, record.owned).value.0;
      var cut := RemoveTable(each, record.provider, record.block); var once := Restore(parse, text, record).value.0;
      once == each || (cut.1 && once == cut.0)
  {
    NotRemoved(RestoreEach(parse, parse(text).value, text, record.owned).value.0, record.provider, record.block);
  }

  lemma WrittenOnceCut(each: string, once: string, provider: string, block: string, key: string, v: string)
    requires block != "" && IsKey(key) && Written(each, key, v)
    requires once == each || (RemoveTable(each, provider, block).1 && once == RemoveTable(each, provider, block).0)
    ensures Written(once, key, v)
  {
    if once != each { CutKeeps(each, provider, block, key, Matched(each, key).value); }
  }

  /** A restore of a restored configuration succeeds, changes no byte, and reports the same. */
  lemma RepeatChangesNothing(parse: Parser, text: string, record: Record)
    requires OwnsKeys(record) && Trusted(parse, record) && Restorable(parse, text, record)
    requires Restore(parse, text, record).Success?
    ensures Restore(parse, Restore(parse, text, record).value.0, record) == Restore(parse, text, record)
  {
    var once := Restore(parse, text, record).value.0;
    RestoredDocument(parse, text, record);
    forall o | o in record.owned
      ensures MergedValue(parse(once).value, o) == MergedValue(parse(text).value, o)
      ensures StillHeld(parse(once).value, o) ==> Setting(parse, once, o.key, o.original) == Success(once)
    {
      HeldIsWritten(parse, text, record, o);
    }
    SameDiffering(parse(once).value, parse(text).value, record.owned);
    NothingToDo(parse, parse(once).value, once, record.owned);
    SecondCut(parse, text, record);
  }

  /** Once the settings need no edit, the table is not cut a second time. */
  lemma SecondCut(parse: Parser, text: string, record: Record)
    requires OwnsKeys(record) && Trusted(parse, record) && Restorable(parse, text, record)
    requires Restore(parse, text, record).Success? && parse(text).Some? && parse(Restore(parse, text, record).value.0).Some?
    requires var once := Restore(parse, text, record).value.0;
      RestoreEach(parse, parse(once).value, once, record.owned) == Success((once, Differing(parse(text).value, record.owned)))
    ensures Restore(parse, Restore(parse, text, record).value.0, record) == Restore(parse, text, record)
  {
    EachIs(parse, text, record);
    RestoredDocument(parse, text, record);
    NotRemoved(RestoreEach(parse, parse(text).value, text, record.owned).value.0, record.provider, record.block);
  }

  // ---------------------------------------------------------------- a configuration that was never edited

  /** The record holds the document's own originals, and no table of its provider is there yet. */
  predicate RecordedFrom(parse: Parser, text: string, record: Record) {
    && parse(text).Some? && parse(text).value.tables.Some? && record.provider !in parse(text).value.tables.value
    && forall o :: o in record.owned ==> OriginalOf(parse(text).value, o.key) == Some(o.original)
  }

  lemma {:induction false} NothingDiffers(document: Toml, owned: seq<Owned>)
    requires forall o :: o in owned ==> OriginalOf(document, o.key) == Some(o.original)
    ensures Differing(document, owned) == []
    decreases |owned|
  {
    if owned != [] {
      assert owned[0] in owned && forall x :: x in owned[1..] ==> x in owned;
      NothingDiffers(document, owned[1..]);
    }
  }

  /** What an installation records are the originals of the document. */
  lemma InstallationRecorded(parse: Parser, text: string, wanted: seq<(string, string)>, provider: string, block: string, table: Value)
    requires Install(parse, text, wanted, block).Success?
    requires parse(text).value.tables.Some? && provider !in parse(text).value.tables.value
    ensures RecordedFrom(parse, text, RecordOf(parse, text, wanted, provider, block, table))
  {
    InstallRecords(parse, text, wanted, block);
    var document := parse(text).value;
    var owned := Install(parse, text, wanted, block).value.1;
    forall o | o in owned
      ensures OriginalOf(document, o.key) == Some(o.original)
    {
      var i :| 0 <= i < |owned| && owned[i] == o;
      assert Records(document, wanted[i], owned[i]);
    }
  }

  /** Restoring a configuration that was journalled but never edited leaves it byte for byte exactly
      if every setting that already had the value to be installed is spelled as the editor writes
      it; the others are not touched. */
  lemma UntouchedExactly(parse: Parser, text: string, wanted: seq<(string, string)>, provider: string, block: string, table: Value)
    requires Install(parse, text, wanted, block).Success?
    requires parse(text).value.tables.Some? && provider !in parse(text).value.tables.value
    requires var record := RecordOf(parse, text, wanted, provider, block, table); OwnsKeys(record) && Trusted(parse, record)
    ensures Restore(parse, text, RecordOf(parse, text, wanted, provider, block, table)) == Success((text, []))
       <==> forall i :: 0 <= i < |wanted| && Get(parse(text).value.settings, wanted[i].0) == Some(Text(wanted[i].1)) ==>
              Written(text, wanted[i].0, wanted[i].1)
  {
    var record := RecordOf(parse, text, wanted, provider, block, table);
    InstallRecords(parse, text, wanted, block);
    InstallationRecorded(parse, text, wanted, provider, block, table);
    RecordUntouched(parse, text, record);
    SameWritten(parse(text).value, text, record.owned, wanted);
  }

  lemma SameWritten(document: Toml, text: string, owned: seq<Owned>, wanted: seq<(string, string)>)
    requires |owned| == |wanted| && forall i :: 0 <= i < |wanted| ==> Records(document, wanted[i], owned[i])
    ensures (forall i :: 0 <= i < |wanted| && Get(document.settings, wanted[i].0) == Some(Text(wanted[i].1)) ==>
               Written(text, wanted[i].0, wanted[i].1))
       <==> forall o :: o in owned && o.original == Some(o.installed) ==> Written(text, o.key, o.installed)
  {
    assert forall i :: 0 <= i < |wanted| ==>
      Records(document, wanted[i], owned[i]) && owned[i] in owned
      && (Get(document.settings, wanted[i].0) == Some(Text(wanted[i].1)) <==> owned[i].original == Some(owned[i].installed));
    if forall i :: 0 <= i < |wanted| && Get(document.settings, wanted[i].0) == Some(Text(wanted[i].1)) ==> Written(text, wanted[i].0, wanted[i].1) {
      forall o | o in owned && o.original == Some(o.installed)
        ensures Written(text, o.key, o.installed)
      {
        var i :| 0 <= i < |owned| && owned[i] == o;
        assert Records(document, wanted[i], owned[i]);
      }
    }
  }

  lemma RecordUntouched(parse: Parser, text: string, record: Record)
    requires OwnsKeys(record) && Trusted(parse, record) && RecordedFrom(parse, text, record)
    ensures Restore(parse, text, record) == Success((text, []))
       <==> forall o :: o in record.owned && o.original == Some(o.installed) ==> Written(text, o.key, o.installed)
  {
    var document := parse(text).value;
    if forall o :: o in record.owned && o.original == Some(o.installed) ==> Written(text, o.key, o.installed) {
      WrittenComesBack(parse, text, record);
    }
    if Restore(parse, text, record) == Success((text, [])) {
      assert RestoreEach(parse, document, text, record.owned).Success?;
      assert RestoreEach(parse, document, text, record.owned).value.0 == text;
      forall o | o in record.owned && o.original == Some(o.installed)
        ensures Written(text, o.key, o.installed)
      {
        UntouchedWritten(parse, document, text, record, o);
      }
    }
  }

  lemma UntouchedWritten(parse: Parser, document: Toml, text: string, record: Record, o: Owned)
    requires OwnsKeys(record) && Trusted(parse, record) && parse(text) == Some(document)
    requires forall x :: x in record.owned ==> OriginalOf(document, x.key) == Some(x.original)
    requires RestoreEach(parse, document, text, record.owned).Success?
    requires o in record.owned && o.original == Some(o.installed)
    ensures Written(RestoreEach(parse, document, text, record.owned).value.0, o.key, o.installed)
  {
    OriginalsWritten(parse, document, text, text, record.owned, o);
  }

  lemma WrittenComesBack(parse: Parser, text: string, record: Record)
    requires record.block != "" && RecordedFrom(parse, text, record) && forall o :: o in record.owned ==> IsKey(o.key)
    requires forall o :: o in record.owned && o.original == Some(o.installed) ==> Written(text, o.key, o.installed)
    ensures Restore(parse, text, record) == Success((text, []))
  {
    var document := parse(text).value;
    forall o | o in record.owned && StillHeld(document, o)
      ensures Setting(parse, text, o.key, o.original) == Success(text)
    {
      WrittenStays(parse, text, o);
    }
    NothingToDo(parse, document, text, record.owned);
    NothingDiffers(document, record.owned);
  }

  /** So a document the editor is ready to edit comes back as it was, whatever the parser. */
  lemma ReadyComesBack(parse: Parser, text: string, wanted: seq<(string, string)>, provider: string, block: string, table: Value)
    requires block != "" && Install(parse, text, wanted, block).Success?
    requires parse(text).value.tables.Some? && provider !in parse(text).value.tables.value
    requires DistinctWanted(wanted) && AllEditable(parse(text).value, Split(text), wanted)
    ensures Restore(parse, text, RecordOf(parse, text, wanted, provider, block, table)) == Success((text, []))
  {
    var record := RecordOf(parse, text, wanted, provider, block, table);
    InstalledReady(parse, text, wanted, block);
    InstallationRecorded(parse, text, wanted, provider, block, table);
    WrittenComesBack(parse, text, record);
  }
}
