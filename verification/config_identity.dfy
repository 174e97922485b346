/**
 Installing the owned settings and the provider table and then restoring gives back the user's
 text, byte for byte, with whatever tables were appended in between.
 */
module ConfigIdentity {
  import opened Wrappers
  import opened TomlScanner
  import opened ConfigEdit
  import opened ConfigLines
  import opened ConfigDocument
  import opened ConfigRestore

  // ---------------------------------------------------------------- edits of a text are edits of its lines

  lemma {:induction false} JoinReplaced(lines: seq<string>, i: nat, e: string)
    requires i < |lines|
    ensures Join(lines[i := e]) == Join(lines[..i]) + e + Join(lines[i + 1..])
    ensures Join(Removed(lines, i)) == Join(lines[..i]) + Join(lines[i + 1..])
  {
    var edited := lines[i := e];
    assert edited == lines[..i] + ([e] + lines[i + 1..]);
    JoinConcat(lines[..i], [e] + lines[i + 1..]);
    assert ([e] + lines[i + 1..])[1..] == lines[i + 1..];
    assert Join(lines[..i]) + (e + Join(lines[i + 1..])) == Join(lines[..i]) + e + Join(lines[i + 1..]);
    JoinConcat(lines[..i], lines[i + 1..]);
  }

  lemma JoinEditAt(lines: seq<string>, i: nat, e: string)
    requires i < |lines|
    ensures Join(EditAt(lines, i, e)) == Join(lines[i := e])
  {
    JoinReplaced(lines, i, e);
    if e == "" { assert Join(lines[..i]) + "" == Join(lines[..i]); }
  }

  lemma JoinFirst(line: string, lines: seq<string>)
    ensures Join([line] + lines) == line + Join(lines)
  {
    assert ([line] + lines)[1..] == lines;
  }

  lemma EditedLines(text: string, key: string, value: Option<string>)
    ensures Edited(text, key, value) == Join(Apply(Split(text), key, value))
  {
    var lines := Split(text);
    var r := FirstMatch(lines, key);
    JoinSplit(text);
    if r.Some? {
      JoinEditAt(lines, r.value, EditLine(lines[r.value], key, value));
    } else if value.Some? {
      JoinFirst(Prepended(key, value.value), lines);
    }
  }

  // ---------------------------------------------------------------- lines that all end

  predicate AllEnded(lines: seq<string>) {
    forall l :: l in lines ==> IsLine(l) && Ended(l)
  }

  lemma EndedLines(a: seq<string>, b: seq<string>)
    requires AllEnded(a) && IsLines(b)
    ensures IsLines(a + b)
  {
    var c := a + b;
    forall i | 0 <= i < |c|
      ensures IsLine(c[i]) && (i < |c| - 1 ==> Ended(c[i]))
    {
      if i < |a| { assert c[i] in a; } else { assert c[i] == b[i - |a|]; }
    }
  }

  lemma PutEnded(lines: seq<string>, o: Owned)
    requires Ready(lines, o) && AllEnded(lines)
    ensures AllEnded(Put(lines, o))
  {
    if o.original.None? {
      PutAbsent(lines, o.key, o.installed);
      PrependedExact(o.key, o.installed);
    } else {
      HeldEnded(lines, o.key, o.original.value, o.installed);
    }
  }

  lemma HeldEnded(lines: seq<string>, key: string, v: string, w: string)
    requires IsKey(key) && Holds(lines, key, v) && AllEnded(lines)
    ensures AllEnded(Apply(lines, key, Some(w)))
  {
    var i := FirstMatch(lines, key).value;
    PutHeld(lines, key, v, w);
    EditLineExact(lines[i], key, v, w);
    ReplacedEnded(lines, i, EditLine(lines[i], key, Some(w)));
  }

  lemma ReplacedEnded(lines: seq<string>, i: nat, e: string)
    requires i < |lines| && AllEnded(lines) && IsLine(e) && Ended(e)
    ensures AllEnded(lines[i := e]) && AllEnded(Removed(lines, i))
  {
    assert forall l :: l in lines[i := e] ==> l == e || l in lines;
  }

  lemma {:induction false} PutAllEnded(lines: seq<string>, os: seq<Owned>)
    requires DistinctKeys(os) && AllReady(lines, os) && AllEnded(lines)
    ensures AllEnded(PutAll(lines, os))
    decreases |os|
  {
    if os != [] {
      assert os[0] in os && forall y :: y in os[1..] ==> y in os;
      PutEnded(lines, os[0]);
      LaterReady(lines, os[0], os[1..]);
      PutAllEnded(Put(lines, os[0]), os[1..]);
    }
  }

  // ---------------------------------------------------------------- a text and the text with a final LF

  function CloseLines(lines: seq<string>): seq<string> {
    var n := |lines|;
    if n == 0 || Ended(lines[n - 1]) then lines + ["\n"] else lines[n - 1 := lines[n - 1] + "\n"]
  }

  lemma CloseEnded(lines: seq<string>)
    requires IsLines(lines)
    ensures AllEnded(CloseLines(lines))
  {
    var closed := CloseLines(lines);
    assert forall i :: 0 <= i < |closed| ==> IsLine(closed[i]) && Ended(closed[i]);
  }

  lemma CloseJoin(lines: seq<string>)
    ensures Join(CloseLines(lines)) == Join(lines) + "\n"
  {
    var n := |lines|;
    if n == 0 || Ended(lines[n - 1]) {
      JoinConcat(lines, ["\n"]);
      assert Join(["\n"]) == "\n" + Join([]);
    } else {
      var l := lines[n - 1];
      JoinReplaced(lines, n - 1, l + "\n");
      JoinReplaced(lines, n - 1, l);
      assert lines[n - 1 := l] == lines && lines[n..] == [];
      LastJoin(Join(lines[..n - 1]), l);
    }
  }

  lemma LastJoin(a: string, l: string)
    ensures a + (l + "\n") + "" == a + l + "" + "\n"
  {
  }

  lemma SplitClosed(text: string)
    ensures Split(text + "\n") == CloseLines(Split(text))
    ensures AllEnded(CloseLines(Split(text)))
  {
    JoinSplit(text);
    CloseEnded(Split(text));
    CloseJoin(Split(text));
    EndedSplit(CloseLines(Split(text)), text + "\n");
  }

  lemma EndedSplit(lines: seq<string>, text: string)
    requires AllEnded(lines) && Join(lines) == text
    ensures Split(text) == lines
  {
    EndedLines(lines, []);
    assert lines + [] == lines;
    SplitJoin(lines);
  }

  lemma {:induction false} BlankEnd(line: string)
    ensures StripLeft(line + "\n") == if StripLeft(line) == "" then "" else StripLeft(line) + "\n"
    decreases |line|
  {
    if line == "" {
      assert line + "\n" == "\n" && "\n"[1..] == "";
    } else if Space(line[0]) {
      assert (line + "\n")[1..] == line[1..] + "\n";
      BlankEnd(line[1..]);
    }
  }

  lemma BodyEnd(line: string)
    ensures Body(line + "\n") == Body(line)
    ensures StartsTable(line + "\n") == StartsTable(line)
  {
    assert (line + "\n")[..|line|] == line;
    BlankEnd(line);
  }

  lemma LoneLf(key: string)
    requires IsKey(key)
    ensures !Matches("\n", key) && !StartsTable("\n")
  {
    assert Body("\n") == "" by { assert "\n"[..0] == ""; }
    BlankEnd("");
    assert "" + "\n" == "\n";
  }

  /** Line by line, the two texts are the same to the search. */
  lemma ClosedTopLevel(lines: seq<string>, j: nat)
    ensures j < |lines| ==> TopLevel(CloseLines(lines), j) == TopLevel(lines, j)
  {
    var closed := CloseLines(lines);
    if j < |lines| {
      forall m: nat | m <= j
        ensures Visible(closed, m) == Visible(lines, m) && Header(closed, m) == Header(lines, m)
      {
        assert closed[..m] == lines[..m];
        BodyEnd(lines[m]);
        assert closed[m] == lines[m] || closed[m] == lines[m] + "\n";
      }
    }
  }

  lemma ClosedMatch(lines: seq<string>, key: string)
    requires IsKey(key)
    ensures FirstMatch(CloseLines(lines), key) == FirstMatch(lines, key)
  {
    var closed := CloseLines(lines);
    forall j: nat
      ensures Sets(closed, key, j) == Sets(lines, key, j)
    {
      ClosedTopLevel(lines, j);
      LoneLf(key);
      if j < |lines| {
        BodyEnd(lines[j]);
        assert closed[j] == lines[j] || closed[j] == lines[j] + "\n";
      }
    }
    SameSets(closed, lines, key);
  }

  lemma TidyEnd(line: string, key: string, v: string)
    requires IsLine(line) && !Ended(line)
    ensures TidyLine(line + "\n", key, v) == TidyLine(line, key, v)
  {
    BodyEnd(line);
  }

  lemma ClosedLine(lines: seq<string>, j: nat, key: string, v: string)
    requires IsLines(lines) && j < |lines|
    ensures TidyLine(CloseLines(lines)[j], key, v) == TidyLine(lines[j], key, v)
  {
    if CloseLines(lines)[j] != lines[j] { TidyEnd(lines[j], key, v); }
  }

  lemma HoldsClosed(lines: seq<string>, key: string, v: string)
    requires IsLines(lines) && IsKey(key)
    ensures Holds(CloseLines(lines), key, v) == Holds(lines, key, v)
  {
    ClosedMatch(lines, key);
    var r := FirstMatch(lines, key);
    if r.Some? { ClosedLine(lines, r.value, key, v); }
  }

  lemma ReadyClosed(lines: seq<string>, o: Owned)
    requires IsLines(lines)
    ensures Ready(CloseLines(lines), o) == Ready(lines, o)
  {
    if IsKey(o.key) {
      ClosedMatch(lines, o.key);
      if o.original.Some? { HoldsClosed(lines, o.key, o.original.value); }
    }
  }

  lemma EditEnd(line: string, key: string, w: string)
    requires Matches(line, key)
    ensures Matches(line + "\n", key) && EditLine(line + "\n", key, Some(w)) == EditLine(line, key, Some(w)) + "\n"
  {
    BodyEnd(line);
    var n, m := |Body(line)|, MatchSetting(Body(line), key).value;
    assert (line + "\n")[n..] == line[n..] + "\n";
    var before := m.prefix + Dumps(w) + m.tail;
    assert before + (line[n..] + "\n") == (before + line[n..]) + "\n";
  }

  /** Installing a setting, seen with a final LF. */
  lemma PutClosed(lines: seq<string>, o: Owned)
    requires IsLines(lines) && Ready(lines, o)
    ensures Put(CloseLines(lines), o) == CloseLines(Put(lines, o)) && IsLines(Put(lines, o))
  {
    var closed := CloseLines(lines);
    ClosedMatch(lines, o.key);
    if o.original.None? {
      PrependedExact(o.key, o.installed);
      AddedClosed(lines, Prepended(o.key, o.installed));
    } else {
      var i := FirstMatch(lines, o.key).value;
      var e := EditLine(lines[i], o.key, Some(o.installed));
      EditLineExact(lines[i], o.key, o.original.value, o.installed);
      if closed[i] != lines[i] { EditEnd(lines[i], o.key, o.installed); }
      ReplacedClosed(lines, i, e);
    }
  }

  lemma AddedClosed(lines: seq<string>, added: string)
    requires IsLines(lines) && IsLine(added) && Ended(added)
    ensures CloseLines([added] + lines) == [added] + CloseLines(lines) && IsLines([added] + lines)
  {
    var n, all := |lines|, [added] + lines;
    if n == 0 || Ended(lines[n - 1]) {
      assert all[|all| - 1] == if n == 0 then added else lines[n - 1];
      assert all + ["\n"] == [added] + (lines + ["\n"]);
    } else {
      assert all[n] == lines[n - 1];
      assert all[n := lines[n - 1] + "\n"] == [added] + lines[n - 1 := lines[n - 1] + "\n"];
    }
  }

  lemma ReplacedClosed(lines: seq<string>, i: nat, e: string)
    requires IsLines(lines) && i < |lines| && IsLine(e) && Ended(e) == Ended(lines[i])
    ensures CloseLines(lines[i := e]) == CloseLines(lines)[i := if CloseLines(lines)[i] == lines[i] then e else e + "\n"]
    ensures IsLines(lines[i := e])
  {
    ReplacedLines(lines, i, e);
    var n, put := |lines|, lines[i := e];
    if Ended(lines[n - 1]) {
      assert CloseLines(put) == put + ["\n"];
    } else {
      assert CloseLines(put) == put[n - 1 := put[n - 1] + "\n"];
    }
  }

  lemma ReplacedLines(lines: seq<string>, i: nat, e: string)
    requires IsLines(lines) && i < |lines| && IsLine(e) && Ended(e) == Ended(lines[i])
    ensures IsLines(lines[i := e]) && Ended(lines[i := e][|lines| - 1]) == Ended(lines[|lines| - 1])
  {
  }

  // ---------------------------------------------------------------- installing on the text

  /** The owned settings of an installation, in the order they are written. */
  predicate Names(owned: seq<Owned>, wanted: seq<(string, string)>) {
    |owned| == |wanted| && forall i :: 0 <= i < |owned| ==> wanted[i] == (owned[i].key, owned[i].installed)
  }

  /** One setting: if the parser does not refuse the text, the edit is the edit of the lines. */
  lemma SettingIs(parse: Parser, text: string, o: Owned)
    requires Ready(Split(text), o) && Setting(parse, text, o.key, Some(o.installed)).Success?
    ensures var edited := Setting(parse, text, o.key, Some(o.installed)).value;
      Split(edited) == Put(Split(text), o) && Split(edited + "\n") == Put(Split(text + "\n"), o)
  {
    var lines := Split(text);
    EditedLines(text, o.key, Some(o.installed));
    PutClosed(lines, o);
    SplitJoin(Put(lines, o));
    SplitClosed(text);
    SplitClosed(Edited(text, o.key, Some(o.installed)));
  }

  lemma {:induction false} SetEachIs(parse: Parser, text: string, owned: seq<Owned>, wanted: seq<(string, string)>)
    requires Names(owned, wanted) && DistinctKeys(owned) && AllReady(Split(text), owned)
    requires SetEach(parse, text, wanted).Success?
    ensures Split(SetEach(parse, text, wanted).value + "\n") == PutAll(Split(text + "\n"), owned)
    decreases |owned|
  {
    if owned != [] {
      var o := owned[0];
      assert o in owned && forall y :: y in owned[1..] ==> y in owned;
      var edited := Setting(parse, text, o.key, Some(o.installed)).value;
      SettingIs(parse, text, o);
      LaterReady(Split(text), o, owned[1..]);
      SetEachIs(parse, edited, owned[1..], wanted[1..]);
    }
  }

  lemma ReadyWithLf(text: string, owned: seq<Owned>)
    requires AllReady(Split(text), owned)
    ensures AllReady(Split(text + "\n"), owned) && AllEnded(Split(text + "\n"))
  {
    SplitClosed(text);
    forall o | o in owned
      ensures Ready(Split(text + "\n"), o)
    {
      ReadyClosed(Split(text), o);
    }
  }

  // ---------------------------------------------------------------- lines after the settings

  lemma AppendedMatch(lines: seq<string>, more: seq<string>, key: string)
    requires FirstMatch(lines, key).Some?
    ensures FirstMatch(lines + more, key) == FirstMatch(lines, key)
  {
    var i := FirstMatch(lines, key).value;
    FirstMatchExact(lines, key, i);
    Appended(lines, more);
    forall j: nat | j < |lines|
      ensures Sets(lines + more, key, j) == Sets(lines, key, j)
    {
      assert (lines + more)[j] == lines[j];
    }
    FirstMatchExact(lines + more, key, i);
  }

  lemma UndoAppended(lines: seq<string>, more: seq<string>, o: Owned)
    requires Installed(lines, o)
    ensures FirstMatch(lines + more, o.key).Some? && Undo(lines + more, o) == Undo(lines, o) + more
  {
    AppendedMatch(lines, more, o.key);
    var i := FirstMatch(lines, o.key).value;
    assert (lines + more)[i] == lines[i];
    EditAppended(lines, more, i, EditLine(lines[i], o.key, o.original));
  }

  lemma EditAppended(lines: seq<string>, more: seq<string>, i: nat, e: string)
    requires i < |lines|
    ensures EditAt(lines + more, i, e) == EditAt(lines, i, e) + more
  {
  }

  // ---------------------------------------------------------------- restoring the settings

  predicate AllInstalled(document: Toml, owned: seq<Owned>) {
    forall o :: o in owned ==> Get(document.settings, o.key) == Some(Text(o.installed))
  }

  /** The parser accepts every text on the way while the settings are undone one by one. */
  predicate Accepts(parse: Parser, lines: seq<string>, more: seq<string>, owned: seq<Owned>)
    decreases |owned|
  {
    owned != [] ==>
      parse(Join(Undo(lines, owned[0]) + more)).Some? && Accepts(parse, Undo(lines, owned[0]), more, owned[1..])
  }

  lemma RestoreOne(parse: Parser, lines: seq<string>, more: seq<string>, o: Owned)
    requires Installed(lines, o) && AllEnded(lines) && IsLines(more) && parse(Join(lines + more)).Some?
    ensures var r := Setting(parse, Join(lines + more), o.key, o.original); var undone := Join(Undo(lines, o) + more);
      r == if parse(undone).None? then Failure(ConfigurationInvalid) else Success(undone)
  {
    EndedLines(lines, more);
    SplitJoin(lines + more);
    UndoAppended(lines, more, o);
    EditedLines(Join(lines + more), o.key, o.original);
  }

  /** Restoring all settings gives the lines from before the installation, if and only if the
      parser accepts the texts on the way. */
  lemma {:induction false} RestoreAll(parse: Parser, document: Toml, lines: seq<string>, more: seq<string>, owned: seq<Owned>)
    requires DistinctKeys(owned) && AllReady(lines, owned) && AllEnded(lines) && IsLines(more)
    requires AllInstalled(document, owned) && parse(Join(PutAll(lines, owned) + more)).Some?
    ensures RestoreEach(parse, document, Join(PutAll(lines, owned) + more), owned) ==
      if Accepts(parse, PutAll(lines, owned), more, owned) then Success((Join(lines + more), []))
      else Failure(ConfigurationInvalid)
    decreases |owned|
  {
    if owned != [] {
      var o, rest := owned[0], owned[1..];
      assert o in owned && forall y :: y in rest ==> y in owned;
      UndoFirst(lines, o, rest);
      PutAllEnded(lines, owned);
      RestoreOne(parse, PutAll(lines, owned), more, o);
      if parse(Join(PutAll(lines, rest) + more)).Some? {
        RestoreAll(parse, document, lines, more, rest);
      }
    }
  }
}
