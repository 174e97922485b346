/**
 Edits of several settings of one document, on its lines: they do not disturb each other, an edit
 is undone by editing the old value back, and undoing commutes with the edits made since.
 */
module ConfigDocument {
  import opened Wrappers
  import opened TomlScanner
  import opened ConfigEdit
  import opened ConfigLines

  // ---------------------------------------------------------------- replacing, removing, adding a line

  lemma ScanReplaced(lines: seq<string>, i: nat, e: string, j: nat)
    requires i < |lines| && j <= |lines| && Visible(lines, i) && Scan(e, None) == Scan(lines[i], None)
    ensures Visible(lines[i := e], j) == Visible(lines, j)
  {
    var edited := lines[i := e];
    if j <= i {
      assert edited[..j] == lines[..j];
    } else {
      var more := lines[i + 1..j];
      assert lines[..j] == lines[..i + 1] + more && edited[..j] == edited[..i + 1] + more;
      assert edited[..i] == lines[..i];
      ScanAllNext(lines, i);
      ScanAllNext(edited, i);
      ScanAllConcat(lines[..i + 1], more, None);
      ScanAllConcat(edited[..i + 1], more, None);
    }
  }

  /** A line replaced by one that is the same to the scanner. */
  lemma Replaced(lines: seq<string>, i: nat, e: string)
    requires i < |lines| && Visible(lines, i) && Scan(e, None) == Scan(lines[i], None)
    requires !StartsTable(lines[i]) && !StartsTable(e)
    ensures forall j: nat :: TopLevel(lines[i := e], j) == TopLevel(lines, j)
  {
    var edited := lines[i := e];
    forall j: nat | j <= |lines|
      ensures Visible(edited, j) == Visible(lines, j)
    {
      ScanReplaced(lines, i, e, j);
    }
    forall j: nat
      ensures Header(edited, j) == Header(lines, j)
    {
      assert j < |lines| && j != i ==> edited[j] == lines[j];
    }
  }

  function Removed(lines: seq<string>, i: nat): seq<string>
    requires i < |lines|
  {
    lines[..i] + lines[i + 1..]
  }

  lemma ScanRemoved(lines: seq<string>, i: nat, j: nat)
    requires i < |lines| && j < |lines| && Visible(lines, i) && Scan(lines[i], None) == None
    ensures Visible(Removed(lines, i), j) == Visible(lines, if j < i then j else j + 1)
  {
    var less := Removed(lines, i);
    if j < i {
      assert less[..j] == lines[..j];
    } else {
      var more := lines[i + 1..j + 1];
      assert less[..j] == lines[..i] + more && lines[..j + 1] == lines[..i + 1] + more;
      ScanAllNext(lines, i);
      ScanAllConcat(lines[..i], more, None);
      ScanAllConcat(lines[..i + 1], more, None);
    }
  }

  lemma HeaderRemoved(lines: seq<string>, i: nat, j: nat)
    requires i < |lines| && Visible(lines, i) && Scan(lines[i], None) == None
    ensures Header(Removed(lines, i), j) == Header(lines, if j < i then j else j + 1)
  {
    if j < |Removed(lines, i)| {
      ScanRemoved(lines, i, j);
      assert Removed(lines, i)[j] == lines[if j < i then j else j + 1];
    }
  }

  /** A line removed, or seen the other way, a line added: the others keep their roles. */
  lemma RemovedKeeps(lines: seq<string>, i: nat, j: nat)
    requires i < |lines| && Visible(lines, i) && Scan(lines[i], None) == None && !StartsTable(lines[i])
    ensures TopLevel(Removed(lines, i), j) == TopLevel(lines, if j < i then j else j + 1)
  {
    var less := Removed(lines, i);
    var k := if j < i then j else j + 1;
    forall m: nat | m <= j && Header(less, m)
      ensures Header(lines, if m < i then m else m + 1)
    {
      HeaderRemoved(lines, i, m);
    }
    forall m: nat | m <= k && Header(lines, m)
      ensures m != i && Header(less, if m < i then m else m - 1)
    {
      assert m != i;
      HeaderRemoved(lines, i, if m < i then m else m - 1);
    }
    if j < |less| { ScanRemoved(lines, i, j); }
  }

  /** Lines added at the end. */
  lemma Appended(lines: seq<string>, more: seq<string>)
    ensures forall j: nat :: j < |lines| ==> TopLevel(lines + more, j) == TopLevel(lines, j)
  {
    forall j: nat | j < |lines|
      ensures Visible(lines + more, j) == Visible(lines, j) && Header(lines + more, j) == Header(lines, j)
    {
      assert (lines + more)[..j] == lines[..j];
    }
  }

  // ---------------------------------------------------------------- one edit of the lines

  /** The lines with another line in place of line `i`, or with none if it is empty. */
  function EditAt(lines: seq<string>, i: nat, e: string): seq<string>
    requires i < |lines|
  {
    if e == "" then Removed(lines, i) else lines[i := e]
  }

  /** What an edit does to the lines of the text. */
  function Apply(lines: seq<string>, key: string, value: Option<string>): seq<string> {
    var i := FirstMatch(lines, key);
    if i.Some? then EditAt(lines, i.value, EditLine(lines[i.value], key, value))
    else if value.None? then lines
    else [Prepended(key, value.value)] + lines
  }

  /** The document sets the key to `v` on a tidy line. */
  predicate Holds(lines: seq<string>, key: string, v: string) {
    FirstMatch(lines, key).Some? && TidyLine(lines[FirstMatch(lines, key).value], key, v)
  }

  predicate Absent(lines: seq<string>, key: string) {
    FirstMatch(lines, key).None?
  }

  /** The setting is nothing but its key and value: removing it leaves an empty line. */
  predicate Bare(lines: seq<string>, key: string) {
    FirstMatch(lines, key).Some? && EditLine(lines[FirstMatch(lines, key).value], key, None) == ""
  }

  /** What is needed of the first match, once found. */
  lemma HoldsAt(lines: seq<string>, key: string, v: string)
    requires IsKey(key) && Holds(lines, key, v)
    ensures var i := FirstMatch(lines, key).value;
      && Visible(lines, i) && !StartsTable(lines[i])
      && (Bare(lines, key) ==> Scan(lines[i], None) == None)
  {
    var i := FirstMatch(lines, key).value;
    FirstMatchExact(lines, key, i);
    EditLineExact(lines[i], key, v, v);
    if Bare(lines, key) { BareScan(lines[i], key, v); }
  }

  /** A bare setting ends in code. */
  lemma BareScan(line: string, key: string, v: string)
    requires IsKey(key) && TidyLine(line, key, v) && EditLine(line, key, None) == ""
    ensures Scan(line, None) == None
  {
    var x := TidyParts(line, key, v);
    LineMatches(x, key, v);
    assert Strip(x.tail) == "";
    LineScan(x, key, v);
    BlankTail(x.tail, x.ending);
  }

  lemma {:induction false} StripIsBlank(s: string)
    requires Strip(s) == ""
    ensures forall i :: 0 <= i < |s| ==> Space(s[i])
    decreases |s|
  {
    var lead := LeadShape(s);
    var t := StripLeft(s);
    if t != "" && Space(t[|t| - 1]) {
      StripIsBlank(t[..|t| - 1]);
    }
  }

  lemma BlankTail(tail: string, ending: string)
    requires Strip(tail) == "" && forall i :: 0 <= i < |ending| ==> LineEnd(ending[i])
    ensures Scan(tail + ending, None) == None
  {
    StripIsBlank(tail);
    CodeScan(tail + ending, "");
    assert tail + ending + "" == tail + ending;
  }

  /** The line of one key does not set another key. */
  lemma OtherLine(lines: seq<string>, key: string, v: string, other: string)
    requires IsKey(key) && IsKey(other) && key != other && Holds(lines, key, v)
    ensures var i := FirstMatch(lines, key).value;
      && !Matches(lines[i], other)
      && forall w: string :: !Matches(EditLine(lines[i], key, Some(w)), other)
  {
    var line := lines[FirstMatch(lines, key).value];
    TidySetsNoOther(line, key, v, other);
    forall w: string
      ensures !Matches(EditLine(line, key, Some(w)), other)
    {
      EditLineExact(line, key, v, w);
      TidySetsNoOther(EditLine(line, key, Some(w)), key, w, other);
    }
  }

  // ---------------------------------------------------------------- where settings are after an edit

  lemma SameSets(a: seq<string>, b: seq<string>, key: string)
    requires forall j: nat :: Sets(a, key, j) == Sets(b, key, j)
    ensures FirstMatch(a, key) == FirstMatch(b, key)
  {
    var r := FirstMatch(a, key);
    var i := if r.Some? then r.value else 0;
    FirstMatchExact(a, key, i);
    FirstMatchExact(b, key, i);
  }

  /** Replacing a line by one that sets the key as the old one does, or does not. */
  lemma ReplacedMatch(lines: seq<string>, i: nat, e: string, key: string)
    requires i < |lines| && Matches(e, key) == Matches(lines[i], key)
    requires forall j: nat :: TopLevel(lines[i := e], j) == TopLevel(lines, j)
    ensures FirstMatch(lines[i := e], key) == FirstMatch(lines, key)
  {
    forall j: nat
      ensures Sets(lines, key, j) == Sets(lines[i := e], key, j)
    {
      SetsReplaced(lines, i, e, key, j);
    }
    SameSets(lines, lines[i := e], key);
  }

  lemma SetsReplaced(lines: seq<string>, i: nat, e: string, key: string, j: nat)
    requires i < |lines| && Matches(e, key) == Matches(lines[i], key)
    requires TopLevel(lines[i := e], j) == TopLevel(lines, j)
    ensures Sets(lines, key, j) == Sets(lines[i := e], key, j)
  {
    if j < |lines| { assert lines[i := e][j] == if j == i then e else lines[j]; }
  }

  /** Writing a held setting: it stays where it is, and writing the old value undoes it. */
  lemma PutHeld(lines: seq<string>, key: string, v: string, w: string)
    requires IsKey(key) && Holds(lines, key, v)
    ensures var i := FirstMatch(lines, key).value; var e := EditLine(lines[i], key, Some(w));
      && Apply(lines, key, Some(w)) == lines[i := e]
      && FirstMatch(lines[i := e], key) == Some(i)
      && TidyLine(e, key, w) && EditLine(e, key, Some(v)) == lines[i]
      && forall j: nat :: TopLevel(lines[i := e], j) == TopLevel(lines, j)
  {
    var i := FirstMatch(lines, key).value;
    var e := EditLine(lines[i], key, Some(w));
    HoldsAt(lines, key, v);
    EditLineExact(lines[i], key, v, w);
    Replaced(lines, i, e);
    ReplacedMatch(lines, i, e, key);
  }

  /** Writing a held setting leaves every other where it is. */
  lemma PutHeldOther(lines: seq<string>, key: string, v: string, w: string, other: string)
    requires IsKey(key) && Holds(lines, key, v) && IsKey(other) && other != key
    ensures FirstMatch(Apply(lines, key, Some(w)), other) == FirstMatch(lines, other)
    ensures FirstMatch(lines, other) != FirstMatch(lines, key)
  {
    var i := FirstMatch(lines, key).value;
    var e := EditLine(lines[i], key, Some(w));
    PutHeld(lines, key, v, w);
    OtherLine(lines, key, v, other);
    ReplacedMatch(lines, i, e, other);
  }

  // ---------------------------------------------------------------- adding and removing a setting

  lemma SetsRemoved(lines: seq<string>, i: nat, key: string, j: nat)
    requires i < |lines| && TopLevel(Removed(lines, i), j) == TopLevel(lines, if j < i then j else j + 1)
    ensures Sets(Removed(lines, i), key, j) == Sets(lines, key, if j < i then j else j + 1)
  {
    if j < |Removed(lines, i)| { assert Removed(lines, i)[j] == lines[if j < i then j else j + 1]; }
  }

  function Below(i: nat, r: Option<nat>): Option<nat> {
    if r.None? || r.value < i then r else if r.value == 0 then r else Some(r.value - 1)
  }

  /** Removing a line that does not set the key moves its first match up, if it was below. */
  lemma RemovedMatch(lines: seq<string>, i: nat, key: string)
    requires i < |lines| && Visible(lines, i) && Scan(lines[i], None) == None && !StartsTable(lines[i])
    requires !Matches(lines[i], key)
    ensures FirstMatch(Removed(lines, i), key) == Below(i, FirstMatch(lines, key))
  {
    var less := Removed(lines, i);
    forall j: nat
      ensures Sets(less, key, j) == Sets(lines, key, if j < i then j else j + 1)
    {
      RemovedKeeps(lines, i, j);
      SetsRemoved(lines, i, key, j);
    }
    var r := FirstMatch(lines, key);
    assert !Sets(lines, key, i);
    if r.Some? {
      FirstMatchExact(lines, key, r.value);
      MovedMatch(lines, less, key, i, r.value);
    } else {
      FirstMatchExact(lines, key, 0);
      FirstMatchExact(less, key, 0);
    }
  }

  /** The first index of a predicate, after index `i` was taken out. */
  lemma MovedFirst(p: nat -> bool, q: nat -> bool, i: nat, m: nat)
    requires forall j: nat :: q(j) == p(if j < i then j else j + 1)
    requires p(m) && (forall j: nat :: j < m ==> !p(j)) && m != i
    ensures var n := if m < i then m else m - 1; q(n) && forall j: nat :: j < n ==> !q(j)
  {
    var n := if m < i then m else m - 1;
    assert q(n) == p(m);
    forall j: nat | j < n
      ensures !q(j)
    {
      assert q(j) == p(if j < i then j else j + 1);
    }
  }

  lemma MovedMatch(lines: seq<string>, less: seq<string>, key: string, i: nat, m: nat)
    requires forall j: nat :: Sets(less, key, j) == Sets(lines, key, if j < i then j else j + 1)
    requires IsFirstMatch(lines, key, m) && m != i
    ensures FirstMatch(less, key) == Some(if m < i then m else m - 1)
  {
    var p := (j: nat) => Sets(lines, key, j);
    var q := (j: nat) => Sets(less, key, j);
    MovedFirst(p, q, i, m);
    var n := if m < i then m else m - 1;
    assert q(n);
    assert forall j: nat :: j < n ==> !Sets(less, key, j) by {
      forall j: nat | j < n
        ensures !Sets(less, key, j)
      {
        assert !q(j);
      }
    }
    FirstMatchExact(less, key, n);
  }

  /** Adding a setting at the top: it is the first match, and removing it undoes the edit. */
  lemma PutAbsent(lines: seq<string>, key: string, w: string)
    requires IsKey(key) && Absent(lines, key)
    ensures var added := Apply(lines, key, Some(w));
      && added == [Prepended(key, w)] + lines
      && FirstMatch(added, key) == Some(0) && Holds(added, key, w) && Bare(added, key)
      && Apply(added, key, None) == lines
  {
    var added := [Prepended(key, w)] + lines;
    PrependedExact(key, w);
    assert added[..0] == [];
    assert Visible(added, 0);
    assert Sets(added, key, 0);
    FirstMatchExact(added, key, 0);
    assert Removed(added, 0) == lines;
  }

  lemma PutAbsentOther(lines: seq<string>, key: string, w: string, other: string)
    requires IsKey(key) && Absent(lines, key) && IsKey(other) && other != key
    ensures FirstMatch([Prepended(key, w)] + lines, other)
         == if FirstMatch(lines, other).None? then None else Some(FirstMatch(lines, other).value + 1)
  {
    var added := [Prepended(key, w)] + lines;
    PrependedExact(key, w);
    TidySetsNoOther(added[0], key, w, other);
    assert added[..0] == [];
    assert Removed(added, 0) == lines;
    RemovedMatch(added, 0, other);
    var r := FirstMatch(added, other);
    if r.Some? { FirstMatchExact(added, other, r.value); }
  }

  // ---------------------------------------------------------------- owned settings

  /** A setting the editor owns: the value it installs and the value that was there. */
  datatype Owned = Owned(key: string, installed: string, original: Option<string>)

  function Put(lines: seq<string>, o: Owned): seq<string> {
    Apply(lines, o.key, Some(o.installed))
  }

  function Undo(lines: seq<string>, o: Owned): seq<string> {
    Apply(lines, o.key, o.original)
  }

  /** The document is as it was found: the key is absent, or it holds the original. */
  predicate Ready(lines: seq<string>, o: Owned) {
    IsKey(o.key) && if o.original.None? then Absent(lines, o.key) else Holds(lines, o.key, o.original.value)
  }

  predicate Installed(lines: seq<string>, o: Owned) {
    IsKey(o.key) && Holds(lines, o.key, o.installed) && (o.original.None? ==> Bare(lines, o.key))
  }

  lemma PutUndo(lines: seq<string>, o: Owned)
    requires Ready(lines, o)
    ensures Installed(Put(lines, o), o) && Undo(Put(lines, o), o) == lines
  {
    if o.original.None? {
      PutAbsent(lines, o.key, o.installed);
    } else {
      PutHeld(lines, o.key, o.original.value, o.installed);
    }
  }

  /** Where another key is after an edit, and that its line is the line it was. */
  lemma PutOther(lines: seq<string>, x: Owned, other: string)
    requires Ready(lines, x) && IsKey(other) && other != x.key
    ensures var r := FirstMatch(lines, other); var after := FirstMatch(Put(lines, x), other);
      && after.Some? == r.Some?
      && (r.Some? ==> Put(lines, x)[after.value] == lines[r.value])
      && (r.Some? ==> after.value == if x.original.None? then r.value + 1 else r.value)
  {
    if x.original.None? {
      PutAbsent(lines, x.key, x.installed);
      PutAbsentOther(lines, x.key, x.installed, other);
    } else {
      PutHeld(lines, x.key, x.original.value, x.installed);
      PutHeldOther(lines, x.key, x.original.value, x.installed, other);
    }
  }

  lemma UndoOther(lines: seq<string>, o: Owned, other: string)
    requires Installed(lines, o) && IsKey(other) && other != o.key
    ensures var i := FirstMatch(lines, o.key).value; var r := FirstMatch(lines, other); var after := FirstMatch(Undo(lines, o), other);
      && r != Some(i)
      && after == (if o.original.None? then Below(i, r) else r)
      && (r.Some? ==> Undo(lines, o)[after.value] == lines[r.value])
  {
    OtherLine(lines, o.key, o.installed, other);
    if o.original.None? {
      UndoneByRemoval(lines, o, other);
    } else {
      var i := FirstMatch(lines, o.key).value;
      PutHeld(lines, o.key, o.installed, o.original.value);
      PutHeldOther(lines, o.key, o.installed, o.original.value, other);
      assert Undo(lines, o) == lines[i := EditLine(lines[i], o.key, o.original)];
    }
  }

  lemma UndoneByRemoval(lines: seq<string>, o: Owned, other: string)
    requires Installed(lines, o) && o.original.None? && !Matches(lines[FirstMatch(lines, o.key).value], other)
    ensures var i := FirstMatch(lines, o.key).value; var r := FirstMatch(lines, other);
      && r != Some(i) && FirstMatch(Undo(lines, o), other) == Below(i, r)
      && (r.Some? ==> Undo(lines, o)[Below(i, r).value] == lines[r.value])
  {
    RemovalIs(lines, o);
    RemovedLine(lines, FirstMatch(lines, o.key).value, other, Undo(lines, o));
  }

  lemma RemovalIs(lines: seq<string>, o: Owned)
    requires Installed(lines, o) && o.original.None?
    ensures var i := FirstMatch(lines, o.key).value;
      Visible(lines, i) && Scan(lines[i], None) == None && !StartsTable(lines[i]) && Undo(lines, o) == Removed(lines, i)
  {
    HoldsAt(lines, o.key, o.installed);
  }

  lemma RemovedLine(lines: seq<string>, i: nat, other: string, less: seq<string>)
    requires i < |lines| && Visible(lines, i) && Scan(lines[i], None) == None && !StartsTable(lines[i])
    requires !Matches(lines[i], other) && less == Removed(lines, i)
    ensures var r := FirstMatch(lines, other);
      && r != Some(i) && FirstMatch(less, other) == Below(i, r)
      && (r.Some? ==> less[Below(i, r).value] == lines[r.value])
  {
    RemovedMatch(lines, i, other);
  }

  lemma ReadyLater(lines: seq<string>, o: Owned, x: Owned)
    requires Ready(lines, o) && Ready(lines, x) && o.key != x.key
    ensures Ready(Put(lines, x), o)
  {
    PutOther(lines, x, o.key);
  }

  lemma InstalledLater(lines: seq<string>, o: Owned, x: Owned)
    requires Installed(lines, o) && Ready(lines, x) && o.key != x.key
    ensures Installed(Put(lines, x), o)
  {
    PutOther(lines, x, o.key);
  }

  /** Undoing one setting commutes with installing another. */
  lemma UndoCommutes(lines: seq<string>, o: Owned, x: Owned)
    requires Installed(lines, o) && Ready(lines, x) && o.key != x.key
    ensures Undo(Put(lines, x), o) == Put(Undo(lines, o), x)
  {
    if x.original.None? { UndoCommutesAdded(lines, o, x); } else { UndoCommutesHeld(lines, o, x); }
  }

  lemma UndoCommutesAdded(lines: seq<string>, o: Owned, x: Owned)
    requires Installed(lines, o) && Ready(lines, x) && o.key != x.key && x.original.None?
    ensures Undo(Put(lines, x), o) == Put(Undo(lines, o), x)
  {
    PutOther(lines, x, o.key);
    UndoOther(lines, o, x.key);
    PutAbsent(lines, x.key, x.installed);
    var i := FirstMatch(lines, o.key).value;
    AddedEdit(lines, i, EditLine(lines[i], o.key, o.original), Prepended(x.key, x.installed));
  }

  lemma UndoCommutesHeld(lines: seq<string>, o: Owned, x: Owned)
    requires Installed(lines, o) && Ready(lines, x) && o.key != x.key && x.original.Some?
    ensures Undo(Put(lines, x), o) == Put(Undo(lines, o), x)
  {
    var i := FirstMatch(lines, o.key).value;
    var e := EditLine(lines[i], o.key, o.original);
    var n := FirstMatch(lines, x.key).value;
    var m := EditLine(lines[n], x.key, Some(x.installed));
    HeldWrites(lines, x);
    UndoAfterPut(lines, o, x);
    PutAfterUndo(lines, o, x);
    HeldEdit(lines, i, e, n, m);
  }

  lemma UndoAfterPut(lines: seq<string>, o: Owned, x: Owned)
    requires Installed(lines, o) && Ready(lines, x) && o.key != x.key && x.original.Some?
    ensures var i := FirstMatch(lines, o.key).value; Undo(Put(lines, x), o) == EditAt(Put(lines, x), i, EditLine(lines[i], o.key, o.original))
    ensures FirstMatch(lines, o.key) != FirstMatch(lines, x.key)
  {
    PutOther(lines, x, o.key);
    UndoOther(lines, o, x.key);
  }

  lemma PutAfterUndo(lines: seq<string>, o: Owned, x: Owned)
    requires Installed(lines, o) && Ready(lines, x) && o.key != x.key && x.original.Some?
    ensures var i, n := FirstMatch(lines, o.key).value, FirstMatch(lines, x.key).value; var e := EditLine(lines[i], o.key, o.original);
      && (if e == "" && n > i then n - 1 else n) < |Undo(lines, o)|
      && Put(Undo(lines, o), x)
        == EditAt(Undo(lines, o), if e == "" && n > i then n - 1 else n, EditLine(lines[n], x.key, Some(x.installed)))
  {
    UndoOther(lines, o, x.key);
    OriginalEdit(lines, o);
  }

  lemma HeldWrites(lines: seq<string>, x: Owned)
    requires Ready(lines, x) && x.original.Some?
    ensures var n := FirstMatch(lines, x.key).value; var m := EditLine(lines[n], x.key, Some(x.installed));
      m != "" && Put(lines, x) == lines[n := m]
  {
    PutHeld(lines, x.key, x.original.value, x.installed);
  }

  lemma OriginalEdit(lines: seq<string>, o: Owned)
    requires Installed(lines, o)
    ensures var e := EditLine(lines[FirstMatch(lines, o.key).value], o.key, o.original); (e == "") == o.original.None?
  {
    if o.original.Some? {
      EditLineExact(lines[FirstMatch(lines, o.key).value], o.key, o.installed, o.original.value);
    }
  }

  lemma AddedEdit(lines: seq<string>, i: nat, e: string, added: string)
    requires i < |lines|
    ensures EditAt([added] + lines, i + 1, e) == [added] + EditAt(lines, i, e)
  {
  }

  lemma HeldEdit(lines: seq<string>, i: nat, e: string, n: nat, m: string)
    requires i < |lines| && n < |lines| && i != n && m != ""
    ensures EditAt(lines[n := m], i, e) == EditAt(EditAt(lines, i, e), if e == "" && n > i then n - 1 else n, m)
  {
  }

  // ---------------------------------------------------------------- all owned settings

  function PutAll(lines: seq<string>, os: seq<Owned>): seq<string>
    decreases |os|
  {
    if os == [] then lines else PutAll(Put(lines, os[0]), os[1..])
  }

  function UndoAll(lines: seq<string>, os: seq<Owned>): seq<string>
    decreases |os|
  {
    if os == [] then lines else UndoAll(Undo(lines, os[0]), os[1..])
  }

  predicate Apart(o: Owned, os: seq<Owned>) {
    forall x :: x in os ==> x.key != o.key
  }

  predicate DistinctKeys(os: seq<Owned>) {
    os != [] ==> Apart(os[0], os[1..]) && DistinctKeys(os[1..])
  }

  predicate AllReady(lines: seq<string>, os: seq<Owned>) {
    forall x :: x in os ==> Ready(lines, x)
  }

  lemma LaterReady(lines: seq<string>, x: Owned, more: seq<Owned>)
    requires Apart(x, more) && Ready(lines, x) && AllReady(lines, more)
    ensures AllReady(Put(lines, x), more)
  {
    forall o | o in more
      ensures Ready(Put(lines, x), o)
    {
      ReadyLater(lines, o, x);
    }
  }

  /** Undoing an installed setting commutes with installing any others. */
  lemma {:induction false} UndoCommutesAll(lines: seq<string>, o: Owned, os: seq<Owned>)
    requires Installed(lines, o) && Apart(o, os) && DistinctKeys(os) && AllReady(lines, os)
    ensures Installed(PutAll(lines, os), o)
    ensures Undo(PutAll(lines, os), o) == PutAll(Undo(lines, o), os)
    decreases |os|
  {
    if os != [] {
      var x, more := os[0], os[1..];
      assert x in os && forall y :: y in more ==> y in os;
      InstalledLater(lines, o, x);
      LaterReady(lines, x, more);
      UndoCommutesAll(Put(lines, x), o, more);
      UndoCommutes(lines, o, x);
    }
  }

  /** Installing settings in order and then undoing them in the same order gives the lines back. */
  lemma {:induction false} UndoneInOrder(lines: seq<string>, os: seq<Owned>)
    requires DistinctKeys(os) && AllReady(lines, os)
    ensures UndoAll(PutAll(lines, os), os) == lines
    decreases |os|
  {
    if os != [] {
      var o, more := os[0], os[1..];
      assert o in os && forall y :: y in more ==> y in os;
      UndoFirst(lines, o, more);
      UndoneInOrder(lines, more);
    }
  }

  lemma UndoFirst(lines: seq<string>, o: Owned, more: seq<Owned>)
    requires Ready(lines, o) && Apart(o, more) && DistinctKeys(more) && AllReady(lines, more)
    ensures Installed(PutAll(Put(lines, o), more), o)
    ensures Undo(PutAll(Put(lines, o), more), o) == PutAll(lines, more)
  {
    PutUndo(lines, o);
    LaterReady(lines, o, more);
    UndoCommutesAll(Put(lines, o), o, more);
  }
}
