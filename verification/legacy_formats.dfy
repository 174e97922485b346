/**
 The compact forms of search results and of path lists. In their first, unframed form they can be
 undone: from the expanded text the path or prefix, every entry and the trailing line feed can be
 read off again. The framed form has arbitrary text around the list. It can be undone once that
 text is known, but not from the expansion alone: a list of three or more entries, or one whose
 end could be elsewhere, has another framed reading.
 */
module LegacyFormats {
  import opened Wrappers

  const MAX_ROWS: nat := 4096

  datatype Error = InvalidSearchLines | InvalidPathList

  // ---------------------------------------------------------------- lines

  function Join(lines: seq<string>): string {
    if lines == [] then ""
    else if |lines| == 1 then lines[0]
    else lines[0] + "\n" + Join(lines[1..])
  }

  function Split(s: string): (lines: seq<string>)
    ensures lines != []
  {
    if s == "" then [""]
    else
      var rest := Split(s[1..]);
      if s[0] == '\n' then [""] + rest else [[s[0]] + rest[0]] + rest[1..]
  }

  function UpTo(s: string, c: char): (r: string)
    ensures r <= s
    ensures |r| < |s| ==> s[|r|] == c
  {
    if s == "" || s[0] == c then "" else [s[0]] + UpTo(s[1..], c)
  }

  /** What follows the first `c`. */
  function Beyond(s: string, c: char): string {
    var head := UpTo(s, c);
    if |head| == |s| then "" else s[|head| + 1..]
  }

  lemma {:induction false} UpToIs(p: string, c: char, rest: string)
    requires c !in p
    ensures UpTo(p + ([c] + rest), c) == p && Beyond(p + ([c] + rest), c) == rest
    decreases |p|
  {
    var s := p + ([c] + rest);
    if p == "" {
      assert s == [c] + rest && s[1..] == rest;
    } else {
      assert s[1..] == p[1..] + ([c] + rest);
      UpToIs(p[1..], c, rest);
    }
  }

  lemma {:induction false} SplitOne(line: string, rest: string)
    requires '\n' !in line
    ensures Split(line) == [line]
    ensures Split(line + ("\n" + rest)) == [line] + Split(rest)
    decreases |line|
  {
    var s := line + ("\n" + rest);
    if line == "" {
      assert s == "\n" + rest && s[1..] == rest;
    } else {
      assert s[1..] == line[1..] + ("\n" + rest);
      SplitOne(line[1..], rest);
      assert [line[0]] + line[1..] == line && [line[1..]][1..] == [];
    }
  }

  predicate OneLine(s: string) {
    '\n' !in s && '\r' !in s
  }

  lemma {:induction false} SplitJoined(lines: seq<string>, trailing: bool)
    requires lines != [] && forall i :: 0 <= i < |lines| ==> OneLine(lines[i])
    ensures Split(Join(lines) + (if trailing then "\n" else "")) == lines + (if trailing then [""] else [])
    decreases |lines|
  {
    var end := if trailing then "\n" else "";
    if |lines| == 1 {
      SplitOne(lines[0], "");
      assert "\n" + "" == "\n" && lines[0] + "" == lines[0] && lines == [lines[0]];
    } else {
      assert Join(lines) + end == lines[0] + ("\n" + (Join(lines[1..]) + end));
      SplitOne(lines[0], Join(lines[1..]) + end);
      SplitJoined(lines[1..], trailing);
    }
  }

  /** The lines of an expanded text, and whether it ends in a line feed. */
  function Lines(s: string): (seq<string>, bool) {
    var all := Split(s);
    var n := |all| - 1;
    if all[n] == "" then (all[..n], true) else (all, false)
  }

  lemma LinesOfJoined(lines: seq<string>, trailing: bool)
    requires lines != [] && forall i :: 0 <= i < |lines| ==> OneLine(lines[i]) && lines[i] != ""
    ensures Lines(Join(lines) + (if trailing then "\n" else "")) == (lines, trailing)
  {
    SplitJoined(lines, trailing);
    if trailing { assert (lines + [""])[..|lines|] == lines; } else { assert lines + [] == lines; }
  }

  // ---------------------------------------------------------------- search results

  /** An entry of the list of matches. */
  datatype Match = Pair(number: string, text: string) | NotAPair

  /** The unframed form, of which only a trailing line feed is kept, and the framed one. */
  datatype Search =
    | Legacy(path: string, matches: seq<Match>, trailing: bool)
    | Framed(before: string, path: string, matches: seq<Match>, after: string)
  {
    function Before(): string {
      if Legacy? then "" else before
    }

    function After(): string {
      if Framed? then after else if trailing then "\n" else ""
    }

    /** A framed form has text on one side at least. */
    predicate FrameOk() {
      Framed? ==> before != "" || after != ""
    }
  }

  predicate Digits(s: string) {
    s != "" && forall i :: 0 <= i < |s| ==> '0' <= s[i] <= '9'
  }

  predicate MatchOk(m: Match) {
    m.Pair? && Digits(m.number) && OneLine(m.text)
  }

  predicate PathOk(path: string) {
    path != "" && ':' !in path && OneLine(path)
  }

  predicate SearchOk(v: Search) {
    && PathOk(v.path) && v.FrameOk() && 2 <= |v.matches| <= 4096
    && forall i :: 0 <= i < |v.matches| ==> MatchOk(v.matches[i])
  }

  function MatchLine(path: string, m: Match): string
    requires m.Pair?
  {
    path + (":" + (m.number + (":" + m.text)))
  }

  function MatchLines(path: string, matches: seq<Match>): (lines: seq<string>)
    requires forall i :: 0 <= i < |matches| ==> matches[i].Pair?
    ensures |lines| == |matches| && forall i :: 0 <= i < |lines| ==> lines[i] == MatchLine(path, matches[i])
  {
    seq(|matches|, i requires 0 <= i < |matches| => MatchLine(path, matches[i]))
  }

  function ExpandSearch(v: Search): string
    requires SearchOk(v)
  {
    v.Before() + Join(MatchLines(v.path, v.matches)) + v.After()
  }

  method DecodeSearchLines(v: Search) returns (r: Result<string, Error>)
    ensures r.Success? <==> SearchOk(v)
    ensures r.Success? ==> r.value == ExpandSearch(v)
  {
    var before := if v.Legacy? then "" else v.before;
    var after := if v.Framed? then v.after else if v.trailing then "\n" else "";
    if v.path == "" || ':' in v.path || '\r' in v.path || '\n' in v.path || !(2 <= |v.matches| <= MAX_ROWS)
       || (v.Framed? && before == "" && after == "")
    {
      return Failure(InvalidSearchLines);
    }
    var lines: seq<string> := [];
    for i := 0 to |v.matches|
      invariant forall j :: 0 <= j < i ==> MatchOk(v.matches[j])
      invariant lines == MatchLines(v.path, v.matches[..i])
    {
      var match_ := v.matches[i];
      if !match_.Pair? || !Digits(match_.number) || '\r' in match_.text || '\n' in match_.text {
        return Failure(InvalidSearchLines);
      }
      lines := lines + [MatchLine(v.path, match_)];
      assert v.matches[..i + 1] == v.matches[..i] + [match_];
    }
    assert v.matches[..|v.matches|] == v.matches;
    return Success(before + Join(lines) + after);
  }

  function ReadMatch(line: string): Match {
    var rest := Beyond(line, ':');
    Pair(UpTo(rest, ':'), Beyond(rest, ':'))
  }

  function ReadMatches(lines: seq<string>): seq<Match> {
    seq(|lines|, i requires 0 <= i < |lines| => ReadMatch(lines[i]))
  }

  /** Read an expanded search result back. */
  function UndoSearch(text: string): (string, seq<Match>, bool) {
    var (lines, trailing) := Lines(text);
    (if lines == [] then "" else UpTo(lines[0], ':'), ReadMatches(lines), trailing)
  }

  lemma ReadMatchLine(path: string, m: Match)
    requires PathOk(path) && MatchOk(m)
    ensures UpTo(MatchLine(path, m), ':') == path && ReadMatch(MatchLine(path, m)) == m
    ensures OneLine(MatchLine(path, m)) && MatchLine(path, m) != ""
  {
    UpToIs(path, ':', m.number + (":" + m.text));
    UpToIs(m.number, ':', m.text);
  }

  lemma ReadMatchLines(path: string, matches: seq<Match>, lines: seq<string>)
    requires PathOk(path) && matches != [] && forall i :: 0 <= i < |matches| ==> MatchOk(matches[i])
    requires |lines| == |matches| && forall i :: 0 <= i < |lines| ==> matches[i].Pair? && lines[i] == MatchLine(path, matches[i])
    ensures forall i :: 0 <= i < |lines| ==> OneLine(lines[i]) && lines[i] != ""
    ensures UpTo(lines[0], ':') == path && ReadMatches(lines) == matches
  {
    forall i | 0 <= i < |lines|
      ensures OneLine(lines[i]) && lines[i] != "" && ReadMatch(lines[i]) == matches[i] && UpTo(lines[i], ':') == path
    {
      ReadMatchLine(path, matches[i]);
    }
  }

  /** Path, matches and trailing line feed can be read off the expanded text. */
  lemma SearchUndone(path: string, matches: seq<Match>, trailing: bool)
    requires SearchOk(Search.Legacy(path, matches, trailing))
    ensures UndoSearch(ExpandSearch(Search.Legacy(path, matches, trailing))) == (path, matches, trailing)
  {
    var lines := MatchLines(path, matches);
    ReadMatchLines(path, matches, lines);
    LinesOfJoined(lines, trailing);
    assert "" + Join(lines) == Join(lines);
  }

  // ---------------------------------------------------------------- path lists

  datatype Paths =
    | Legacy(prefix: string, suffixes: seq<string>, trailing: bool)
    | Framed(before: string, prefix: string, suffixes: seq<string>, after: string)
  {
    function Before(): string {
      if Legacy? then "" else before
    }

    function After(): string {
      if Framed? then after else if trailing then "\n" else ""
    }

    predicate FrameOk() {
      Framed? ==> before != "" || after != ""
    }
  }

  predicate PrefixOk(prefix: string) {
    prefix != "" && prefix[|prefix| - 1] == '/' && OneLine(prefix)
  }

  predicate SuffixOk(suffix: string) {
    suffix != "" && '/' !in suffix && OneLine(suffix)
  }

  predicate PathsOk(v: Paths) {
    && PrefixOk(v.prefix) && v.FrameOk() && 2 <= |v.suffixes| <= 4096
    && forall i :: 0 <= i < |v.suffixes| ==> SuffixOk(v.suffixes[i])
  }

  function PathLines(prefix: string, suffixes: seq<string>): (lines: seq<string>)
    ensures |lines| == |suffixes| && forall i :: 0 <= i < |lines| ==> lines[i] == prefix + suffixes[i]
  {
    seq(|suffixes|, i requires 0 <= i < |suffixes| => prefix + suffixes[i])
  }

  function ExpandPaths(v: Paths): string {
    v.Before() + Join(PathLines(v.prefix, v.suffixes)) + v.After()
  }

  method DecodePathList(v: Paths) returns (r: Result<string, Error>)
    ensures r.Success? <==> PathsOk(v)
    ensures r.Success? ==> r.value == ExpandPaths(v)
  {
    var before := if v.Legacy? then "" else v.before;
    var after := if v.Framed? then v.after else if v.trailing then "\n" else "";
    if !PrefixOk(v.prefix) || !(2 <= |v.suffixes| <= MAX_ROWS) || (v.Framed? && before == "" && after == "") {
      return Failure(InvalidPathList);
    }
    var lines: seq<string> := [];
    for i := 0 to |v.suffixes|
      invariant forall j :: 0 <= j < i ==> SuffixOk(v.suffixes[j])
      invariant lines == PathLines(v.prefix, v.suffixes[..i])
    {
      if !SuffixOk(v.suffixes[i]) {
        return Failure(InvalidPathList);
      }
      lines := lines + [v.prefix + v.suffixes[i]];
      assert v.suffixes[..i + 1] == v.suffixes[..i] + [v.suffixes[i]];
    }
    assert v.suffixes[..|v.suffixes|] == v.suffixes;
    return Success(before + Join(lines) + after);
  }

  /** What stands up to and including the last slash. */
  function Folder(s: string): (r: string)
    ensures r <= s
  {
    if s == "" || s[|s| - 1] == '/' then s else Folder(s[..|s| - 1])
  }

  function Leaves(lines: seq<string>): seq<string> {
    seq(|lines|, i requires 0 <= i < |lines| => lines[i][|Folder(lines[i])|..])
  }

  /** Read an expanded path list back. */
  function UndoPaths(text: string): (string, seq<string>, bool) {
    var (lines, trailing) := Lines(text);
    (if lines == [] then "" else Folder(lines[0]), Leaves(lines), trailing)
  }

  lemma {:induction false} FolderIs(prefix: string, suffix: string)
    requires prefix != "" && prefix[|prefix| - 1] == '/' && '/' !in suffix
    ensures Folder(prefix + suffix) == prefix
    decreases |suffix|
  {
    if suffix == "" {
      assert prefix + suffix == prefix;
    } else {
      var n := |suffix| - 1;
      assert (prefix + suffix)[..|prefix| + n] == prefix + suffix[..n];
      FolderIs(prefix, suffix[..n]);
    }
  }

  lemma ReadPathLine(prefix: string, suffix: string)
    requires PrefixOk(prefix) && SuffixOk(suffix)
    ensures var line := prefix + suffix; OneLine(line) && line != "" && Folder(line) == prefix && line[|Folder(line)|..] == suffix
  {
    FolderIs(prefix, suffix);
  }

  lemma LeavesAre(lines: seq<string>, suffixes: seq<string>)
    requires |lines| == |suffixes|
    requires forall i :: 0 <= i < |lines| ==> lines[i][|Folder(lines[i])|..] == suffixes[i]
    ensures Leaves(lines) == suffixes
  {
  }

  lemma ReadPathLines(prefix: string, suffixes: seq<string>, lines: seq<string>)
    requires PrefixOk(prefix) && suffixes != [] && forall i :: 0 <= i < |suffixes| ==> SuffixOk(suffixes[i])
    requires lines == PathLines(prefix, suffixes)
    ensures forall i :: 0 <= i < |lines| ==> OneLine(lines[i]) && lines[i] != ""
    ensures Folder(lines[0]) == prefix && Leaves(lines) == suffixes
  {
    forall i | 0 <= i < |lines|
      ensures OneLine(lines[i]) && lines[i] != "" && Folder(lines[i]) == prefix && lines[i][|Folder(lines[i])|..] == suffixes[i]
    {
      ReadPathLine(prefix, suffixes[i]);
    }
    LeavesAre(lines, suffixes);
  }

  /** Prefix, suffixes and trailing line feed can be read off the expanded text. */
  lemma PathsUndone(prefix: string, suffixes: seq<string>, trailing: bool)
    requires PathsOk(Paths.Legacy(prefix, suffixes, trailing))
    ensures UndoPaths(ExpandPaths(Paths.Legacy(prefix, suffixes, trailing))) == (prefix, suffixes, trailing)
  {
    var lines := PathLines(prefix, suffixes);
    ReadPathLines(prefix, suffixes, lines);
    LinesOfJoined(lines, trailing);
    assert "" + Join(lines) == Join(lines);
  }

  // ---------------------------------------------------------------- the framed form

  lemma CutFrame(before: string, a: string, b: string, after: string)
    requires before + a + after == before + b + after
    ensures a == b
  {
    var x, y := before + a + after, before + b + after;
    assert x[|before|..|x| - |after|] == a && y[|before|..|y| - |after|] == b;
  }

  lemma CutStart(start: string, a: string, b: string)
    requires start + a == start + b
    ensures a == b
  {
    assert (start + a)[|start|..] == a && (start + b)[|start|..] == b;
  }

  /** Two search results with one expansion are the same list exactly when they have the same text
      around it. */
  lemma SearchFrameExact(v: Search, w: Search)
    requires SearchOk(v) && SearchOk(w) && ExpandSearch(v) == ExpandSearch(w)
    ensures (v.Before() == w.Before() && v.After() == w.After())
       <==> (v.Before() == w.Before() && v.path == w.path && v.matches == w.matches)
  {
    var a, b := Join(MatchLines(v.path, v.matches)), Join(MatchLines(w.path, w.matches));
    if v.Before() == w.Before() && a == b { CutStart(v.Before() + a, v.After(), w.After()); }
    if v.Before() == w.Before() && v.After() == w.After() {
      CutFrame(v.Before(), a, b, v.After());
      SearchUndone(v.path, v.matches, false);
      SearchUndone(w.path, w.matches, false);
      assert ExpandSearch(Search.Legacy(v.path, v.matches, false)) == "" + a + "" == "" + b + "";
    }
  }

  /** From three matches on, the first may as well be part of the text before. */
  lemma FirstMatchOut(v: Search)
    requires SearchOk(v) && |v.matches| >= 3
    ensures var w := Search.Framed(v.Before() + MatchLine(v.path, v.matches[0]) + "\n", v.path, v.matches[1..], v.After());
      w != v && SearchOk(w) && ExpandSearch(w) == ExpandSearch(v)
  {
    var first, lines := MatchLine(v.path, v.matches[0]), MatchLines(v.path, v.matches[1..]);
    assert MatchLines(v.path, v.matches) == [first] + lines;
    FirstOut(v.Before(), first, lines, v.After());
  }

  /** Text at the end of the last line may as well stand behind the list. */
  lemma {:induction false} LastMoved(init: seq<string>, last: string, more: string)
    ensures Join(init + [last + more]) == Join(init + [last]) + more
    decreases |init|
  {
    if init == [] {
      assert [] + [last + more] == [last + more] && [] + [last] == [last];
    } else {
      assert (init + [last + more])[1..] == init[1..] + [last + more] && (init + [last])[1..] == init[1..] + [last];
      LastMoved(init[1..], last, more);
    }
  }

  lemma LastOut(before: string, init: seq<string>, last: string, more: string, after: string)
    ensures before + Join(init + [last + more]) + after == before + Join(init + [last]) + (more + after)
  {
    LastMoved(init, last, more);
  }

  lemma LongerMatch(before: string, path: string, init: seq<Match>, number: string, text: string, more: string, after: string)
    requires forall i :: 0 <= i < |init| ==> init[i].Pair?
    ensures before + Join(MatchLines(path, init + [Pair(number, text + more)])) + after
         == before + Join(MatchLines(path, init + [Pair(number, text)])) + (more + after)
  {
    var short, long := Pair(number, text), Pair(number, text + more);
    assert MatchLines(path, init + [short]) == MatchLines(path, init) + [MatchLine(path, short)];
    assert MatchLines(path, init + [long]) == MatchLines(path, init) + [MatchLine(path, long)];
    assert MatchLine(path, long) == MatchLine(path, short) + more;
    LastOut(before, MatchLines(path, init), MatchLine(path, short), more, after);
  }

  /** The end of the last match and the start of the text behind it cannot be told apart. */
  predicate LooseEnd(v: Search) {
    || (v.matches != [] && v.matches[|v.matches| - 1].Pair? && v.matches[|v.matches| - 1].text != "")
    || (v.After() != "" && OneLine(v.After()[..1]) && (v.Before() != "" || |v.After()| > 1))
  }

  lemma LastMatchMoved(v: Search) returns (w: Search)
    requires SearchOk(v) && LooseEnd(v)
    ensures w.Framed? && w != v && SearchOk(w) && ExpandSearch(w) == ExpandSearch(v)
  {
    var n := |v.matches| - 1;
    var init, last := v.matches[..n], v.matches[n];
    assert v.matches == init + [last];
    if last.text != "" {
      var k := |last.text| - 1;
      assert last.text == last.text[..k] + last.text[k..];
      LongerMatch(v.Before(), v.path, init, last.number, last.text[..k], last.text[k..], v.After());
      w := Search.Framed(v.Before(), v.path, init + [Pair(last.number, last.text[..k])], last.text[k..] + v.After());
      assert w.matches[n].text != last.text;
    } else {
      var more, rest := v.After()[..1], v.After()[1..];
      assert more + rest == v.After();
      LongerMatch(v.Before(), v.path, init, last.number, last.text, more, rest);
      w := Search.Framed(v.Before(), v.path, init + [Pair(last.number, last.text + more)], rest);
      assert w.matches[n].text != last.text;
    }
  }

  /** An accepted search result, framed or not, has another framed reading if it has three matches,
      or if text could move across its end. */
  lemma SearchAmbiguous(v: Search) returns (w: Search)
    requires SearchOk(v) && (|v.matches| >= 3 || LooseEnd(v))
    ensures w.Framed? && w != v && SearchOk(w) && ExpandSearch(w) == ExpandSearch(v)
  {
    if LooseEnd(v) {
      w := LastMatchMoved(v);
    } else {
      FirstMatchOut(v);
      w := Search.Framed(v.Before() + MatchLine(v.path, v.matches[0]) + "\n", v.path, v.matches[1..], v.After());
    }
  }

  lemma FirstOut(before: string, first: string, lines: seq<string>, after: string)
    requires lines != []
    ensures before + first + "\n" + Join(lines) + after == before + Join([first] + lines) + after
  {
    assert ([first] + lines)[1..] == lines;
    assert before + first + "\n" + Join(lines) == before + (first + "\n" + Join(lines));
  }

  /** The same for path lists. */
  lemma PathsFrameExact(v: Paths, w: Paths)
    requires PathsOk(v) && PathsOk(w) && ExpandPaths(v) == ExpandPaths(w)
    ensures (v.Before() == w.Before() && v.After() == w.After())
       <==> (v.Before() == w.Before() && v.prefix == w.prefix && v.suffixes == w.suffixes)
  {
    var a, b := Join(PathLines(v.prefix, v.suffixes)), Join(PathLines(w.prefix, w.suffixes));
    if v.Before() == w.Before() && a == b { CutStart(v.Before() + a, v.After(), w.After()); }
    if v.Before() == w.Before() && v.After() == w.After() {
      CutFrame(v.Before(), a, b, v.After());
      PathsUndone(v.prefix, v.suffixes, false);
      PathsUndone(w.prefix, w.suffixes, false);
      assert ExpandPaths(Paths.Legacy(v.prefix, v.suffixes, false)) == "" + a + "" == "" + b + "";
    }
  }

  lemma FirstPathOut(v: Paths)
    requires PathsOk(v) && |v.suffixes| >= 3
    ensures var w := Paths.Framed(v.Before() + (v.prefix + v.suffixes[0]) + "\n", v.prefix, v.suffixes[1..], v.After());
      w != v && PathsOk(w) && ExpandPaths(w) == ExpandPaths(v)
  {
    var first, lines := v.prefix + v.suffixes[0], PathLines(v.prefix, v.suffixes[1..]);
    assert PathLines(v.prefix, v.suffixes) == [first] + lines;
    FirstOut(v.Before(), first, lines, v.After());
  }

  lemma LongerPath(before: string, prefix: string, init: seq<string>, last: string, more: string, after: string)
    ensures before + Join(PathLines(prefix, init + [last + more])) + after
         == before + Join(PathLines(prefix, init + [last])) + (more + after)
  {
    assert PathLines(prefix, init + [last]) == PathLines(prefix, init) + [prefix + last];
    assert prefix + (last + more) == prefix + last + more;
    assert PathLines(prefix, init + [last + more]) == PathLines(prefix, init) + [prefix + last + more];
    LastOut(before, PathLines(prefix, init), prefix + last, more, after);
  }

  predicate LoosePathEnd(v: Paths) {
    || (v.suffixes != [] && |v.suffixes[|v.suffixes| - 1]| > 1)
    || (v.After() != "" && SuffixOk(v.After()[..1]) && (v.Before() != "" || |v.After()| > 1))
  }

  lemma LastPathMoved(v: Paths) returns (w: Paths)
    requires PathsOk(v) && LoosePathEnd(v)
    ensures w.Framed? && w != v && PathsOk(w) && ExpandPaths(w) == ExpandPaths(v)
  {
    var n := |v.suffixes| - 1;
    var init, last := v.suffixes[..n], v.suffixes[n];
    assert v.suffixes == init + [last];
    if |last| > 1 {
      var k := |last| - 1;
      assert last == last[..k] + last[k..];
      LongerPath(v.Before(), v.prefix, init, last[..k], last[k..], v.After());
      w := Paths.Framed(v.Before(), v.prefix, init + [last[..k]], last[k..] + v.After());
      assert w.suffixes[n] != last;
    } else {
      var more, rest := v.After()[..1], v.After()[1..];
      assert more + rest == v.After();
      LongerPath(v.Before(), v.prefix, init, last, more, rest);
      w := Paths.Framed(v.Before(), v.prefix, init + [last + more], rest);
      assert w.suffixes[n] != last;
    }
  }

  /** The same for path lists. */
  lemma PathsAmbiguous(v: Paths) returns (w: Paths)
    requires PathsOk(v) && (|v.suffixes| >= 3 || LoosePathEnd(v))
    ensures w.Framed? && w != v && PathsOk(w) && ExpandPaths(w) == ExpandPaths(v)
  {
    if LoosePathEnd(v) {
      w := LastPathMoved(v);
    } else {
      FirstPathOut(v);
      w := Paths.Framed(v.Before() + (v.prefix + v.suffixes[0]) + "\n", v.prefix, v.suffixes[1..], v.After());
    }
  }
}
