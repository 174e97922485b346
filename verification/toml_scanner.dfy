/**
 The quote-aware line scanner of the settings editor. A configuration is read line by line; the
 scanner tells the lines that start in TOML code from those that start inside a multi-line
 string, so that no text inside a string is taken for a setting or a table header.

 Texts are ASCII without control characters other than tab, LF, and CR before LF, as the TOML
 parser demands, so a line ends at LF only. Strings follow the String section of TOML v1.0.0.
 */
module TomlScanner {
  import opened Wrappers

  // ---------------------------------------------------------------- lines

  predicate IsLine(line: string) {
    line != "" && forall i :: 0 <= i < |line| - 1 ==> line[i] != '\n'
  }

  predicate Ended(line: string) {
    line != "" && line[|line| - 1] == '\n'
  }

  /** A text cut after every LF. */
  predicate IsLines(lines: seq<string>) {
    && (forall i :: 0 <= i < |lines| ==> IsLine(lines[i]))
    && (forall i :: 0 <= i < |lines| - 1 ==> Ended(lines[i]))
  }

  function FirstLine(text: string): (line: string)
    ensures line <= text
    ensures text != "" ==> IsLine(line) && (line == text || Ended(line))
  {
    if text == "" || text[0] == '\n' then text[..if text == "" then 0 else 1]
    else [text[0]] + FirstLine(text[1..])
  }

  function Split(text: string): (lines: seq<string>)
    ensures IsLines(lines)
    decreases |text|
  {
    if text == "" then []
    else
      var line := FirstLine(text);
      [line] + Split(text[|line|..])
  }

  function Join(lines: seq<string>): string {
    if lines == [] then "" else lines[0] + Join(lines[1..])
  }

  lemma {:induction false} JoinSplit(text: string)
    ensures Join(Split(text)) == text
    decreases |text|
  {
    if text != "" {
      var line := FirstLine(text);
      JoinSplit(text[|line|..]);
      assert Split(text)[1..] == Split(text[|line|..]);
    }
  }

  lemma {:induction false} FirstLineIs(line: string, rest: string)
    requires IsLine(line) && (Ended(line) || rest == "")
    ensures FirstLine(line + rest) == line
    decreases |line|
  {
    if line[0] != '\n' {
      assert (line + rest)[1..] == line[1..] + rest;
      if |line| == 1 {
        assert rest == "" && line + rest == line && line[1..] == "";
      } else {
        FirstLineIs(line[1..], rest);
      }
    }
  }

  lemma {:induction false} SplitJoin(lines: seq<string>)
    requires IsLines(lines)
    ensures Split(Join(lines)) == lines
    decreases |lines|
  {
    if lines != [] {
      var rest := Join(lines[1..]);
      SplitJoin(lines[1..]);
      if |lines| == 1 { assert rest == ""; }
      FirstLineIs(lines[0], rest);
      assert (lines[0] + rest)[|lines[0]|..] == rest;
    }
  }

  lemma {:induction false} LastEnded(lines: seq<string>)
    requires IsLines(lines) && lines != []
    ensures Join(lines) != "" && Ended(lines[|lines| - 1]) == Ended(Join(lines))
    decreases |lines|
  {
    if |lines| == 1 {
      assert Join(lines) == lines[0] by { assert Join(lines[1..]) == ""; }
    } else {
      LastEnded(lines[1..]);
    }
  }

  // ---------------------------------------------------------------- the scanner

  /** The string a scan is inside of: its quote mark, and whether it may span lines. */
  datatype Quote = Quote(mark: char, triple: bool)

  type Mode = Option<Quote>

  predicate IsMark(c: char) {
    c == '\'' || c == '"'
  }

  predicate Opens3(s: string, mark: char) {
    |s| >= 3 && s[0] == mark && s[1] == mark && s[2] == mark
  }

  /** How many copies of `mark` the text starts with. */
  function MarkRun(s: string, mark: char): (n: nat)
    ensures n <= |s|
    ensures s != "" && s[0] == mark ==> n >= 1
    ensures Opens3(s, mark) ==> n >= 3
  {
    if s == "" || s[0] != mark then 0 else 1 + MarkRun(s[1..], mark)
  }

  predicate Closes(s: string, q: Quote) {
    if q.triple then Opens3(s, q.mark) else s != "" && s[0] == q.mark
  }

  /** The mode after the rest of a line. */
  function Scan(s: string, mode: Mode): Mode
    decreases |s|
  {
    if s == "" then mode
    else
      match mode
      case None =>
        if s[0] == '#' then None
        else if IsMark(s[0]) then
          if Opens3(s, s[0]) then Scan(s[3..], Some(Quote(s[0], true))) else Scan(s[1..], Some(Quote(s[0], false)))
        else Scan(s[1..], None)
      case Some(q) =>
        if q.mark == '"' && s[0] == '\\' then (if |s| < 2 then mode else Scan(s[2..], mode))
        else if Closes(s, q) then Scan(s[if q.triple then MarkRun(s, q.mark) else 1..], None)
        else Scan(s[1..], mode)
  }

  function ScanAll(lines: seq<string>, mode: Mode): Mode {
    if lines == [] then mode else ScanAll(lines[1..], Scan(lines[0], mode))
  }

  /** Line `i` starts in code. */
  predicate Visible(lines: seq<string>, i: nat)
    requires i <= |lines|
  {
    ScanAll(lines[..i], None).None?
  }

  lemma {:induction false} ScanAllConcat(a: seq<string>, b: seq<string>, mode: Mode)
    ensures ScanAll(a + b, mode) == ScanAll(b, ScanAll(a, mode))
    decreases |a|
  {
    if a == [] {
      assert a + b == b;
    } else {
      assert (a + b)[1..] == a[1..] + b;
      ScanAllConcat(a[1..], b, Scan(a[0], mode));
    }
  }

  lemma ScanAllNext(lines: seq<string>, i: nat)
    requires i < |lines|
    ensures ScanAll(lines[..i + 1], None) == Scan(lines[i], ScanAll(lines[..i], None))
  {
    assert lines[..i + 1] == lines[..i] + [lines[i]];
    ScanAllConcat(lines[..i], [lines[i]], None);
    assert [lines[i]][1..] == [];
  }

  /** The scan of a text ends in code: a line added after it is seen as it is. */
  predicate Closed(text: string) {
    ScanAll(Split(text + "\n"), None).None?
  }

  function Drop(line: string, offset: nat): string {
    if offset <= |line| then line[offset..] else ""
  }

  /** The indices of the lines that start in code, in order. */
  function VisibleUpTo(lines: seq<string>, n: nat): (r: seq<nat>)
    requires n <= |lines|
    ensures forall i: nat :: i in r <==> i < n && Visible(lines, i)
    ensures forall j :: 0 <= j < |r| ==> r[j] < n
    ensures forall j, k :: 0 <= j < k < |r| ==> r[j] < r[k]
  {
    if n == 0 then []
    else VisibleUpTo(lines, n - 1) + if Visible(lines, n - 1) then [n - 1] else []
  }

  method DocumentLines(lines: seq<string>) returns (indices: seq<nat>)
    ensures indices == VisibleUpTo(lines, |lines|)
  {
    var quote: Mode := None;
    indices := [];
    for index := 0 to |lines|
      invariant quote == ScanAll(lines[..index], None)
      invariant indices == VisibleUpTo(lines, index)
    {
      if quote.None? {
        indices := indices + [index];
      }
      ScanAllNext(lines, index);
      quote := ScanLine(lines[index], quote);
    }
  }

  /** Scan one line: a comment ends the scan, an escape skips a character, and a closing run of
      marks may include one or two that belong to the string. */
  method ScanLine(line: string, start: Mode) returns (quote: Mode)
    ensures quote == Scan(line, start)
  {
    quote := start;
    var offset := 0;
    while offset < |line|
      invariant Scan(Drop(line, offset), quote) == Scan(line, start)
      decreases |line| - offset
    {
      ghost var rest := Drop(line, offset);
      DropDrop(line, offset);
      if quote.None? {
        if line[offset] == '#' {
          return None;
        }
        if IsMark(line[offset]) {
          var triple := Opens3(line[offset..], line[offset]);
          quote := Some(Quote(line[offset], triple));
          offset := offset + if triple then 3 else 1;
          continue;
        }
      } else if quote.value.mark == '"' && line[offset] == '\\' {
        offset := offset + 2;
        continue;
      } else if Closes(line[offset..], quote.value) {
        var size := ClosingSize(line, offset, quote.value);
        quote := None;
        offset := offset + size;
        continue;
      }
      offset := offset + 1;
    }
  }

  lemma DropDrop(line: string, offset: nat)
    requires offset < |line|
    ensures Drop(line, offset) == line[offset..]
    ensures forall n: nat {:trigger Drop(line, offset + n)} :: Drop(line, offset + n) == Drop(Drop(line, offset), n)
  {
    forall n: nat
      ensures Drop(line, offset + n) == Drop(Drop(line, offset), n)
    {
      if offset + n <= |line| { assert line[offset + n..] == line[offset..][n..]; }
    }
  }

  /** How many marks close the string. */
  method ClosingSize(line: string, offset: nat, quote: Quote) returns (size: nat)
    requires offset < |line| && Closes(line[offset..], quote)
    ensures 1 <= size && offset + size <= |line|
    ensures size == if quote.triple then MarkRun(line[offset..], quote.mark) else 1
  {
    size := if quote.triple then 3 else 1;
    if quote.triple {
      ghost var rest := line[offset..];
      MarkRunStart(rest, quote.mark);
      while offset + size < |line| && line[offset + size] == quote.mark
        invariant 3 <= size <= |rest|
        invariant MarkRun(rest, quote.mark) == size + MarkRun(rest[size..], quote.mark)
      {
        MarkRunStep(rest, quote.mark, size);
        size := size + 1;
      }
    }
  }

  lemma MarkRunStart(s: string, mark: char)
    requires Opens3(s, mark)
    ensures MarkRun(s, mark) == 3 + MarkRun(s[3..], mark)
  {
    assert s[0..] == s;
    MarkRunStep(s, mark, 0);
    MarkRunStep(s, mark, 1);
    MarkRunStep(s, mark, 2);
  }

  lemma MarkRunStep(s: string, mark: char, n: nat)
    requires n < |s| && s[n] == mark && MarkRun(s, mark) == n + MarkRun(s[n..], mark)
    ensures MarkRun(s, mark) == n + 1 + MarkRun(s[n + 1..], mark)
  {
    assert s[n..][1..] == s[n + 1..];
  }
}
