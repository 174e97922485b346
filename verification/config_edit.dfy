/**
 Editing one string setting at the top level of a TOML document, and removing one appended table.
 The edit keeps every byte around the value; a value is written in the form of `json.dumps`.

 The TOML parser is a parameter: from a text it gives the document or refuses the text.
 */
module ConfigEdit {
  import opened Wrappers
  import opened TomlScanner

  // ---------------------------------------------------------------- values as JSON strings

  function HexDigit(n: nat): (c: char)
    requires n < 16
    ensures '0' <= c <= '9' || 'a' <= c <= 'f'
  {
    if n < 10 then '0' + n as char else 'a' + (n - 10) as char
  }

  function Hex4(n: nat): (s: string)
    ensures |s| == 4 && forall i :: 0 <= i < 4 ==> '0' <= s[i] <= '9' || 'a' <= s[i] <= 'f'
  {
    [HexDigit(n / 4096 % 16), HexDigit(n / 256 % 16), HexDigit(n / 16 % 16), HexDigit(n % 16)]
  }

  function Escape(c: char): string {
    if c == '"' then "\\\""
    else if c == '\\' then "\\\\"
    else if c == '\n' then "\\n"
    else if c == '\r' then "\\r"
    else if c == '\t' then "\\t"
    else if c as int == 8 then "\\b"
    else if c as int == 12 then "\\f"
    else if ' ' <= c <= '~' then [c]
    else "\\u" + Hex4(c as int)
  }

  function EscapeAll(s: string): string {
    if s == "" then "" else Escape(s[0]) + EscapeAll(s[1..])
  }

  function Dumps(s: string): string {
    "\"" + EscapeAll(s) + "\""
  }

  // ---------------------------------------------------------------- the shape of a setting

  predicate Space(c: char) {
    c == ' ' || '\t' <= c <= '\r' || 28 <= c as int <= 31
  }

  function StripLeft(s: string): (r: string)
    ensures |r| <= |s|
  {
    if s != "" && Space(s[0]) then StripLeft(s[1..]) else s
  }

  function Strip(s: string): (r: string)
    ensures |r| <= |s|
    decreases |s|
  {
    var t := StripLeft(s);
    if t != "" && Space(t[|t| - 1]) then Strip(t[..|t| - 1]) else t
  }

  /** The line without the CR and LF at its end. */
  function Body(line: string): (b: string)
    ensures b <= line
    decreases |line|
  {
    if line != "" && (line[|line| - 1] == '\r' || line[|line| - 1] == '\n') then Body(line[..|line| - 1]) else line
  }

  function AfterEquals(s: string): (r: Option<string>)
    ensures r.Some? ==> |r.value| <= |s|
  {
    var b := StripLeft(s);
    if b == "" || b[0] != '=' then None else Some(StripLeft(b[1..]))
  }

  /** What follows `key =` with spaces around its parts, if the text starts with that. */
  function AfterPrefix(s: string, key: string): (r: Option<string>)
    ensures r.Some? ==> |r.value| <= |s|
  {
    var a := StripLeft(s);
    if key <= a then AfterEquals(a[|key|..]) else None
  }

  function PrefixLength(s: string, key: string): (n: Option<nat>)
    ensures n.Some? ==> n.value <= |s|
  {
    var rest := AfterPrefix(s, key);
    if rest.None? then None else Some(|s| - |rest.value|)
  }

  /** Where a basic string ends, counted from after its opening mark. */
  function BasicEnd(s: string): (n: Option<nat>)
    ensures n.Some? ==> 0 < n.value <= |s|
    decreases |s|
  {
    if s == "" || s[0] == '\n' then None
    else if s[0] == '"' then Some(1)
    else
      var size := if s[0] == '\\' then 2 else 1;
      if |s| < size || (size == 2 && s[1] == '\n') then None
      else
        var rest := BasicEnd(s[size..]);
        if rest.None? then None else Some(rest.value + size)
  }

  function LiteralEnd(s: string): (n: Option<nat>)
    ensures n.Some? ==> 0 < n.value <= |s|
  {
    if s == "" || s[0] == '\n' then None
    else if s[0] == '\'' then Some(1)
    else
      var rest := LiteralEnd(s[1..]);
      if rest.None? then None else Some(rest.value + 1)
  }

  function TokenLength(s: string): (n: Option<nat>)
    ensures n.Some? ==> n.value <= |s|
  {
    if s == "" then None
    else
      var n := if s[0] == '"' then BasicEnd(s[1..]) else if s[0] == '\'' then LiteralEnd(s[1..]) else None;
      if n.None? then None else Some(n.value + 1)
  }

  lemma InThree(s: string, i: nat, j: nat)
    requires i <= j <= |s|
    ensures s == s[..i] + s[i..j] + s[j..]
  {
  }

  /** A line that sets a string: everything up to the value, the value, everything after it. */
  datatype Match = Match(prefix: string, token: string, tail: string)

  function MatchValue(body: string, n: nat): (m: Option<Match>)
    requires n <= |body|
    ensures m.Some? ==> body == m.value.prefix + m.value.token + m.value.tail
  {
    var t := TokenLength(body[n..]);
    if t.None? then None
    else
      InThree(body, n, n + t.value);
      Some(Match(body[..n], body[n..n + t.value], body[n + t.value..]))
  }

  function MatchSetting(body: string, key: string): (m: Option<Match>)
    ensures m.Some? ==> body == m.value.prefix + m.value.token + m.value.tail
  {
    var n := PrefixLength(body, key);
    if n.None? then None else MatchValue(body, n.value)
  }

  predicate Matches(line: string, key: string) {
    MatchSetting(Body(line), key).Some?
  }

  predicate StartsTable(line: string) {
    var s := StripLeft(line);
    s != "" && s[0] == '['
  }

  /** Line `i` is a table header. */
  predicate Header(lines: seq<string>, i: nat) {
    i < |lines| && Visible(lines, i) && StartsTable(lines[i])
  }

  /** Line `i` starts in code, and no table header stands at or before it. */
  predicate TopLevel(lines: seq<string>, i: nat) {
    i < |lines| && Visible(lines, i) && forall j: nat :: j <= i ==> !Header(lines, j)
  }

  /** Line `i` sets the key at the top level. */
  predicate Sets(lines: seq<string>, key: string, i: nat) {
    TopLevel(lines, i) && Matches(lines[i], key)
  }

  predicate IsFirstMatch(lines: seq<string>, key: string, i: nat) {
    Sets(lines, key, i) && forall j: nat :: j < i ==> !Sets(lines, key, j)
  }

  ghost predicate NoMatch(lines: seq<string>, key: string) {
    forall j: nat :: !Sets(lines, key, j)
  }

  function FirstTrue(flags: seq<bool>): (r: Option<nat>)
    ensures r.Some? ==> r.value < |flags| && flags[r.value] && forall j :: 0 <= j < r.value ==> !flags[j]
    ensures r.None? ==> forall j :: 0 <= j < |flags| ==> !flags[j]
  {
    if flags == [] then None
    else if flags[0] then Some(0)
    else
      var rest := FirstTrue(flags[1..]);
      if rest.None? then None else Some(rest.value + 1)
  }

  function SetsEach(lines: seq<string>, key: string): (flags: seq<bool>)
    ensures |flags| == |lines|
    ensures forall i: nat :: i < |lines| ==> flags[i] == Sets(lines, key, i)
  {
    seq(|lines|, i requires 0 <= i < |lines| => Sets(lines, key, i))
  }

  function FirstMatch(lines: seq<string>, key: string): (r: Option<nat>)
    ensures r.Some? ==> r.value < |lines| && Matches(lines[r.value], key)
  {
    FirstTrue(SetsEach(lines, key))
  }

  /** The search finds the first line that sets the key, if there is one. */
  lemma FirstMatchExact(lines: seq<string>, key: string, i: nat)
    ensures FirstMatch(lines, key) == Some(i) <==> IsFirstMatch(lines, key, i)
    ensures FirstMatch(lines, key) == None <==> NoMatch(lines, key)
  {
    SearchExact(SetsEach(lines, key), i);
    var flags := SetsEach(lines, key);
    assert forall j: nat :: j < |flags| ==> flags[j] == Sets(lines, key, j);
  }

  lemma SearchExact(flags: seq<bool>, i: nat)
    ensures FirstTrue(flags) == Some(i) <==> (i < |flags| && flags[i] && forall j :: 0 <= j < i ==> !flags[j])
    ensures FirstTrue(flags) == None <==> (forall j :: 0 <= j < |flags| ==> !flags[j])
  {
    var r := FirstTrue(flags);
    assert r.Some? && i < |flags| && flags[i] ==> r.value <= i;
  }

  /** The line with another value, or without the setting but with what follows its value. */
  function EditLine(line: string, key: string, value: Option<string>): string
    requires Matches(line, key)
  {
    var m := MatchSetting(Body(line), key).value;
    match value
    case None => var suffix := Strip(m.tail); if suffix == "" then "" else suffix + "\n"
    case Some(v) => m.prefix + Dumps(v) + m.tail + line[|Body(line)|..]
  }

  // ---------------------------------------------------------------- one setting

  datatype Value = Text(text: string) | Other(id: nat)

  /** What the parser reads: the top-level keys apart from `model_providers`, and the provider tables
      if that key is absent or holds tables. */
  datatype Toml = Toml(settings: map<string, Value>, tables: Option<map<string, Value>>)

  type Parser = string -> Option<Toml>

  datatype Error = ConfigurationInvalid | ShapeUnsupported

  function Prepended(key: string, value: string): string {
    key + " = " + Dumps(value) + "\n"
  }

  /** The text after an edit, before the parser has seen it. */
  function Edited(text: string, key: string, value: Option<string>): string {
    var lines := Split(text);
    var i := FirstMatch(lines, key);
    if i.Some? then Join(lines[i.value := EditLine(lines[i.value], key, value)])
    else if value.None? then text
    else Prepended(key, value.value) + text
  }

  function Setting(parse: Parser, text: string, key: string, value: Option<string>): Result<string, Error> {
    var document := parse(text);
    if document.None? then Failure(ConfigurationInvalid)
    else if FirstMatch(Split(text), key).Some? then
      var result := Edited(text, key, value);
      if parse(result).None? then Failure(ConfigurationInvalid) else Success(result)
    else if key in document.value.settings then Failure(ShapeUnsupported)
    else Success(Edited(text, key, value))
  }

  /** The first line at the top level that sets the key. */
  method FindSetting(lines: seq<string>, key: string) returns (found: Option<nat>)
    ensures found == FirstMatch(lines, key)
  {
    var visible := DocumentLines(lines);
    var n := 0;
    while n < |visible|
      invariant NoneYet(lines, key, n)
    {
      var index := visible[n];
      VisibleBefore(lines, key, n);
      if StartsTable(lines[index]) {
        NoneAfterHeader(lines, key, index);
        return None;
      }
      if Matches(lines[index], key) {
        FirstHere(lines, key, index);
        return Some(index);
      }
      n := n + 1;
    }
    NoneFound(lines, key);
    return None;
  }

  method EditSetting(parse: Parser, text: string, key: string, value: Option<string>) returns (r: Result<string, Error>)
    ensures r == Setting(parse, text, key, value)
  {
    var document := parse(text);
    if document.None? {
      return Failure(ConfigurationInvalid);
    }
    var lines := Split(text);
    var found := FindSetting(lines, key);
    if found.Some? {
      lines := lines[found.value := EditLine(lines[found.value], key, value)];
      var result := Join(lines);
      return if parse(result).None? then Failure(ConfigurationInvalid) else Success(result);
    }
    if key in document.value.settings {
      return Failure(ShapeUnsupported);
    }
    return Success(if value.None? then text else Prepended(key, value.value) + text);
  }

  /** Neither a header nor a setting of the key among the first `n` lines that start in code. */
  predicate NoneYet(lines: seq<string>, key: string, n: nat) {
    var visible := VisibleUpTo(lines, |lines|);
    n <= |visible| && forall j :: 0 <= j < n ==> Neither(lines, key, visible[j])
  }

  predicate Neither(lines: seq<string>, key: string, i: nat) {
    i < |lines| && !StartsTable(lines[i]) && !Matches(lines[i], key)
  }

  /** Every line that starts in code before line `i` is neither. */
  predicate NeitherBefore(lines: seq<string>, key: string, i: nat) {
    forall j: nat :: j < i && j < |lines| && Visible(lines, j) ==> Neither(lines, key, j)
  }

  lemma VisibleBefore(lines: seq<string>, key: string, n: nat)
    requires NoneYet(lines, key, n) && n < |VisibleUpTo(lines, |lines|)|
    ensures Visible(lines, VisibleUpTo(lines, |lines|)[n]) && NeitherBefore(lines, key, VisibleUpTo(lines, |lines|)[n])
  {
    var visible := VisibleUpTo(lines, |lines|);
    assert visible[n] in visible;
    forall j: nat | j < visible[n] && Visible(lines, j)
      ensures Neither(lines, key, j)
    {
      assert j in visible;
    }
  }

  lemma FirstHere(lines: seq<string>, key: string, i: nat)
    requires i < |lines| && Visible(lines, i) && NeitherBefore(lines, key, i)
    requires !StartsTable(lines[i]) && Matches(lines[i], key)
    ensures FirstMatch(lines, key) == Some(i)
  {
    assert Sets(lines, key, i) by {
      assert forall j: nat :: j <= i ==> !Header(lines, j);
    }
    NothingSets(lines, key, i);
    FirstMatchExact(lines, key, i);
  }

  lemma NothingSets(lines: seq<string>, key: string, i: nat)
    requires NeitherBefore(lines, key, i)
    ensures forall j: nat :: j < i ==> !Sets(lines, key, j)
  {
    forall j: nat | j < i
      ensures !Sets(lines, key, j)
    {
      assert j < |lines| && Visible(lines, j) ==> Neither(lines, key, j);
    }
  }

  lemma NoneAfterHeader(lines: seq<string>, key: string, i: nat)
    requires i < |lines| && Visible(lines, i) && NeitherBefore(lines, key, i) && StartsTable(lines[i])
    ensures FirstMatch(lines, key) == None
  {
    NothingSets(lines, key, i);
    assert Header(lines, i);
    assert forall j: nat :: i <= j ==> !TopLevel(lines, j);
    FirstMatchExact(lines, key, 0);
  }

  lemma NoneFound(lines: seq<string>, key: string)
    requires NoneYet(lines, key, |VisibleUpTo(lines, |lines|)|)
    ensures FirstMatch(lines, key) == None
  {
    var visible := VisibleUpTo(lines, |lines|);
    forall j: nat | j < |lines| && Visible(lines, j)
      ensures Neither(lines, key, j)
    {
      assert j in visible;
    }
    NothingSets(lines, key, |lines|);
    FirstMatchExact(lines, key, 0);
  }
}
