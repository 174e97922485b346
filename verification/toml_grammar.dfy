/**
 What the line scanner must agree with: a document as a sequence of code, comments and the four
 kinds of TOML strings. On the text of any such document the scanner shows exactly the lines
 that do not start inside a multi-line string, and it ends in code.
 */
module TomlGrammar {
  import opened Wrappers
  import opened TomlScanner

  /** A unit of a string's content, after at most two quote marks that do not close it. */
  datatype Piece = Piece(marks: nat, unit: string)

  datatype Token =
    | Code(text: string)
    | Comment(text: string)
    | Str(quote: Quote, body: seq<Piece>, trailing: nat)

  /** A document; its last line may be a comment that no LF ends. */
  datatype Document = Document(tokens: seq<Token>, last: Option<string>)

  // ---------------------------------------------------------------- printing

  function Marks(mark: char, n: nat): (s: string)
    ensures |s| == n
  {
    if n == 0 then "" else [mark] + Marks(mark, n - 1)
  }

  function PrintPiece(q: Quote, p: Piece): string {
    Marks(q.mark, p.marks) + p.unit
  }

  function PrintBody(q: Quote, body: seq<Piece>): string {
    if body == [] then "" else PrintPiece(q, body[0]) + PrintBody(q, body[1..])
  }

  function Delimiter(q: Quote): string {
    Marks(q.mark, if q.triple then 3 else 1)
  }

  function Print(t: Token): string {
    match t
    case Code(text) => text
    case Comment(text) => "#" + text + "\n"
    case Str(q, body, trailing) => Delimiter(q) + (PrintBody(q, body) + (Marks(q.mark, trailing) + Delimiter(q)))
  }

  function PrintAll(tokens: seq<Token>): string {
    if tokens == [] then "" else Print(tokens[0]) + PrintAll(tokens[1..])
  }

  function PrintDocument(d: Document): string {
    PrintAll(d.tokens) + if d.last.None? then "" else "#" + d.last.value
  }

  // ---------------------------------------------------------------- well-formed documents

  /** One character of content, or an escaped one in a basic string. */
  predicate IsUnit(q: Quote, u: string) {
    || (|u| == 1 && u[0] != q.mark && !(q.mark == '"' && u[0] == '\\') && (u[0] == '\n' ==> q.triple))
    || (|u| == 2 && q.mark == '"' && u[0] == '\\' && (u[1] == '\n' ==> q.triple))
  }

  predicate IsPiece(q: Quote, p: Piece) {
    IsUnit(q, p.unit) && p.marks <= if q.triple then 2 else 0
  }

  predicate IsToken(t: Token) {
    match t
    case Code(text) => text != "" && forall i :: 0 <= i < |text| ==> text[i] != '#' && !IsMark(text[i])
    case Comment(text) => '\n' !in text
    case Str(q, body, trailing) =>
      && IsMark(q.mark)
      && (forall i :: 0 <= i < |body| ==> IsPiece(q, body[i]))
      && trailing <= if q.triple then 2 else 0
  }

  /** No string directly follows another. */
  predicate IsTokens(tokens: seq<Token>) {
    && (forall i :: 0 <= i < |tokens| ==> IsToken(tokens[i]))
    && (forall i :: 0 <= i < |tokens| - 1 ==> !(tokens[i].Str? && tokens[i + 1].Str?))
  }

  predicate IsDocument(d: Document) {
    IsTokens(d.tokens) && (d.last.Some? ==> '\n' !in d.last.value)
  }

  // ---------------------------------------------------------------- the lines a document hides

  /** One flag for every LF of a text. */
  function Flagged(s: string, inside: bool): seq<bool> {
    if s == "" then [] else (if s[0] == '\n' then [inside] else []) + Flagged(s[1..], inside)
  }

  /** For every LF of the document: does it stand inside a string? */
  function Inside(tokens: seq<Token>): seq<bool> {
    if tokens == [] then [] else Flagged(Print(tokens[0]), tokens[0].Str?) + Inside(tokens[1..])
  }

  lemma {:induction false} FlaggedConcat(a: string, b: string, inside: bool)
    ensures Flagged(a + b, inside) == Flagged(a, inside) + Flagged(b, inside)
    decreases |a|
  {
    if a == "" {
      assert a + b == b;
    } else {
      assert (a + b)[1..] == a[1..] + b;
      FlaggedConcat(a[1..], b, inside);
      Regroup(if a[0] == '\n' then [inside] else [], Flagged(a[1..], inside), Flagged(b, inside));
    }
  }

  lemma Regroup<T>(a: seq<T>, b: seq<T>, c: seq<T>)
    ensures a + b + c == a + (b + c)
  {
  }

  // ---------------------------------------------------------------- the scanner over a whole text

  datatype Place = InCode | InComment | InText(quote: Quote)

  function PlaceOf(mode: Mode): Place {
    if mode.None? then InCode else InText(mode.value)
  }

  /** The scanner run over a text at once: for every LF, is the next line hidden? */
  function Flags(s: string, place: Place): seq<bool>
    decreases |s|
  {
    if s == "" then []
    else
      match place
      case InComment => if s[0] == '\n' then [false] + Flags(s[1..], InCode) else Flags(s[1..], InComment)
      case InCode =>
        if s[0] == '#' then Flags(s[1..], InComment)
        else if IsMark(s[0]) then
          if Opens3(s, s[0]) then Flags(s[3..], InText(Quote(s[0], true))) else Flags(s[1..], InText(Quote(s[0], false)))
        else if s[0] == '\n' then [false] + Flags(s[1..], InCode)
        else Flags(s[1..], InCode)
      case InText(q) =>
        if q.mark == '"' && s[0] == '\\' then
          if |s| < 2 then [] else if s[1] == '\n' then [true] + Flags(s[2..], place) else Flags(s[2..], place)
        else if Closes(s, q) then Flags(s[if q.triple then MarkRun(s, q.mark) else 1..], InCode)
        else if s[0] == '\n' then [true] + Flags(s[1..], place)
        else Flags(s[1..], place)
  }

  lemma {:induction false} CommentLine(s: string, rest: string)
    requires IsLine(s) && Ended(s)
    ensures Flags(s + rest, InComment) == [false] + Flags(rest, InCode)
    decreases |s|
  {
    assert (s + rest)[1..] == s[1..] + rest;
    if s[0] == '\n' {
      assert s[1..] + rest == rest;
    } else {
      CommentLine(s[1..], rest);
    }
  }

  lemma {:induction false} MarkRunLocal(s: string, rest: string, mark: char)
    requires MarkRun(s, mark) < |s| || rest == "" || rest[0] != mark
    ensures MarkRun(s + rest, mark) == MarkRun(s, mark)
    decreases |s|
  {
    if s == "" {
      assert s + rest == rest;
    } else if s[0] == mark {
      assert (s + rest)[1..] == s[1..] + rest;
      MarkRunLocal(s[1..], rest, mark);
    }
  }

  lemma {:induction false} MarkRunOnly(s: string, mark: char)
    ensures forall i :: 0 <= i < MarkRun(s, mark) ==> s[i] == mark
    decreases |s|
  {
    if s != "" && s[0] == mark {
      MarkRunOnly(s[1..], mark);
      assert forall i :: 1 <= i < MarkRun(s, mark) ==> s[i] == s[1..][i - 1];
    }
  }

  /** Line by line or at once is the same. */
  lemma {:induction false} LineFlags(s: string, rest: string, mode: Mode)
    requires IsLine(s) && Ended(s) && (mode.Some? ==> IsMark(mode.value.mark))
    ensures Flags(s + rest, PlaceOf(mode)) == [Scan(s, mode).Some?] + Flags(rest, PlaceOf(Scan(s, mode)))
    ensures Scan(s, mode).Some? ==> IsMark(Scan(s, mode).value.mark)
    decreases |s|
  {
    var t := s + rest;
    assert t[1..] == s[1..] + rest;
    if |s| == 1 {
      assert s[1..] + rest == rest;
    } else {
      assert t[2..] == s[2..] + rest;
      if mode.None? {
        LineFlagsInCode(s, rest);
      } else {
        LineFlagsInText(s, rest, mode.value);
      }
    }
  }

  lemma LineFlagsInCode(s: string, rest: string)
    requires IsLine(s) && Ended(s) && |s| > 1
    ensures Flags(s + rest, InCode) == [Scan(s, None).Some?] + Flags(rest, PlaceOf(Scan(s, None)))
    ensures Scan(s, None).Some? ==> IsMark(Scan(s, None).value.mark)
    decreases |s|, 0
  {
    var t := s + rest;
    assert t[1..] == s[1..] + rest;
    if s[0] == '#' {
      CommentLine(s[1..], rest);
    } else if IsMark(s[0]) {
      assert Opens3(t, s[0]) == Opens3(s, s[0]);
      if Opens3(s, s[0]) {
        assert t[3..] == s[3..] + rest;
        LineFlags(s[3..], rest, Some(Quote(s[0], true)));
      } else {
        LineFlags(s[1..], rest, Some(Quote(s[0], false)));
      }
    } else {
      LineFlags(s[1..], rest, None);
    }
  }

  lemma LineFlagsInText(s: string, rest: string, q: Quote)
    requires IsLine(s) && Ended(s) && |s| > 1 && IsMark(q.mark)
    ensures Flags(s + rest, InText(q)) == [Scan(s, Some(q)).Some?] + Flags(rest, PlaceOf(Scan(s, Some(q))))
    ensures Scan(s, Some(q)).Some? ==> IsMark(Scan(s, Some(q)).value.mark)
    decreases |s|, 0
  {
    var t := s + rest;
    assert t[1..] == s[1..] + rest && t[2..] == s[2..] + rest;
    if q.mark == '"' && s[0] == '\\' {
      if |s| == 2 {
        assert s[2..] + rest == rest;
      } else {
        LineFlags(s[2..], rest, Some(q));
      }
    } else if Closes(s, q) {
      var n := if q.triple then MarkRun(s, q.mark) else 1;
      MarkRunOnly(s, q.mark);
      assert n < |s|;
      MarkRunLocal(s, rest, q.mark);
      assert t[n..] == s[n..] + rest;
      LineFlags(s[n..], rest, None);
    } else {
      assert Closes(t, q) == Closes(s, q);
      LineFlags(s[1..], rest, Some(q));
    }
  }

  /** The flag of the LF that ends line `i` says whether the next line is hidden. */
  lemma {:induction false} FlagsOfLines(lines: seq<string>, mode: Mode, i: nat)
    requires IsLines(lines) && i < |lines| && Ended(lines[i]) && (mode.Some? ==> IsMark(mode.value.mark))
    ensures var flags := Flags(Join(lines), PlaceOf(mode));
      i < |flags| && flags[i] == ScanAll(lines[..i + 1], mode).Some?
    decreases |lines|
  {
    LineFlags(lines[0], Join(lines[1..]), mode);
    var next := Scan(lines[0], mode);
    if i == 0 {
      assert lines[..1][1..] == [];
    } else {
      FlagsOfLines(lines[1..], next, i - 1);
      assert lines[..i + 1][1..] == lines[1..][..i];
    }
  }

  lemma {:induction false} FlagsCount(lines: seq<string>, mode: Mode)
    requires IsLines(lines) && (lines != [] ==> Ended(lines[|lines| - 1])) && (mode.Some? ==> IsMark(mode.value.mark))
    ensures |Flags(Join(lines), PlaceOf(mode))| == |lines|
    decreases |lines|
  {
    if lines != [] {
      LineFlags(lines[0], Join(lines[1..]), mode);
      FlagsCount(lines[1..], Scan(lines[0], mode));
    }
  }

  // ---------------------------------------------------------------- tokens

  lemma {:induction false} CodeFlags(s: string, rest: string)
    requires forall i :: 0 <= i < |s| ==> s[i] != '#' && !IsMark(s[i])
    ensures Flags(s + rest, InCode) == Flagged(s, false) + Flags(rest, InCode)
    decreases |s|
  {
    if s == "" {
      assert s + rest == rest;
    } else {
      assert (s + rest)[1..] == s[1..] + rest;
      CodeFlags(s[1..], rest);
      Regroup(if s[0] == '\n' then [false] else [], Flagged(s[1..], false), Flags(rest, InCode));
    }
  }

  lemma {:induction false} NoNewlines(s: string, inside: bool)
    requires '\n' !in s
    ensures Flagged(s, inside) == []
    decreases |s|
  {
    if s != "" { NoNewlines(s[1..], inside); }
  }

  lemma CommentFlags(text: string, rest: string)
    requires '\n' !in text
    ensures Flags("#" + text + "\n" + rest, InCode) == [false] + Flags(rest, InCode)
    ensures Flagged("#" + text + "\n", false) == [false]
  {
    var line := text + "\n";
    assert ("#" + text + "\n" + rest)[1..] == line + rest;
    CommentLine(line, rest);
    FlaggedConcat("#" + text, "\n", false);
    NoNewlines("#" + text, false);
    assert "\n"[1..] == "";
  }

  lemma {:induction false} MarksFlags(mark: char, n: nat)
    requires mark != '\n'
    ensures Flagged(Marks(mark, n), true) == []
    ensures forall i :: 0 <= i < n ==> Marks(mark, n)[i] == mark
  {
    if n > 0 {
      MarksFlags(mark, n - 1);
      assert Marks(mark, n)[1..] == Marks(mark, n - 1);
    }
  }

  /** Up to two marks before a unit of content do not close the string. */
  lemma {:induction false} OpenMarks(q: Quote, n: nat, rest: string)
    requires IsMark(q.mark) && n <= (if q.triple then 2 else 0)
    requires rest != "" && rest[0] != q.mark
    ensures Flags(Marks(q.mark, n) + rest, InText(q)) == Flags(rest, InText(q))
  {
    var s := Marks(q.mark, n) + rest;
    if n == 0 {
      assert s == rest;
    } else {
      assert s[1..] == Marks(q.mark, n - 1) + rest;
      assert s[n] == rest[0];
      OpenMarks(q, n - 1, rest);
    }
  }

  lemma UnitFlags(q: Quote, u: string, rest: string)
    requires IsMark(q.mark) && IsUnit(q, u)
    ensures Flags(u + rest, InText(q)) == Flagged(u, true) + Flags(rest, InText(q))
  {
    var s := u + rest;
    if |u| == 1 {
      assert s[1..] == rest;
      assert Flagged(u, true) == if u[0] == '\n' then [true] else [];
    } else {
      assert s[2..] == rest;
      assert u[1..] == [u[1]] && u[1..][1..] == "";
      assert Flagged(u[1..], true) == if u[1] == '\n' then [true] else [];
      assert Flagged(u, true) == if u[1] == '\n' then [true] else [];
    }
  }

  /** Flags of three parts, the first two of which leave the place as it is. */
  lemma FlagsInParts(a: string, b: string, c: string, whole: string, place: Place, fa: seq<bool>, fb: seq<bool>)
    requires whole == a + b + c
    requires Flags(a + (b + c), place) == fa + Flags(b + c, place)
    requires Flags(b + c, place) == fb + Flags(c, place)
    ensures Flags(whole, place) == fa + fb + Flags(c, place)
  {
    Regroup(a, b, c);
    Regroup(fa, fb, Flags(c, place));
  }

  lemma PieceFlags(q: Quote, p: Piece, rest: string)
    requires IsMark(q.mark) && IsPiece(q, p)
    ensures Flags(PrintPiece(q, p) + rest, InText(q)) == Flagged(PrintPiece(q, p), true) + Flags(rest, InText(q))
  {
    PieceOpens(q, p, rest);
    UnitFlags(q, p.unit, rest);
    FlagsInParts(Marks(q.mark, p.marks), p.unit, rest, PrintPiece(q, p) + rest, InText(q), [], Flagged(p.unit, true));
    PieceFlagged(q, p);
  }

  lemma PieceOpens(q: Quote, p: Piece, rest: string)
    requires IsMark(q.mark) && IsPiece(q, p)
    ensures Flags(Marks(q.mark, p.marks) + (p.unit + rest), InText(q)) == [] + Flags(p.unit + rest, InText(q))
  {
    OpenMarks(q, p.marks, p.unit + rest);
  }

  lemma PieceFlagged(q: Quote, p: Piece)
    requires IsMark(q.mark)
    ensures Flagged(PrintPiece(q, p), true) == [] + Flagged(p.unit, true)
  {
    FlaggedConcat(Marks(q.mark, p.marks), p.unit, true);
    MarksFlags(q.mark, p.marks);
  }

  lemma {:induction false} BodyFlags(q: Quote, body: seq<Piece>, rest: string)
    requires IsMark(q.mark) && forall i :: 0 <= i < |body| ==> IsPiece(q, body[i])
    ensures Flags(PrintBody(q, body) + rest, InText(q)) == Flagged(PrintBody(q, body), true) + Flags(rest, InText(q))
    decreases |body|
  {
    if body == [] {
      assert PrintBody(q, body) + rest == rest;
    } else {
      var p, more := PrintPiece(q, body[0]), PrintBody(q, body[1..]);
      BodyFlags(q, body[1..], rest);
      PieceFlags(q, body[0], more + rest);
      FlaggedConcat(p, more, true);
      FlagsInParts(p, more, rest, PrintBody(q, body) + rest, InText(q), Flagged(p, true), Flagged(more, true));
    }
  }

  lemma {:induction false} MarksRun(mark: char, n: nat, rest: string)
    requires rest == "" || rest[0] != mark
    ensures MarkRun(Marks(mark, n) + rest, mark) == n
  {
    var s := Marks(mark, n) + rest;
    if n == 0 {
      assert s == rest;
    } else {
      assert s[1..] == Marks(mark, n - 1) + rest;
      MarksRun(mark, n - 1, rest);
    }
  }

  lemma {:induction false} MarksConcat(mark: char, m: nat, n: nat)
    ensures Marks(mark, m) + Marks(mark, n) == Marks(mark, m + n)
  {
    if m > 0 {
      MarksConcat(mark, m - 1, n);
      Regroup([mark], Marks(mark, m - 1), Marks(mark, n));
    } else {
      assert "" + Marks(mark, n) == Marks(mark, n);
    }
  }

  /** A closing run takes the one or two marks before it along. */
  lemma ClosingFlags(q: Quote, trailing: nat, rest: string)
    requires IsMark(q.mark) && trailing <= (if q.triple then 2 else 0)
    requires rest == "" || rest[0] != q.mark
    ensures Flags(Marks(q.mark, trailing) + Delimiter(q) + rest, InText(q)) == Flags(rest, InCode)
  {
    var n := trailing + if q.triple then 3 else 1;
    MarksConcat(q.mark, trailing, if q.triple then 3 else 1);
    MarksFlags(q.mark, n);
    var s := Marks(q.mark, n) + rest;
    MarksRun(q.mark, n, rest);
    assert forall i :: 0 <= i < n ==> s[i] == q.mark;
    assert s[n..] == rest;
  }

  /** The opening delimiter starts the string it says. */
  lemma OpeningFlags(q: Quote, rest: string)
    requires IsMark(q.mark)
    requires q.triple || |rest| < 2 || rest[0] != q.mark || rest[1] != q.mark
    ensures Flags(Delimiter(q) + rest, InCode) == Flags(rest, InText(q))
  {
    var n := if q.triple then 3 else 1;
    MarksFlags(q.mark, n);
    var s := Delimiter(q) + rest;
    assert forall i :: 0 <= i < n ==> s[i] == q.mark;
    assert s[n..] == rest;
    if !q.triple {
      assert |s| >= 3 ==> s[1] == rest[0] && s[2] == rest[1];
      assert !Opens3(s, q.mark);
    }
  }

  lemma StrFlags(q: Quote, body: seq<Piece>, trailing: nat, rest: string)
    requires IsToken(Str(q, body, trailing)) && (rest == "" || rest[0] != q.mark)
    ensures Flags(Print(Str(q, body, trailing)) + rest, InCode) == Flagged(PrintBody(q, body), true) + Flags(rest, InCode)
  {
    var b, close := PrintBody(q, body), Marks(q.mark, trailing) + Delimiter(q);
    assert Print(Str(q, body, trailing)) + rest == Delimiter(q) + (b + (close + rest));
    NotTriple(q, body, trailing, rest);
    OpeningFlags(q, b + (close + rest));
    BodyFlags(q, body, close + rest);
    ClosingFlags(q, trailing, rest);
  }

  lemma StrFlagged(q: Quote, body: seq<Piece>, trailing: nat)
    requires IsMark(q.mark)
    ensures Flagged(Print(Str(q, body, trailing)), true) == Flagged(PrintBody(q, body), true)
  {
    var b, close := PrintBody(q, body), Marks(q.mark, trailing) + Delimiter(q);
    FlaggedConcat(Delimiter(q), b + close, true);
    FlaggedConcat(b, close, true);
    FlaggedConcat(Marks(q.mark, trailing), Delimiter(q), true);
    MarksFlags(q.mark, trailing);
    MarksFlags(q.mark, if q.triple then 3 else 1);
  }

  lemma NotTriple(q: Quote, body: seq<Piece>, trailing: nat, rest: string)
    requires IsToken(Str(q, body, trailing)) && (rest == "" || rest[0] != q.mark)
    ensures var s := PrintBody(q, body) + (Marks(q.mark, trailing) + Delimiter(q) + rest);
      q.triple || |s| < 2 || s[0] != q.mark || s[1] != q.mark
  {
    if !q.triple {
      var s := PrintBody(q, body) + (Marks(q.mark, trailing) + Delimiter(q) + rest);
      if body == [] {
        assert s == [q.mark] + rest by { assert Marks(q.mark, 1) == [q.mark] + Marks(q.mark, 0); }
      } else {
        assert PrintBody(q, body) == body[0].unit + PrintBody(q, body[1..]);
        assert s[0] == body[0].unit[0];
      }
    }
  }

  // ---------------------------------------------------------------- documents

  /** What follows a string does not start with a quote mark. */
  lemma AfterString(tokens: seq<Token>, tail: string)
    requires IsTokens(tokens) && (tokens != [] ==> !tokens[0].Str?)
    requires tail == "" || !IsMark(tail[0])
    ensures var rest := PrintAll(tokens) + tail; rest == "" || !IsMark(rest[0])
  {
    if tokens == [] {
      assert PrintAll(tokens) + tail == tail;
    } else {
      var first := Print(tokens[0]);
      assert first != "" && (PrintAll(tokens) + tail)[0] == first[0];
    }
  }

  lemma OneTokenFlags(t: Token, rest: string)
    requires IsToken(t) && (t.Str? ==> rest == "" || !IsMark(rest[0]))
    ensures Flags(Print(t) + rest, InCode) == Flagged(Print(t), t.Str?) + Flags(rest, InCode)
  {
    match t {
      case Code(text) => CodeFlags(text, rest);
      case Comment(text) => CommentFlags(text, rest);
      case Str(q, body, trailing) =>
        StrFlags(q, body, trailing, rest);
        StrFlagged(q, body, trailing);
    }
  }

  lemma {:induction false} TokenFlags(tokens: seq<Token>, tail: string)
    requires IsTokens(tokens) && (tail == "" || !IsMark(tail[0]))
    ensures Flags(PrintAll(tokens) + tail, InCode) == Inside(tokens) + Flags(tail, InCode)
    decreases |tokens|
  {
    if tokens == [] {
      assert PrintAll(tokens) + tail == tail;
    } else {
      var t, more := tokens[0], PrintAll(tokens[1..]);
      TokenFlags(tokens[1..], tail);
      if t.Str? { AfterString(tokens[1..], tail); }
      OneTokenFlags(t, more + tail);
      Regroup(Print(t), more, tail);
      Regroup(Flagged(Print(t), t.Str?), Inside(tokens[1..]), Flags(tail, InCode));
    }
  }

  lemma LastComment(text: string)
    requires '\n' !in text
    ensures Flags("#" + text, InCode) == []
  {
    assert ("#" + text)[1..] == text;
    LastCommentText(text);
  }

  lemma {:induction false} LastCommentText(text: string)
    requires '\n' !in text
    ensures Flags(text, InComment) == []
    decreases |text|
  {
    if text != "" { LastCommentText(text[1..]); }
  }

  /** On every document of the grammar, the scanner shows line `i` if and only if the line does
      not start inside a multi-line string. */
  lemma ScannerExact(d: Document, i: nat)
    requires IsDocument(d) && i < |Split(PrintDocument(d))|
    ensures i > 0 ==> i <= |Inside(d.tokens)|
    ensures Visible(Split(PrintDocument(d)), i) <==> i == 0 || !Inside(d.tokens)[i - 1]
  {
    var text := PrintDocument(d);
    if i > 0 {
      DocumentFlags(d);
      LineAfterLf(text, i);
    } else {
      assert Split(text)[..0] == [];
    }
  }

  lemma DocumentFlags(d: Document)
    requires IsDocument(d)
    ensures Flags(PrintDocument(d), InCode) == Inside(d.tokens)
  {
    TokenFlags(d.tokens, if d.last.None? then "" else "#" + d.last.value);
    if d.last.Some? { LastComment(d.last.value); }
  }

  lemma LineAfterLf(text: string, i: nat)
    requires 0 < i < |Split(text)|
    ensures i <= |Flags(text, InCode)| && (Visible(Split(text), i) <==> !Flags(text, InCode)[i - 1])
  {
    JoinSplit(text);
    FlagsOfLines(Split(text), None, i - 1);
  }

  /** The scan of every document of the grammar ends in code. */
  lemma DocumentsAreClosed(d: Document)
    requires IsDocument(d)
    ensures Closed(PrintDocument(d))
  {
    var text := PrintDocument(d) + "\n";
    var tail := (if d.last.None? then "" else "#" + d.last.value) + "\n";
    Regroup(PrintAll(d.tokens), if d.last.None? then "" else "#" + d.last.value, "\n");
    assert text == PrintAll(d.tokens) + tail;
    TokenFlags(d.tokens, tail);
    assert Flags(tail, InCode) == [false] by {
      if d.last.None? {
        assert tail == "\n" && tail[1..] == "";
      } else {
        assert tail == "#" + d.last.value + "\n" + "";
        CommentFlags(d.last.value, "");
      }
    }
    var lines := Split(text);
    JoinSplit(text);
    LastEnded(lines);
    FlagsOfLines(lines, None, |lines| - 1);
    FlagsCount(lines, None);
    assert lines[..|lines| - 1 + 1] == lines;
  }
}
