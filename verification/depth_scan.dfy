/**
 The depth limit on provider reports: a scan of the bytes before they are parsed, and a check of
 the parsed value afterwards. The scan looks only at brackets, quotes and backslashes, yet on the
 text of a JSON document it measures exactly how deep containers are nested.

 Strings follow section 7 of RFC 8259. Parsing itself is a parameter: the parser gives back the
 document whose text it was given. Whether a string can be encoded as UTF-8 is a parameter too.
 */
module DepthScan {
  type Byte = b: int | 0 <= b < 256

  const QUOTE: Byte := 34
  const BACKSLASH: Byte := 92
  const OPEN_LIST: Byte := 91
  const CLOSE_LIST: Byte := 93
  const OPEN_OBJECT: Byte := 123
  const CLOSE_OBJECT: Byte := 125
  const COMMA: Byte := 44
  const COLON: Byte := 58

  const JSON_DEPTH: nat := 16
  const JSON_MEMBERS: nat := 65536
  const PAGE_BYTES: nat := 1048576

  // ---------------------------------------------------------------- documents and their texts

  /** One byte of a string, or a backslash and the byte it escapes. */
  datatype Unit = Plain(byte: Byte) | Escaped(byte: Byte)

  /** A document, with the blank space between its tokens. */
  datatype Json =
    | Scalar(text: seq<Byte>)
    | Str(units: seq<Unit>)
    | List(items: Items, blank: seq<Byte>)
    | Object(members: Members, blank: seq<Byte>)

  datatype Items = NoItem | Item(before: seq<Byte>, value: Json, after: seq<Byte>, rest: Items)

  datatype Members =
    | NoMember
    | Member(before: seq<Byte>, key: seq<Unit>, colon: seq<Byte>, value: Json, after: seq<Byte>, rest: Members)

  /** Neither a bracket nor a quote nor a backslash. */
  predicate Neutral(b: Byte) {
    b !in {QUOTE, BACKSLASH, OPEN_LIST, CLOSE_LIST, OPEN_OBJECT, CLOSE_OBJECT}
  }

  predicate AllNeutral(bytes: seq<Byte>) {
    forall i :: 0 <= i < |bytes| ==> Neutral(bytes[i])
  }

  predicate StringOk(units: seq<Unit>) {
    forall i :: 0 <= i < |units| ==> units[i].Plain? ==> units[i].byte != QUOTE && units[i].byte != BACKSLASH
  }

  predicate Ok(j: Json) {
    match j
    case Scalar(text) => AllNeutral(text)
    case Str(units) => StringOk(units)
    case List(items, blank) => ItemsOk(items) && AllNeutral(blank)
    case Object(members, blank) => MembersOk(members) && AllNeutral(blank)
  }

  predicate ItemsOk(items: Items) {
    items.Item? ==> AllNeutral(items.before) && AllNeutral(items.after) && Ok(items.value) && ItemsOk(items.rest)
  }

  predicate MembersOk(members: Members) {
    members.Member? ==>
      && AllNeutral(members.before) && StringOk(members.key) && AllNeutral(members.colon) && AllNeutral(members.after)
      && Ok(members.value) && MembersOk(members.rest)
  }

  function PrintUnits(units: seq<Unit>): seq<Byte> {
    if units == [] then []
    else (if units[0].Plain? then [units[0].byte] else [BACKSLASH, units[0].byte]) + PrintUnits(units[1..])
  }

  function PrintString(units: seq<Unit>): seq<Byte> {
    [QUOTE] + (PrintUnits(units) + [QUOTE])
  }

  function Print(j: Json): seq<Byte> {
    match j
    case Scalar(text) => text
    case Str(units) => PrintString(units)
    case List(items, blank) => [OPEN_LIST] + (PrintItems(items) + (blank + [CLOSE_LIST]))
    case Object(members, blank) => [OPEN_OBJECT] + (PrintMembers(members) + (blank + [CLOSE_OBJECT]))
  }

  function PrintItems(items: Items): seq<Byte> {
    match items
    case NoItem => []
    case Item(before, value, after, rest) =>
      before + (Print(value) + (after + ((if rest.NoItem? then [] else [COMMA]) + PrintItems(rest))))
  }

  function PrintMembers(members: Members): seq<Byte> {
    match members
    case NoMember => []
    case Member(before, key, colon, value, after, rest) =>
      before + (PrintString(key) + ((colon + [COLON]) + (Print(value)
        + (after + ((if rest.NoMember? then [] else [COMMA]) + PrintMembers(rest))))))
  }

  // ---------------------------------------------------------------- nesting

  function Max(a: int, b: int): (m: int)
    ensures m == a || m == b
    ensures m >= a && m >= b
  {
    if a < b then b else a
  }

  /** How deep containers are nested: 0 for a scalar, 1 for an empty list. */
  function Nesting(j: Json): nat {
    match j
    case Scalar(_) => 0
    case Str(_) => 0
    case List(items, _) => 1 + ItemsNesting(items)
    case Object(members, _) => 1 + MembersNesting(members)
  }

  function ItemsNesting(items: Items): nat {
    if items.NoItem? then 0 else Max(Nesting(items.value), ItemsNesting(items.rest))
  }

  function MembersNesting(members: Members): nat {
    if members.NoMember? then 0 else Max(Nesting(members.value), MembersNesting(members.rest))
  }

  // ---------------------------------------------------------------- the scan

  /** Where the scan is, and the greatest depth it has reached. */
  datatype Scanner = Scanner(depth: int, quoted: bool, escaped: bool, peak: int)

  function Next(s: Scanner, b: Byte): Scanner {
    if s.quoted then
      if s.escaped then s.(escaped := false)
      else if b == BACKSLASH then s.(escaped := true)
      else if b == QUOTE then s.(quoted := false)
      else s
    else if b == QUOTE then s.(quoted := true)
    else if b == OPEN_LIST || b == OPEN_OBJECT then s.(depth := s.depth + 1, peak := Max(s.peak, s.depth + 1))
    else if b == CLOSE_LIST || b == CLOSE_OBJECT then s.(depth := s.depth - 1)
    else s
  }

  function Scan(s: Scanner, data: seq<Byte>): Scanner
    decreases |data|
  {
    if data == [] then s else Scan(Next(s, data[0]), data[1..])
  }

  const START := Scanner(0, false, false, 0)

  /** The peak never falls. */
  lemma {:induction false} PeakGrows(s: Scanner, data: seq<Byte>)
    ensures Scan(s, data).peak >= s.peak
    decreases |data|
  {
    if data != [] { PeakGrows(Next(s, data[0]), data[1..]); }
  }

  /** Scan the bytes, stopping at the first bracket that opens too deep a container. */
  method ScanDepth(data: seq<Byte>) returns (ok: bool)
    ensures ok == (Scan(START, data).peak <= 16)
  {
    var depth, quoted, escaped := 0, false, false;
    ghost var peak := 0;
    for i := 0 to |data|
      invariant Scan(START, data) == Scan(Scanner(depth, quoted, escaped, peak), data[i..])
      invariant peak <= JSON_DEPTH
    {
      assert data[i..][1..] == data[i + 1..];
      var character := data[i];
      if quoted {
        if escaped {
          escaped := false;
        } else if character == BACKSLASH {
          escaped := true;
        } else if character == QUOTE {
          quoted := false;
        }
      } else if character == QUOTE {
        quoted := true;
      } else if character == OPEN_LIST || character == OPEN_OBJECT {
        depth := depth + 1;
        peak := Max(peak, depth);
        if depth > JSON_DEPTH {
          PeakGrows(Scanner(depth, quoted, escaped, peak), data[i + 1..]);
          return false;
        }
      } else if character == CLOSE_LIST || character == CLOSE_OBJECT {
        depth := depth - 1;
      }
    }
    return true;
  }

  // ---------------------------------------------------------------- the scan measures nesting

  lemma {:induction false} ScanConcat(s: Scanner, a: seq<Byte>, b: seq<Byte>)
    ensures Scan(s, a + b) == Scan(Scan(s, a), b)
    decreases |a|
  {
    if a == [] {
      assert a + b == b;
    } else {
      assert (a + b)[1..] == a[1..] + b;
      ScanConcat(Next(s, a[0]), a[1..], b);
    }
  }

  lemma {:induction false} ScanNeutral(s: Scanner, bytes: seq<Byte>)
    requires !s.quoted && AllNeutral(bytes)
    ensures Scan(s, bytes) == s
    decreases |bytes|
  {
    if bytes != [] {
      assert Neutral(bytes[0]);
      ScanNeutral(s, bytes[1..]);
    }
  }

  lemma {:induction false} ScanUnits(s: Scanner, units: seq<Unit>)
    requires s.quoted && !s.escaped && StringOk(units)
    ensures Scan(s, PrintUnits(units)) == s
    decreases |units|
  {
    if units != [] {
      var first := if units[0].Plain? then [units[0].byte] else [BACKSLASH, units[0].byte];
      ScanConcat(s, first, PrintUnits(units[1..]));
      ScanUnit(s, units[0]);
      ScanUnits(s, units[1..]);
    }
  }

  lemma ScanUnit(s: Scanner, u: Unit)
    requires s.quoted && !s.escaped && (u.Plain? ==> u.byte != QUOTE && u.byte != BACKSLASH)
    ensures Scan(s, if u.Plain? then [u.byte] else [BACKSLASH, u.byte]) == s
  {
    if u.Plain? {
      assert [u.byte][1..] == [];
    } else {
      assert [BACKSLASH, u.byte][1..] == [u.byte] && [u.byte][1..] == [];
      assert Scan(s.(escaped := true), [u.byte]) == s;
    }
  }

  lemma ScanString(s: Scanner, units: seq<Unit>)
    requires !s.quoted && !s.escaped && StringOk(units)
    ensures Scan(s, PrintString(units)) == s
  {
    var inside := s.(quoted := true);
    ScanConcat(s, [QUOTE], PrintUnits(units) + [QUOTE]);
    ScanConcat(inside, PrintUnits(units), [QUOTE]);
    ScanUnits(inside, units);
    assert Scan(s, [QUOTE]) == inside;
  }

  /** The scanner after a document: back at the same depth, its peak raised to the nesting. */
  function After(s: Scanner, nesting: nat): Scanner {
    s.(peak := Max(s.peak, s.depth + nesting))
  }

  predicate InCode(s: Scanner) {
    !s.quoted && !s.escaped && s.depth <= s.peak
  }

  lemma {:induction false} ScanPrint(s: Scanner, j: Json)
    requires InCode(s) && Ok(j)
    ensures Scan(s, Print(j)) == After(s, Nesting(j))
    decreases j
  {
    match j {
      case Scalar(text) => ScanNeutral(s, text);
      case Str(units) => ScanString(s, units);
      case List(items, blank) =>
        ScanItems(Next(s, OPEN_LIST), items);
        ScanBracketed(s, OPEN_LIST, PrintItems(items), blank, CLOSE_LIST, ItemsNesting(items));
      case Object(members, blank) =>
        ScanMembers(Next(s, OPEN_OBJECT), members);
        ScanBracketed(s, OPEN_OBJECT, PrintMembers(members), blank, CLOSE_OBJECT, MembersNesting(members));
    }
  }

  lemma ScanBracketed(s: Scanner, open: Byte, inner: seq<Byte>, blank: seq<Byte>, close: Byte, nesting: nat)
    requires InCode(s) && AllNeutral(blank)
    requires (open == OPEN_LIST && close == CLOSE_LIST) || (open == OPEN_OBJECT && close == CLOSE_OBJECT)
    requires Scan(Next(s, open), inner) == After(Next(s, open), nesting)
    ensures Scan(s, [open] + (inner + (blank + [close]))) == After(s, 1 + nesting)
  {
    var inside := After(Next(s, open), nesting);
    ScanConcat(s, [open], inner + (blank + [close]));
    assert Scan(s, [open]) == Next(s, open);
    ScanConcat(Next(s, open), inner, blank + [close]);
    ScanConcat(inside, blank, [close]);
    ScanNeutral(inside, blank);
    assert Scan(inside, [close]) == Next(inside, close);
  }

  /** Two parts, the first of which raises the peak by what it nests. */
  lemma ScanTwo(s: Scanner, a: seq<Byte>, m: nat, b: seq<Byte>, n: nat)
    requires Scan(s, a) == After(s, m) && Scan(After(s, m), b) == After(After(s, m), n)
    ensures Scan(s, a + b) == After(s, Max(m, n))
  {
    ScanConcat(s, a, b);
  }

  lemma ScanBlank(s: Scanner, blank: seq<Byte>)
    requires InCode(s) && AllNeutral(blank)
    ensures Scan(s, blank) == After(s, 0)
  {
    ScanNeutral(s, blank);
  }

  lemma ScanKey(s: Scanner, units: seq<Unit>)
    requires InCode(s) && StringOk(units)
    ensures Scan(s, PrintString(units)) == After(s, 0)
  {
    ScanString(s, units);
  }

  lemma {:induction false} ScanItems(s: Scanner, items: Items)
    requires InCode(s) && ItemsOk(items)
    ensures Scan(s, PrintItems(items)) == After(s, ItemsNesting(items))
    decreases items
  {
    if items.Item? {
      var m, n := Nesting(items.value), ItemsNesting(items.rest);
      var comma := if items.rest.NoItem? then [] else [COMMA];
      ScanItems(After(s, m), items.rest);
      ScanBlank(After(s, m), comma);
      ScanTwo(After(s, m), comma, 0, PrintItems(items.rest), n);
      ScanBlank(After(s, m), items.after);
      ScanTwo(After(s, m), items.after, 0, comma + PrintItems(items.rest), n);
      ScanPrint(s, items.value);
      ScanTwo(s, Print(items.value), m, items.after + (comma + PrintItems(items.rest)), n);
      ScanBlank(s, items.before);
      ScanTwo(s, items.before, 0, Print(items.value) + (items.after + (comma + PrintItems(items.rest))), Max(m, n));
    }
  }

  lemma {:induction false} ScanMembers(s: Scanner, members: Members)
    requires InCode(s) && MembersOk(members)
    ensures Scan(s, PrintMembers(members)) == After(s, MembersNesting(members))
    decreases members
  {
    if members.Member? {
      var m, n := Nesting(members.value), MembersNesting(members.rest);
      var comma := if members.rest.NoMember? then [] else [COMMA];
      var tail := members.after + (comma + PrintMembers(members.rest));
      ScanMembers(After(s, m), members.rest);
      ScanBlank(After(s, m), comma);
      ScanTwo(After(s, m), comma, 0, PrintMembers(members.rest), n);
      ScanBlank(After(s, m), members.after);
      ScanTwo(After(s, m), members.after, 0, comma + PrintMembers(members.rest), n);
      ScanPrint(s, members.value);
      ScanTwo(s, Print(members.value), m, tail, n);
      ScanBlank(s, members.colon + [COLON]);
      ScanTwo(s, members.colon + [COLON], 0, Print(members.value) + tail, Max(m, n));
      ScanKey(s, members.key);
      ScanTwo(s, PrintString(members.key), 0, (members.colon + [COLON]) + (Print(members.value) + tail), Max(m, n));
      ScanBlank(s, members.before);
      ScanTwo(s, members.before, 0, PrintString(members.key) + ((members.colon + [COLON]) + (Print(members.value) + tail)), Max(m, n));
    }
  }

  /** On the text of a document the scan returns to the depth it started from, its greatest depth is
      the nesting of the document, and so it rejects exactly the documents nested too deep. */
  lemma ScanExact(before: seq<Byte>, j: Json, after: seq<Byte>)
    requires AllNeutral(before) && Ok(j) && AllNeutral(after)
    ensures Scan(START, before + (Print(j) + after)) == Scanner(0, false, false, Nesting(j))
  {
    ScanBlank(START, before);
    ScanPrint(START, j);
    ScanBlank(After(START, Nesting(j)), after);
    ScanTwo(START, Print(j), Nesting(j), after, 0);
    ScanTwo(START, before, 0, Print(j) + after, Nesting(j));
  }
}
