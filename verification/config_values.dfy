/**
 The values the editor writes: a text in the form of `json.dumps` is printable ASCII and reads back
 as that text, by the escapes of section 7 of RFC 8259, which TOML basic strings share.
 */
module ConfigValues {
  import opened Wrappers
  import opened ConfigEdit

  /** The value of a hexadecimal digit. */
  function HexValue(c: char): Option<nat> {
    if 48 <= c as int <= 57 then Some(c as int - 48)
    else if 97 <= c as int <= 102 then Some(c as int - 87)
    else if 65 <= c as int <= 70 then Some(c as int - 55)
    else None
  }

  function HexNumber(s: string): Option<nat> {
    if s == "" then Some(0)
    else
      var front, last := HexNumber(s[..|s| - 1]), HexValue(s[|s| - 1]);
      if front.None? || last.None? then None else Some(16 * front.value + last.value)
  }

  /** The character a code point below 2^16 stands for, if it is no surrogate. */
  function CharOf(n: nat): Option<char> {
    if n < 0xD800 || 0xE000 <= n < 0x10000 then Some(n as char) else None
  }

  /** The character a short escape stands for. */
  function ShortEscape(c: char): Option<char> {
    if c == '"' || c == '\\' || c == '/' then Some(c)
    else if c == 'b' then CharOf(8)
    else if c == 't' then CharOf(9)
    else if c == 'n' then CharOf(10)
    else if c == 'f' then CharOf(12)
    else if c == 'r' then CharOf(13)
    else None
  }

  /** The first character of what stands between the marks of a string, and how long its spelling is. */
  function FirstRead(s: string): Option<(char, nat)>
    requires s != ""
  {
    if s[0] == '"' || s[0] as int < 32 then None
    else if s[0] != '\\' then Some((s[0], 1))
    else if |s| >= 6 && s[1] == 'u' then
      var n := HexNumber(s[2..6]);
      if n.None? || CharOf(n.value).None? then None else Some((CharOf(n.value).value, 6))
    else if |s| >= 2 && ShortEscape(s[1]).Some? then Some((ShortEscape(s[1]).value, 2))
    else None
  }

  /** What a string holds, from what stands between its marks. */
  function Read(s: string): Option<string>
    decreases |s|
  {
    if s == "" then Some("")
    else
      var first := FirstRead(s);
      if first.None? || first.value.1 > |s| || first.value.1 == 0 then None
      else
        var rest := Read(s[first.value.1..]);
        if rest.None? then None else Some([first.value.0] + rest.value)
  }

  predicate Basic(v: string) {
    forall i :: 0 <= i < |v| ==> v[i] as int < 0x10000
  }

  predicate Printable(s: string) {
    forall i :: 0 <= i < |s| ==> 32 <= s[i] as int <= 126
  }

  lemma DigitRead(n: nat)
    requires n < 16
    ensures HexValue(HexDigit(n)) == Some(n)
  {
  }

  lemma HexSnoc(s: string, c: char)
    ensures HexNumber(s + [c]) ==
      if HexNumber(s).None? || HexValue(c).None? then None else Some(16 * HexNumber(s).value + HexValue(c).value)
  {
    assert (s + [c])[..|s|] == s;
  }

  lemma FourDigits(a: char, b: char, c: char, d: char, w: nat, x: nat, y: nat, z: nat)
    requires HexValue(a) == Some(w) && HexValue(b) == Some(x) && HexValue(c) == Some(y) && HexValue(d) == Some(z)
    ensures HexNumber([a, b, c, d]) == Some(4096 * w + 256 * x + 16 * y + z)
  {
    HexSnoc([], a);
    HexSnoc([a], b);
    HexSnoc([a, b], c);
    HexSnoc([a, b, c], d);
    assert [] + [a] == [a] && [a] + [b] == [a, b] && [a, b] + [c] == [a, b, c] && [a, b, c] + [d] == [a, b, c, d];
  }

  lemma FourParts(n: nat)
    requires n < 0x10000
    ensures 4096 * (n / 4096 % 16) + 256 * (n / 256 % 16) + 16 * (n / 16 % 16) + n % 16 == n
  {
    var a, b, c := n / 16, n / 256, n / 4096;
    assert b == a / 16 && c == b / 16 && c < 16;
    assert n == 16 * a + n % 16 && a == 16 * b + a % 16 && b == 16 * c + b % 16;
  }

  lemma HexRead(n: nat)
    requires n < 0x10000
    ensures HexNumber(Hex4(n)) == Some(n)
  {
    FourParts(n);
    var w, x, y, z := n / 4096 % 16, n / 256 % 16, n / 16 % 16, n % 16;
    HexOf(w, x, y, z);
    assert Hex4(n) == [HexDigit(w), HexDigit(x), HexDigit(y), HexDigit(z)];
  }

  lemma HexOf(w: nat, x: nat, y: nat, z: nat)
    requires w < 16 && x < 16 && y < 16 && z < 16
    ensures HexNumber([HexDigit(w), HexDigit(x), HexDigit(y), HexDigit(z)]) == Some(4096 * w + 256 * x + 16 * y + z)
  {
    DigitRead(w);
    DigitRead(x);
    DigitRead(y);
    DigitRead(z);
    FourDigits(HexDigit(w), HexDigit(x), HexDigit(y), HexDigit(z), w, x, y, z);
  }

  lemma EscapeRead(c: char, rest: string)
    requires c as int < 0x10000
    ensures var s := Escape(c) + rest; s != "" && FirstRead(s) == Some((c, |Escape(c)|)) && s[|Escape(c)|..] == rest
    ensures Escape(c) != "" && Printable(Escape(c))
  {
    var s := Escape(c) + rest;
    assert s[|Escape(c)|..] == rest;
    if !(c in {'"', '\\', '\n', '\r', '\t'} || c as int == 8 || c as int == 12 || ' ' <= c <= '~') {
      HexRead(c as int);
      assert Escape(c) == "\\u" + Hex4(c as int);
      assert s[2..6] == Hex4(c as int) && s[0] == '\\' && s[1] == 'u';
    }
  }

  /** A written value is printable, in marks, and reads back as the value. */
  lemma {:induction false} DumpsReads(v: string)
    requires Basic(v)
    ensures var d := Dumps(v);
      && Printable(d) && |d| >= 2 && d[0] == '"' && d[|d| - 1] == '"'
      && Read(d[1..|d| - 1]) == Some(v)
  {
    EscapedReads(v);
    var d := Dumps(v);
    assert d[1..|d| - 1] == EscapeAll(v);
  }

  lemma {:induction false} EscapedReads(v: string)
    requires Basic(v)
    ensures Read(EscapeAll(v)) == Some(v) && Printable(EscapeAll(v))
    decreases |v|
  {
    if v != "" {
      EscapedReads(v[1..]);
      EscapeRead(v[0], EscapeAll(v[1..]));
      assert [v[0]] + v[1..] == v;
    }
  }
}
