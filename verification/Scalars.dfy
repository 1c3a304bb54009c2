/** How a credential is written into the YAML file and read back. Go's table of
    printable characters beyond ASCII is a parameter everywhere. */
module Scalars {
  import opened Text

  // Hexadecimal escapes

  function HexDigit(d: nat): char
    requires d < 16
  {
    ['0', '1', '2', '3', '4', '5', '6', '7', '8', '9', 'a', 'b', 'c', 'd', 'e', 'f'][d]
  }

  function HexDigitValue(c: char): nat {
    if '0' <= c <= '9' then (c - '0') as nat
    else if 'a' <= c <= 'f' then 10 + (c - 'a') as nat
    else 0
  }

  /** The last `width` hexadecimal digits of n. */
  function Hex(n: nat, width: nat): (s: string)
    ensures |s| == width
    ensures NL !in s
  {
    if width == 0 then "" else Hex(n / 16, width - 1) + [HexDigit(n % 16)]
  }

  function HexValue(s: string): nat {
    if s == "" then 0 else 16 * HexValue(s[..|s| - 1]) + HexDigitValue(s[|s| - 1])
  }

  function Power16(k: nat): nat {
    if k == 0 then 1 else 16 * Power16(k - 1)
  }

  lemma DigitRoundTrip(d: nat)
    requires d < 16
    ensures HexDigitValue(HexDigit(d)) == d
  {}

  lemma {:induction false} HexRoundTrip(n: nat, width: nat)
    requires n < Power16(width)
    ensures HexValue(Hex(n, width)) == n
  {
    if width > 0 {
      HexRoundTrip(n / 16, width - 1);
      DigitRoundTrip(n % 16);
      assert Hex(n, width)[..width - 1] == Hex(n / 16, width - 1);
    }
  }

  function CharOf(n: nat): char {
    if n < 0xD800 || 0xE000 <= n < 0x11_0000 then n as char else '?'
  }

  // strconv.Quote

  predicate Printable(c: char, beyondAscii: char -> bool) {
    if c < '\U{0080}' then ' ' <= c < '\U{007F}' else beyondAscii(c)
  }

  function Escape(c: char, beyondAscii: char -> bool): (s: string)
    ensures NL !in s
    ensures s != ""
  {
    if c == '"' then "\\\""
    else if c == '\\' then "\\\\"
    else if Printable(c, beyondAscii) then [c]
    else if c == '\U{0007}' then "\\a"
    else if c == '\U{0008}' then "\\b"
    else if c == '\U{000C}' then "\\f"
    else if c == '\n' then "\\n"
    else if c == '\r' then "\\r"
    else if c == '\t' then "\\t"
    else if c == '\U{000B}' then "\\v"
    else if c < ' ' || c == '\U{007F}' then "\\x" + Hex(c as int, 2)
    else if c < '\U{10000}' then "\\u" + Hex(c as int, 4)
    else "\\U" + Hex(c as int, 8)
  }

  function EscapeAll(s: string, beyondAscii: char -> bool): (r: string)
    ensures NL !in r
  {
    if s == "" then "" else Escape(s[0], beyondAscii) + EscapeAll(s[1..], beyondAscii)
  }

  function Quote(s: string, beyondAscii: char -> bool): string {
    "\"" + EscapeAll(s, beyondAscii) + "\""
  }

  /** Characters that make yamlScalar quote. */
  predicate Special(c: char) {
    c == '#' || c == ':' || c == '"' || c == '\'' || c == ' ' || c == '\t' || c == '\n' || c == '\r'
  }

  predicate NeedsQuotes(s: string) {
    HasPrefix(s, "-") || exists i :: 0 <= i < |s| && Special(s[i])
  }

  /** yamlScalar. */
  function YamlScalar(s: string, beyondAscii: char -> bool): string {
    if s == "" then "\"\""
    else if NeedsQuotes(s) then Quote(s, beyondAscii)
    else s
  }

  // Reading back

  /** The escapes of a double-quoted scalar, undone. */
  function Unescape(s: string): string {
    if s == "" then ""
    else if s[0] != '\\' || |s| == 1 then [s[0]] + Unescape(s[1..])
    else if s[1] == 'x' && |s| >= 4 then [CharOf(HexValue(s[2..4]))] + Unescape(s[4..])
    else if s[1] == 'u' && |s| >= 6 then [CharOf(HexValue(s[2..6]))] + Unescape(s[6..])
    else if s[1] == 'U' && |s| >= 10 then [CharOf(HexValue(s[2..10]))] + Unescape(s[10..])
    else [Plain(s[1])] + Unescape(s[2..])
  }

  function Plain(c: char): char {
    if c == 'a' then '\U{0007}'
    else if c == 'b' then '\U{0008}'
    else if c == 'f' then '\U{000C}'
    else if c == 'n' then '\n'
    else if c == 'r' then '\r'
    else if c == 't' then '\t'
    else if c == 'v' then '\U{000B}'
    else c
  }

  /** The value of a scalar: quoted text is unescaped, other text stands for itself. */
  function ScalarValue(text: string): string {
    if |text| >= 2 && text[0] == '"' then Unescape(text[1..|text| - 1]) else text
  }

  lemma UnescapeHex(marker: char, n: nat, width: nat, rest: string)
    requires (marker == 'x' && width == 2) || (marker == 'u' && width == 4) || (marker == 'U' && width == 8)
    requires n < Power16(width)
    ensures Unescape(['\\', marker] + Hex(n, width) + rest) == [CharOf(n)] + Unescape(rest)
  {
    var s := ['\\', marker] + Hex(n, width) + rest;
    HexRoundTrip(n, width);
    assert s[0] == '\\' && s[1] == marker;
    assert s[2..2 + width] == Hex(n, width) && s[2 + width..] == rest;
  }

  lemma UnescapeOne(c: char, beyondAscii: char -> bool, rest: string)
    ensures Unescape(Escape(c, beyondAscii) + rest) == [c] + Unescape(rest)
  {
    var e := Escape(c, beyondAscii);
    assert Power16(2) == 256;
    assert Power16(4) == 65536;
    assert Power16(8) == 0x1_0000_0000 by {
      assert Power16(6) == 0x100_0000;
    }
    if |e| == 1 {
      assert (e + rest)[0] == c && (e + rest)[1..] == rest;
    } else if |e| == 2 {
      assert (e + rest)[0] == '\\' && (e + rest)[1] == e[1] && (e + rest)[2..] == rest;
    } else if |e| == 4 {
      UnescapeHex('x', c as int, 2, rest);
    } else if |e| == 6 {
      UnescapeHex('u', c as int, 4, rest);
    } else {
      UnescapeHex('U', c as int, 8, rest);
    }
  }

  lemma {:induction false} UnescapeAll(s: string, beyondAscii: char -> bool)
    ensures Unescape(EscapeAll(s, beyondAscii)) == s
  {
    if s != "" {
      UnescapeOne(s[0], beyondAscii, EscapeAll(s[1..], beyondAscii));
      UnescapeAll(s[1..], beyondAscii);
    }
  }

  /** A credential is written without a newline and reads back as itself. */
  lemma ScalarRoundTrip(s: string, beyondAscii: char -> bool)
    ensures ScalarValue(YamlScalar(s, beyondAscii)) == s
    ensures NL !in YamlScalar(s, beyondAscii) && YamlScalar(s, beyondAscii) != ""
  {
    var text := YamlScalar(s, beyondAscii);
    if s != "" && NeedsQuotes(s) {
      assert text[1..|text| - 1] == EscapeAll(s, beyondAscii);
      UnescapeAll(s, beyondAscii);
    } else if s != "" {
      assert forall i :: 0 <= i < |s| ==> !Special(s[i]);
      assert !Special(s[0]);
    }
  }

  // Reading back as YAML 1.2.2

  /** The indicators a plain scalar cannot start with, section 5.3 of YAML 1.2.2, beyond
      those that already make yamlScalar quote. */
  predicate Indicator(c: char) {
    c == ',' || c == '[' || c == ']' || c == '{' || c == '}' || c == '&' || c == '*' || c == '!' || c == '|'
    || c == '>' || c == '%' || c == '@' || c == '`'
  }

  /** The plain scalars that stand for null, section 10.3.2. */
  predicate IsNull(s: string) {
    s == "null" || s == "Null" || s == "NULL" || s == "~"
  }

  /** The printable characters of section 5.1. */
  predicate YamlPrintable(c: char) {
    c == '\t' || c == '\n' || c == '\r' || ' ' <= c <= '~' || c == '\U{0085}' || '\U{00A0}' <= c <= '\U{D7FF}'
    || ('\U{E000}' <= c <= '\U{FFFD}' && c != '\U{FEFF}') || '\U{10000}' <= c
  }

  /** Text without spaces, colons, quotes and comment signs is a plain scalar with itself
      as its value, section 7.3.3. A lone question mark is an indicator too. */
  predicate PlainScalar(s: string) {
    && s != "" && !Indicator(s[0]) && s != "?" && !IsNull(s)
    && forall i :: 0 <= i < |s| ==> YamlPrintable(s[i])
  }

  datatype Reading = Text(value: string) | SomethingElse

  /** What a reader of that standard makes of a value into a string field: a text, or else
      null, a collection, an alias, a tag, a block scalar or an error. */
  function ReadAsYaml(text: string): Reading {
    if |text| >= 2 && text[0] == '"' then Text(Unescape(text[1..|text| - 1]))
    else if PlainScalar(text) then Text(text)
    else SomethingElse
  }

  /** A credential reads back as itself if and only if it is empty, or is quoted, or is a
      plain scalar. The first two are decided by yamlScalar; the third it never asks. */
  lemma ReadsBackIff(s: string, beyondAscii: char -> bool)
    ensures ReadAsYaml(YamlScalar(s, beyondAscii)) == Text(s) <==> s == "" || NeedsQuotes(s) || PlainScalar(s)
  {
    ScalarRoundTrip(s, beyondAscii);
    if s != "" && !NeedsQuotes(s) {
      assert !Special(s[0]);
    }
  }

  /** Concrete credentials that are written plain and read back as something else. */
  lemma PlainButNotText(beyondAscii: char -> bool)
    ensures ReadAsYaml(YamlScalar("null", beyondAscii)) == SomethingElse
    ensures ReadAsYaml(YamlScalar("[x", beyondAscii)) == SomethingElse
    ensures ReadAsYaml(YamlScalar("~", beyondAscii)) == SomethingElse
  {
    WrittenPlain("null");
    WrittenPlain("[x");
    WrittenPlain("~");
  }

  lemma WrittenPlain(s: string)
    requires s != "" && s[0] != '-' && forall i :: 0 <= i < |s| ==> !Special(s[i])
    ensures !NeedsQuotes(s)
  {
    assert s[..1][0] == s[0];
  }
}
