/**
 JSON arrays of strings: the compact writer `json.dumps(value, separators=(",", ":"))`
 (every character outside space..tilde escaped) and the reader `json.loads`, restricted to
 arrays of strings (sections 5 and 7 of RFC 8259).
 */
module Json {
  import opened Prelude

  // ---------------------------------------------------------------- writer

  function HexDigit(n: int): (c: char)
    requires 0 <= n < 16
  {
    if n < 10 then '0' + n as char else 'a' + (n - 10) as char
  }

  function Hex4(n: int): (s: string)
    requires 0 <= n < 0x1_0000
    ensures |s| == 4
  {
    [HexDigit(n / 0x1000), HexDigit(n / 0x100 % 16), HexDigit(n / 16 % 16), HexDigit(n % 16)]
  }

  /** The escape of one character, without the leading backslash. */
  function Escape(c: char): (s: string)
    ensures s != ""
  {
    if c == '\"' then "\""
    else if c == '\\' then "\\"
    else if c == '\n' then "n"
    else if c == '\r' then "r"
    else if c == '\t' then "t"
    else if c == '\U{0c}' then "f"
    else if c == '\U{08}' then "b"
    else if c as int < 0x1_0000 then "u" + Hex4(c as int)
    else
      var v := c as int - 0x1_0000;
      "u" + Hex4(0xd800 + v / 1024) + "\\u" + Hex4(0xdc00 + v % 1024)
  }

  predicate Plain(c: char) {
    ' ' <= c <= '~' && c != '\"' && c != '\\'
  }

  function QuoteChar(c: char): (s: string)
    ensures s != ""
  {
    if Plain(c) then [c] else "\\" + Escape(c)
  }

  function QuoteBody(s: string): string {
    if s == "" then "" else QuoteChar(s[0]) + QuoteBody(s[1..])
  }

  function Quote(s: string): string {
    "\"" + QuoteBody(s) + "\""
  }

  function Elements(items: seq<string>): string {
    if items == [] then "]"
    else Quote(items[0]) + (if |items| == 1 then "]" else "," + Elements(items[1..]))
  }

  /** `json.dumps(items, separators=(",", ":"))`. */
  function Dump(items: seq<string>): (s: string)
  {
    "[" + Elements(items)
  }

  // ---------------------------------------------------------------- reader

  predicate IsJsonSpace(c: char) {
    c == ' ' || c == '\t' || c == '\n' || c == '\r'
  }

  function SkipSpace(s: string): (r: string)
    ensures |r| <= |s|
  {
    if s != "" && IsJsonSpace(s[0]) then SkipSpace(s[1..]) else s
  }

  function HexValue(c: char): (n: int)
    ensures -1 <= n < 16
  {
    if '0' <= c <= '9' then c as int - '0' as int
    else if 'a' <= c <= 'f' then c as int - 'a' as int + 10
    else if 'A' <= c <= 'F' then c as int - 'A' as int + 10
    else -1
  }

  /** The four hexadecimal digits at the start of `s`, or -1. */
  function Hex4Value(s: string): (n: int)
    ensures -1 <= n < 0x1_0000
    ensures n >= 0 ==> |s| >= 4
  {
    if |s| < 4 then -1
    else
      var a, b, c, d := HexValue(s[0]), HexValue(s[1]), HexValue(s[2]), HexValue(s[3]);
      if a < 0 || b < 0 || c < 0 || d < 0 then -1 else a * 0x1000 + b * 0x100 + c * 16 + d
  }

  /** The character denoted by the escape after a backslash and the text that follows it. */
  function Unescape(s: string): (r: Option<(char, string)>)
    ensures r.Some? ==> |r.value.1| < |s|
  {
    if s == "" then None
    else if s[0] == '\"' || s[0] == '\\' || s[0] == '/' then Some((s[0], s[1..]))
    else if s[0] == 'n' then Some(('\n', s[1..]))
    else if s[0] == 'r' then Some(('\r', s[1..]))
    else if s[0] == 't' then Some(('\t', s[1..]))
    else if s[0] == 'f' then Some(('\U{0c}', s[1..]))
    else if s[0] == 'b' then Some(('\U{08}', s[1..]))
    else if s[0] == 'u' then UnescapeUnicode(s[1..])
    else None
  }

  function UnescapeUnicode(s: string): (r: Option<(char, string)>)
    ensures r.Some? ==> |r.value.1| <= |s|
  {
    var high := Hex4Value(s);
    if high < 0 then None
    else if high < 0xd800 || 0xe000 <= high then Some((high as char, s[4..]))
    else if high < 0xdc00 && |s| >= 6 && s[4] == '\\' && s[5] == 'u' then
      var low := Hex4Value(s[6..]);
      if 0xdc00 <= low < 0xe000 then
        Some(((0x1_0000 + (high - 0xd800) * 1024 + (low - 0xdc00)) as char, s[10..]))
      else None
    else None
  }

  /** The string body up to its closing quote, and the text after the quote. */
  function ReadString(s: string): (r: Option<(string, string)>)
    ensures r.Some? ==> |r.value.1| < |s|
    decreases |s|
  {
    if s == "" then None
    else if s[0] == '\"' then Some(("", s[1..]))
    else if s[0] == '\\' then
      match Unescape(s[1..])
      case None => None
      case Some((c, rest)) => Prepend(c, ReadString(rest))
    else if s[0] < ' ' then None
    else Prepend(s[0], ReadString(s[1..]))
  }

  function Prepend(c: char, r: Option<(string, string)>): Option<(string, string)> {
    match r
    case None => None
    case Some((body, rest)) => Some(([c] + body, rest))
  }

  /** The elements after `[` or `,`, and the text after the closing bracket. */
  function ReadElements(s: string): (r: Option<(seq<string>, string)>)
    decreases |s|
  {
    if s == "" || s[0] != '\"' then None
    else
      match ReadString(s[1..])
      case None => None
      case Some((body, after)) =>
        var next := SkipSpace(after);
        if next == "" then None
        else if next[0] == ']' then Some(([body], next[1..]))
        else if next[0] == ',' then
          match ReadElements(SkipSpace(next[1..]))
          case None => None
          case Some((items, rest)) => Some(([body] + items, rest))
        else None
  }

  /** `json.loads(s)` when it denotes an array of strings, otherwise `None`. */
  function Load(s: string): Option<seq<string>> {
    var text := SkipSpace(s);
    if text == "" || text[0] != '[' then None
    else
      var inner := SkipSpace(text[1..]);
      if inner != "" && inner[0] == ']' then
        if SkipSpace(inner[1..]) == "" then Some([]) else None
      else
        match ReadElements(inner)
        case None => None
        case Some((items, rest)) => if SkipSpace(rest) == "" then Some(items) else None
  }

  // ---------------------------------------------------------------- round trip

  lemma HexDigitValue(n: int)
    requires 0 <= n < 16
    ensures HexValue(HexDigit(n)) == n
  {
  }

  lemma HexDigitsOf(n: int)
    requires 0 <= n < 0x1_0000
    ensures (n / 0x1000) * 0x1000 + (n / 0x100 % 16) * 0x100 + (n / 16 % 16) * 16 + n % 16 == n
  {
    assert n / 0x100 == n / 0x1000 * 16 + n / 0x100 % 16;
    assert n / 16 == n / 0x100 * 16 + n / 16 % 16;
  }

  lemma Hex4RoundTrip(n: int, rest: string)
    requires 0 <= n < 0x1_0000
    ensures Hex4Value(Hex4(n) + rest) == n
  {
    hide HexDigit, HexValue;
    var s := Hex4(n) + rest;
    assert s[0] == HexDigit(n / 0x1000) && s[1] == HexDigit(n / 0x100 % 16);
    assert s[2] == HexDigit(n / 16 % 16) && s[3] == HexDigit(n % 16);
    HexDigitValue(n / 0x1000);
    HexDigitValue(n / 0x100 % 16);
    HexDigitValue(n / 16 % 16);
    HexDigitValue(n % 16);
    HexDigitsOf(n);
  }

  lemma BasicEscapeRoundTrip(c: char, rest: string)
    requires !Plain(c) && c as int < 0x1_0000
    ensures Unescape(Escape(c) + rest) == Some((c, rest))
  {
    var e := Escape(c);
    var s := e + rest;
    if e[0] == 'u' {
      var digits := Hex4(c as int);
      assert e == "u" + digits;
      assert s[1..] == digits + rest;
      Hex4RoundTrip(c as int, rest);
      assert s[1..][4..] == rest;
    } else {
      assert |e| == 1;
      assert s[1..] == rest;
    }
  }

  lemma SurrogateHalves(n: int)
    requires 0x1_0000 <= n < 0x11_0000
    ensures 0xd800 <= 0xd800 + (n - 0x1_0000) / 1024 < 0xdc00
    ensures 0xdc00 <= 0xdc00 + (n - 0x1_0000) % 1024 < 0xe000
    ensures 0x1_0000 + ((n - 0x1_0000) / 1024) * 1024 + (n - 0x1_0000) % 1024 == n
  {
  }

  lemma ReadSurrogatePair(s: string, high: int, low: int)
    requires |s| >= 10 && s[4] == '\\' && s[5] == 'u'
    requires Hex4Value(s) == high && 0xd800 <= high < 0xdc00
    requires Hex4Value(s[6..]) == low && 0xdc00 <= low < 0xe000
    ensures UnescapeUnicode(s) == Some(((0x1_0000 + (high - 0xd800) * 1024 + (low - 0xdc00)) as char, s[10..]))
  {
  }

  lemma SurrogatePairRoundTrip(c: char, high: int, low: int, rest: string)
    requires c as int >= 0x1_0000
    requires high == 0xd800 + (c as int - 0x1_0000) / 1024
    requires low == 0xdc00 + (c as int - 0x1_0000) % 1024
    requires 0xd800 <= high < 0xdc00 && 0xdc00 <= low < 0xe000
    ensures UnescapeUnicode(Hex4(high) + ("\\u" + (Hex4(low) + rest))) == Some((c, rest))
  {
    var end := Hex4(low) + rest;
    var after := "\\u" + end;
    var s := Hex4(high) + after;
    Hex4RoundTrip(high, after);
    Hex4RoundTrip(low, rest);
    assert s[4] == after[0] && s[5] == after[1];
    assert s[6..] == end;
    assert s[10..] == rest;
    ReadSurrogatePair(s, high, low);
    SurrogateHalves(c as int);
  }

  lemma EscapeAstral(c: char)
    requires c as int >= 0x1_0000
    ensures var v := c as int - 0x1_0000;
      Escape(c) == "u" + (Hex4(0xd800 + v / 1024) + ("\\u" + Hex4(0xdc00 + v % 1024)))
  {
    hide Hex4;
  }

  lemma UnescapeAfterU(digits: string)
    ensures Unescape("u" + digits) == UnescapeUnicode(digits)
  {
    hide UnescapeUnicode;
    assert ("u" + digits)[1..] == digits;
  }

  lemma EscapeRoundTrip(c: char, rest: string)
    requires !Plain(c)
    ensures Unescape(Escape(c) + rest) == Some((c, rest))
  {
    hide Escape, Unescape, UnescapeUnicode, Hex4, Plain;
    if c as int < 0x1_0000 {
      BasicEscapeRoundTrip(c, rest);
    } else {
      SurrogateHalves(c as int);
      var v := c as int - 0x1_0000;
      var high, low := 0xd800 + v / 1024, 0xdc00 + v % 1024;
      SurrogatePairRoundTrip(c, high, low, rest);
      EscapeAstral(c);
      var digits := Hex4(high) + ("\\u" + (Hex4(low) + rest));
      assert Escape(c) + rest == "u" + digits;
      UnescapeAfterU(digits);
    }
  }

  lemma QuoteCharRoundTrip(c: char, tail: string)
    ensures ReadString(QuoteChar(c) + tail) == Prepend(c, ReadString(tail))
  {
    hide Escape, Unescape, Prepend;
    var s := QuoteChar(c) + tail;
    if Plain(c) {
      assert s[0] == c && s[1..] == tail;
    } else {
      EscapeRoundTrip(c, tail);
      assert s[0] == '\\';
      assert s[1..] == Escape(c) + tail;
    }
  }

  lemma CloseReads(close: string, rest: string)
    requires close == "\"" + rest
    ensures ReadString(close) == Some(("", rest))
  {
    assert close[1..] == rest;
  }

  lemma {:induction false} QuoteRoundTrip(body: string, close: string, rest: string)
    requires close == "\"" + rest
    ensures ReadString(QuoteBody(body) + close) == Some((body, rest))
  {
    hide ReadString, QuoteChar;
    if body == "" {
      assert QuoteBody(body) + close == close;
      CloseReads(close, rest);
    } else {
      var tail := QuoteBody(body[1..]) + close;
      QuoteRoundTrip(body[1..], close, rest);
      QuoteCharRoundTrip(body[0], tail);
      assert QuoteBody(body) + close == QuoteChar(body[0]) + tail;
      assert body == [body[0]] + body[1..];
    }
  }

  lemma QuoteShape(item: string, tail: string)
    ensures Quote(item) + tail != "" && (Quote(item) + tail)[0] == '\"'
    ensures (Quote(item) + tail)[1..] == QuoteBody(item) + ("\"" + tail)
  {
  }

  lemma ReadLastElement(s: string, body: string)
    requires s != "" && s[0] == '\"' && ReadString(s[1..]) == Some((body, "]"))
    ensures ReadElements(s) == Some(([body], ""))
  {
    assert SkipSpace("]") == "]";
  }

  lemma ReadNextElement(s: string, body: string, more: string, rest: string, items: seq<string>)
    requires s != "" && s[0] == '\"' && ReadString(s[1..]) == Some((body, more))
    requires more != "" && more[0] == ',' && more[1..] == rest
    requires rest != "" && rest[0] == '\"' && ReadElements(rest) == Some((items, ""))
    ensures ReadElements(s) == Some(([body] + items, ""))
  {
    assert SkipSpace(more) == more;
    assert SkipSpace(rest) == rest;
  }

  lemma {:induction false} ElementsRoundTrip(items: seq<string>)
    requires items != []
    ensures Elements(items) != "" && Elements(items)[0] == '\"'
    ensures ReadElements(Elements(items)) == Some((items, ""))
  {
    var s := Elements(items);
    assert items == [items[0]] + items[1..];
    if |items| == 1 {
      QuoteShape(items[0], "]");
      QuoteRoundTrip(items[0], "\"" + "]", "]");
      ReadLastElement(s, items[0]);
      assert items == [items[0]];
    } else {
      var rest := Elements(items[1..]);
      ElementsRoundTrip(items[1..]);
      var more := "," + rest;
      QuoteShape(items[0], more);
      QuoteRoundTrip(items[0], "\"" + more, more);
      ReadNextElement(s, items[0], more, rest, items[1..]);
    }
  }

  /** Reading what the writer wrote gives the array back. */
  lemma DumpRoundTrip(items: seq<string>)
    ensures Load(Dump(items)) == Some(items)
  {
    var text := Dump(items);
    assert text[1..] == Elements(items);
    if items != [] {
      ElementsRoundTrip(items);
    }
  }

  ghost predicate Printable(s: string) {
    forall i :: 0 <= i < |s| ==> ' ' <= s[i] <= '~'
  }

  lemma Hex4Printable(n: int)
    requires 0 <= n < 0x1_0000
    ensures Printable(Hex4(n))
  {
  }

  lemma EscapePrintable(c: char)
    ensures Printable(Escape(c))
  {
    hide Hex4;
    if c as int < 0x1_0000 {
      Hex4Printable(c as int);
    } else {
      var v := c as int - 0x1_0000;
      SurrogateHalves(c as int);
      EscapeAstral(c);
      Hex4Printable(0xd800 + v / 1024);
      Hex4Printable(0xdc00 + v % 1024);
    }
  }

  lemma QuoteCharPrintable(c: char)
    ensures Printable(QuoteChar(c))
  {
    hide Escape;
    EscapePrintable(c);
  }

  lemma {:induction false} QuoteBodyPrintable(s: string)
    ensures Printable(QuoteBody(s))
  {
    if s != "" {
      QuoteCharPrintable(s[0]);
      QuoteBodyPrintable(s[1..]);
    }
  }

  lemma {:induction false} ElementsPrintable(items: seq<string>)
    ensures Printable(Elements(items)) && Elements(items) != ""
    ensures Elements(items)[|Elements(items)| - 1] == ']'
  {
    if items != [] {
      QuoteBodyPrintable(items[0]);
      if |items| > 1 { ElementsPrintable(items[1..]); }
    }
  }

  /** The written text is printable ASCII between brackets, so it fits on one line. */
  lemma DumpPrintable(items: seq<string>)
    ensures Printable(Dump(items)) && |Dump(items)| >= 2
    ensures Dump(items)[0] == '[' && Dump(items)[|Dump(items)| - 1] == ']'
  {
    ElementsPrintable(items);
  }
}
