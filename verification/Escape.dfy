/** The two JSON escapers, and the unescaping of section 7 of RFC 8259. */
module Escape {
  import opened Text
  import opened Json
  import opened ParserSpec
  import opened ScanProofs

  function HexDigit(d: nat): char
    requires d < 16
  {
    if d < 10 then ('0' as int + d) as char else ('a' as int + d - 10) as char
  }

  /** `%04x` of a character code. */
  function Hex4(code: nat): string
    requires code < 0x10000
  {
    [HexDigit(code / 4096), HexDigit(code / 256 % 16), HexDigit(code / 16 % 16), HexDigit(code % 16)]
  }

  function EscapeChar(c: char): string {
    if c == '"' then "\\\""
    else if c == '\\' then "\\\\"
    else if c == '\U{08}' then "\\b"
    else if c == '\U{0C}' then "\\f"
    else if c == '\n' then "\\n"
    else if c == '\r' then "\\r"
    else if c == '\t' then "\\t"
    else if c < ' ' then "\\u" + Hex4(c as nat)
    else [c]
  }

  function EscapeAll(s: string): string {
    if s == "" then "" else EscapeChar(s[0]) + EscapeAll(s[1..])
  }

  /** The switch that both escapers run on every character. */
  method EscapeOne(c: char) returns (piece: string)
    ensures piece == EscapeChar(c)
  {
    if c == '"' {
      piece := "\\\"";
    } else if c == '\\' {
      piece := "\\\\";
    } else if c == '\U{08}' {
      piece := "\\b";
    } else if c == '\U{0C}' {
      piece := "\\f";
    } else if c == '\n' {
      piece := "\\n";
    } else if c == '\r' {
      piece := "\\r";
    } else if c == '\t' {
      piece := "\\t";
    } else if c < ' ' {
      piece := "\\u" + Hex4(c as nat);
    } else {
      piece := [c];
    }
  }

  /** `JsonBuilder::append_escaped` reads a C string: it stops at the first NUL. */
  method AppendEscaped(buf: string, s: string) returns (r: string)
    ensures r == buf + EscapeAll(CStr(s))
  {
    r := buf;
    var k := 0;
    while k < |s| && s[k] != '\0'
      invariant k <= |s|
      invariant r + EscapeAll(CStr(s[k..])) == buf + EscapeAll(CStr(s))
    {
      var c := s[k];
      CStrStep(s, k);
      var piece := EscapeOne(c);
      Extend(r, c, CStr(s[k + 1..]));
      r := r + piece;
      k := k + 1;
    }
  }

  lemma CStrStep(s: string, k: nat)
    requires k < |s| && s[k] != '\0'
    ensures CStr(s[k..]) == [s[k]] + CStr(s[k + 1..])
  {
    assert s[k..][1..] == s[k + 1..];
  }

  lemma Extend(r: string, c: char, rest: string)
    ensures r + EscapeAll([c] + rest) == r + EscapeChar(c) + EscapeAll(rest)
  {
    hide EscapeChar;
    assert ([c] + rest)[1..] == rest;
    assert r + (EscapeChar(c) + EscapeAll(rest)) == r + EscapeChar(c) + EscapeAll(rest);
  }

  /** `ResponseSanitizer::escape_control_characters` reads a whole `std::string`. */
  method EscapeControlCharacters(text: string) returns (result: string)
    ensures result == EscapeAll(text)
  {
    result := "";
    for k := 0 to |text|
      invariant result + EscapeAll(text[k..]) == EscapeAll(text)
    {
      var c := text[k];
      assert text[k..] == [c] + text[k + 1..];
      var piece := EscapeOne(c);
      Extend(result, c, text[k + 1..]);
      result := result + piece;
    }
  }

  // ------------------------------------------------------------------ unescaping

  function HexValue(c: char): nat
    requires IsHexDigit(c)
  {
    if IsDigit(c) then c as int - '0' as int
    else if 'a' <= c <= 'f' then c as int - 'a' as int + 10
    else c as int - 'A' as int + 10
  }

  /** The character a two-character escape stands for. */
  function ShortEscape(c: char): Option<char> {
    if c == '"' || c == '\\' || c == '/' then Some(c)
    else if c == 'b' then Some('\U{08}')
    else if c == 'f' then Some('\U{0C}')
    else if c == 'n' then Some('\n')
    else if c == 'r' then Some('\r')
    else if c == 't' then Some('\t')
    else None
  }

  /** The code of a `\uXXXX` escape, when it is a single byte of UTF-8. */
  function LongEscape(t: string): Option<char>
    requires |t| == 4
  {
    if forall k :: 0 <= k < 4 ==> IsHexDigit(t[k]) then
      var code := HexValue(t[0]) * 4096 + HexValue(t[1]) * 256 + HexValue(t[2]) * 16 + HexValue(t[3]);
      if code < 0x80 then Some(code as char) else None
    else None
  }

  function Prepend(c: Option<char>, t: Option<string>): Option<string> {
    if c.Some? && t.Some? then Some([c.value] + t.value) else None
  }

  /** Section 7: the string a JSON string body denotes. */
  function Unescape(t: string): Option<string> {
    if t == "" then Some("")
    else if t[0] == '\\' then
      if |t| >= 6 && t[1] == 'u' then Prepend(LongEscape(t[2..6]), Unescape(t[6..]))
      else if |t| >= 2 then Prepend(ShortEscape(t[1]), Unescape(t[2..]))
      else None
    else if t[0] == '"' || t[0] < ' ' then None
    else Prepend(Some(t[0]), Unescape(t[1..]))
  }

  lemma HexRoundTrip(d: nat)
    requires d < 16
    ensures IsHexDigit(HexDigit(d)) && HexValue(HexDigit(d)) == d
  {
  }

  /** One escape sequence, of either length, decodes to the character it was made from. */
  lemma UnescapeChar(c: char, rest: string)
    ensures Unescape(EscapeChar(c) + rest) == Prepend(Some(c), Unescape(rest))
  {
    var e := EscapeChar(c);
    if |e| == 6 {
      UnescapeLong(c, rest);
    } else if |e| == 2 {
      UnescapeShort(c, rest);
    } else {
      assert (e + rest)[1..] == rest;
    }
  }

  lemma UnescapeLong(c: char, rest: string)
    requires c < ' ' && EscapeChar(c) == "\\u" + Hex4(c as nat)
    ensures Unescape(EscapeChar(c) + rest) == Prepend(Some(c), Unescape(rest))
  {
    LongEscapeOfHex(c);
    hide LongEscape, EscapeChar;
    var code := Hex4(c as nat);
    assert |code| == 4;
    hide Hex4;
    var t := "\\u" + code + rest;
    assert t[2..6] == code && t[6..] == rest;
    assert t[0] == '\\' && t[1] == 'u';
  }

  lemma LongEscapeOfHex(c: char)
    requires c < ' '
    ensures LongEscape(Hex4(c as nat)) == Some(c)
  {
    HexRoundTrip(c as nat / 16 % 16);
    HexRoundTrip(c as nat % 16);
    HexRoundTrip(0);
    hide HexDigit, HexValue;
  }

  lemma UnescapeShort(c: char, rest: string)
    requires |EscapeChar(c)| == 2
    ensures Unescape(EscapeChar(c) + rest) == Prepend(Some(c), Unescape(rest))
  {
    var e := EscapeChar(c);
    var t := e + rest;
    assert e[0] == '\\' && e[1] != 'u' && ShortEscape(e[1]) == Some(c);
    hide EscapeChar, ShortEscape;
    assert t[0] == '\\' && t[1] == e[1];
    assert t[2..] == rest;
  }

  /** Escaping is undone by the standard's own unescaping, for every string. */
  lemma {:induction false} UnescapeEscape(s: string)
    ensures Unescape(EscapeAll(s)) == Some(s)
  {
    if s != "" {
      UnescapeChar(s[0], EscapeAll(s[1..]));
      UnescapeEscape(s[1..]);
      assert [s[0]] + s[1..] == s;
    }
  }

  // ------------------------------------------------- escaped text inside a message

  lemma EscapeCharBody(c: char, rest: string)
    requires StringBody(rest)
    ensures StringBody(EscapeChar(c) + rest)
  {
    var e := EscapeChar(c);
    var t := e + rest;
    assert t[|e|..] == rest;
    if |e| == 6 {
      HexRoundTrip(c as nat / 16 % 16);
      HexRoundTrip(c as nat % 16);
      HexRoundTrip(0);
    }
  }

  /** Escaped text is a string body of the grammar. */
  lemma {:induction false} EscapeIsBody(s: string)
    ensures StringBody(EscapeAll(s))
  {
    if s != "" {
      EscapeIsBody(s[1..]);
      EscapeCharBody(s[0], EscapeAll(s[1..]));
    }
  }

  /** Escaped text holds no control character, and so no line break. */
  lemma {:induction false} EscapeHasNoControl(s: string)
    ensures forall c | c in EscapeAll(s) :: c >= ' '
  {
    if s != "" {
      EscapeHasNoControl(s[1..]);
      assert forall c | c in EscapeChar(s[0]) :: c >= ' ';
    }
  }

  /** Between quotes and before any suffix, both string scanners stop just after the closing quote. */
  lemma EscapedStringIsSkipped(text: string, suffix: string)
    ensures var s := "\"" + EscapeAll(text) + "\"" + suffix;
            && SkipString(s, 0) == Some(|EscapeAll(text)| + 2)
            && ParseString(s, 0) == Some(Span(1, |EscapeAll(text)|))
  {
    var body := EscapeAll(text);
    var quoted := "\"" + body + "\"";
    var s := quoted + suffix;
    AtSlice(s, 0, quoted);
    EscapeIsBody(text);
    hide At, StringBody, EscapeAll, StringEnd;
    assert s[0..0 + |quoted|] == quoted;
    StringLayout(s, 0, body);
    BodyIsClosed(body);
    StringEndExact(s, 1, body);
    assert s[0] == '"' && SkipWs(s, 0) == 0;
  }

  /** A key that needs no escaping is a string body as it stands. */
  predicate PlainKey(key: string) {
    forall c | c in key :: c >= ' ' && c != '"' && c != '\\'
  }

  lemma {:induction false} PlainKeyBody(key: string)
    requires PlainKey(key)
    ensures StringBody(key) && CStr(key) == key
  {
    if key != "" {
      assert key[0] in key && key[0] != '\0';
      assert forall c | c in key[1..] :: c in key;
      PlainKeyBody(key[1..]);
    }
  }

  /** Such a key also survives escaping unchanged. */
  lemma {:induction false} PlainKeyEscape(key: string)
    requires PlainKey(key)
    ensures EscapeAll(key) == key
  {
    if key != "" {
      assert key[0] in key;
      assert forall c | c in key[1..] :: c in key;
      assert EscapeChar(key[0]) == [key[0]];
      hide EscapeChar;
      PlainKeyEscape(key[1..]);
      assert [key[0]] + key[1..] == key;
    }
  }

  lemma {:induction false} EscapeIsLonger(s: string)
    ensures |EscapeAll(s)| >= |s|
  {
    if s != "" {
      EscapeIsLonger(s[1..]);
    }
  }
}
