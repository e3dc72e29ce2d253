/** The parser itself: a cursor that only moves forward over an immutable buffer. */
module JsonParserModule {
  import opened Text
  import opened ParserSpec
  import Json

  /** A 64-bit accumulator: Dafny checks that no operation on it leaves this range. */
  newtype int64 = x: int | -0x8000_0000_0000_0000 <= x < 0x8000_0000_0000_0000

  class JsonParser {
    const input: string
    const maxBytes: nat
    var pos: nat

    ghost predicate Valid()
      reads this
    {
      pos <= |input|
    }

    constructor (input: string, maxBytes: nat)
      ensures Valid() && pos == 0
      ensures this.input == input && this.maxBytes == maxBytes
    {
      this.input := input;
      this.maxBytes := maxBytes;
      pos := 0;
    }

    method SkipWhitespace()
      requires Valid()
      modifies this
      ensures Valid() && pos == SkipWs(input, old(pos))
    {
      while pos < |input| && IsSpace(input[pos])
        invariant Valid() && SkipWs(input, pos) == SkipWs(input, old(pos))
      {
        pos := pos + 1;
      }
    }

    /** The loop `skip_string` and `parse_string` share: stop on the closing quote. */
    method FindClosingQuote() returns (ok: bool)
      requires Valid()
      modifies this
      ensures Valid()
      ensures ok == StringEnd(input, old(pos)).Some?
      ensures ok ==> pos == StringEnd(input, old(pos)).value
    {
      while pos < |input| && input[pos] != '"'
        invariant Valid() && StringEnd(input, pos) == StringEnd(input, old(pos))
      {
        if input[pos] == '\\' {
          pos := pos + 1;
          if pos >= |input| { return false; }
        }
        pos := pos + 1;
      }
      return pos < |input|;
    }

    method SkipStringLiteral() returns (ok: bool)
      requires Valid()
      modifies this
      ensures Valid()
      ensures ok == SkipString(input, old(pos)).Some?
      ensures ok ==> pos == SkipString(input, old(pos)).value
    {
      if pos >= |input| || input[pos] != '"' { return false; }
      pos := pos + 1;
      ok := FindClosingQuote();
      if ok { pos := pos + 1; }
    }

    method SkipBracketed(open: char, close: char, ghost braces: bool) returns (ok: bool)
      requires Valid()
      requires open == Json.OpenOf(braces) && close == Json.CloseOf(braces)
      modifies this
      ensures Valid()
      ensures ok == SkipContainer(input, old(pos), braces).Some?
      ensures ok ==> pos == SkipContainer(input, old(pos), braces).value
    {
      if pos >= |input| || input[pos] != open { return false; }
      pos := pos + 1;
      var depth := 1;
      while pos < |input| && depth > 0
        invariant Valid() && 0 <= depth <= MAX_DEPTH
        invariant SkipNested(input, pos, depth, braces, MAX_DEPTH) == SkipContainer(input, old(pos), braces)
        decreases |input| - pos
      {
        var c := input[pos];
        if c == '"' {
          ok := SkipStringLiteral();
          if !ok { return false; }
          continue;
        }
        pos := pos + 1;
        if c == open {
          depth := depth + 1;
          if depth > MAX_DEPTH { return false; }
        } else if c == close {
          depth := depth - 1;
        }
      }
      return depth == 0;
    }

    method SkipDigits()
      requires Valid()
      modifies this
      ensures Valid() && pos == DigitsEnd(input, old(pos))
    {
      while pos < |input| && IsDigit(input[pos])
        invariant Valid() && DigitsEnd(input, pos) == DigitsEnd(input, old(pos))
      {
        pos := pos + 1;
      }
    }

    method SkipNumber() returns (ok: bool)
      requires Valid() && pos < |input|
      requires input[pos] == '-' || IsDigit(input[pos])
      modifies this
      ensures Valid()
      ensures ok == NumberEnd(input, old(pos)).Some?
      ensures ok ==> pos == NumberEnd(input, old(pos)).value
    {
      if input[pos] == '-' {
        pos := pos + 1;
        if pos >= |input| || !IsDigit(input[pos]) { return false; }
      }
      SkipDigits();
      SkipFraction();
      SkipExponent();
      return true;
    }

    method SkipFraction()
      requires Valid()
      modifies this
      ensures Valid() && pos == FractionEnd(input, old(pos))
    {
      if pos < |input| && input[pos] == '.' {
        pos := pos + 1;
        SkipDigits();
      }
    }

    method SkipExponent()
      requires Valid()
      modifies this
      ensures Valid() && pos == ExponentEnd(input, old(pos))
    {
      if pos < |input| && (input[pos] == 'e' || input[pos] == 'E') {
        pos := pos + 1;
        if pos < |input| && (input[pos] == '+' || input[pos] == '-') { pos := pos + 1; }
        SkipDigits();
      }
    }

    method SkipWord(word: string) returns (ok: bool)
      requires Valid()
      modifies this
      ensures Valid()
      ensures ok == WordEnd(input, old(pos), word).Some?
      ensures ok ==> pos == WordEnd(input, old(pos), word).value
    {
      if |input| - pos < |word| || input[pos..pos + |word|] != word { return false; }
      pos := pos + |word|;
      return true;
    }

    method SkipAnyValue() returns (ok: bool, span: Span)
      requires Valid()
      modifies this
      ensures Valid()
      ensures ok == SkipValue(input, old(pos)).Some?
      ensures ok ==> span == SkipValue(input, old(pos)).value && pos == span.End()
    {
      span := Span(0, 0);
      SkipWhitespace();
      if pos >= |input| { return false, span; }
      var start := pos;
      var c := input[pos];
      if c == '"' {
        ok := SkipStringLiteral();
      } else if c == '{' {
        ok := SkipBracketed('{', '}', true);
      } else if c == '[' {
        ok := SkipBracketed('[', ']', false);
      } else if c == 't' {
        ok := SkipWord("true");
      } else if c == 'f' {
        ok := SkipWord("false");
      } else if c == 'n' {
        ok := SkipWord("null");
      } else if c == '-' || IsDigit(c) {
        ok := SkipNumber();
      } else {
        ok := false;
      }
      if ok { span := Span(start, pos - start); }
    }

    method ParseStringValue() returns (ok: bool, span: Span)
      requires Valid()
      modifies this
      ensures Valid()
      ensures ok == ParseString(input, old(pos)).Some?
      ensures ok ==> span == ParseString(input, old(pos)).value && pos == span.End() + 1
    {
      span := Span(0, 0);
      SkipWhitespace();
      if pos >= |input| || input[pos] != '"' { return false, span; }
      pos := pos + 1;
      var start := pos;
      ok := FindClosingQuote();
      if ok {
        span := Span(start, pos - start);
        pos := pos + 1;
      }
    }

    method ParseIntValue() returns (ok: bool, num: int)
      requires Valid()
      modifies this
      ensures Valid()
      ensures ok == ParseInt(input, old(pos)).Some?
      ensures ok ==> Parsed(num, pos) == ParseInt(input, old(pos)).value
    {
      num := 0;
      SkipWhitespace();
      if pos >= |input| { return false, num; }
      var negative := input[pos] == '-';
      if negative {
        pos := pos + 1;
        if pos >= |input| { return false, num; }
      }
      if !IsDigit(input[pos]) { return false, num; }
      ghost var first := pos;
      var val: int64 := 0;
      while pos < |input| && IsDigit(input[pos])
        invariant Valid() && 0 <= val as int <= INT_MAX
        invariant ParseDigits(input, pos, val as int) == ParseDigits(input, first, 0)
        decreases |input| - pos
      {
        val := val * 10 + (DigitValue(input[pos]) as int64);
        if val > INT_MAX as int64 { return false, num; }
        pos := pos + 1;
      }
      num := if negative then -(val as int) else val as int;
      return true, num;
    }

    method ParseMemberKey() returns (ok: bool, key: Span)
      requires Valid()
      modifies this
      ensures Valid()
      ensures ok == ParseKey(input, old(pos)).Some?
      ensures ok ==> Parsed(key, pos) == ParseKey(input, old(pos)).value
    {
      ok, key := ParseStringValue();
      if !ok { return; }
      SkipWhitespace();
      if pos >= |input| || input[pos] != ':' { return false, key; }
      pos := pos + 1;
    }

    method SkipSeparator() returns (ok: bool)
      requires Valid()
      modifies this
      ensures Valid()
      ensures ok == MemberSeparator(input, old(pos)).Some?
      ensures ok ==> pos == MemberSeparator(input, old(pos)).value
    {
      SkipWhitespace();
      if pos >= |input| { return false; }
      if input[pos] == ',' { pos := pos + 1; return true; }
      return input[pos] == '}';
    }

    method ParseErrorMember(name: string, msg: MCPMessage) returns (ok: bool, out: MCPMessage)
      requires Valid()
      modifies this
      ensures Valid()
      ensures ok == Member(RoleOf(ErrorObject, name), input, old(pos), msg).Some?
      ensures ok ==> Parsed(out, pos) == Member(RoleOf(ErrorObject, name), input, old(pos), msg).value
    {
      out := msg;
      var span: Span;
      if name == "code" {
        var code: int;
        ok, code := ParseIntValue();
        if ok { out := out.(errorCode := code); }
      } else if name == "message" {
        ok, span := ParseStringValue();
        if ok { out := out.(errorMsg := Some(span)); }
      } else {
        ok, span := SkipAnyValue();
      }
    }

    method ParseErrorObjectValue(msg: MCPMessage) returns (ok: bool, out: MCPMessage)
      requires Valid()
      modifies this
      ensures Valid()
      ensures ok == ParseErrorObject(input, old(pos), msg).Some?
      ensures ok ==> Parsed(out, pos) == ParseErrorObject(input, old(pos), msg).value
    {
      hide ParseKey, MemberSeparator, Member, RoleOf;
      out := msg;
      SkipWhitespace();
      if pos >= |input| || input[pos] != '{' { return false, out; }
      pos := pos + 1;
      while true
        invariant Valid()
        invariant Members(ErrorObject, input, pos, out) == ParseErrorObject(input, old(pos), msg)
        decreases |input| - pos
      {
        SkipWhitespace();
        if pos >= |input| { return false, out; }
        if input[pos] == '}' { pos := pos + 1; break; }
        var key: Span;
        ok, key := ParseMemberKey();
        if !ok { return; }
        ok, out := ParseErrorMember(input[key.start..key.End()], out);
        if !ok { return; }
        ok := SkipSeparator();
        if !ok { return; }
      }
      return true, out.(hasError := true);
    }

    /** One member of a message: the chain of key comparisons in `parse`. */
    method ParseMemberValue(name: string, msg: MCPMessage) returns (ok: bool, out: MCPMessage)
      requires Valid()
      modifies this
      ensures Valid()
      ensures ok == Member(RoleOf(Message, name), input, old(pos), msg).Some?
      ensures ok ==> Parsed(out, pos) == Member(RoleOf(Message, name), input, old(pos), msg).value
    {
      out := msg;
      var span: Span;
      if name == "jsonrpc" {
        ok, span := SkipAnyValue();
      } else if name == "method" {
        ok, span := ParseStringValue();
        if ok { out := out.(methodName := Some(span), isRequest := true); }
      } else if name == "id" {
        var id: int;
        ok, id := ParseIntValue();
        if ok { out := out.(id := Some(id)); }
      } else if name == "params" {
        ok, span := SkipAnyValue();
        if ok { out := out.(params := Some(span)); }
      } else if name == "result" {
        out := out.(isResponse := true, hasResult := true);
        ok, span := SkipAnyValue();
        if ok { out := out.(result := Some(span)); }
      } else if name == "error" {
        ok, out := ParseErrorObjectValue(msg);
        if ok { out := out.(isResponse := true); }
      } else {
        ok, span := SkipAnyValue();
      }
    }

    method ParseInto(msg: MCPMessage) returns (ok: bool, out: MCPMessage)
      requires Valid() && pos == 0
      modifies this
      ensures Valid()
      ensures ok == (|input| <= maxBytes && Parse(input, msg).Some?)
      ensures ok ==> Parsed(out, pos) == Parse(input, msg).value
      ensures |input| > maxBytes ==> out.errorCode == -32700
    {
      hide ParseKey, MemberSeparator, Member, RoleOf;
      out := msg.(raw := Some(Span(0, |input|)));
      if |input| > maxBytes {
        return false, out.(errorCode := -32700);
      }
      SkipWhitespace();
      if pos >= |input| || input[pos] != '{' { return false, out; }
      pos := pos + 1;
      while true
        invariant Valid()
        invariant Members(Message, input, pos, out) == Parse(input, msg)
        decreases |input| - pos
      {
        SkipWhitespace();
        if pos >= |input| { return false, out; }
        if input[pos] == '}' { pos := pos + 1; break; }
        var key: Span;
        ok, key := ParseMemberKey();
        if !ok { return; }
        ok, out := ParseMemberValue(input[key.start..key.End()], out);
        if !ok { return; }
        ok := SkipSeparator();
        if !ok { return; }
      }
      return true, out;
    }
  }

  /** `MCPMessage::parse`: a fresh parser on the whole buffer. */
  method ParseText(s: string, maxBytes: nat) returns (msg: MCPMessage)
    ensures msg.valid == ParseMessage(s, maxBytes).Some?
    ensures msg.valid ==> msg == ParseMessage(s, maxBytes).value
    ensures |s| > maxBytes ==> msg.errorCode == -32700
  {
    msg := FRESH_MESSAGE;
    if |s| > 0 {
      if |s| > maxBytes {
        return msg.(raw := Some(Span(0, |s|)), errorCode := -32700, valid := false);
      }
      var parser := new JsonParser(s, maxBytes);
      var ok: bool;
      ok, msg := parser.ParseInto(msg);
      msg := msg.(valid := ok);
    }
  }
}
