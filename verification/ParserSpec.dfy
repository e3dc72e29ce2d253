/**
  What every routine of the zero-copy parser computes, as a function of the input and the position
  it starts from. The parser class is proved to compute these functions; the theorems are about them.
 */
module ParserSpec {
  import opened Text
  import Json

  const MAX_DEPTH: nat := 64
  const DEFAULT_MAX_BYTES: nat := 1024 * 1024
  const INT_MAX: int := 2147483647

  function SkipWs(s: string, i: nat): (j: nat)
    requires i <= |s|
    ensures i <= j <= |s|
    decreases |s| - i
  {
    if i < |s| && IsSpace(s[i]) then SkipWs(s, i + 1) else i
  }

  /** From inside a string, the position of its closing quote. */
  function StringEnd(s: string, i: nat): (r: Option<nat>)
    requires i <= |s|
    ensures r.Some? ==> i <= r.value < |s| && s[r.value] == '"'
    decreases |s| - i
  {
    if i == |s| then None
    else if s[i] == '"' then Some(i)
    else if s[i] == '\\' then (if i + 1 == |s| then None else StringEnd(s, i + 2))
    else StringEnd(s, i + 1)
  }

  /** The position after the string that opens at `i`. */
  function SkipString(s: string, i: nat): (r: Option<nat>)
    requires i <= |s|
    ensures r.Some? ==> i + 2 <= r.value <= |s| && s[r.value - 1] == '"'
  {
    if i < |s| && s[i] == '"' then
      match StringEnd(s, i + 1)
      case None => None
      case Some(q) => Some(q + 1)
    else None
  }

  /**
    The loop of `skip_container`: the position after the bracket that brings `depth` to zero. The
    parser runs it with the limit `MAX_DEPTH`.
   */
  function SkipNested(s: string, i: nat, depth: nat, braces: bool, limit: nat): (r: Option<nat>)
    requires i <= |s|
    ensures r.Some? ==> i <= r.value <= |s|
    ensures r.Some? && depth > 0 ==> i < r.value && s[r.value - 1] == Json.CloseOf(braces)
    decreases |s| - i
  {
    if depth == 0 then Some(i)
    else if i == |s| then None
    else if s[i] == '"' then
      match SkipString(s, i)
      case None => None
      case Some(j) => SkipNested(s, j, depth, braces, limit)
    else if s[i] == Json.OpenOf(braces) then
      (if depth + 1 > limit then None else SkipNested(s, i + 1, depth + 1, braces, limit))
    else if s[i] == Json.CloseOf(braces) then SkipNested(s, i + 1, depth - 1, braces, limit)
    else SkipNested(s, i + 1, depth, braces, limit)
  }

  function SkipContainer(s: string, i: nat, braces: bool): (r: Option<nat>)
    requires i <= |s|
    ensures r.Some? ==> i < r.value <= |s|
  {
    if i < |s| && s[i] == Json.OpenOf(braces) then SkipNested(s, i + 1, 1, braces, MAX_DEPTH) else None
  }

  function DigitsEnd(s: string, i: nat): (j: nat)
    requires i <= |s|
    ensures i <= j <= |s|
    ensures forall k :: i <= k < j ==> IsDigit(s[k])
    ensures j < |s| ==> !IsDigit(s[j])
    decreases |s| - i
  {
    if i < |s| && IsDigit(s[i]) then DigitsEnd(s, i + 1) else i
  }

  function FractionEnd(s: string, i: nat): (j: nat)
    requires i <= |s|
    ensures i <= j <= |s|
  {
    if i < |s| && s[i] == '.' then DigitsEnd(s, i + 1) else i
  }

  function ExponentEnd(s: string, i: nat): (j: nat)
    requires i <= |s|
    ensures i <= j <= |s|
  {
    if i < |s| && (s[i] == 'e' || s[i] == 'E') then
      if i + 1 < |s| && (s[i + 1] == '+' || s[i + 1] == '-') then DigitsEnd(s, i + 2)
      else DigitsEnd(s, i + 1)
    else i
  }

  function NumberEnd(s: string, i: nat): (r: Option<nat>)
    requires i < |s|
    requires s[i] == '-' || IsDigit(s[i])
    ensures r.Some? ==> i < r.value <= |s|
  {
    if s[i] == '-' && !(i + 1 < |s| && IsDigit(s[i + 1])) then None
    else
      var first := if s[i] == '-' then i + 1 else i;
      Some(ExponentEnd(s, FractionEnd(s, DigitsEnd(s, first))))
  }

  function WordEnd(s: string, i: nat, word: string): Option<nat> {
    if i + |word| <= |s| && s[i..i + |word|] == word then Some(i + |word|) else None
  }

  /** `skip_value` once white space is behind it. */
  function ValueEnd(s: string, i: nat): (r: Option<nat>)
    requires i <= |s|
    ensures r.Some? ==> i < r.value <= |s|
  {
    if i == |s| then None
    else if s[i] == '"' then SkipString(s, i)
    else if s[i] == '{' then SkipContainer(s, i, true)
    else if s[i] == '[' then SkipContainer(s, i, false)
    else if s[i] == 't' then WordEnd(s, i, "true")
    else if s[i] == 'f' then WordEnd(s, i, "false")
    else if s[i] == 'n' then WordEnd(s, i, "null")
    else if s[i] == '-' || IsDigit(s[i]) then NumberEnd(s, i)
    else None
  }

  /** The span of the value that follows position `i`; parsing goes on at its end. */
  function SkipValue(s: string, i: nat): (r: Option<Span>)
    requires i <= |s|
    ensures r.Some? ==> i <= r.value.start < r.value.End() <= |s|
  {
    var start := SkipWs(s, i);
    match ValueEnd(s, start)
    case None => None
    case Some(e) => Some(Span(start, e - start))
  }

  /** The span between the quotes; parsing goes on one past its end. */
  function ParseString(s: string, i: nat): (r: Option<Span>)
    requires i <= |s|
    ensures r.Some? ==> i < r.value.start <= r.value.End() < |s|
  {
    var q := SkipWs(s, i);
    if q < |s| && s[q] == '"' then
      match StringEnd(s, q + 1)
      case None => None
      case Some(e) => Some(Span(q + 1, e - (q + 1)))
    else None
  }

  datatype Parsed<+T> = Parsed(value: T, next: nat)

  function DigitValue(c: char): int
    requires IsDigit(c)
  {
    c as int - '0' as int
  }

  /** The digit loop of `parse_int`, which stops as soon as the accumulator passes INT_MAX. */
  function ParseDigits(s: string, i: nat, val: int): (r: Option<Parsed<int>>)
    requires i <= |s|
    requires 0 <= val <= INT_MAX
    ensures r.Some? ==> i <= r.value.next <= |s| && 0 <= r.value.value <= INT_MAX
    decreases |s| - i
  {
    if i < |s| && IsDigit(s[i]) then
      var v := val * 10 + DigitValue(s[i]);
      if v > INT_MAX then None else ParseDigits(s, i + 1, v)
    else Some(Parsed(val, i))
  }

  function ParseInt(s: string, i: nat): (r: Option<Parsed<int>>)
    requires i <= |s|
    ensures r.Some? ==> i <= r.value.next <= |s| && -INT_MAX <= r.value.value <= INT_MAX
  {
    var q := SkipWs(s, i);
    var negative := q < |s| && s[q] == '-';
    var first := if negative then q + 1 else q;
    if first < |s| && IsDigit(s[first]) then
      match ParseDigits(s, first, 0)
      case None => None
      case Some(p) => Some(Parsed(if negative then -p.value else p.value, p.next))
    else None
  }

  /**
    A parsed message. A pointer into the buffer and its length are one optional span, `None` being
    the null pointer a fresh message starts with.
   */
  datatype MCPMessage = MCPMessage(
    methodName: Option<Span>,
    id: Option<int>,
    params: Option<Span>,
    result: Option<Span>,
    errorCode: int,
    errorMsg: Option<Span>,
    isRequest: bool,
    isResponse: bool,
    hasResult: bool,
    hasError: bool,
    valid: bool,
    raw: Option<Span>)

  const FRESH_MESSAGE: MCPMessage :=
    MCPMessage(None, None, None, None, 0, None, false, false, false, false, false, None)

  /** A key and its colon: the span of the key, and where the value may start. */
  function ParseKey(s: string, i: nat): (r: Option<Parsed<Span>>)
    requires i <= |s|
    ensures r.Some? ==> i < r.value.next <= |s| && r.value.value.End() <= |s|
  {
    match ParseString(s, i)
    case None => None
    case Some(key) =>
      var colon := SkipWs(s, key.End() + 1);
      if colon < |s| && s[colon] == ':' then Some(Parsed(key, colon + 1)) else None
  }

  /** A separator after a member: the loop goes on after a comma and at a closing brace. */
  function MemberSeparator(s: string, i: nat): (r: Option<nat>)
    requires i <= |s|
    ensures r.Some? ==> i <= r.value <= |s|
  {
    var j := SkipWs(s, i);
    if j < |s| && s[j] == ',' then Some(j + 1)
    else if j < |s| && s[j] == '}' then Some(j)
    else None
  }

  function KeyText(s: string, key: Span): string
    requires key.End() <= |s|
  {
    s[key.start..key.End()]
  }

  /** The two member loops: that of `parse`, and that of `parse_error_object` inside it. */
  datatype Level = Message | ErrorObject

  /** What a key is compared with, and so what its value is read as. */
  datatype Role = Code | ErrorText | Method | Id | Error | Params | Result | Other

  function RoleOf(level: Level, name: string): Role {
    if level == ErrorObject then
      if name == "code" then Code else if name == "message" then ErrorText else Other
    else if name == "method" then Method
    else if name == "id" then Id
    else if name == "params" then Params
    else if name == "result" then Result
    else if name == "error" then Error
    else Other
  }

  /** One member, from after its colon: which routine reads the value, and what it records. */
  function Member(role: Role, s: string, i: nat, msg: MCPMessage): (r: Option<Parsed<MCPMessage>>)
    requires i <= |s|
    ensures r.Some? ==> i <= r.value.next <= |s|
    decreases |s| - i, 2
  {
    if role.Code? || role.Id? then
      match ParseInt(s, i)
      case None => None
      case Some(p) => Some(Parsed(RecordInt(role, p.value, msg), p.next))
    else if role.ErrorText? || role.Method? then
      match ParseString(s, i)
      case None => None
      case Some(text) => Some(Parsed(RecordText(role, text, msg), text.End() + 1))
    else if role.Error? then
      match ParseErrorObject(s, i, msg)
      case None => None
      case Some(p) => Some(Parsed(AsResponse(p.value), p.next))
    else
      match SkipValue(s, i)
      case None => None
      case Some(v) => Some(Parsed(RecordSpan(role, v, msg), v.End()))
  }

  function RecordInt(role: Role, n: int, msg: MCPMessage): MCPMessage {
    if role.Code? then msg.(errorCode := n) else msg.(id := Some(n))
  }

  function RecordText(role: Role, text: Span, msg: MCPMessage): MCPMessage {
    if role.ErrorText? then msg.(errorMsg := Some(text))
    else msg.(methodName := Some(text), isRequest := true)
  }

  function AsResponse(msg: MCPMessage): MCPMessage {
    msg.(isResponse := true)
  }

  function RecordSpan(role: Role, v: Span, msg: MCPMessage): MCPMessage {
    if role.Params? then msg.(params := Some(v))
    else if role.Result? then AsResponse(msg).(result := Some(v), hasResult := true)
    else msg
  }

  /** A member and the separator after it. */
  function MemberStep(role: Role, s: string, i: nat, msg: MCPMessage)
    : (r: Option<Parsed<MCPMessage>>)
    requires i <= |s|
    ensures r.Some? ==> i <= r.value.next <= |s|
    decreases |s| - i, 3
  {
    match Member(role, s, i, msg)
    case None => None
    case Some(m) =>
      match MemberSeparator(s, m.next)
      case None => None
      case Some(next) => Some(Parsed(m.value, next))
  }

  function Members(level: Level, s: string, i: nat, msg: MCPMessage): (r: Option<Parsed<MCPMessage>>)
    requires i <= |s|
    ensures r.Some? ==> i <= r.value.next <= |s|
    decreases |s| - i, 0
  {
    var j := SkipWs(s, i);
    if j == |s| then None
    else if s[j] == '}' then Some(Parsed(AtClose(level, msg), j + 1))
    else
      match ParseKey(s, j)
      case None => None
      case Some(key) =>
        match MemberStep(RoleOf(level, KeyText(s, key.value)), s, key.next, msg)
        case None => None
        case Some(m) => Members(level, s, m.next, m.value)
  }

  /** What the closing brace of a loop records. */
  function AtClose(level: Level, msg: MCPMessage): MCPMessage {
    if level == ErrorObject then msg.(hasError := true) else msg
  }

  function ParseErrorObject(s: string, i: nat, msg: MCPMessage): (r: Option<Parsed<MCPMessage>>)
    requires i <= |s|
    ensures r.Some? ==> i <= r.value.next <= |s|
    decreases |s| - i, 1
  {
    var j := SkipWs(s, i);
    if j < |s| && s[j] == '{' then Members(ErrorObject, s, j + 1, msg) else None
  }

  /** `JsonParser::parse` from a given message, when the size limit allows it. */
  function Parse(s: string, msg: MCPMessage): (r: Option<Parsed<MCPMessage>>)
    ensures r.Some? ==> r.value.next <= |s|
  {
    var j := SkipWs(s, 0);
    if j < |s| && s[j] == '{' then Members(Message, s, j + 1, msg.(raw := Some(Span(0, |s|)))) else None
  }

  /** The message `MCPMessage::parse` returns, or `None` when it is not valid. */
  function ParseMessage(s: string, maxBytes: nat): Option<MCPMessage> {
    if s == "" || |s| > maxBytes then None
    else
      match Parse(s, FRESH_MESSAGE)
      case None => None
      case Some(p) => Some(p.value.(valid := true))
  }
}
