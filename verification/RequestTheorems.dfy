/**
  What every printed request is answered with, in terms of the text of its keys and of what the server
  and its security layer say. Nothing here refers to the functions that decide it.
 */
module RequestTheorems {
  import opened Text
  import opened Json
  import opened ParserSpec
  import opened ScanProofs
  import opened Extract
  import opened ExtractProofs
  import opened ParseTheorems
  import opened ParsedFields
  import opened ExtractSearch
  import opened CallParams
  import opened Replies
  import opened McpAdapter

  // ---------------------------------------------------------- characters that are refused

  predicate ShellCharacter(c: char) {
    || c == ';' || c == '|' || c == '&' || c == '$' || c == '(' || c == ')' || c == '`'
    || c == ' ' || c == '\n' || c == '\r'
  }

  /** The two digits behind a percent sign that stand for one of them, or for `<` and `>`. */
  predicate ShellCode(x: char, y: char) {
    || (x == '3' && (y == 'b' || y == 'B' || y == 'c' || y == 'C' || y == 'e' || y == 'E'))
    || (x == '7' && (y == 'c' || y == 'C'))
    || (x == '2' && (y == '6' || y == '4' || y == '8' || y == '9'))
    || (x == '6' && y == '0')
    || (x == '0' && (y == 'a' || y == 'A' || y == 'd' || y == 'D'))
  }

  predicate Harmful(t: string) {
    || (exists c | c in t :: ShellCharacter(c))
    || (exists i | 0 <= i <= |t| - 3 :: t[i] == '%' && ShellCode(t[i + 1], t[i + 2]))
  }

  lemma CharactersAre(c: char)
    ensures c in ";|&$()` \n\r" <==> ShellCharacter(c)
  {
  }

  lemma CodesAre(x: char, y: char)
    ensures ['%', x, y] in ENCODED <==> ShellCode(x, y)
  {
    var t: string := ['%', x, y];
    if ShellCode(x, y) {
      assert t in ENCODED;
    }
  }

  lemma EncodedShape(p: string)
    requires p in ENCODED
    ensures |p| == 3 && p[0] == '%' && p == ['%', p[1], p[2]]
  {
  }

  lemma HarmfulIff(t: string)
    ensures Harmful(t) <==> ContainsShellMetacharacters(t) || ContainsEncodedMetacharacters(t)
  {
    forall c | c in t
      ensures c in ";|&$()` \n\r" <==> ShellCharacter(c)
    {
      CharactersAre(c);
    }
    CodesFound(t);
    hide ShellCharacter, ShellCode, ContainsEncodedMetacharacters;
  }

  lemma CodesFound(t: string)
    ensures ContainsEncodedMetacharacters(t) <==>
            exists i | 0 <= i <= |t| - 3 :: t[i] == '%' && ShellCode(t[i + 1], t[i + 2])
  {
    hide ShellCode, ENCODED, At;
    if ContainsEncodedMetacharacters(t) {
      var p :| p in ENCODED && Contains(t, p);
      EncodedShape(p);
      var i :| 0 <= i <= |t| && At(t, i, p);
      AtChars3(t, i, p[0], p[1], p[2]);
      CodesAre(p[1], p[2]);
    }
    if i :| 0 <= i <= |t| - 3 && t[i] == '%' && ShellCode(t[i + 1], t[i + 2]) {
      CodesAre(t[i + 1], t[i + 2]);
      var p: string := ['%', t[i + 1], t[i + 2]];
      AtChars3(t, i, '%', t[i + 1], t[i + 2]);
      assert p in ENCODED && Contains(t, p);
    }
  }

  lemma AtChars3(t: string, i: nat, x: char, y: char, z: char)
    ensures At(t, i, [x, y, z]) <==> i + 3 <= |t| && t[i] == x && t[i + 1] == y && t[i + 2] == z
  {
    AtSlice(t, i, [x, y, z]);
  }

  // -------------------------------------------------------------- what the texts hold

  /** The string found under a key in the parameters; empty if there is none. */
  function FoundText(params: Option<Json>, key: string): string {
    if params.None? then ""
    else
      match FindText(params.value, key, 0)
      case Some(AsKey(_, item, _)) => if item.value.String? then item.value.body else ""
      case _ => ""
  }

  /** The text found for the arguments. */
  function FoundArguments(params: Json): string {
    match Find(params, "arguments", 0)
    case Some(AsKey(_, item, _)) => Print(item.value) + if Delimited(item.value) then "" else item.post
    case _ => "{}"
  }

  function Slice(t: string, span: Option<Span>, otherwise: string): string
    requires span.Some? ==> span.value.End() <= |t|
  {
    if span.Some? then t[span.value.start..span.value.End()] else otherwise
  }

  lemma TextIsFound(v: Json, key: string)
    requires Scannable(v) && KeyWord(key)
    ensures var span := ExtractedString(Print(v), key);
            (span.Some? ==> span.value.End() <= |Print(v)|) && Slice(Print(v), span, "") == FoundText(Some(v), key)
  {
    var t := Print(v);
    hide Find, FindText, Print, Scannable, ExtractedString, Placed, KeyWord;
    StringFoundInText(v, key);
    var q, hit, text := SearchAll(v, key);
    if text.Some? {
      HitBody(t, text.value, key);
    }
  }

  lemma HitBody(t: string, h: Hit, key: string)
    requires Placed(t, h, key) && h.AsKey? && h.item.value.String?
    ensures var body := h.item.value.body;
            h.at + 1 + |body| <= |t| && t[h.at + 1..h.at + 1 + |body|] == body
  {
    var body := h.item.value.body;
    assert Print(h.item.value) == "\"" + body + "\"";
    hide At, Print, AfterColon;
    StringLayout(t, h.at, body);
    AtSplit(t, h.at + 1, body, "\"");
    AtSlice(t, h.at + 1, body);
  }

  lemma ArgumentsAreFound(v: Json)
    requires Scannable(v)
    ensures var span := ExtractedSpan(Print(v), "arguments");
            (span.Some? ==> span.value.End() <= |Print(v)|) && Slice(Print(v), span, "{}") == FoundArguments(v)
  {
    var t := Print(v);
    KeyWords();
    hide Find, FindText, Print, Scannable, ExtractedSpan, Placed, KeyWord, Delimited;
    SpanFoundInText(v, "arguments");
    var q, hit, text := SearchAll(v, "arguments");
    if hit.Some? && hit.value.AsKey? {
      HitText(t, hit.value, "arguments");
    }
  }

  lemma PieceOfText(t: string, i: nat, value: string, post: string, both: bool)
    requires At(t, i, value) && At(t, i + |value|, post)
    ensures var text := value + if both then post else ""; i + |text| <= |t| && t[i..i + |text|] == text
  {
    hide At;
    if both {
      AtSplit(t, i, value, post);
      AtSlice(t, i, value + post);
    } else {
      AtSlice(t, i, value);
      assert value + "" == value;
    }
  }

  lemma HitText(t: string, h: Hit, key: string)
    requires Placed(t, h, key) && h.AsKey?
    ensures var text := Print(h.item.value) + if Delimited(h.item.value) then "" else h.item.post;
            && ValueLength(h.item) == |text| && h.at + |text| <= |t| && t[h.at..h.at + |text|] == text
  {
    hide At, Print, AfterColon, KeyAt, Delimited, Scannable, AllJsonSpace;
    PieceOfText(t, h.at, Print(h.item.value), h.item.post, !Delimited(h.item.value));
  }

  // --------------------------------------------------------------------- the request

  /**
    The line is a request with this id and method: an object, with anything behind it, in at most a
    megabyte and with an optional carriage return at its end.
   */
  ghost predicate Asks(line: string, pre: string, gap: string, items: Items, rest: string, id: int, name: string) {
    && AllJsonSpace(pre) && Scannable(Container(true, gap, items)) && ScannableItems(items, true)
    && IsLine(line, pre + Print(Container(true, gap, items)) + rest)
    && |pre + Print(Container(true, gap, items)) + rest| <= 1_048_576 && MembersFit(items)
    && LastNamed(items, "method") == Some(String(name))
    && LastNamed(items, "id").Some? && IsInteger(LastNamed(items, "id").value, id)
  }

  predicate IsLine(line: string, text: string) {
    text != "" && (line == text + "\r" || (line == text && text[|text| - 1] != '\r'))
  }

  lemma LineIsText(line: string, text: string)
    requires IsLine(line, text)
    ensures line != "" && Stripped(line) == text
  {
  }

  /** What is understood of the line. */
  lemma Understood(line: string, pre: string, gap: string, items: Items, rest: string, id: int, name: string)
    requires Asks(line, pre, gap, items, rest, id, name)
    ensures var m := MessageOf(line);
            && line != "" && m.Some? && m.value.isRequest && m.value.id == Some(id) && |Stripped(line)| <= 1_048_576
            && FieldsFrom(Stripped(line), items, m.value) && MethodName(Stripped(line), m.value) == name
    ensures LastNamed(items, "params").Some? ==> Scannable(LastNamed(items, "params").value)
  {
    if LastNamed(items, "params").Some? {
      NamedIsScannable(items, "params", true);
    }
    var text := pre + Print(Container(true, gap, items)) + rest;
    hide Print, Scannable, ScannableItems, MembersFit, LastNamed, LastInErrors, ParseMessage, GoodMessage, Stripped;
    LineIsText(line, text);
    ParsedByKey(pre, gap, items, rest, 1_048_576);
    assert MessageOf(line) == ParseMessage(text, 1_048_576);
  }

  /** The token, name and arguments the adapter cuts out of the parameters are those found in their tree. */
  lemma PartsAreFound(text: string, items: Items, m: MCPMessage, params: Option<Json>)
    requires GoodMessage(text, m) && params == LastNamed(items, "params") && ShowsText(text, m.params, params)
    requires params.Some? ==> Scannable(params.value)
    ensures AuthToken(text, m) == FoundText(params, "auth_token")
    ensures m.params.Some? <==> params.Some?
    ensures params.Some? ==>
              && m.params.value.End() <= |text|
              && text[m.params.value.start..m.params.value.End()] == Print(params.value)
  {
    hide Print, Scannable, ExtractedString, KeyWord, FindText, GoodMessage;
    KeyWords();
    if params.Some? {
      TextIsFound(params.value, "auth_token");
    }
  }

  // ------------------------------------------------------------------ who is let through

  /** The error with which the security layer turns a request away. */
  function TurnedAway(id: int, reason: string): Option<Json> {
    Some(ErrorTree(Some(id), -32603, reason))
  }

  /** What lets a request through. */
  predicate LetThrough(security: Security, turn: nat, token: string, name: string) {
    security.authEnabled ==>
      && token != "" && security.validate(turn, token).allowed && security.decode(turn, token) != ""
      && (security.rbacEnabled ==> security.permits(turn, security.decode(turn, token), name))
  }

  /** In whose name. */
  function UserOf(security: Security, turn: nat, token: string): Option<string> {
    if security.authEnabled then Some(security.decode(turn, token)) else None
  }

  lemma GateIs(security: Security, turn: nat, text: string, m: MCPMessage, token: string, name: string)
    requires GoodMessage(text, m) && m.isRequest && AuthToken(text, m) == token && MethodName(text, m) == name
    ensures var gate := Authorize(security, turn, text, m);
            var answer, user := security.validate(turn, token), security.decode(turn, token);
            var known := token != "" && answer.allowed && user != "";
            && (LetThrough(security, turn, token, name) ==> gate == Pass(UserOf(security, turn, token)))
            && (security.authEnabled && token == "" ==> gate == Refuse("Authentication required"))
            && (security.authEnabled && token != "" && !answer.allowed ==> gate == Refuse(answer.error))
            && (security.authEnabled && token != "" && answer.allowed && user == "" ==>
                  gate == Refuse("Invalid token: failed to decode user identity"))
            && (security.authEnabled && known && security.rbacEnabled && !security.permits(turn, user, name) ==>
                  gate == Refuse("Unauthorized"))
  {
    hide GoodMessage, AuthToken, MethodName;
  }

  // ------------------------------------------------------------- what it is answered with

  /** The problem of the first invalid definition. */
  function Problem(tools: seq<ToolDefinition>): string
    requires exists t | t in tools :: !ValidTool(t)
  {
    if !ValidTool(tools[0]) then ToolError(tools[0]).value else Problem(tools[1..])
  }

  function Listed(tools: seq<ToolDefinition>, id: int): Json {
    if forall t | t in tools :: ValidTool(t) then ListTree(Some(id), tools)
    else ErrorTree(Some(id), -32603, "Invalid tool definition: " + Problem(tools))
  }

  /** A call of the tool by the name and with the arguments found in the parameters. */
  function Called(server: Server, turn: nat, params: Option<Json>, id: int, user: Option<string>): Json {
    if params.None? then ErrorTree(Some(id), -32602, "Invalid params")
    else if FoundText(params, "name") == "" then ErrorTree(Some(id), -32602, "Missing tool name")
    else if Harmful(FoundArguments(params.value)) then
      ErrorTree(Some(id), -32602, "Arguments contain invalid characters (potential injection)")
    else CallTree(Some(id), server.callTool(turn, FoundText(params, "name"), FoundArguments(params.value), user))
  }

  /** The reply to a request that is let through, by the text of its method. */
  function Served(server: Server, turn: nat, params: Option<Json>, id: int, name: string, user: Option<string>): Json {
    if name == "initialize" then InitializeTree(Some(id), server.protocol, server.name, server.version)
    else if name == "tools/list" then Listed(server.tools(turn), id)
    else if name == "tools/call" then Called(server, turn, params, id, user)
    else ErrorTree(Some(id), -32601, "Method not found")
  }

  lemma {:induction false} ProblemIsError(tools: seq<ToolDefinition>)
    requires exists t | t in tools :: !ValidTool(t)
    ensures ToolsError(tools) == Some(Problem(tools))
  {
    hide ValidTool;
    if ValidTool(tools[0]) {
      var t :| t in tools && !ValidTool(t);
      assert t in tools[1..];
      ProblemIsError(tools[1..]);
    }
  }

  lemma ListedIs(server: Server, turn: nat, id: int)
    ensures AnswerTree(Some(id), AnswerList(server, turn)) == Listed(server.tools(turn), id)
  {
    var tools := server.tools(turn);
    hide ValidTool, ToolError, ListTree, ErrorTree;
    if exists t | t in tools :: !ValidTool(t) {
      ProblemIsError(tools);
    }
  }

  /** A megabyte is never exceeded: the line itself is no longer. */
  lemma CalledIs(server: Server, turn: nat, text: string, m: MCPMessage, params: Option<Json>, id: int,
                 user: Option<string>)
    requires GoodMessage(text, m) && |text| <= 1_048_576
    requires m.params.Some? <==> params.Some?
    requires params.Some? ==>
               && Scannable(params.value) && m.params.value.End() <= |text|
               && text[m.params.value.start..m.params.value.End()] == Print(params.value)
    ensures AnswerTree(Some(id), AnswerCall(server, turn, text, m, user)) == Called(server, turn, params, id, user)
  {
    hide Scannable, ExtractedString, ExtractedSpan, FindText, Find, GoodMessage, ErrorTree, CallTree, KeyWord,
      Harmful, ContainsShellMetacharacters, ContainsEncodedMetacharacters, FoundText, FoundArguments;
    if params.Some? {
      PrintIsSomething(params.value);
      hide Print;
      KeyWords();
      ParamsSound(text, m);
      TextIsFound(params.value, "name");
      ArgumentsAreFound(params.value);
      HarmfulIff(FoundArguments(params.value));
    }
  }

  lemma PrintIsSomething(v: Json)
    requires Scannable(v)
    ensures Print(v) != ""
  {
  }

  lemma ServedIs(server: Server, turn: nat, text: string, m: MCPMessage, params: Option<Json>, id: int,
                 name: string, user: Option<string>)
    requires GoodMessage(text, m) && m.isRequest && |text| <= 1_048_576 && MethodName(text, m) == name
    requires m.params.Some? <==> params.Some?
    requires params.Some? ==>
               && Scannable(params.value) && m.params.value.End() <= |text|
               && text[m.params.value.start..m.params.value.End()] == Print(params.value)
    requires Authorize(server.security, turn, text, m) == Pass(user)
    ensures AnswerTree(Some(id), AnswerRequest(server, turn, text, m)) ==
            Served(server, turn, params, id, name, user)
  {
    hide Scannable, Print, GoodMessage, MethodName, Authorize, AnswerCall, AnswerList, Called, Listed, ErrorTree,
      InitializeTree, CallTree, ListTree;
    CalledIs(server, turn, text, m, params, id, user);
    ListedIs(server, turn, id);
  }

  lemma RefusedIs(server: Server, turn: nat, text: string, m: MCPMessage, id: int, reason: string)
    requires GoodMessage(text, m) && m.isRequest && Authorize(server.security, turn, text, m) == Refuse(reason)
    ensures AnswerTree(Some(id), AnswerRequest(server, turn, text, m)) == ErrorTree(Some(id), -32603, reason)
  {
    hide GoodMessage, Authorize, ErrorTree;
  }

  lemma RequestReply(server: Server, turn: nat, line: string, id: int)
    requires line != "" && MessageOf(line).Some?
    requires MessageOf(line).value.isRequest && MessageOf(line).value.id == Some(id)
    ensures ReplyTo(server, turn, line) ==
            Some(AnswerTree(Some(id), AnswerRequest(server, turn, Stripped(line), MessageOf(line).value)))
  {
    hide MessageOf, AnswerTree, AnswerRequest, Stripped;
  }

  /**
    A printed request is let through exactly when authentication is off, or its token is there, is
    allowed, stands for a user, and roles are off or permit that user the method. Then it is served by
    its method. Otherwise the reply is an error with the reason of the first check that fails.
   */
  lemma RequestsAreAnswered(server: Server, turn: nat, line: string,
                            pre: string, gap: string, items: Items, rest: string, id: int, name: string)
    requires Asks(line, pre, gap, items, rest, id, name)
    ensures var security, params := server.security, LastNamed(items, "params");
            var token := FoundText(params, "auth_token");
            var answer, user := security.validate(turn, token), security.decode(turn, token);
            var known := token != "" && answer.allowed && user != "";
            var reply := ReplyTo(server, turn, line);
            && (LetThrough(security, turn, token, name) ==>
                  reply == Some(Served(server, turn, params, id, name, UserOf(security, turn, token))))
            && (security.authEnabled && token == "" ==> reply == TurnedAway(id, "Authentication required"))
            && (security.authEnabled && token != "" && !answer.allowed ==> reply == TurnedAway(id, answer.error))
            && (security.authEnabled && token != "" && answer.allowed && user == "" ==>
                  reply == TurnedAway(id, "Invalid token: failed to decode user identity"))
            && (security.authEnabled && known && security.rbacEnabled && !security.permits(turn, user, name) ==>
                  reply == TurnedAway(id, "Unauthorized"))
  {
    hide *;
    var params := LastNamed(items, "params");
    Understood(line, pre, gap, items, rest, id, name);
    var text, m := Stripped(line), MessageOf(line).value;
    ParamsShown(text, items, m);
    PartsAreFound(text, items, m, params);
    RequestReply(server, turn, line, id);
    Decided(server, turn, text, m, params, id, name, FoundText(params, "auth_token"));
  }

  lemma ParamsShown(text: string, items: Items, m: MCPMessage)
    requires FieldsFrom(text, items, m)
    ensures ShowsText(text, m.params, LastNamed(items, "params"))
  {
    hide ShowsText, ShowsBody, LastNamed, LastInErrors;
  }

  lemma Decided(server: Server, turn: nat, text: string, m: MCPMessage, params: Option<Json>, id: int,
                name: string, token: string)
    requires GoodMessage(text, m) && m.isRequest && |text| <= 1_048_576
    requires MethodName(text, m) == name && AuthToken(text, m) == token
    requires m.params.Some? <==> params.Some?
    requires params.Some? ==>
               && Scannable(params.value) && m.params.value.End() <= |text|
               && text[m.params.value.start..m.params.value.End()] == Print(params.value)
    ensures var security := server.security;
            var answer, user := security.validate(turn, token), security.decode(turn, token);
            var known := token != "" && answer.allowed && user != "";
            var reply := Some(AnswerTree(Some(id), AnswerRequest(server, turn, text, m)));
            && (LetThrough(security, turn, token, name) ==>
                  reply == Some(Served(server, turn, params, id, name, UserOf(security, turn, token))))
            && (security.authEnabled && token == "" ==> reply == TurnedAway(id, "Authentication required"))
            && (security.authEnabled && token != "" && !answer.allowed ==> reply == TurnedAway(id, answer.error))
            && (security.authEnabled && token != "" && answer.allowed && user == "" ==>
                  reply == TurnedAway(id, "Invalid token: failed to decode user identity"))
            && (security.authEnabled && known && security.rbacEnabled && !security.permits(turn, user, name) ==>
                  reply == TurnedAway(id, "Unauthorized"))
  {
    hide Scannable, Print, GoodMessage, MethodName, AuthToken, Authorize, AnswerRequest, AnswerTree, Served, ErrorTree;
    GateIs(server.security, turn, text, m, token, name);
    var gate := Authorize(server.security, turn, text, m);
    match gate
    case Pass(user) => ServedIs(server, turn, text, m, params, id, name, user);
    case Refuse(reason) => RefusedIs(server, turn, text, m, id, reason);
  }

  // ---------------------------------------------------------------------- tools/call

  lemma NameIsFound(gap: string, before: Items, name: Item, after: Items, params: Json)
    requires params == ObjectWith(gap, before, name, after) && !ItemsHold(before, "name")
    requires name.key.Key? && name.key.name == "name" && name.value.String?
    ensures FoundText(Some(params), "name") == name.value.body
  {
    hide ObjectWith, ItemsHold, FindText, ValueOffset;
    var first, mine := FirstString(gap, before, name, after, "name");
  }

  lemma ArgumentsAreThose(gap: string, before: Items, item: Item, after: Items, params: Json)
    requires params == ObjectWith(gap, before, item, after) && !ItemsMention(before, "arguments")
    requires item.key.Key? && item.key.name == "arguments" && item.post == ""
    ensures FoundArguments(params) == Print(item.value)
  {
    hide ObjectWith, ItemsMention, Find, ValueOffset, Print;
    var first, mine := FirstSpan(gap, before, item, after, "arguments");
    assert Print(item.value) + "" == Print(item.value);
  }

  lemma CalledWith(server: Server, turn: nat, id: int, user: Option<string>, params: Json, n: string, v: string)
    requires FoundText(Some(params), "name") == n && FoundArguments(params) == v
    ensures Called(server, turn, Some(params), id, user) ==
            if n == "" then ErrorTree(Some(id), -32602, "Missing tool name")
            else if Harmful(v) then
              ErrorTree(Some(id), -32602, "Arguments contain invalid characters (potential injection)")
            else CallTree(Some(id), server.callTool(turn, n, v, user))
  {
    hide FoundText, FoundArguments, Harmful, ErrorTree, CallTree;
  }

  /**
    A call, let through, whose parameters hold a tool's name and arguments at their top level, in any order
    and among any other members, and nothing in front of them that the searches take for them: the tool
    of that name is called with exactly the print of those arguments, in the name of the token's user,
    and what it returns is sent; unless the name is empty or the arguments hold a character that is
    refused.
   */
  lemma CallsAreAnswered(server: Server, turn: nat, line: string,
                         pre: string, gap: string, items: Items, rest: string, id: int,
                         gap': string, before: Items, name: Item, after: Items,
                         before': Items, arguments: Item, after': Items)
    requires Asks(line, pre, gap, items, rest, id, "tools/call")
    requires LastNamed(items, "params") == Some(ObjectWith(gap', before, name, after))
    requires ObjectWith(gap', before, name, after) == ObjectWith(gap', before', arguments, after')
    requires name.key.Key? && name.key.name == "name" && name.value.String? && !ItemsHold(before, "name")
    requires arguments.key.Key? && arguments.key.name == "arguments" && !ItemsMention(before', "arguments")
    requires arguments.post == ""
    requires LetThrough(server.security, turn, FoundText(LastNamed(items, "params"), "auth_token"), "tools/call")
    ensures var n, v := name.value.body, Print(arguments.value);
            var user := UserOf(server.security, turn, FoundText(LastNamed(items, "params"), "auth_token"));
            ReplyTo(server, turn, line) ==
            Some(if n == "" then ErrorTree(Some(id), -32602, "Missing tool name")
                 else if Harmful(v) then
                   ErrorTree(Some(id), -32602, "Arguments contain invalid characters (potential injection)")
                 else CallTree(Some(id), server.callTool(turn, n, v, user)))
  {
    hide *;
    var params := ObjectWith(gap', before, name, after);
    var user := UserOf(server.security, turn, FoundText(Some(params), "auth_token"));
    RequestsAreAnswered(server, turn, line, pre, gap, items, rest, id, "tools/call");
    ServedCall(server, turn, Some(params), id, user);
    NameIsFound(gap', before, name, after, params);
    ArgumentsAreThose(gap', before', arguments, after', params);
    CalledWith(server, turn, id, user, params, name.value.body, Print(arguments.value));
  }

  lemma ServedCall(server: Server, turn: nat, params: Option<Json>, id: int, user: Option<string>)
    ensures Served(server, turn, params, id, "tools/call", user) == Called(server, turn, params, id, user)
  {
    hide Called, Listed, InitializeTree, ErrorTree;
    assert "tools/call"[6] == 'c' && "tools/list"[6] == 'l' && "initialize"[0] == 'i';
  }

  // ------------------------------------------------------------------- all other lines

  /**
    A printed object is answered with a parse error if it is too long or some member does not fit its
    key, and not at all if it is well but has no method or no id.
   */
  lemma OtherLines(server: Server, turn: nat, line: string, text: string,
                   pre: string, gap: string, items: Items, rest: string)
    requires AllJsonSpace(pre) && Scannable(Container(true, gap, items)) && ScannableItems(items, true)
    requires text == pre + Print(Container(true, gap, items)) + rest && IsLine(line, text)
    ensures !MembersFit(items) || |text| > 1_048_576 ==>
              ReplyTo(server, turn, line) == Some(ErrorTree(None, -32700, "Parse error"))
    ensures MembersFit(items) && |text| <= 1_048_576 ==>
              (ReplyTo(server, turn, line) == None <==>
               LastNamed(items, "method").None? || LastNamed(items, "id").None?)
  {
    hide Print, Scannable, ScannableItems, MembersFit, LastNamed, LastInErrors, ParseMessage, GoodMessage, ErrorTree,
      AnswerTree, AnswerRequest, Stripped, IsLine;
    LineIsText(line, text);
    ParsedByKey(pre, gap, items, rest, 1_048_576);
    assert MessageOf(line) == ParseMessage(text, 1_048_576);
  }
}
