/**
  The stdio server: one line in, at most one line out. What a subclass or the security layer decides
  is a parameter: the tools it lists, what a tool call returns, what the authentication handler makes
  of a token and which methods a user may call. Each may answer differently at every turn, that is,
  for every line of the input.
 */
module McpAdapter {
  import opened Text
  import opened Json
  import opened ParserSpec
  import opened ParseTheorems
  import opened JsonParserModule
  import opened B = JsonBuilderModule
  import opened Decimal
  import opened Escape
  import opened Extract
  import opened ExtractProofs
  import opened Replies

  /** The answer of the authentication handler to a token. */
  datatype AuthResult = AuthResult(allowed: bool, error: string)

  /** The security layer: `decode` yields the user of a token, `permits` says what a user may call. */
  datatype Security = Security(
    authEnabled: bool,
    rbacEnabled: bool,
    validate: (nat, string) -> AuthResult,
    decode: (nat, string) -> string,
    permits: (nat, string, string) -> bool)

  /** A request that passes does so in the name of a user, if authentication is on. */
  datatype Gate = Pass(user: Option<string>) | Refuse(reason: string)

  /** The virtual functions and settings of one server. */
  datatype Server = Server(
    name: string,
    version: string,
    protocol: string,
    tools: nat -> seq<ToolDefinition>,
    callTool: (nat, string, string, Option<string>) -> ToolResult,
    security: Security)

  const MAX_PARAMS_SIZE: nat := 1024 * 1024

  function ContainsShellMetacharacters(s: string): bool {
    exists c | c in s :: c in ";|&$()` \n\r"
  }

  const ENCODED: seq<string> :=
    ["%3b", "%3B", "%7c", "%7C", "%26", "%24", "%28", "%29", "%60",
     "%3c", "%3C", "%3e", "%3E", "%0a", "%0A", "%0d", "%0D"]

  function ContainsEncodedMetacharacters(s: string): bool {
    exists p | p in ENCODED :: Contains(s, p)
  }

  // ------------------------------------------------------------ tool definitions

  predicate ValidName(name: string) {
    name != "" && |name| <= 256 && '\n' !in name && '\r' !in name && '\0' !in name
  }

  predicate ValidParam(p: ToolParam) {
    ValidName(p.name) && p.kind in ["string", "integer", "boolean", "number"] && |p.description| <= 1024
  }

  /** What a definition must be like for the adapter to list it. */
  predicate ValidTool(t: ToolDefinition) {
    && ValidName(t.name) && |t.description| <= 4096
    && |t.params| <= 256 && forall p | p in t.params :: ValidParam(p)
  }

  function NameError(name: string): Option<string> {
    if name == "" then Some("cannot be empty")
    else if '\n' in name || '\r' in name || '\0' in name then Some("contains invalid control characters")
    else None
  }

  function ParamError(p: ToolParam): (e: Option<string>)
    ensures e.None? <==> ValidParam(p)
  {
    match NameError(p.name)
    case Some(e) => Some("Parameter name " + e)
    case None =>
      if |p.name| > 256 then Some("Parameter name exceeds maximum length")
      else if p.kind !in ["string", "integer", "boolean", "number"] then
        Some("Parameter type must be string, integer, boolean, or number")
      else if |p.description| > 1024 then Some("Parameter description exceeds maximum length")
      else None
  }

  function ParamsError(params: seq<ToolParam>): (e: Option<string>)
    ensures e.None? <==> forall p | p in params :: ValidParam(p)
  {
    if params == [] then None
    else if ParamError(params[0]).Some? then ParamError(params[0])
    else ParamsError(params[1..])
  }

  /** `validate_tool_definition`: `None` when the definition is valid. */
  function ToolError(t: ToolDefinition): (e: Option<string>)
    ensures e.None? <==> ValidTool(t)
  {
    match NameError(t.name)
    case Some(e) => Some("Tool name " + e)
    case None =>
      if |t.name| > 256 then Some("Tool name exceeds maximum length (256 characters)")
      else if |t.description| > 4096 then Some("Tool description exceeds maximum length (4096 characters)")
      else if |t.params| > 256 then Some("Too many parameters (maximum 256)")
      else ParamsError(t.params)
  }

  function ToolsError(tools: seq<ToolDefinition>): (e: Option<string>)
    ensures e.None? <==> forall t | t in tools :: ValidTool(t)
  {
    if tools == [] then None
    else if ToolError(tools[0]).Some? then ToolError(tools[0])
    else ToolsError(tools[1..])
  }

  // ----------------------------------------------------------------- what is replied

  /** What a request is answered with. */
  datatype Answer =
    | ErrorAnswer(code: int, message: string)
    | InitializeAnswer(protocol: string, name: string, version: string)
    | ListAnswer(tools: seq<ToolDefinition>)
    | CallAnswer(result: ToolResult)

  function AnswerTree(id: Option<int>, answer: Answer): Json {
    match answer
    case ErrorAnswer(code, message) => ErrorTree(id, code, message)
    case InitializeAnswer(protocol, name, version) => InitializeTree(id, protocol, name, version)
    case ListAnswer(tools) => ListTree(id, tools)
    case CallAnswer(result) => CallTree(id, result)
  }

  /** `tools/call`: the parameters of a parsed request, then the validator, then the tool. */
  function AnswerCall(server: Server, turn: nat, line: string, m: MCPMessage, user: Option<string>): (a: Answer)
    requires GoodMessage(line, m)
    ensures a.ErrorAnswer? || a.CallAnswer?
    ensures a.ErrorAnswer? ==> Fits(a.code)
  {
    if m.params.None? || m.params.value.len == 0 then ErrorAnswer(-32602, "Invalid params")
    else if m.params.value.len > MAX_PARAMS_SIZE then
      ErrorAnswer(-32602, "Parameters exceed maximum size (1 MB)")
    else
      ParamsSound(line, m);
      var params := line[m.params.value.start..m.params.value.End()];
      var name := ExtractedString(params, "name");
      if name.None? || name.value.len == 0 then ErrorAnswer(-32602, "Missing tool name")
      else
        var found := ExtractedSpan(params, "arguments");
        var args := if found.Some? then params[found.value.start..found.value.End()] else "{}";
        if ContainsShellMetacharacters(args) || ContainsEncodedMetacharacters(args) then
          ErrorAnswer(-32602, "Arguments contain invalid characters (potential injection)")
        else
          CallAnswer(server.callTool(turn, params[name.value.start..name.value.End()], args, user))
  }

  /** `extract_auth_token`: the first text under the key in the parameters, or nothing. */
  function AuthToken(line: string, m: MCPMessage): string
    requires GoodMessage(line, m)
  {
    if m.params.None? then ""
    else
      var params := line[m.params.value.start..m.params.value.End()];
      match ExtractedString(params, "auth_token")
      case None => ""
      case Some(token) => params[token.start..token.End()]
  }

  function MethodName(line: string, m: MCPMessage): string
    requires GoodMessage(line, m) && m.isRequest
  {
    line[m.methodName.value.start..m.methodName.value.End()]
  }

  /** Authentication, if it is on, and then the roles, if those are on too. */
  function Authorize(security: Security, turn: nat, line: string, m: MCPMessage): Gate
    requires GoodMessage(line, m) && m.isRequest
  {
    if !security.authEnabled then Pass(None)
    else
      var token := AuthToken(line, m);
      var user := security.decode(turn, token);
      if token == "" then Refuse("Authentication required")
      else if !security.validate(turn, token).allowed then Refuse(security.validate(turn, token).error)
      else if user == "" then Refuse("Invalid token: failed to decode user identity")
      else if security.rbacEnabled && !security.permits(turn, user, MethodName(line, m)) then Refuse("Unauthorized")
      else Pass(Some(user))
  }

  /** The slices the adapter takes of its parameters are in range. */
  lemma ParamsSound(line: string, m: MCPMessage)
    requires GoodMessage(line, m) && m.params.Some?
    ensures m.params.value.End() <= |line|
    ensures var params := line[m.params.value.start..m.params.value.End()];
            && (ExtractedSpan(params, "arguments").Some? ==>
                  ExtractedSpan(params, "arguments").value.End() <= |params|)
            && (ExtractedString(params, "name").Some? ==> ExtractedString(params, "name").value.End() <= |params|)
  {
    var i :| 0 <= i <= |line| && SkipValue(line, i) == m.params;
    SpanOfSkippedValueInside(line, i, "arguments");
  }

  function AnswerList(server: Server, turn: nat): (a: Answer)
    ensures a.ListAnswer? ==> ToolsError(a.tools).None? && a.tools == server.tools(turn)
    ensures a.ErrorAnswer? ==> Fits(a.code)
  {
    match ToolsError(server.tools(turn))
    case Some(e) => ErrorAnswer(-32603, "Invalid tool definition: " + e)
    case None => ListAnswer(server.tools(turn))
  }

  function AnswerRequest(server: Server, turn: nat, line: string, m: MCPMessage): (a: Answer)
    requires GoodMessage(line, m) && m.isRequest
    ensures a.ListAnswer? ==> ToolsError(a.tools).None? && a.tools == server.tools(turn)
    ensures a.ErrorAnswer? ==> Fits(a.code)
  {
    match Authorize(server.security, turn, line, m)
    case Refuse(reason) => ErrorAnswer(-32603, reason)
    case Pass(user) =>
      var name := MethodName(line, m);
      if name == "initialize" then InitializeAnswer(server.protocol, server.name, server.version)
      else if name == "tools/list" then AnswerList(server, turn)
      else if name == "tools/call" then AnswerCall(server, turn, line, m, user)
      else ErrorAnswer(-32601, "Method not found")
  }

  /** A carriage return at the end of a line is not part of it. */
  function Stripped(line: string): string {
    if line != "" && line[|line| - 1] == '\r' then line[..|line| - 1] else line
  }

  function MessageOf(line: string): (m: Option<MCPMessage>)
    ensures m.Some? ==> GoodMessage(Stripped(line), m.value)
  {
    var m := ParseMessage(Stripped(line), DEFAULT_MAX_BYTES);
    if m.Some? then ParsedMessageGood(Stripped(line), DEFAULT_MAX_BYTES); m else m
  }

  /** The reply to one input line, if there is one. */
  function ReplyTo(server: Server, turn: nat, line: string): Option<Json> {
    if line == "" then None
    else
      match MessageOf(line)
      case None => Some(ErrorTree(None, -32700, "Parse error"))
      case Some(m) =>
        if m.isRequest && m.id.Some? then Some(AnswerTree(m.id, AnswerRequest(server, turn, Stripped(line), m)))
        else None
  }

  function Replied(server: Server, lines: seq<string>): seq<string> {
    if lines == [] then []
    else
      var before := Replied(server, lines[..|lines| - 1]);
      match ReplyTo(server, |lines| - 1, lines[|lines| - 1])
      case None => before
      case Some(tree) => before + [Print(tree)]
  }

  // --------------------------------------------------------------------- the server

  class MCPAdapter {
    const server: Server
    /** The lines written to the standard output. */
    var out: seq<string>

    constructor (server: Server)
      ensures this.server == server && out == []
    {
      this.server := server;
      out := [];
    }

    /** What every handler writes first: the protocol version and the id, or a null id. */
    method StartReply(id: Option<int>) returns (b: JsonBuilder)
      ensures fresh(b) && b.Valid() && b.draft == Some(Open(Root(Opening(id))))
    {
      hide Emit, Sound, DraftText, EscapeAll, CStr, IntJson, IsText, WellFormedNumeral;
      b := new JsonBuilder();
      b.StartObject();
      b.AddField("jsonrpc", "2.0");
      ghost var first, second := Named("jsonrpc", TextValue("2.0")), Named("id", IdJson(id));
      SnocSteps(first, second, second);
      assert b.draft == Some(Open(Root(One(first))));
      IdIsTidy(id);
      if id.Some? {
        b.AddFieldNumber("id", id.value);
      } else {
        NullText();
        b.AddFieldRaw("id", "null", Some(Plain(Null)));
      }
    }

    /** What every handler does last: close the member and the message, and write one line. */
    method FinishReply(b: JsonBuilder, ghost id: Option<int>, ghost name: string, ghost items: Items)
      requires b.Valid() && b.draft == Some(Open(Nested(Root(Opening(id)), name, true, items)))
      modifies this`out, b
      ensures out == old(out) + [Print(ReplyTree(id, Named(name, Obj(items))))]
    {
      hide Emit, Sound, EscapeAll, CStr, IntJson, Snoc, Print, StackText;
      b.CloseObjectField();
      ReplySnoc(id, Named(name, Obj(items)));
      b.EndObject();
      out := out + [b.buffer];
    }

    method SendError(id: Option<int>, code: int, message: string)
      modifies this`out
      ensures out == old(out) + [Print(ErrorTree(id, code, message))]
    {
      hide Emit, Sound, DraftText, EscapeAll, CStr, IntJson, IsText, Print, WellFormedNumeral, Opening, Snoc;
      ghost var root := Root(Opening(id));
      ghost var first, second := Named("code", IntJson(code)), Named("message", TextValue(message));
      SnocSteps(first, second, second);
      IdIsTidy(Some(code));
      var b := StartReply(id);
      b.AddObjectField("error");
      b.AddFieldNumber("code", code);
      b.AddField("message", message);
      FinishReply(b, id, "error", Two(first, second));
    }

    /** A member whose value is an object of two strings. */
    method AddPair(b: JsonBuilder, key: string, k1: string, v1: string, k2: string, v2: string, ghost stack: Stack)
      requires b.Valid() && b.draft == Some(Open(stack)) && InObject(stack)
      modifies b
      ensures b.Valid() && b.draft == Some(Open(Add(stack, Named(key, PairTree(k1, v1, k2, v2)))))
    {
      hide Emit, Sound, DraftText, EscapeAll, CStr, IsText, Print, Snoc;
      ghost var first, second := Named(k1, TextValue(v1)), Named(k2, TextValue(v2));
      SnocSteps(first, second, second);
      b.AddObjectField(key);
      b.AddField(k1, v1);
      b.AddField(k2, v2);
      b.CloseObjectField();
    }

    /** `"capabilities":{"tools":{}}` */
    method AddCapabilities(b: JsonBuilder, ghost stack: Stack)
      requires b.Valid() && b.draft == Some(Open(stack)) && InObject(stack)
      modifies b
      ensures b.Valid()
      ensures b.draft == Some(Open(Add(stack, Named("capabilities", Obj(One(Named("tools", Obj(Nil))))))))
    {
      hide Emit, Sound, DraftText, CStr, IsText, Print, Snoc, EscapeAll, IntJson;
      ghost var tools := Named("tools", Obj(Nil));
      SnocSteps(tools, tools, tools);
      b.AddObjectField("capabilities");
      b.AddObjectField("tools");
      b.CloseObjectField();
      b.CloseObjectField();
    }

    method HandleInitialize(id: Option<int>)
      modifies this`out
      ensures out == old(out) + [Print(InitializeTree(id, server.protocol, server.name, server.version))]
    {
      hide Emit, Sound, DraftText, EscapeAll, CStr, Print, Opening, Snoc, PairTree, Named;
      ghost var first := Named("protocolVersion", TextValue(server.protocol));
      ghost var second := Named("capabilities", Obj(One(Named("tools", Obj(Nil)))));
      ghost var third := Named("serverInfo", PairTree("name", server.name, "version", server.version));
      SnocSteps(first, second, third);
      var b := StartReply(id);
      b.AddObjectField("result");
      ghost var root := Root(Opening(id));
      AddText(b, "protocolVersion", server.protocol, Nested(root, "result", true, Nil));
      AddCapabilities(b, Nested(root, "result", true, One(first)));
      AddPair(b, "serverInfo", "name", server.name, "version", server.version,
              Nested(root, "result", true, Two(first, second)));
      FinishReply(b, id, "result", Three(first, second, third));
    }

    method AddText(b: JsonBuilder, key: string, value: string, ghost stack: Stack)
      requires b.Valid() && b.draft == Some(Open(stack)) && InObject(stack)
      modifies b
      ensures b.Valid() && b.draft == Some(Open(Add(stack, Named(key, TextValue(value)))))
    {
      hide Emit, Sound, DraftText, EscapeAll, CStr, Snoc;
      b.AddField(key, value);
    }

    /** The content object of a tool result, built apart and then inserted as raw text. */
    method BuildContent(text: string) returns (b: JsonBuilder)
      ensures fresh(b) && b.Valid() && b.buffer == Print(ContentTree(text))
    {
      hide Emit, Sound, EscapeAll, CStr, Print, Snoc, StackText;
      ghost var first, second := Named("type", TextValue("text")), Named("text", TextValue(text));
      SnocSteps(first, second, second);
      b := new JsonBuilder();
      b.StartObject();
      b.AddField("type", "text");
      b.AddField("text", text);
      b.EndObject();
    }

    method SendResult(id: Option<int>, result: ToolResult)
      modifies this`out
      ensures out == old(out) + [Print(CallTree(id, result))]
    {
      hide Emit, Sound, DraftText, EscapeAll, CStr, Print, Opening, Snoc, ContentTree, IsText, Element;
      ghost var tree := ContentTree(result.text);
      ghost var element := Element(Plain(tree));
      ghost var first := Named("content", Arr(One(element)));
      ghost var second := Named("isError", if result.isError then True else False);
      SnocSteps(element, element, element);
      SnocSteps(first, second, second);
      var cb := BuildContent(result.text);
      RawContent(cb.buffer, result.text);
      var b := StartReply(id);
      b.AddObjectField("result");
      ghost var stack := Nested(Root(Opening(id)), "result", true, Nil);
      b.AddArrayField("content");
      b.AddArrayElementRaw(cb.buffer, Some(Plain(tree)));
      assert b.draft == Some(Open(Nested(stack, "content", false, One(element))));
      CloseArray(b, stack, "content", One(element));
      assert b.draft == Some(Open(Nested(Root(Opening(id)), "result", true, One(first))));
      b.AddFieldBool("isError", result.isError);
      FinishReply(b, id, "result", Two(first, second));
    }

    method CloseArray(b: JsonBuilder, ghost stack: Stack, ghost key: string, ghost items: Items)
      requires b.Valid() && b.draft == Some(Open(Nested(stack, key, false, items)))
      modifies b
      ensures b.Valid() && b.draft == Some(Open(Add(stack, Named(key, Arr(items)))))
    {
      hide Emit, Sound, DraftText, CStr, Snoc;
      b.CloseArrayField();
    }

    /** `"properties":{...}` of a tool's schema: one member for every parameter, in order. */
    method AddProperties(b: JsonBuilder, params: seq<ToolParam>, ghost stack: Stack)
      requires b.Valid() && b.draft == Some(Open(stack)) && InObject(stack)
      modifies b
      ensures b.Valid() && b.draft == Some(Open(Add(stack, Named("properties", Obj(PropertyItems(params))))))
    {
      hide Emit, Sound, DraftText, CStr, Snoc, PairTree, Named;
      Renamed("properties", Obj(PropertyItems(params)));
      b.AddObjectField("properties");
      for i := 0 to |params|
        invariant b.Valid()
        invariant b.draft == Some(Open(Nested(stack, "properties", true, PropertyItems(params[..i]))))
      {
        var p := params[i];
        PropertyStep(params, i);
        AddPair(b, p.name, "type", p.kind, "description", p.description,
                Nested(stack, "properties", true, PropertyItems(params[..i])));
      }
      assert params[..|params|] == params;
      b.CloseObjectField();
    }

    /** `"required":[...]`: the names of the required parameters, in order. */
    method AddRequired(b: JsonBuilder, params: seq<ToolParam>, ghost stack: Stack)
      requires b.Valid() && b.draft == Some(Open(stack)) && InObject(stack)
      modifies b
      ensures b.Valid() && b.draft == Some(Open(Add(stack, Named("required", Arr(RequiredItems(params))))))
    {
      hide Emit, Sound, DraftText, EscapeAll, CStr, Snoc;
      b.AddArrayField("required");
      for i := 0 to |params|
        invariant b.Valid()
        invariant b.draft == Some(Open(Nested(stack, "required", false, RequiredItems(params[..i]))))
      {
        var p := params[i];
        RequiredStep(params, i);
        if p.required {
          b.AddArrayElement(p.name);
        }
      }
      assert params[..|params|] == params;
      CloseArray(b, stack, "required", RequiredItems(params));
    }

    /** The descriptor of one tool, built apart. */
    method BuildTool(t: ToolDefinition) returns (b: JsonBuilder)
      ensures fresh(b) && b.Valid() && b.buffer == Print(ToolTree(t))
    {
      hide Emit, Sound, EscapeAll, CStr, Print, Snoc, StackText, Named, PropertyItems, RequiredItems;
      ghost var name, description := Named("name", TextValue(t.name)), Named("description", TextValue(t.description));
      ghost var schema := Named("inputSchema", SchemaTree(t.params));
      SnocSteps(name, description, schema);
      b := new JsonBuilder();
      b.StartObject();
      AddText(b, "name", t.name, Root(Nil));
      AddText(b, "description", t.description, Root(One(name)));
      AddSchema(b, t.params, Root(Two(name, description)));
      b.EndObject();
    }

    method AddSchema(b: JsonBuilder, params: seq<ToolParam>, ghost stack: Stack)
      requires b.Valid() && b.draft == Some(Open(stack)) && InObject(stack)
      modifies b
      ensures b.Valid() && b.draft == Some(Open(Add(stack, Named("inputSchema", SchemaTree(params)))))
    {
      hide Emit, Sound, DraftText, EscapeAll, CStr, Snoc, PropertyItems, RequiredItems;
      ghost var first, second := Named("type", TextValue("object")), Named("properties", Obj(PropertyItems(params)));
      ghost var third := Named("required", Arr(RequiredItems(params)));
      SnocSteps(first, second, third);
      b.AddObjectField("inputSchema");
      AddText(b, "type", "object", Nested(stack, "inputSchema", true, Nil));
      AddProperties(b, params, Nested(stack, "inputSchema", true, One(first)));
      AddRequired(b, params, Nested(stack, "inputSchema", true, Two(first, second)));
      b.CloseObjectField();
    }

    method HandleToolsList(turn: nat, id: Option<int>)
      modifies this`out
      ensures out == old(out) + [Print(AnswerTree(id, AnswerList(server, turn)))]
    {
      hide Print, ErrorTree, ListTree, ToolError;
      var tools := server.tools(turn);
      for i := 0 to |tools|
        invariant ToolsError(tools[i..]) == ToolsError(tools)
        invariant out == old(out)
      {
        var e := ToolError(tools[i]);
        if e.Some? {
          SendError(id, -32603, "Invalid tool definition: " + e.value);
          return;
        }
      }
      SendTools(id, tools);
    }

    method SendTools(id: Option<int>, tools: seq<ToolDefinition>)
      requires ToolsError(tools).None?
      modifies this`out
      ensures out == old(out) + [Print(ListTree(id, tools))]
    {
      hide Emit, Sound, DraftText, CStr, Print, Opening, Snoc, ToolTree, IsText, ToolsError;
      ghost var list := Named("tools", Arr(ToolItems(tools)));
      SnocSteps(list, list, list);
      NamesAreClean(tools);
      var b := StartReply(id);
      b.AddObjectField("result");
      ghost var stack := Nested(Root(Opening(id)), "result", true, Nil);
      b.AddArrayField("tools");
      for i := 0 to |tools|
        invariant b.Valid() && fresh(b) && out == old(out)
        invariant b.draft == Some(Open(Nested(stack, "tools", false, ToolItems(tools[..i]))))
      {
        var t := tools[i];
        var tb := BuildTool(t);
        RawTool(tb.buffer, t);
        ToolStep(tools, i);
        b.AddArrayElementRaw(tb.buffer, Some(Plain(ToolTree(t))));
      }
      assert tools[..|tools|] == tools;
      CloseArray(b, stack, "tools", ToolItems(tools));
      FinishReply(b, id, "result", One(list));
    }

    method HandleToolsCall(turn: nat, line: string, m: MCPMessage, user: Option<string>)
      requires GoodMessage(line, m)
      modifies this`out
      ensures out == old(out) + [Print(AnswerTree(m.id, AnswerCall(server, turn, line, m, user)))]
    {
      hide Print, ErrorTree, CallTree, ContainsShellMetacharacters, ContainsEncodedMetacharacters, GoodMessage,
        ExtractedSpan, ExtractedString;
      if m.params.None? || m.params.value.len == 0 {
        SendError(m.id, -32602, "Invalid params");
        return;
      }
      if m.params.value.len > MAX_PARAMS_SIZE {
        SendError(m.id, -32602, "Parameters exceed maximum size (1 MB)");
        return;
      }
      ParamsSound(line, m);
      var params := line[m.params.value.start..m.params.value.End()];
      var name := ExtractString(params, "name");
      if name.None? || name.value.len == 0 {
        SendError(m.id, -32602, "Missing tool name");
        return;
      }
      var args := "{}";
      var found := ExtractValueSpan(params, "arguments");
      if found.Some? {
        args := params[found.value.start..found.value.End()];
      }
      if ContainsShellMetacharacters(args) || ContainsEncodedMetacharacters(args) {
        SendError(m.id, -32602, "Arguments contain invalid characters (potential injection)");
        return;
      }
      var result := server.callTool(turn, params[name.value.start..name.value.End()], args, user);
      SendResult(m.id, result);
    }

    method ExtractAuthToken(line: string, m: MCPMessage) returns (token: string)
      requires GoodMessage(line, m)
      ensures token == AuthToken(line, m)
    {
      if m.params.None? {
        return "";
      }
      var params := line[m.params.value.start..m.params.value.End()];
      var span := ExtractString(params, "auth_token");
      if span.Some? {
        return params[span.value.start..span.value.End()];
      }
      return "";
    }

    method Dispatch(turn: nat, line: string, m: MCPMessage)
      requires GoodMessage(line, m)
      modifies this`out
      ensures out == old(out) +
                     (if m.isRequest && m.id.Some?
                      then [Print(AnswerTree(m.id, AnswerRequest(server, turn, line, m)))]
                      else [])
    {
      hide Print, AnswerCall, AnswerList, InitializeTree, ErrorTree, AuthToken, GoodMessage;
      if !m.isRequest { return; }
      if m.id.None? { return; }
      MethodInside(line, m);
      var name := MethodName(line, m);
      var currentUser := None;
      if server.security.authEnabled {
        var token := ExtractAuthToken(line, m);
        if token == "" {
          SendError(m.id, -32603, "Authentication required");
          return;
        }
        var auth := server.security.validate(turn, token);
        if !auth.allowed {
          SendError(m.id, -32603, auth.error);
          return;
        }
        var user := server.security.decode(turn, token);
        if user == "" {
          SendError(m.id, -32603, "Invalid token: failed to decode user identity");
          return;
        }
        currentUser := Some(user);
        if server.security.rbacEnabled && !server.security.permits(turn, user, name) {
          SendError(m.id, -32603, "Unauthorized");
          return;
        }
      }
      if name == "initialize" {
        HandleInitialize(m.id);
        return;
      }
      if name == "tools/list" {
        HandleToolsList(turn, m.id);
        return;
      }
      if name == "tools/call" {
        HandleToolsCall(turn, line, m, currentUser);
        return;
      }
      SendError(m.id, -32601, "Method not found");
    }

    method Run(lines: seq<string>)
      modifies this`out
      ensures out == old(out) + Replied(server, lines)
    {
      hide Print, ErrorTree, AnswerRequest, AnswerTree, GoodMessage, ParseMessage;
      for i := 0 to |lines|
        invariant out == old(out) + Replied(server, lines[..i])
      {
        RepliedStep(server, lines, i);
        var line := lines[i];
        if line == "" { continue; }
        if line[|line| - 1] == '\r' {
          line := line[..|line| - 1];
        }
        var msg := ParseText(line, DEFAULT_MAX_BYTES);
        if !msg.valid {
          SendError(None, -32700, "Parse error");
          continue;
        }
        Dispatch(i, line, msg);
      }
      assert lines[..|lines|] == lines;
    }
  }

  lemma MethodInside(line: string, m: MCPMessage)
    requires GoodMessage(line, m) && m.isRequest
    ensures m.methodName.Some? && m.methodName.value.End() <= |line|
  {
  }

  lemma Renamed(key: string, v: Json)
    ensures Named(key, v) == Field(key, Plain(v))
  {
  }

  lemma RepliedStep(server: Server, lines: seq<string>, i: nat)
    requires i < |lines|
    ensures Replied(server, lines[..i + 1]) ==
            Replied(server, lines[..i]) +
            (match ReplyTo(server, i, lines[i]) case None => [] case Some(tree) => [Print(tree)])
  {
    assert lines[..i + 1][..i] == lines[..i];
  }

  lemma PropertyStep(params: seq<ToolParam>, i: nat)
    requires i < |params|
    ensures PropertyItems(params[..i + 1]) ==
            Snoc(PropertyItems(params[..i]), Named(params[i].name, ParamTree(params[i])))
  {
    assert params[..i + 1][..i] == params[..i];
  }

  lemma RequiredStep(params: seq<ToolParam>, i: nat)
    requires i < |params|
    ensures var before := RequiredItems(params[..i]);
            RequiredItems(params[..i + 1]) ==
            if params[i].required then Snoc(before, Element(Plain(TextValue(params[i].name)))) else before
  {
    assert params[..i + 1][..i] == params[..i];
  }

  lemma ToolStep(tools: seq<ToolDefinition>, i: nat)
    requires i < |tools|
    ensures ToolItems(tools[..i + 1]) == Snoc(ToolItems(tools[..i]), Element(Plain(ToolTree(tools[i]))))
  {
    assert tools[..i + 1][..i] == tools[..i];
  }

  lemma NamesAreClean(tools: seq<ToolDefinition>)
    requires ToolsError(tools).None?
    ensures forall t | t in tools :: NamesWithout(t.params, '\n') && NamesWithout(t.params, '\0')
  {
  }

  lemma RawTool(buffer: string, t: ToolDefinition)
    requires buffer == Print(ToolTree(t)) && NamesWithout(t.params, '\0')
    ensures IsText(buffer, Some(Plain(ToolTree(t)))) && TidyRaw(Plain(ToolTree(t)))
  {
    assert Tidy(ToolTree(t));
    hide Print, Without, NamesWithout, ToolTree;
    ToolWithout(t, '\0');
    PrintWithout(ToolTree(t), '\0');
    PlainText(ToolTree(t));
  }

  /** The print of a content object is a raw argument without a NUL. */
  lemma RawContent(buffer: string, text: string)
    requires buffer == Print(ContentTree(text))
    ensures IsText(buffer, Some(Plain(ContentTree(text)))) && TidyRaw(Plain(ContentTree(text)))
  {
    TextWithout("text", '\0');
    TextWithout(text, '\0');
    PairWithout("type", TextValue("text"), "text", TextValue(text), '\0');
    PrintWithout(ContentTree(text), '\0');
    PlainText(ContentTree(text));
  }

  function Opening(id: Option<int>): Items {
    Two(Named("jsonrpc", TextValue("2.0")), Named("id", IdJson(id)))
  }

  lemma SnocSteps(a: Item, b: Item, c: Item)
    ensures Snoc(Nil, a) == One(a) && Snoc(One(a), b) == Two(a, b) && Snoc(Two(a, b), c) == Three(a, b, c)
  {
    assert Snoc(One(b), c) == Two(b, c);
  }

  lemma ReplySnoc(id: Option<int>, last: Item)
    ensures Container(true, "", Snoc(Opening(id), last)) == ReplyTree(id, last)
  {
    SnocSteps(Named("jsonrpc", TextValue("2.0")), Named("id", IdJson(id)), last);
  }

  lemma IdIsTidy(id: Option<int>)
    ensures TidyRaw(Plain(IdJson(id)))
  {
  }

  lemma NullText()
    ensures IsText("null", Some(Plain(Null)))
  {
    PlainText(Null);
  }
}
