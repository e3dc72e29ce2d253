/**
  What a client finds in the replies, member by member: every text, flag and number the adapter was to
  send is under its key, and nowhere else.
 */
module ReplyReading {
  import opened Text
  import opened Json
  import opened Decimal
  import opened Escape
  import opened B = JsonBuilderModule
  import opened Replies

  // --------------------------------------------------------------------- looking up

  function In(v: Option<Json>, name: string): Option<Json> {
    if v.Some? then Lookup(v.value, name) else None
  }

  function ItemCount(items: Items): nat {
    match items
    case Nil => 0
    case Cons(_, tail) => 1 + ItemCount(tail)
  }

  function ItemAt(items: Items, k: nat): Item
    requires k < ItemCount(items)
  {
    if k == 0 then items.head else ItemAt(items.tail, k - 1)
  }

  /** A string that unescapes to the text, as far as a C string reaches. */
  ghost predicate Says(v: Option<Json>, text: string) {
    v.Some? && v.value.String? && Unescape(v.value.body) == Some(CStr(text))
  }

  ghost predicate IsList(v: Option<Json>, braces: bool, n: nat) {
    v.Some? && v.value.Container? && v.value.braces == braces && ItemCount(v.value.items) == n
  }

  lemma TextSays(text: string)
    ensures Says(Some(TextValue(text)), text)
  {
    UnescapeEscape(CStr(text));
  }

  lemma LastOfOne(key: string, v: Json, name: string)
    requires CStr(key) == key
    ensures LastNamed(One(Named(key, v)), name) == if key == name then Some(v) else None
  {
    assert One(Named(key, v)).tail == Nil && LastNamed(Nil, name) == None;
  }

  lemma TwoMembers(a: string, v: Json, b: string, w: Json)
    requires CStr(a) == a && CStr(b) == b && a != b
    ensures var o := Obj(Two(Named(a, v), Named(b, w)));
            Lookup(o, a) == Some(v) && Lookup(o, b) == Some(w)
  {
    LastOfOne(b, w, a);
    LastOfOne(b, w, b);
    assert Two(Named(a, v), Named(b, w)).tail == One(Named(b, w));
  }

  lemma ThreeMembers(a: string, v: Json, b: string, w: Json, c: string, x: Json)
    requires CStr(a) == a && CStr(b) == b && CStr(c) == c && a != b && b != c && a != c
    ensures var o := Obj(Three(Named(a, v), Named(b, w), Named(c, x)));
            Lookup(o, a) == Some(v) && Lookup(o, b) == Some(w) && Lookup(o, c) == Some(x)
  {
    var last, rest := One(Named(c, x)), Two(Named(b, w), Named(c, x));
    LastOfOne(c, x, a);
    LastOfOne(c, x, b);
    LastOfOne(c, x, c);
    assert LastNamed(rest, a) == None && LastNamed(rest, b) == Some(w) && LastNamed(rest, c) == Some(x);
  }

  /** A number without fraction and exponent. */
  ghost predicate Counts(v: Option<Json>, n: int) {
    v.Some? && Scannable(v.value) && IntegerOf(v.value) == Some(n)
  }

  lemma IntCounts(n: int)
    ensures Counts(Some(IntJson(n)), n)
  {
    IntTextRoundTrip(n);
  }

  // ------------------------------------------------------------------- every reply

  /** The version, the id or null, and what stands under the key. */
  ghost predicate Carries(reply: Json, id: Option<int>, key: string, v: Json) {
    && Lookup(reply, "jsonrpc") == Some(String("2.0")) && Lookup(reply, key) == Some(v)
    && (if id.Some? then Counts(Lookup(reply, "id"), id.value) else Lookup(reply, "id") == Some(Null))
  }

  lemma KeysDiffer()
    ensures CStr("jsonrpc") == "jsonrpc" && CStr("id") == "id" && CStr("result") == "result" && CStr("error") == "error"
  {
    ReplyKeys();
    IdRole();
    hide PlainKey, CStr;
    PlainKeyBody("jsonrpc");
    PlainKeyBody("id");
    PlainKeyBody("result");
    PlainKeyBody("error");
  }

  lemma VersionText()
    ensures TextValue("2.0") == String("2.0")
  {
    PlainKeyBody("2.0");
    PlainKeyEscape("2.0");
  }

  lemma ReplyShows(id: Option<int>, key: string, v: Json)
    requires key == "result" || key == "error"
    ensures Carries(ReplyTree(id, Named(key, v)), id, key, v)
  {
    KeysDiffer();
    VersionText();
    if id.Some? {
      IntCounts(id.value);
    }
    assert |"jsonrpc"| == 7 && |"id"| == 2 && |"result"| == 6 && |"error"| == 5;
    hide LastNamed, Named, Lookup, TextValue, IntJson, CStr, Counts;
    ThreeMembers("jsonrpc", TextValue("2.0"), "id", IdJson(id), key, v);
  }

  /** An error reply tells its code and its message. */
  lemma ErrorShows(id: Option<int>, code: int, message: string)
    ensures Carries(ErrorTree(id, code, message), id, "error", ErrorValue(code, message))
    ensures var e := ErrorValue(code, message);
            Counts(Lookup(e, "code"), code) && Says(Lookup(e, "message"), message)
  {
    PlainErrorKeys();
    hide LastNamed, Named, Lookup, TextValue, IntJson, CStr, Counts, Says, Carries, ReplyTree;
    ReplyShows(id, "error", ErrorValue(code, message));
    IntCounts(code);
    TextSays(message);
    TwoMembers("code", IntJson(code), "message", TextValue(message));
  }

  lemma PlainErrorKeys()
    ensures CStr("code") == "code" && CStr("message") == "message" && |"code"| == 4 && |"message"| == 7
  {
    assert PlainKey("code") && PlainKey("message");
    hide PlainKey, CStr;
    PlainKeyBody("code");
    PlainKeyBody("message");
  }

  // -------------------------------------------------------------------- tools/call

  lemma PairSays(k1: string, v1: string, k2: string, v2: string)
    requires CStr(k1) == k1 && CStr(k2) == k2 && k1 != k2
    ensures Says(Lookup(PairTree(k1, v1, k2, v2), k1), v1) && Says(Lookup(PairTree(k1, v1, k2, v2), k2), v2)
  {
    hide LastNamed, Named, Lookup, TextValue, CStr, Says;
    TextSays(v1);
    TextSays(v2);
    TwoMembers(k1, TextValue(v1), k2, TextValue(v2));
  }

  lemma CallKeys()
    ensures CStr("text") == "text" && CStr("type") == "type"
    ensures CStr("content") == "content" && CStr("isError") == "isError"
    ensures "text" != "type" && "content" != "isError"
  {
    OwnKeys();
    assert "text"[1] == 'e' && "type"[1] == 'y' && "content"[0] == 'c' && "isError"[0] == 'i';
    hide PlainKey, CStr;
    PlainKeyBody("text");
    PlainKeyBody("type");
    PlainKeyBody("content");
    PlainKeyBody("isError");
  }

  /** The only element of a list. */
  ghost predicate OnlyElement(v: Option<Json>, e: Json) {
    IsList(v, false, 1) && ItemAt(v.value.items, 0).value == e
  }

  lemma OneInList(e: Json)
    ensures OnlyElement(Some(Arr(One(Element(Plain(e))))), e)
  {
    assert ItemCount(One(Element(Plain(e)))) == 1;
  }

  /**
    The reply to a call says whether the tool failed, and has one piece of content: the text the tool
    returned.
   */
  lemma CallShows(id: Option<int>, r: ToolResult) returns (content: Json)
    ensures Carries(CallTree(id, r), id, "result", CallResult(r))
    ensures Lookup(CallResult(r), "isError") == Some(True) <==> r.isError
    ensures Lookup(CallResult(r), "isError") == Some(False) <==> !r.isError
    ensures OnlyElement(Lookup(CallResult(r), "content"), content)
    ensures Says(Lookup(content, "type"), "text") && Says(Lookup(content, "text"), r.text)
  {
    content := ContentTree(r.text);
    var flag := if r.isError then True else False;
    CallKeys();
    hide LastNamed, Named, Lookup, TextValue, CStr, Says, Carries, ReplyTree, OnlyElement, Element, PairTree;
    ReplyShows(id, "result", CallResult(r));
    PairSays("type", "text", "text", r.text);
    OneInList(content);
    TwoMembers("content", Arr(One(Element(Plain(content)))), "isError", flag);
  }

  // -------------------------------------------------------------------- initialize

  lemma InitializeKeys()
    ensures CStr("protocolVersion") == "protocolVersion" && CStr("capabilities") == "capabilities"
    ensures CStr("serverInfo") == "serverInfo" && CStr("tools") == "tools"
    ensures CStr("name") == "name" && CStr("version") == "version"
    ensures "protocolVersion" != "capabilities" && "capabilities" != "serverInfo" && "protocolVersion" != "serverInfo"
    ensures "name" != "version"
  {
    OwnKeys();
    assert "protocolVersion"[0] == 'p' && "capabilities"[0] == 'c' && "serverInfo"[0] == 's';
    assert "name"[0] == 'n' && "version"[0] == 'v';
    hide PlainKey, CStr;
    PlainKeyBody("protocolVersion");
    PlainKeyBody("capabilities");
    PlainKeyBody("serverInfo");
    PlainKeyBody("tools");
    PlainKeyBody("name");
    PlainKeyBody("version");
  }

  lemma OneMember(a: string, v: Json)
    requires CStr(a) == a
    ensures Lookup(Obj(One(Named(a, v))), a) == Some(v)
  {
    LastOfOne(a, v, a);
  }

  lemma InitializeParts(protocol: string, name: string, version: string, v: Json) returns (info: Json, tools: Json)
    requires v == InitializeResult(protocol, name, version)
    ensures Lookup(v, "protocolVersion") == Some(TextValue(protocol))
    ensures Lookup(v, "serverInfo") == Some(info) && info == PairTree("name", name, "version", version)
    ensures Lookup(v, "capabilities") == Some(tools) && Lookup(tools, "tools") == Some(Obj(Nil))
  {
    hide LastNamed, Named, Lookup, TextValue, CStr, PairTree;
    InitializeKeys();
    info, tools := PairTree("name", name, "version", version), Obj(One(Named("tools", Obj(Nil))));
    OneMember("tools", Obj(Nil));
    ThreeMembers("protocolVersion", TextValue(protocol), "capabilities", tools, "serverInfo", info);
  }

  lemma EmptyList()
    ensures IsList(Some(Obj(Nil)), true, 0)
  {
  }

  /** The reply to `initialize` names the protocol, the server and its version, and the tools capability. */
  lemma InitializeShows(id: Option<int>, protocol: string, name: string, version: string) returns (v: Json)
    ensures Carries(InitializeTree(id, protocol, name, version), id, "result", v)
    ensures Says(Lookup(v, "protocolVersion"), protocol)
    ensures Says(In(Lookup(v, "serverInfo"), "name"), name) && Says(In(Lookup(v, "serverInfo"), "version"), version)
    ensures IsList(In(Lookup(v, "capabilities"), "tools"), true, 0)
  {
    hide LastNamed, Named, Lookup, TextValue, CStr, Says, Carries, ReplyTree, PairTree, InitializeResult, IsList;
    v := InitializeResult(protocol, name, version);
    var info, tools := InitializeParts(protocol, name, version, v);
    InitializeKeys();
    ReplyShows(id, "result", v);
    PairSays("name", name, "version", version);
    TextSays(protocol);
    EmptyList();
  }

  // --------------------------------------------------------------------- tools/list

  /** The names of the required parameters, in order. */
  function RequiredNames(params: seq<ToolParam>): seq<string> {
    if params == [] then []
    else (if params[0].required then [params[0].name] else []) + RequiredNames(params[1..])
  }

  lemma {:induction false} CountSnoc(items: Items, item: Item)
    ensures ItemCount(Snoc(items, item)) == ItemCount(items) + 1
    ensures ItemAt(Snoc(items, item), ItemCount(items)) == item
    ensures forall k | 0 <= k < ItemCount(items) :: ItemAt(Snoc(items, item), k) == ItemAt(items, k)
  {
    match items
    case Nil =>
    case Cons(_, tail) => CountSnoc(tail, item);
  }

  /** A property under the name of its parameter, with its type and description. */
  ghost predicate PropertyShows(item: Item, p: ToolParam) {
    && item.key.Key? && item.key.name == CStr(p.name)
    && Says(Lookup(item.value, "type"), p.kind) && Says(Lookup(item.value, "description"), p.description)
  }

  lemma ToolTexts()
    ensures CStr("type") == "type" && CStr("description") == "description" && CStr("properties") == "properties"
    ensures CStr("required") == "required" && CStr("name") == "name" && CStr("inputSchema") == "inputSchema"
    ensures CStr("tools") == "tools" && "type" != "description"
    ensures "type" != "properties" && "properties" != "required" && "type" != "required"
    ensures "name" != "description" && "description" != "inputSchema" && "name" != "inputSchema"
  {
    OwnKeys();
    assert "type"[0] == 't' && "description"[0] == 'd' && "properties"[0] == 'p' && "required"[0] == 'r';
    assert "name"[0] == 'n' && "inputSchema"[0] == 'i';
    hide PlainKey, CStr;
    PlainKeyBody("type");
    PlainKeyBody("description");
    PlainKeyBody("properties");
    PlainKeyBody("required");
    PlainKeyBody("name");
    PlainKeyBody("inputSchema");
    PlainKeyBody("tools");
  }

  lemma PropertyIsShown(p: ToolParam)
    ensures PropertyShows(Named(p.name, ParamTree(p)), p)
  {
    ToolTexts();
    hide LastNamed, Lookup, TextValue, CStr, Says, PairTree;
    PairSays("type", p.kind, "description", p.description);
  }

  lemma {:induction false} PropertiesShow(params: seq<ToolParam>)
    ensures ItemCount(PropertyItems(params)) == |params|
    ensures forall k | 0 <= k < |params| :: PropertyShows(ItemAt(PropertyItems(params), k), params[k])
    decreases |params|
  {
    hide PropertyShows, Named, ParamTree;
    if params != [] {
      var before, p := params[..|params| - 1], params[|params| - 1];
      PropertiesShow(before);
      PropertyIsShown(p);
      CountSnoc(PropertyItems(before), Named(p.name, ParamTree(p)));
    }
  }

  lemma {:induction false} RequiredSnoc(before: seq<ToolParam>, p: ToolParam)
    ensures RequiredNames(before + [p]) == RequiredNames(before) + if p.required then [p.name] else []
    decreases |before|
  {
    if before == [] {
      assert before + [p] == [p] && [p][1..] == [];
    } else {
      assert (before + [p])[1..] == before[1..] + [p];
      RequiredSnoc(before[1..], p);
    }
  }

  ghost predicate ElementSays(item: Item, text: string) {
    Says(Some(item.value), text)
  }

  lemma ElementText(text: string)
    ensures ElementSays(Element(Plain(TextValue(text))), text)
  {
    TextSays(text);
    hide TextValue, Says;
  }

  lemma {:induction false} RequiredShow(params: seq<ToolParam>)
    ensures ItemCount(RequiredItems(params)) == |RequiredNames(params)|
    ensures forall k | 0 <= k < |RequiredNames(params)| ::
              ElementSays(ItemAt(RequiredItems(params), k), RequiredNames(params)[k])
    decreases |params|
  {
    hide ElementSays, Element, TextValue;
    if params != [] {
      var before, p := params[..|params| - 1], params[|params| - 1];
      assert params == before + [p];
      RequiredShow(before);
      RequiredSnoc(before, p);
      if p.required {
        ElementText(p.name);
        CountSnoc(RequiredItems(before), Element(Plain(TextValue(p.name))));
      }
      hide RequiredNames;
    }
  }

  /** The schema: an object with exactly the parameters as properties, and exactly the required names. */
  ghost predicate SchemaShows(v: Json, params: seq<ToolParam>) {
    && Says(Lookup(v, "type"), "object")
    && IsList(Lookup(v, "properties"), true, |params|)
    && (forall k | 0 <= k < |params| :: PropertyShows(ItemAt(Lookup(v, "properties").value.items, k), params[k]))
    && IsList(Lookup(v, "required"), false, |RequiredNames(params)|)
    && (forall k | 0 <= k < |RequiredNames(params)| ::
          ElementSays(ItemAt(Lookup(v, "required").value.items, k), RequiredNames(params)[k]))
  }

  lemma SchemaIsShown(params: seq<ToolParam>)
    ensures SchemaShows(SchemaTree(params), params)
  {
    ToolTexts();
    PropertiesShow(params);
    RequiredShow(params);
    hide LastNamed, Lookup, TextValue, CStr, Says, Named, PropertyItems, RequiredItems, RequiredNames, PropertyShows,
      ElementSays;
    TextSays("object");
    ThreeMembers("type", TextValue("object"), "properties", Obj(PropertyItems(params)),
                 "required", Arr(RequiredItems(params)));
  }

  /** The descriptor of a tool. */
  ghost predicate ToolShows(item: Item, t: ToolDefinition) {
    var v := item.value;
    && Says(Lookup(v, "name"), t.name) && Says(Lookup(v, "description"), t.description)
    && Lookup(v, "inputSchema").Some? && SchemaShows(Lookup(v, "inputSchema").value, t.params)
  }

  lemma ToolIsShown(t: ToolDefinition)
    ensures ToolShows(Element(Plain(ToolTree(t))), t)
  {
    ToolTexts();
    hide LastNamed, Lookup, TextValue, CStr, Says, Named, SchemaShows, SchemaTree;
    TextSays(t.name);
    TextSays(t.description);
    SchemaIsShown(t.params);
    ThreeMembers("name", TextValue(t.name), "description", TextValue(t.description),
                 "inputSchema", SchemaTree(t.params));
  }

  lemma {:induction false} ToolsShow(tools: seq<ToolDefinition>)
    ensures ItemCount(ToolItems(tools)) == |tools|
    ensures forall k | 0 <= k < |tools| :: ToolShows(ItemAt(ToolItems(tools), k), tools[k])
    decreases |tools|
  {
    hide ToolShows, Element, ToolTree;
    if tools != [] {
      var before, t := tools[..|tools| - 1], tools[|tools| - 1];
      ToolsShow(before);
      ToolIsShown(t);
      CountSnoc(ToolItems(before), Element(Plain(ToolTree(t))));
    }
  }

  /** The reply to `tools/list` describes every tool, in order, and no other. */
  lemma ListShows(id: Option<int>, tools: seq<ToolDefinition>)
    ensures Carries(ListTree(id, tools), id, "result", ListResult(tools))
    ensures IsList(Lookup(ListResult(tools), "tools"), false, |tools|)
    ensures forall k | 0 <= k < |tools| ::
              ToolShows(ItemAt(Lookup(ListResult(tools), "tools").value.items, k), tools[k])
  {
    ToolTexts();
    ToolsShow(tools);
    hide LastNamed, Lookup, CStr, Named, Carries, ReplyTree, ToolShows, ToolItems;
    ReplyShows(id, "result", ListResult(tools));
    OneMember("tools", Arr(ToolItems(tools)));
  }
}
