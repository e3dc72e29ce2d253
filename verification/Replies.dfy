/** The messages the adapter sends, as trees, and what the parser makes of them. */
module Replies {
  import opened Text
  import opened Json
  import opened ParserSpec
  import opened ScanProofs
  import opened Decimal
  import opened Escape
  import opened ParseFold
  import opened ParseTheorems
  import opened B = JsonBuilderModule

  datatype ToolParam = ToolParam(name: string, kind: string, description: string, required: bool)
  datatype ToolDefinition = ToolDefinition(name: string, description: string, params: seq<ToolParam>)
  datatype ToolResult = ToolResult(text: string, isError: bool)

  // ---------------------------------------------------------------------- trees

  function Named(key: string, v: Json): Item {
    Field(key, Plain(v))
  }

  function One(a: Item): Items { Cons(a, Nil) }
  function Two(a: Item, b: Item): Items { Cons(a, One(b)) }
  function Three(a: Item, b: Item, c: Item): Items { Cons(a, Two(b, c)) }
  function Obj(items: Items): Json { Container(true, "", items) }
  function Arr(items: Items): Json { Container(false, "", items) }

  function IdJson(id: Option<int>): Json {
    match id
    case None => Null
    case Some(n) => IntJson(n)
  }

  /** Every reply: protocol version, id, and one more member. */
  function ReplyTree(id: Option<int>, last: Item): Json {
    Obj(Three(Named("jsonrpc", TextValue("2.0")), Named("id", IdJson(id)), last))
  }

  function ErrorTree(id: Option<int>, code: int, message: string): Json {
    ReplyTree(id, Named("error", ErrorValue(code, message)))
  }

  function ErrorValue(code: int, message: string): Json {
    Obj(Two(Named("code", IntJson(code)), Named("message", TextValue(message))))
  }

  function InitializeTree(id: Option<int>, protocol: string, name: string, version: string): Json {
    ReplyTree(id, Named("result", InitializeResult(protocol, name, version)))
  }

  function PairTree(k1: string, v1: string, k2: string, v2: string): Json {
    Obj(Two(Named(k1, TextValue(v1)), Named(k2, TextValue(v2))))
  }

  function InitializeResult(protocol: string, name: string, version: string): Json {
    Obj(Three(
      Named("protocolVersion", TextValue(protocol)),
      Named("capabilities", Obj(One(Named("tools", Obj(Nil))))),
      Named("serverInfo", PairTree("name", name, "version", version))))
  }

  function ContentTree(text: string): Json {
    PairTree("type", "text", "text", text)
  }

  function CallTree(id: Option<int>, result: ToolResult): Json {
    ReplyTree(id, Named("result", CallResult(result)))
  }

  function CallResult(result: ToolResult): Json {
    Obj(Two(
      Named("content", Arr(One(Element(Plain(ContentTree(result.text)))))),
      Named("isError", if result.isError then True else False)))
  }

  function ParamTree(p: ToolParam): Json {
    PairTree("type", p.kind, "description", p.description)
  }

  function PropertyItems(params: seq<ToolParam>): Items {
    if params == [] then Nil
    else Snoc(PropertyItems(params[..|params| - 1]), Named(params[|params| - 1].name, ParamTree(params[|params| - 1])))
  }

  function RequiredItems(params: seq<ToolParam>): Items {
    if params == [] then Nil
    else
      var before, p := RequiredItems(params[..|params| - 1]), params[|params| - 1];
      if p.required then Snoc(before, Element(Plain(TextValue(p.name)))) else before
  }

  function SchemaTree(params: seq<ToolParam>): Json {
    Obj(Three(Named("type", TextValue("object")), Named("properties", Obj(PropertyItems(params))),
              Named("required", Arr(RequiredItems(params)))))
  }

  function ToolTree(t: ToolDefinition): Json {
    Obj(Three(Named("name", TextValue(t.name)), Named("description", TextValue(t.description)),
              Named("inputSchema", SchemaTree(t.params))))
  }

  function ToolItems(tools: seq<ToolDefinition>): Items {
    if tools == [] then Nil
    else Snoc(ToolItems(tools[..|tools| - 1]), Element(Plain(ToolTree(tools[|tools| - 1]))))
  }

  function ListTree(id: Option<int>, tools: seq<ToolDefinition>): Json {
    ReplyTree(id, Named("result", ListResult(tools)))
  }

  function ListResult(tools: seq<ToolDefinition>): Json {
    Obj(One(Named("tools", Arr(ToolItems(tools)))))
  }

  // ----------------------------------------------------- characters that never show

  /** No part of the tree contains the character. */
  predicate Without(v: Json, c: char) {
    match v
    case Number(n) => c !in PrintNumeral(n)
    case String(body) => c !in body
    case Container(_, gap, items) => c !in gap && ItemsWithout(items, c)
    case _ => true
  }

  predicate ItemsWithout(items: Items, c: char) {
    match items
    case Nil => true
    case Cons(head, tail) => ItemWithout(head, c) && ItemsWithout(tail, c)
  }

  predicate ItemWithout(item: Item, c: char) {
    c !in item.pre && c !in item.post && KeyWithout(item.key, c) && Without(item.value, c)
  }

  predicate KeyWithout(key: Key, c: char) {
    key.Key? ==> c !in key.name && c !in key.beforeColon && c !in key.afterColon
  }

  /** A line break, and the NUL that would end a C string early. */
  predicate Breaking(c: char) {
    c == '\n' || c == '\0'
  }

  lemma {:induction false} PrintWithout(v: Json, c: char)
    requires Without(v, c) && Breaking(c)
    ensures c !in Print(v)
    decreases v
  {
    match v
    case Container(_, gap, items) => ItemsPrintWithout(items, c);
    case _ =>
  }

  lemma {:induction false} ItemsPrintWithout(items: Items, c: char)
    requires ItemsWithout(items, c) && Breaking(c)
    ensures c !in PrintItems(items)
    decreases items
  {
    hide Print, PrintKey, KeyWithout, Without;
    match items
    case Nil =>
    case Cons(head, tail) =>
      PrintWithout(head.value, c);
      KeyPrintWithout(head.key, c);
      ItemsPrintWithout(tail, c);
  }

  lemma KeyPrintWithout(key: Key, c: char)
    requires KeyWithout(key, c) && Breaking(c)
    ensures c !in PrintKey(key)
  {
  }

  lemma {:induction false} SnocWithout(items: Items, item: Item, c: char)
    ensures ItemsWithout(Snoc(items, item), c) <==> ItemsWithout(items, c) && ItemWithout(item, c)
  {
    match items
    case Nil =>
    case Cons(_, tail) => SnocWithout(tail, item, c);
  }

  lemma TextWithout(value: string, c: char)
    requires Breaking(c)
    ensures Without(TextValue(value), c)
  {
    EscapeHasNoControl(CStr(value));
  }

  lemma IntWithout(n: int, c: char)
    requires Breaking(c)
    ensures Without(IntJson(n), c)
  {
    NumeralIsPlain(IntJson(n).numeral);
  }

  lemma NamedWithout(key: string, v: Json, c: char)
    requires c !in key && Without(v, c)
    ensures ItemWithout(Named(key, v), c)
  {
    assert forall d | d in CStr(key) :: d in key;
  }

  lemma ObjectWithout(braces: bool, items: Items, c: char)
    requires ItemsWithout(items, c)
    ensures Without(Container(braces, "", items), c)
  {
  }

  lemma ThreeWithout(a: Item, b: Item, d: Item, c: char)
    requires ItemWithout(a, c)
    ensures Without(Obj(Nil), c) && ItemsWithout(Nil, c)
    ensures ItemsWithout(One(a), c)
    ensures ItemWithout(b, c) ==> ItemsWithout(Two(a, b), c)
    ensures ItemWithout(b, c) && ItemWithout(d, c) ==> ItemsWithout(Three(a, b, d), c)
  {
    hide ItemWithout;
    assert ItemsWithout(Nil, c);
    assert ItemWithout(d, c) ==> ItemsWithout(One(d), c);
    assert ItemWithout(b, c) ==> ItemsWithout(One(b), c);
    assert ItemWithout(b, c) && ItemWithout(d, c) ==> ItemsWithout(Two(b, d), c);
  }

  lemma ReplyWithout(id: Option<int>, last: Item, c: char)
    requires Breaking(c) && ItemWithout(last, c)
    ensures Without(ReplyTree(id, last), c)
  {
    hide ItemWithout, ItemsWithout, Named, One, Two, Three, TextValue;
    TextWithout("2.0", c);
    assert Without(Null, c);
    if id.Some? {
      IntWithout(id.value, c);
    }
    hide Without;
    NamedWithout("jsonrpc", TextValue("2.0"), c);
    NamedWithout("id", IdJson(id), c);
    ThreeWithout(Named("jsonrpc", TextValue("2.0")), Named("id", IdJson(id)), last, c);
    ObjectWithout(true, Three(Named("jsonrpc", TextValue("2.0")), Named("id", IdJson(id)), last), c);
  }

  /** An object of two named members. */
  lemma PairWithout(k1: string, v1: Json, k2: string, v2: Json, c: char)
    requires c !in k1 && c !in k2 && Without(v1, c) && Without(v2, c)
    ensures Without(Obj(Two(Named(k1, v1), Named(k2, v2))), c)
  {
    hide Without, ItemsWithout, ItemWithout, Named, Two;
    NamedWithout(k1, v1, c);
    NamedWithout(k2, v2, c);
    ThreeWithout(Named(k1, v1), Named(k2, v2), Named(k1, v1), c);
    ObjectWithout(true, Two(Named(k1, v1), Named(k2, v2)), c);
  }

  lemma ErrorWithout(id: Option<int>, code: int, message: string, c: char)
    requires Breaking(c)
    ensures Without(ErrorTree(id, code, message), c)
  {
    hide Without, ItemWithout, Named, Two, ReplyTree;
    IntWithout(code, c);
    TextWithout(message, c);
    PairWithout("code", IntJson(code), "message", TextValue(message), c);
    var e := Obj(Two(Named("code", IntJson(code)), Named("message", TextValue(message))));
    NamedWithout("error", e, c);
    ReplyWithout(id, Named("error", e), c);
  }

  lemma InitializeWithout(id: Option<int>, protocol: string, name: string, version: string, c: char)
    requires Breaking(c)
    ensures Without(InitializeTree(id, protocol, name, version), c)
  {
    hide Without, ItemWithout, ItemsWithout, Named, One, Two, Three, ReplyTree;
    TextWithout(protocol, c);
    TextWithout(name, c);
    TextWithout(version, c);
    var a := Named("protocolVersion", TextValue(protocol));
    var tools := Named("tools", Obj(Nil));
    var b := Named("capabilities", Obj(One(tools)));
    var info := PairTree("name", name, "version", version);
    var d := Named("serverInfo", info);
    NamedWithout("protocolVersion", TextValue(protocol), c);
    PairWithout("name", TextValue(name), "version", TextValue(version), c);
    NamedWithout("serverInfo", info, c);
    ThreeWithout(a, b, d, c);
    NamedWithout("tools", Obj(Nil), c);
    ThreeWithout(tools, tools, tools, c);
    ObjectWithout(true, One(tools), c);
    NamedWithout("capabilities", Obj(One(tools)), c);
    ThreeWithout(a, b, d, c);
    ObjectWithout(true, Three(a, b, d), c);
    NamedWithout("result", Obj(Three(a, b, d)), c);
    ReplyWithout(id, Named("result", Obj(Three(a, b, d))), c);
  }

  lemma CallWithout(id: Option<int>, result: ToolResult, c: char)
    requires Breaking(c)
    ensures Without(CallTree(id, result), c)
  {
    var flag := if result.isError then True else False;
    hide ItemWithout, ItemsWithout, Named, One, Two, ReplyTree, TextValue, ContentTree;
    assert Without(flag, c);
    hide Without;
    TextWithout("text", c);
    TextWithout(result.text, c);
    PairWithout("type", TextValue("text"), "text", TextValue(result.text), c);
    ContentIs(result.text);
    var content := Element(Plain(ContentTree(result.text)));
    ElementWithout(ContentTree(result.text), c);
    ThreeWithout(content, content, content, c);
    ObjectWithout(false, One(content), c);
    PairWithout("content", Arr(One(content)), "isError", flag, c);
    var v := Obj(Two(Named("content", Arr(One(content))), Named("isError", flag)));
    NamedWithout("result", v, c);
    ReplyWithout(id, Named("result", v), c);
  }

  lemma ContentIs(text: string)
    ensures ContentTree(text) == Obj(Two(Named("type", TextValue("text")), Named("text", TextValue(text))))
  {
  }

  lemma ElementWithout(v: Json, c: char)
    requires Without(v, c)
    ensures ItemWithout(Element(Plain(v)), c)
  {
  }

  /** Tools whose parameter names hold no line break; their other texts are escaped. */
  predicate NamesWithout(params: seq<ToolParam>, c: char) {
    forall p | p in params :: c !in p.name
  }

  lemma {:induction false} PropertiesWithout(params: seq<ToolParam>, c: char)
    requires Breaking(c) && NamesWithout(params, c)
    ensures ItemsWithout(PropertyItems(params), c)
  {
    hide Without, ItemWithout, Named, ParamTree;
    if params != [] {
      var p := params[|params| - 1];
      assert p in params;
      PropertiesWithout(params[..|params| - 1], c);
      ParamWithout(p, c);
      NamedWithout(p.name, ParamTree(p), c);
      SnocWithout(PropertyItems(params[..|params| - 1]), Named(p.name, ParamTree(p)), c);
    }
  }

  lemma ParamWithout(p: ToolParam, c: char)
    requires Breaking(c)
    ensures Without(ParamTree(p), c)
  {
    hide Without;
    TextWithout(p.kind, c);
    TextWithout(p.description, c);
    PairWithout("type", TextValue(p.kind), "description", TextValue(p.description), c);
  }

  lemma {:induction false} RequiredWithout(params: seq<ToolParam>, c: char)
    requires Breaking(c)
    ensures ItemsWithout(RequiredItems(params), c)
  {
    hide Without, ItemWithout, Element, TextValue;
    if params != [] {
      var p := params[|params| - 1];
      RequiredWithout(params[..|params| - 1], c);
      TextWithout(p.name, c);
      ElementWithout(TextValue(p.name), c);
      SnocWithout(RequiredItems(params[..|params| - 1]), Element(Plain(TextValue(p.name))), c);
    }
  }

  lemma SchemaWithout(params: seq<ToolParam>, c: char)
    requires Breaking(c) && NamesWithout(params, c)
    ensures Without(SchemaTree(params), c)
  {
    hide Without, ItemWithout, ItemsWithout, Named, Three, TextValue, NamesWithout, PropertyItems, RequiredItems;
    TextWithout("object", c);
    PropertiesWithout(params, c);
    RequiredWithout(params, c);
    var properties, required := Obj(PropertyItems(params)), Arr(RequiredItems(params));
    ObjectWithout(true, PropertyItems(params), c);
    ObjectWithout(false, RequiredItems(params), c);
    MembersWithout("type", TextValue("object"), "properties", properties, "required", required, c);
  }

  /** An object of three named members. */
  lemma MembersWithout(k1: string, v1: Json, k2: string, v2: Json, k3: string, v3: Json, c: char)
    requires c !in k1 && c !in k2 && c !in k3 && Without(v1, c) && Without(v2, c) && Without(v3, c)
    ensures Without(Obj(Three(Named(k1, v1), Named(k2, v2), Named(k3, v3))), c)
  {
    hide Without, ItemWithout, ItemsWithout, Named, Three;
    NamedWithout(k1, v1, c);
    NamedWithout(k2, v2, c);
    NamedWithout(k3, v3, c);
    ThreeWithout(Named(k1, v1), Named(k2, v2), Named(k3, v3), c);
    ObjectWithout(true, Three(Named(k1, v1), Named(k2, v2), Named(k3, v3)), c);
  }

  lemma ToolWithout(t: ToolDefinition, c: char)
    requires Breaking(c) && NamesWithout(t.params, c)
    ensures Without(ToolTree(t), c)
  {
    hide Without, ItemWithout, ItemsWithout, Named, Three, TextValue, SchemaTree, NamesWithout;
    TextWithout(t.name, c);
    TextWithout(t.description, c);
    SchemaWithout(t.params, c);
    MembersWithout("name", TextValue(t.name), "description", TextValue(t.description),
                   "inputSchema", SchemaTree(t.params), c);
  }

  lemma {:induction false} ToolsWithout(tools: seq<ToolDefinition>, c: char)
    requires Breaking(c) && forall t | t in tools :: NamesWithout(t.params, c)
    ensures ItemsWithout(ToolItems(tools), c)
  {
    hide Without, ItemWithout, Element, ToolTree, NamesWithout;
    if tools != [] {
      var t := tools[|tools| - 1];
      assert t in tools;
      ToolsWithout(tools[..|tools| - 1], c);
      ToolWithout(t, c);
      ElementWithout(ToolTree(t), c);
      SnocWithout(ToolItems(tools[..|tools| - 1]), Element(Plain(ToolTree(t))), c);
    }
  }

  lemma ListWithout(id: Option<int>, tools: seq<ToolDefinition>, c: char)
    requires Breaking(c) && forall t | t in tools :: NamesWithout(t.params, c)
    ensures Without(ListTree(id, tools), c)
  {
    hide Without, ItemWithout, ItemsWithout, Named, One, ReplyTree;
    ToolsWithout(tools, c);
    ObjectWithout(false, ToolItems(tools), c);
    var list := Named("tools", Arr(ToolItems(tools)));
    NamedWithout("tools", Arr(ToolItems(tools)), c);
    ThreeWithout(list, list, list, c);
    ObjectWithout(true, One(list), c);
    NamedWithout("result", Obj(One(list)), c);
    ReplyWithout(id, Named("result", Obj(One(list))), c);
  }

  // ---------------------------------------------------- what the parser makes of them

  lemma NamedItem(key: string, v: Json)
    requires PlainKey(key) && Scannable(v)
    ensures ScannableItem(Named(key, v), true)
    ensures Named(key, v).key.name == key && Named(key, v).value == v
  {
    PlainKeyBody(key);
    BodyIsClosed(key);
  }

  lemma TextIsScannable(value: string)
    ensures Scannable(TextValue(value)) && Shallow(TextValue(value))
  {
    EscapeIsBody(CStr(value));
    BodyIsClosed(EscapeAll(CStr(value)));
  }

  lemma ItemsUpToThree(a: Item, b: Item, c: Item)
    requires ScannableItem(a, true)
    ensures ScannableItems(Nil, true) && ScannableItems(One(a), true)
    ensures ScannableItem(b, true) ==> ScannableItems(Two(a, b), true)
    ensures ScannableItem(b, true) && ScannableItem(c, true) ==> ScannableItems(Three(a, b, c), true)
  {
    hide ScannableItem;
    assert ScannableItems(Nil, true);
    assert ScannableItem(c, true) ==> ScannableItems(One(c), true);
    assert ScannableItem(b, true) ==> ScannableItems(One(b), true);
    assert ScannableItem(b, true) && ScannableItem(c, true) ==> ScannableItems(Two(b, c), true);
  }

  /** The members of a reply with an id, and the roles they play. */
  lemma ReplyMembers(id: int, name: string, v: Json)
    requires PlainKey(name) && Scannable(v)
    ensures Scannable(ReplyTree(Some(id), Named(name, v)))
    ensures var items := ReplyTree(Some(id), Named(name, v)).items;
            && ScannableItems(items, true)
            && (AllAcceptable(Message, items) <==> Fits(id) && Acceptable(RoleOf(Message, name), v))
            && LastMembers(Message, items) == Then(NO_MEMBER.(id := Some(IntJson(id))), Only(RoleOf(Message, name), v))
  {
    var a, b, c := Named("jsonrpc", TextValue("2.0")), Named("id", IntJson(id)), Named(name, v);
    TextIsScannable("2.0");
    IntTextRoundTrip(id);
    hide TextValue, IntJson, Named, ScannableItem, Shallow, CStr;
    NamedItem("jsonrpc", TextValue("2.0"));
    NamedItem("id", IntJson(id));
    NamedItem(name, v);
    hide Scannable;
    ItemsUpToThree(a, b, c);
    Members3(a, b, c);
    assert RoleOf(Message, "jsonrpc") == Other && RoleOf(Message, "id") == Id;
  }

  lemma Members3(a: Item, b: Item, c: Item)
    requires ScannableItems(Three(a, b, c), true)
    ensures a.key.Key? && b.key.Key? && c.key.Key?
    ensures Scannable(a.value) && Scannable(b.value) && Scannable(c.value)
    ensures AllAcceptable(Message, Three(a, b, c)) <==>
            && Acceptable(RoleOf(Message, a.key.name), a.value)
            && Acceptable(RoleOf(Message, b.key.name), b.value)
            && Acceptable(RoleOf(Message, c.key.name), c.value)
    ensures LastMembers(Message, Three(a, b, c)) ==
            Then(Only(RoleOf(Message, a.key.name), a.value),
                 Then(Only(RoleOf(Message, b.key.name), b.value), Only(RoleOf(Message, c.key.name), c.value)))
  {
    hide Acceptable, Only, RoleOf;
    assert ScannableItems(Two(b, c), true);
    assert ScannableItems(One(c), true);
    assert ScannableItem(a, true) && ScannableItem(b, true) && ScannableItem(c, true);
    assert AllAcceptable(Message, One(c)) <==> Acceptable(RoleOf(Message, c.key.name), c.value);
    assert LastMembers(Message, One(c)) == Only(RoleOf(Message, c.key.name), c.value);
    assert LastMembers(Message, Two(b, c)) ==
           Then(Only(RoleOf(Message, b.key.name), b.value), Only(RoleOf(Message, c.key.name), c.value));
  }

  lemma PrintedObjectParses(items: Items, maxBytes: nat)
    requires Scannable(Obj(items)) && ScannableItems(items, true)
    ensures var s := Print(Obj(items));
            var m := ParseMessage(s, maxBytes);
            && (m.Some? <==> |s| <= maxBytes && AllAcceptable(Message, items))
            && (m.Some? ==>
                  Agrees(s, LastMembers(Message, items),
                         FRESH_MESSAGE.(raw := Some(Span(0, |s|)), valid := true), m.value))
  {
    hide Print, Scannable, ScannableItems, AllAcceptable, LastMembers, ParseMessage, Agrees;
    assert "" + Print(Obj(items)) + "" == Print(Obj(items));
    ParsedMessageAgrees("", "", items, "", maxBytes);
  }

  /** A reply of one more member: whatever that member is, the parser answers with the same id. */
  lemma ReplyParses(id: int, name: string, v: Json, maxBytes: nat)
    requires PlainKey(name) && Scannable(v)
    ensures var s := Print(ReplyTree(Some(id), Named(name, v)));
            var m := ParseMessage(s, maxBytes);
            && (m.Some? <==> |s| <= maxBytes && Fits(id) && Acceptable(RoleOf(Message, name), v))
            && (m.Some? ==>
                  Agrees(s, Then(NO_MEMBER.(id := Some(IntJson(id))), Only(RoleOf(Message, name), v)),
                         FRESH_MESSAGE.(raw := Some(Span(0, |s|)), valid := true), m.value))
  {
    hide Print, Scannable, ScannableItems, AllAcceptable, LastMembers, ParseMessage, Agrees, Then, Only, RoleOf,
      PlainKey;
    ReplyMembers(id, name, v);
    PrintedObjectParses(ReplyTree(Some(id), Named(name, v)).items, maxBytes);
  }

  /** The keys of a reply with a result. */
  lemma ReplyKeys()
    ensures RoleOf(Message, "jsonrpc") == Other && RoleOf(Message, "id") == Id && RoleOf(Message, "result") == Result
    ensures PlainKey("jsonrpc") && PlainKey("id") && PlainKey("result")
  {
    assert PlainKey("jsonrpc") && PlainKey("id");
    ResultRole();
    hide PlainKey;
  }

  lemma ResultRole()
    ensures RoleOf(Message, "result") == Result && PlainKey("result")
  {
  }

  /**
    A reply with a result is accepted exactly when it is not too long, its id is one the parser can
    produce and the result does not nest too deeply; it is a response with that id and that result.
   */
  lemma ResultReplyParses(id: int, v: Json, maxBytes: nat)
    requires Scannable(v)
    ensures var s := Print(ReplyTree(Some(id), Named("result", v)));
            var m := ParseMessage(s, maxBytes);
            && (m.Some? <==> |s| <= maxBytes && Fits(id) && Shallow(v))
            && (m.Some? ==>
                  && m.value.valid && m.value.id == Some(id)
                  && m.value.isResponse && m.value.hasResult && !m.value.isRequest && !m.value.hasError
                  && Holds(s, m.value.result, Print(v)))
  {
    hide Print, Scannable, ParseMessage, ReplyTree, Holds, IntegerOf, IntJson, OwnDepth, Named, RoleOf;
    ResultRole();
    hide PlainKey;
    ReplyParses(id, "result", v, maxBytes);
    IntTextRoundTrip(id);
  }

  lemma ErrorMembers(code: int, message: string)
    ensures Scannable(ErrorValue(code, message))
    ensures Acceptable(Error, ErrorValue(code, message)) <==> Fits(code)
    ensures Only(Error, ErrorValue(code, message)) ==
            NO_MEMBER.(code := Some(IntJson(code)), text := Some(TextValue(message)),
                       error := Some(ErrorValue(code, message)))
  {
    var a, b := Named("code", IntJson(code)), Named("message", TextValue(message));
    hide Scannable, ScannableItem, ScannableItems, AllAcceptable, LastMembers, Shallow, EscapeAll, CStr, Named,
      IntegerOf;
    TextIsScannable(message);
    IntTextRoundTrip(code);
    assert Acceptable(Code, IntJson(code)) <==> Fits(code);
    assert Acceptable(ErrorText, TextValue(message));
    assert RoleOf(ErrorObject, "code") == Code && RoleOf(ErrorObject, "message") == ErrorText;
    hide RoleOf, TextValue, IntJson;
    NamedItem("code", IntJson(code));
    NamedItem("message", TextValue(message));
    ItemsUpToThree(a, b, a);
    ErrorMembersTwo(a, b);
    ObjectWellFormed(Two(a, b));
  }

  lemma ObjectWellFormed(items: Items)
    requires ScannableItems(items, true)
    ensures Scannable(Obj(items))
  {
  }

  lemma ErrorMembersTwo(a: Item, b: Item)
    requires ScannableItems(Two(a, b), true) && a.key.Key? && b.key.Key?
    requires Scannable(a.value) && Scannable(b.value)
    requires RoleOf(ErrorObject, a.key.name) == Code && RoleOf(ErrorObject, b.key.name) == ErrorText
    ensures AllAcceptable(ErrorObject, Two(a, b)) <==> Acceptable(Code, a.value) && Acceptable(ErrorText, b.value)
    ensures LastMembers(ErrorObject, Two(a, b)) == NO_MEMBER.(code := Some(a.value), text := Some(b.value))
  {
    hide RoleOf, Acceptable, Scannable;
    assert ScannableItems(One(b), true);
    assert AllAcceptable(ErrorObject, One(b)) <==> Acceptable(ErrorText, b.value);
    assert LastMembers(ErrorObject, One(b)) == NO_MEMBER.(text := Some(b.value));
  }

  /**
    An error reply is accepted exactly when it is not too long and its id and code are ones the parser
    can produce. It is a response with that id and that code, and with a message span that unescapes
    to the message as the C string routines read it.
   */
  lemma ErrorReplyParses(id: int, code: int, message: string, maxBytes: nat)
    ensures var s := Print(ErrorTree(Some(id), code, message));
            var m := ParseMessage(s, maxBytes);
            && (m.Some? <==> |s| <= maxBytes && Fits(id) && Fits(code))
            && (m.Some? ==>
                  && m.value.valid && m.value.id == Some(id)
                  && m.value.isResponse && m.value.hasError && !m.value.isRequest && !m.value.hasResult
                  && m.value.errorCode == code
                  && Holds(s, m.value.errorMsg, EscapeAll(CStr(message)))
                  && Unescape(EscapeAll(CStr(message))) == Some(CStr(message)))
  {
    hide Print, Scannable, ParseMessage, Unescape, Holds, IntegerOf, IntJson, Acceptable, Only, EscapeAll, CStr;
    assert RoleOf(Message, "error") == Error && PlainKey("error");
    assert ErrorTree(Some(id), code, message) == ReplyTree(Some(id), Named("error", ErrorValue(code, message)));
    hide RoleOf, PlainKey, ReplyTree, Named, ErrorTree, ErrorValue;
    ErrorMembers(code, message);
    ReplyParses(id, "error", ErrorValue(code, message), maxBytes);
    IntTextRoundTrip(id);
    IntTextRoundTrip(code);
    UnescapeEscape(CStr(message));
  }

  /** The reply to a line that is not a message carries a null id, which the parser itself refuses. */
  lemma NullIdReplyRejected(code: int, message: string, maxBytes: nat)
    ensures ParseMessage(Print(ErrorTree(None, code, message)), maxBytes) == None
  {
    var v := ErrorValue(code, message);
    var a, b, c := Named("jsonrpc", TextValue("2.0")), Named("id", Null), Named("error", v);
    hide Agrees, Only, ParseMessage, TextValue, Named, ScannableItem, ScannableItems, Shallow, CStr, Print,
      AllAcceptable, LastMembers, RoleOf, Scannable, IntJson;
    assert ErrorTree(None, code, message) == Obj(Three(a, b, c));
    hide ErrorTree, ErrorValue;
    ErrorMembers(code, message);
    TextIsScannable("2.0");
    IdRole();
    hide Acceptable;
    NamedItem("jsonrpc", TextValue("2.0"));
    NamedItem("id", Null);
    NamedItem("error", v);
    ItemsUpToThree(a, b, c);
    Members3(a, b, c);
    ObjectWellFormed(Three(a, b, c));
    PrintedObjectParses(Three(a, b, c), maxBytes);
  }

  lemma IdRole()
    ensures RoleOf(Message, "id") == Id && Scannable(Null) && !Acceptable(Id, Null)
    ensures PlainKey("id") && PlainKey("jsonrpc") && PlainKey("error")
  {
  }

  // ------------------------------------------- the results the handlers build are JSON

  // `strict` asks for JSON, otherwise only for what the scanners need.

  predicate GoodText(t: string, strict: bool) {
    if strict then StringBody(t) else ClosedBody(t)
  }

  predicate Good(v: Json, strict: bool) {
    if strict then WellFormed(v) else Scannable(v)
  }

  predicate GoodItem(item: Item, braces: bool, strict: bool) {
    if strict then WellFormedItem(item, braces) else ScannableItem(item, braces)
  }

  predicate GoodItems(items: Items, braces: bool, strict: bool) {
    if strict then WellFormedItems(items, braces) else ScannableItems(items, braces)
  }

  lemma GoodNamed(key: string, v: Json, strict: bool)
    ensures GoodItem(Named(key, v), true, strict) <==> GoodText(CStr(key), strict) && Good(v, strict)
  {
    hide StringBody, ClosedBody, WellFormed, Scannable;
  }

  lemma GoodElement(v: Json, strict: bool)
    ensures GoodItem(Element(Plain(v)), false, strict) <==> Good(v, strict)
  {
    hide WellFormed, Scannable;
  }

  lemma GoodUpToThree(a: Item, b: Item, c: Item, braces: bool, strict: bool)
    ensures GoodItems(Nil, braces, strict)
    ensures GoodItems(One(a), braces, strict) <==> GoodItem(a, braces, strict)
    ensures GoodItems(Two(a, b), braces, strict) <==> GoodItem(a, braces, strict) && GoodItem(b, braces, strict)
    ensures GoodItems(Three(a, b, c), braces, strict) <==>
            GoodItem(a, braces, strict) && GoodItem(b, braces, strict) && GoodItem(c, braces, strict)
  {
    hide WellFormedItem, ScannableItem;
    assert GoodItems(Nil, braces, strict);
    assert GoodItems(One(b), braces, strict) <==> GoodItem(b, braces, strict);
    assert GoodItems(One(c), braces, strict) <==> GoodItem(c, braces, strict);
    assert GoodItems(Two(b, c), braces, strict) <==> GoodItem(b, braces, strict) && GoodItem(c, braces, strict);
  }

  lemma GoodContainer(braces: bool, items: Items, strict: bool)
    ensures Good(Container(braces, "", items), strict) <==> GoodItems(items, braces, strict)
  {
  }

  lemma {:induction false} GoodSnoc(items: Items, item: Item, braces: bool, strict: bool)
    ensures GoodItems(Snoc(items, item), braces, strict) <==>
            GoodItems(items, braces, strict) && GoodItem(item, braces, strict)
  {
    hide WellFormedItem, ScannableItem;
    match items
    case Nil =>
    case Cons(_, tail) => GoodSnoc(tail, item, braces, strict);
  }

  lemma GoodQuoted(value: string, strict: bool)
    ensures Good(TextValue(value), strict)
  {
    EscapeIsBody(CStr(value));
    BodyIsClosed(EscapeAll(CStr(value)));
  }

  /** The keys the adapter chooses itself need no escaping. */
  lemma GoodKey(key: string, strict: bool)
    requires PlainKey(key)
    ensures GoodText(CStr(key), strict)
  {
    PlainKeyBody(key);
    BodyIsClosed(key);
  }

  /** Up to three members under keys of the adapter's own. */
  lemma GoodMembers(a: string, v: Json, b: string, w: Json, c: string, x: Json, strict: bool)
    requires PlainKey(a) && PlainKey(b) && PlainKey(c)
    ensures Good(Obj(Nil), strict)
    ensures Good(Obj(One(Named(a, v))), strict) <==> Good(v, strict)
    ensures Good(Obj(Two(Named(a, v), Named(b, w))), strict) <==> Good(v, strict) && Good(w, strict)
    ensures Good(Obj(Three(Named(a, v), Named(b, w), Named(c, x))), strict) <==>
            Good(v, strict) && Good(w, strict) && Good(x, strict)
  {
    hide Good, GoodItem, GoodItems, GoodText, Named, One, Two, Three, PlainKey;
    GoodKey(a, strict);
    GoodKey(b, strict);
    GoodKey(c, strict);
    GoodNamed(a, v, strict);
    GoodNamed(b, w, strict);
    GoodNamed(c, x, strict);
    var i, j, k := Named(a, v), Named(b, w), Named(c, x);
    GoodUpToThree(i, j, k, true, strict);
    GoodContainer(true, Nil, strict);
    GoodContainer(true, One(i), strict);
    GoodContainer(true, Two(i, j), strict);
    GoodContainer(true, Three(i, j, k), strict);
  }

  lemma PairIsGood(k1: string, v1: string, k2: string, v2: string, strict: bool)
    requires PlainKey(k1) && PlainKey(k2)
    ensures Good(PairTree(k1, v1, k2, v2), strict)
  {
    hide Good, Named, PlainKey, TextValue;
    GoodQuoted(v1, strict);
    GoodQuoted(v2, strict);
    GoodMembers(k1, TextValue(v1), k2, TextValue(v2), k1, TextValue(v1), strict);
  }

  /** How deep braces nest in up to three named members. */
  lemma DepthOfMembers(a: string, v: Json, b: string, w: Json, c: string, x: Json)
    ensures KindDepth(Obj(Nil), true) == 1
    ensures KindDepth(Obj(One(Named(a, v))), true) == 1 + KindDepth(v, true)
    ensures KindDepth(Obj(Two(Named(a, v), Named(b, w))), true) == 1 + Max(KindDepth(v, true), KindDepth(w, true))
    ensures KindDepth(Obj(Three(Named(a, v), Named(b, w), Named(c, x))), true) ==
            1 + Max(KindDepth(v, true), Max(KindDepth(w, true), KindDepth(x, true)))
  {
    ItemsDepthUpToThree(Named(a, v), Named(b, w), Named(c, x));
    hide ItemsDepth, Max;
  }

  lemma ItemsDepthUpToThree(a: Item, b: Item, c: Item)
    ensures ItemsDepth(Nil, true) == 0
    ensures ItemsDepth(One(a), true) == KindDepth(a.value, true)
    ensures ItemsDepth(Two(a, b), true) == Max(KindDepth(a.value, true), KindDepth(b.value, true))
    ensures ItemsDepth(Three(a, b, c), true) ==
            Max(KindDepth(a.value, true), Max(KindDepth(b.value, true), KindDepth(c.value, true)))
  {
    hide KindDepth;
    assert ItemsDepth(Nil, true) == 0;
    assert ItemsDepth(One(b), true) == KindDepth(b.value, true);
    assert ItemsDepth(One(c), true) == KindDepth(c.value, true);
    assert ItemsDepth(Two(b, c), true) == Max(KindDepth(b.value, true), KindDepth(c.value, true));
  }

  lemma {:induction false} SnocDepth(items: Items, item: Item, braces: bool)
    ensures ItemsDepth(Snoc(items, item), braces) == Max(ItemsDepth(items, braces), KindDepth(item.value, braces))
  {
    match items
    case Nil =>
    case Cons(_, tail) => SnocDepth(tail, item, braces);
  }

  /** The keys of the adapter's own. */
  lemma OwnKeys()
    ensures PlainKey("protocolVersion") && PlainKey("capabilities") && PlainKey("serverInfo") && PlainKey("version")
    ensures PlainKey("name") && PlainKey("description") && PlainKey("inputSchema") && PlainKey("tools")
    ensures PlainKey("type") && PlainKey("properties") && PlainKey("required")
    ensures PlainKey("text") && PlainKey("content") && PlainKey("isError")
  {
    assert PlainKey("protocolVersion") && PlainKey("capabilities") && PlainKey("serverInfo") && PlainKey("version");
    ToolKeys();
    hide PlainKey;
  }

  lemma ToolKeys()
    ensures PlainKey("name") && PlainKey("description") && PlainKey("inputSchema") && PlainKey("tools")
    ensures PlainKey("type") && PlainKey("properties") && PlainKey("required")
    ensures PlainKey("text") && PlainKey("content") && PlainKey("isError")
  {
  }

  lemma InitializeResultIsJson(protocol: string, name: string, version: string)
    ensures WellFormed(InitializeResult(protocol, name, version)) && Shallow(InitializeResult(protocol, name, version))
  {
    hide Good, Named, One, Two, Three, PairTree, TextValue, KindDepth, PlainKey;
    var none, tools := Obj(Nil), Obj(One(Named("tools", Obj(Nil))));
    var first, info := TextValue(protocol), PairTree("name", name, "version", version);
    OwnKeys();
    PairIsGood("name", name, "version", version, true);
    GoodQuoted(protocol, true);
    GoodMembers("tools", none, "tools", none, "tools", none, true);
    GoodMembers("protocolVersion", first, "capabilities", tools, "serverInfo", info, true);
    PairDepth("name", name, "version", version);
    TextDepth(protocol);
    DepthOfMembers("tools", none, "tools", none, "tools", none);
    DepthOfMembers("protocolVersion", first, "capabilities", tools, "serverInfo", info);
    GoodMeans(InitializeResult(protocol, name, version));
  }

  /** What goodness and depth are for. */
  lemma GoodMeans(v: Json)
    ensures Good(v, true) <==> WellFormed(v)
    ensures Good(v, false) <==> Scannable(v)
    ensures v.Container? && v.braces && KindDepth(v, true) <= MAX_DEPTH ==> Shallow(v)
  {
    hide WellFormed, Scannable;
  }

  lemma TextDepth(value: string)
    ensures KindDepth(TextValue(value), true) == 0
  {
  }

  lemma PairDepth(k1: string, v1: string, k2: string, v2: string)
    ensures KindDepth(PairTree(k1, v1, k2, v2), true) == 1
  {
    hide Named, TextValue, KindDepth;
    TextDepth(v1);
    TextDepth(v2);
    DepthOfMembers(k1, TextValue(v1), k2, TextValue(v2), k1, TextValue(v1));
  }

  /** An array of one value. */
  lemma OneElement(v: Json, strict: bool)
    ensures Good(Arr(One(Element(Plain(v)))), strict) <==> Good(v, strict)
    ensures KindDepth(Arr(One(Element(Plain(v)))), true) == KindDepth(v, true)
  {
    var e := Element(Plain(v));
    GoodElement(v, strict);
    GoodUpToThree(e, e, e, false, strict);
    GoodContainer(false, One(e), strict);
    ItemsDepthUpToThree(e, e, e);
    hide Good, GoodItem, GoodItems, ItemsDepth;
  }

  lemma CallResultIsJson(result: ToolResult)
    ensures WellFormed(CallResult(result)) && Shallow(CallResult(result))
  {
    var content := ContentTree(result.text);
    var list, flag := Arr(One(Element(Plain(content)))), if result.isError then True else False;
    assert Good(flag, true) && KindDepth(flag, true) == 0;
    hide Good, Named, One, Two, PairTree, TextValue, KindDepth, PlainKey, Element;
    OwnKeys();
    PairIsGood("type", "text", "text", result.text, true);
    PairDepth("type", "text", "text", result.text);
    OneElement(content, true);
    GoodMembers("content", list, "isError", flag, "isError", flag, true);
    DepthOfMembers("content", list, "isError", flag, "isError", flag);
    GoodMeans(CallResult(result));
  }

  // ------------------------------------------------------------------ lists of tools

  /** The adapter writes the names of parameters as keys, unescaped. */
  predicate NamesGood(params: seq<ToolParam>, strict: bool) {
    forall p | p in params :: GoodText(CStr(p.name), strict)
  }

  lemma {:induction false} PropertiesGood(params: seq<ToolParam>, strict: bool)
    ensures GoodItems(PropertyItems(params), true, strict) <==> NamesGood(params, strict)
    ensures ItemsDepth(PropertyItems(params), true) <= 1
  {
    hide Good, GoodItem, GoodText, Named, ParamTree;
    if params == [] {
    } else {
      hide GoodItems;
      var before, p := params[..|params| - 1], params[|params| - 1];
      assert params == before + [p];
      PropertiesGood(before, strict);
      ParamGood(p, strict);
      GoodNamed(p.name, ParamTree(p), strict);
      GoodSnoc(PropertyItems(before), Named(p.name, ParamTree(p)), true, strict);
      SnocDepth(PropertyItems(before), Named(p.name, ParamTree(p)), true);
      NamedValue(p.name, ParamTree(p));
    }
  }

  lemma NamedValue(key: string, v: Json)
    ensures Named(key, v).value == v
  {
  }

  lemma ParamGood(p: ToolParam, strict: bool)
    ensures Good(ParamTree(p), strict) && KindDepth(ParamTree(p), true) == 1
  {
    PairIsGood("type", p.kind, "description", p.description, strict);
    PairDepth("type", p.kind, "description", p.description);
  }

  lemma {:induction false} RequiredGood(params: seq<ToolParam>, strict: bool)
    ensures GoodItems(RequiredItems(params), false, strict) && ItemsDepth(RequiredItems(params), true) == 0
  {
    hide Good, GoodItem, TextValue, Element;
    if params == [] {
    } else {
      hide GoodItems;
      var before, p := params[..|params| - 1], params[|params| - 1];
      RequiredGood(before, strict);
      GoodQuoted(p.name, strict);
      GoodElement(TextValue(p.name), strict);
      GoodSnoc(RequiredItems(before), Element(Plain(TextValue(p.name))), false, strict);
      SnocDepth(RequiredItems(before), Element(Plain(TextValue(p.name))), true);
      ElementValue(TextValue(p.name));
      TextDepth(p.name);
    }
  }

  lemma SchemaGood(params: seq<ToolParam>, strict: bool)
    ensures Good(SchemaTree(params), strict) <==> NamesGood(params, strict)
    ensures KindDepth(SchemaTree(params), true) <= 3
  {
    PropertiesGood(params, strict);
    RequiredGood(params, strict);
    hide Good, GoodItems, Named, PlainKey, NamesGood, TextValue, Three, PropertyItems, RequiredItems;
    var type_, properties := TextValue("object"), Obj(PropertyItems(params));
    var required := Arr(RequiredItems(params));
    assert KindDepth(properties, true) <= 2 && KindDepth(required, true) == 0;
    hide KindDepth, ItemsDepth;
    OwnKeys();
    GoodQuoted("object", strict);
    TextDepth("object");
    GoodContainer(true, PropertyItems(params), strict);
    GoodContainer(false, RequiredItems(params), strict);
    GoodMembers("type", type_, "properties", properties, "required", required, strict);
    DepthOfMembers("type", type_, "properties", properties, "required", required);
  }

  lemma ToolGood(t: ToolDefinition, strict: bool)
    ensures Good(ToolTree(t), strict) <==> NamesGood(t.params, strict)
    ensures KindDepth(ToolTree(t), true) <= 4
  {
    hide Good, Named, PlainKey, NamesGood, TextValue, Three, SchemaTree, KindDepth;
    var schema, name, description := SchemaTree(t.params), TextValue(t.name), TextValue(t.description);
    OwnKeys();
    GoodQuoted(t.name, strict);
    GoodQuoted(t.description, strict);
    TextDepth(t.name);
    TextDepth(t.description);
    SchemaGood(t.params, strict);
    GoodMembers("name", name, "description", description, "inputSchema", schema, strict);
    DepthOfMembers("name", name, "description", description, "inputSchema", schema);
  }

  lemma {:induction false} ToolsGood(tools: seq<ToolDefinition>, strict: bool)
    ensures GoodItems(ToolItems(tools), false, strict) <==> forall t | t in tools :: NamesGood(t.params, strict)
    ensures ItemsDepth(ToolItems(tools), true) <= 4
  {
    hide Good, GoodItem, NamesGood, ToolTree, Element;
    if tools == [] {
    } else {
      hide GoodItems;
      var before, t := tools[..|tools| - 1], tools[|tools| - 1];
      assert tools == before + [t];
      ToolsGood(before, strict);
      ToolGood(t, strict);
      GoodElement(ToolTree(t), strict);
      GoodSnoc(ToolItems(before), Element(Plain(ToolTree(t))), false, strict);
      SnocDepth(ToolItems(before), Element(Plain(ToolTree(t))), true);
      ElementValue(ToolTree(t));
    }
  }

  lemma ElementValue(v: Json)
    ensures Element(Plain(v)).value == v
  {
  }

  lemma ListGood(tools: seq<ToolDefinition>, strict: bool)
    ensures Good(ListResult(tools), strict) <==> forall t | t in tools :: NamesGood(t.params, strict)
    ensures Shallow(ListResult(tools))
  {
    ToolsGood(tools, strict);
    hide Good, GoodItems, Named, PlainKey, NamesGood, One, ToolItems;
    var list := Arr(ToolItems(tools));
    assert KindDepth(list, true) <= 4;
    hide KindDepth, ItemsDepth;
    OwnKeys();
    GoodContainer(false, ToolItems(tools), strict);
    GoodMembers("tools", list, "tools", list, "tools", list, strict);
    DepthOfMembers("tools", list, "tools", list, "tools", list);
    GoodMeans(ListResult(tools));
  }

  /** The tree of a list of tools is well-formed exactly when every name could stand in a JSON string as it is. */
  lemma ListResultIsJson(tools: seq<ToolDefinition>)
    ensures WellFormed(ListResult(tools)) <==>
            forall t | t in tools :: forall p | p in t.params :: StringBody(CStr(p.name))
    ensures Shallow(ListResult(tools))
  {
    ListGood(tools, true);
  }
}
