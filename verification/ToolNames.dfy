/**
  What the names of parameters make of the text of a tool list, where they stand unescaped: whether it
  is JSON, and names that a reader takes for members of the list or of the whole reply.
 */
module ToolNames {
  import opened Text
  import opened Json
  import opened ParserSpec
  import opened ScanProofs
  import opened Decimal
  import opened Escape
  import opened ParseFold
  import opened ParseTheorems
  import opened B = JsonBuilderModule
  import opened Replies
  import opened McpAdapter
  import opened UniqueReading

  // ------------------------------------------------------------- when the text is JSON

  /**
    The text of a reply with a list of tools, names being closed, is JSON exactly when every name could
    stand in a JSON string as it is. There is no other reading that would save it.
   */
  lemma ListTextIsJson(id: Option<int>, tools: seq<ToolDefinition>)
    requires forall t | t in tools :: forall p | p in t.params :: ClosedBody(CStr(p.name))
    ensures IsJsonText(Print(ListTree(id, tools))) <==>
            forall t | t in tools :: forall p | p in t.params :: StringBody(CStr(p.name))
  {
    hide *;
    NamesDecide(tools);
    var v := ListReply(id, tools);
    PrintIsJsonIff(v);
  }

  lemma NamesDecide(tools: seq<ToolDefinition>)
    ensures WellFormed(ListResult(tools)) <==>
            forall t | t in tools :: forall p | p in t.params :: StringBody(CStr(p.name))
    ensures Scannable(ListResult(tools)) <==>
            forall t | t in tools :: forall p | p in t.params :: ClosedBody(CStr(p.name))
  {
    ListResultIsJson(tools);
    ListGood(tools, false);
    hide ListResult, ClosedBody, StringBody, WellFormed, Scannable;
  }

  /** The reply is as good as the list in it. */
  lemma ListReply(id: Option<int>, tools: seq<ToolDefinition>) returns (v: Json)
    ensures v == ListTree(id, tools)
    ensures WellFormed(v) <==> WellFormed(ListResult(tools))
    ensures Scannable(v) <==> Scannable(ListResult(tools))
  {
    v := ListTree(id, tools);
    var result := ListResult(tools);
    ReplyKeys();
    hide Good, Named, PlainKey, TextValue, ListResult, Three;
    GoodQuoted("2.0", true);
    GoodQuoted("2.0", false);
    GoodId(id, true);
    GoodId(id, false);
    GoodMembers("jsonrpc", TextValue("2.0"), "id", IdJson(id), "result", result, true);
    GoodMembers("jsonrpc", TextValue("2.0"), "id", IdJson(id), "result", result, false);
    GoodMeans(v);
    GoodMeans(result);
  }

  lemma GoodId(id: Option<int>, strict: bool)
    ensures Good(IdJson(id), strict)
  {
    hide WellFormedNumeral;
  }

  // --------------------------------------------------------- the text of a list of one tool

  /** The list of one tool whose schema has these properties, and these members behind them. */
  function ListWith(t: ToolDefinition, properties: Items, rest: Items): Json {
    Obj(One(Named("tools", Arr(One(Element(Plain(ToolWith(t, properties, rest))))))))
  }

  function ToolWith(t: ToolDefinition, properties: Items, rest: Items): Json {
    Obj(Three(Named("name", TextValue(t.name)), Named("description", TextValue(t.description)),
              Named("inputSchema", SchemaWith(properties, rest))))
  }

  function SchemaWith(properties: Items, rest: Items): Json {
    Obj(Cons(Named("type", TextValue("object")), Cons(Named("properties", Obj(properties)), rest)))
  }

  function Required(t: ToolDefinition): Item {
    Named("required", Arr(RequiredItems(t.params)))
  }

  lemma ListOfOne(t: ToolDefinition)
    ensures ListResult([t]) == ListWith(t, PropertyItems(t.params), One(Required(t)))
  {
    hide Named, TextValue, Element;
    assert [t][..0] == [] && ToolItems([]) == Nil;
    assert ToolItems([t]) == One(Element(Plain(ToolTree(t))));
  }

  /** What stands in front of the properties: of the schema, of the tool, of the list. */
  function SchemaHead(): string {
    "{" + (PrintItem(Named("type", TextValue("object"))) + ",\"properties\":{")
  }

  function ToolHead(t: ToolDefinition): string {
    "{" + (PrintItem(Named("name", TextValue(t.name))) + ("," +
    (PrintItem(Named("description", TextValue(t.description))) + ",\"inputSchema\":")))
  }

  function ListHead(t: ToolDefinition): string {
    "{\"tools\":[" + (ToolHead(t) + SchemaHead())
  }

  lemma NamedText(key: string, v: Json)
    requires '\0' !in key
    ensures PrintItem(Named(key, v)) == "\"" + key + "\":" + Print(v)
  {
    hide Print;
  }

  lemma ObjectText(a: Item, tail: Items)
    ensures Print(Obj(Cons(a, tail))) == "{" + (PrintItem(a) + ItemsRest(tail)) + "}"
  {
    hide PrintItem;
    ItemsText(a, tail);
  }

  lemma BareText(items: Items)
    ensures Print(Obj(items)) == "{" + PrintItems(items) + "}"
    ensures Print(Arr(items)) == "[" + PrintItems(items) + "]"
  {
    hide PrintItems;
    assert "{" + "" == "{" && "[" + "" == "[";
  }

  lemma SchemaText(properties: Items, rest: Items)
    ensures Print(SchemaWith(properties, rest)) ==
            SchemaHead() + PrintItems(properties) + "}" + ItemsRest(rest) + "}"
  {
    var a, b := Named("type", TextValue("object")), Named("properties", Obj(properties));
    hide Print, PrintItem, PrintItems, Named, TextValue;
    BareText(properties);
    NamedText("properties", Obj(properties));
    ItemsText(b, rest);
    ObjectText(a, Cons(b, rest));
    SchemaTexts(PrintItem(a), PrintItems(properties), ItemsRest(rest));
  }

  lemma SchemaTexts(a: string, p: string, r: string)
    ensures "{" + (a + ("," + ("\"" + "properties" + "\":" + ("{" + p + "}") + r))) + "}" ==
            "{" + (a + ",\"properties\":{") + p + "}" + r + "}"
  {
  }

  lemma ToolText(t: ToolDefinition, properties: Items, rest: Items)
    ensures Print(ToolWith(t, properties, rest)) == ToolHead(t) + Print(SchemaWith(properties, rest)) + "}"
  {
    var a, b := Named("name", TextValue(t.name)), Named("description", TextValue(t.description));
    var schema := SchemaWith(properties, rest);
    var c := Named("inputSchema", schema);
    hide Print, PrintItem, PrintItems, Named, TextValue, SchemaWith;
    NamedText("inputSchema", schema);
    ItemsText(c, Nil);
    ItemsText(b, One(c));
    ObjectText(a, Two(b, c));
    ToolTexts(PrintItem(a), PrintItem(b), Print(schema));
  }

  lemma ToolTexts(a: string, b: string, v: string)
    ensures "{" + (a + ("," + (b + ("," + ("\"" + "inputSchema" + "\":" + v + ""))))) + "}" ==
            "{" + (a + ("," + (b + ",\"inputSchema\":"))) + v + "}"
  {
  }

  lemma ListText(t: ToolDefinition, properties: Items, rest: Items)
    ensures Print(ListWith(t, properties, rest)) ==
            ListHead(t) + PrintItems(properties) + "}" + ItemsRest(rest) + "}}]}"
  {
    var tool := ToolWith(t, properties, rest);
    OneToolText(tool);
    hide Print, PrintItems, PrintItem, Named, TextValue, ToolWith, SchemaWith, ToolHead, SchemaHead, Element;
    ToolText(t, properties, rest);
    SchemaText(properties, rest);
    ListTexts(ToolHead(t), SchemaHead(), PrintItems(properties), ItemsRest(rest));
  }

  lemma ListTexts(t: string, h: string, p: string, r: string)
    ensures "{\"tools\":[" + (t + (h + p + "}" + r + "}") + "}") + "]}" ==
            "{\"tools\":[" + (t + h) + p + "}" + r + "}}]}"
  {
  }

  lemma OneToolText(tool: Json)
    ensures Print(Obj(One(Named("tools", Arr(One(Element(Plain(tool)))))))) == "{\"tools\":[" + Print(tool) + "]}"
  {
    var e := Element(Plain(tool));
    hide Print, PrintItem, PrintItems, Named, Element;
    ElementText(tool);
    ItemsText(e, Nil);
    BareText(One(e));
    NamedText("tools", Arr(One(e)));
    ObjectText(Named("tools", Arr(One(e))), Nil);
    OneToolTexts(Print(tool));
  }

  lemma ElementText(v: Json)
    ensures PrintItem(Element(Plain(v))) == Print(v)
  {
    hide Print;
    assert PrintKey(NoKey) == "";
  }

  lemma OneToolTexts(v: string)
    ensures "{" + ("\"" + "tools" + "\":" + ("[" + (v + "") + "]") + "") + "}" == "{\"tools\":[" + v + "]}"
  {
    assert v + "" == v;
  }

  // ----------------------------------------------------------- when such a list is read

  lemma GoodTwoAndMore(a: Item, b: Item, rest: Items, strict: bool)
    ensures GoodItems(Cons(a, Cons(b, rest)), true, strict) <==>
            GoodItem(a, true, strict) && GoodItem(b, true, strict) && GoodItems(rest, true, strict)
    ensures ItemsDepth(Cons(a, Cons(b, rest)), true) ==
            Max(KindDepth(a.value, true), Max(KindDepth(b.value, true), ItemsDepth(rest, true)))
  {
    hide WellFormedItem, ScannableItem, KindDepth;
    assert GoodItems(Cons(b, rest), true, strict) <==> GoodItem(b, true, strict) && GoodItems(rest, true, strict);
    assert ItemsDepth(Cons(b, rest), true) == Max(KindDepth(b.value, true), ItemsDepth(rest, true));
  }

  lemma SchemaWithGood(properties: Items, rest: Items, strict: bool)
    requires GoodItems(properties, true, strict) && ItemsDepth(properties, true) <= 1
    requires GoodItems(rest, true, strict) && ItemsDepth(rest, true) == 0
    ensures Good(SchemaWith(properties, rest), strict) && KindDepth(SchemaWith(properties, rest), true) <= 3
  {
    var a, b := Named("type", TextValue("object")), Named("properties", Obj(properties));
    NamedValue("type", TextValue("object"));
    NamedValue("properties", Obj(properties));
    assert KindDepth(Obj(properties), true) == 1 + ItemsDepth(properties, true);
    assert KindDepth(Obj(Cons(a, Cons(b, rest))), true) == 1 + ItemsDepth(Cons(a, Cons(b, rest)), true);
    hide Good, GoodItem, GoodItems, GoodText, Named, PlainKey, TextValue, KindDepth, ItemsDepth;
    OwnKeys();
    GoodKey("type", strict);
    GoodKey("properties", strict);
    GoodQuoted("object", strict);
    TextDepth("object");
    GoodContainer(true, properties, strict);
    GoodNamed("type", TextValue("object"), strict);
    GoodNamed("properties", Obj(properties), strict);
    GoodTwoAndMore(a, b, rest, strict);
    GoodContainer(true, Cons(a, Cons(b, rest)), strict);
  }

  lemma ToolWithGood(t: ToolDefinition, properties: Items, rest: Items, strict: bool)
    requires GoodItems(properties, true, strict) && ItemsDepth(properties, true) <= 1
    requires GoodItems(rest, true, strict) && ItemsDepth(rest, true) == 0
    ensures Good(ToolWith(t, properties, rest), strict) && KindDepth(ToolWith(t, properties, rest), true) <= 4
  {
    hide Good, GoodItems, Named, PlainKey, TextValue, Three, SchemaWith, KindDepth;
    var schema, name, description := SchemaWith(properties, rest), TextValue(t.name), TextValue(t.description);
    OwnKeys();
    GoodQuoted(t.name, strict);
    GoodQuoted(t.description, strict);
    TextDepth(t.name);
    TextDepth(t.description);
    SchemaWithGood(properties, rest, strict);
    GoodMembers("name", name, "description", description, "inputSchema", schema, strict);
    DepthOfMembers("name", name, "description", description, "inputSchema", schema);
  }

  /** Such a list is as good as its properties. */
  lemma ListWithGood(t: ToolDefinition, properties: Items, rest: Items, strict: bool)
    requires GoodItems(properties, true, strict) && ItemsDepth(properties, true) <= 1
    requires GoodItems(rest, true, strict) && ItemsDepth(rest, true) == 0
    ensures Good(ListWith(t, properties, rest), strict) && Shallow(ListWith(t, properties, rest))
  {
    var v := ToolWith(t, properties, rest);
    ToolWithGood(t, properties, rest, strict);
    hide Good, Named, PlainKey, KindDepth, ToolWith, Element;
    OwnKeys();
    var list := Arr(One(Element(Plain(v))));
    OneElement(v, strict);
    GoodMembers("tools", list, "tools", list, "tools", list, strict);
    DepthOfMembers("tools", list, "tools", list, "tools", list);
    GoodMeans(ListWith(t, properties, rest));
  }

  lemma RequiredIsGood(t: ToolDefinition, strict: bool)
    ensures GoodItems(One(Required(t)), true, strict) && ItemsDepth(One(Required(t)), true) == 0
  {
    var v := Arr(RequiredItems(t.params));
    RequiredGood(t.params, strict);
    NamedValue("required", v);
    ItemsDepthUpToThree(Required(t), Required(t), Required(t));
    assert KindDepth(v, true) == 0;
    hide Good, GoodItem, GoodItems, GoodText, Named, PlainKey, KindDepth, ItemsDepth, RequiredItems;
    OwnKeys();
    GoodKey("required", strict);
    GoodContainer(false, RequiredItems(t.params), strict);
    GoodNamed("required", v, strict);
    GoodUpToThree(Required(t), Required(t), Required(t), true, strict);
  }

  lemma OneProperty(t: ToolDefinition, p: ToolParam)
    requires t.params == [p]
    ensures PropertyItems(t.params) == One(Named(p.name, ParamTree(p)))
  {
    hide Named, ParamTree;
    assert t.params[..0] == [] && PropertyItems([]) == Nil;
  }

  // -------------------------------------------------------- a name that reads as two members

  /** A name that is two names with the end of one member and the start of the next between them. */
  function Bridge(x: string, y: string): string {
    x + "\":{},\"" + y
  }

  /** A definition that is valid as long as the name of its parameter is. */
  predicate ValidButForName(t: ToolDefinition, p: ToolParam) {
    && t.params == [p] && ValidName(t.name) && |t.description| <= 4096
    && p.kind in ["string", "integer", "boolean", "number"] && |p.description| <= 1024
  }

  lemma ValidWithName(t: ToolDefinition, p: ToolParam)
    requires t.params == [p]
    ensures ToolsError([t]).None? <==> ValidButForName(t, p) && ValidName(p.name)
  {
    hide ValidName, ToolError;
    assert p in t.params && t in [t];
  }

  /** Control characters apart, a name is judged by its length. */
  lemma LongNames(name: string)
    requires name != "" && forall c | c in name :: c >= ' '
    ensures ValidName(name) <==> |name| <= 256
  {
    assert ' ' > '\n' && ' ' > '\r' && ' ' > '\0';
  }

  lemma BridgeTexts(x: string, y: string, v: string)
    ensures "\"" + Bridge(x, y) + "\":" + v + "" == ("\"" + x + "\":" + "{}") + ("," + ("\"" + y + "\":" + v + ""))
  {
  }

  lemma EmptyObject()
    ensures Print(Obj(Nil)) == "{}"
  {
  }

  lemma BridgeIsTwoMembers(x: string, y: string, v: Json)
    requires PlainKey(x) && PlainKey(y)
    ensures PrintItems(One(Named(Bridge(x, y), v))) == PrintItems(Two(Named(x, Obj(Nil)), Named(y, v)))
  {
    assert '\0' !in x && '\0' !in y && '\0' !in Bridge(x, y);
    var a, b, name := Named(x, Obj(Nil)), Named(y, v), Bridge(x, y);
    EmptyObject();
    hide PlainKey, Print, PrintItem, PrintItems, Named;
    NamedText(name, v);
    NamedText(x, Obj(Nil));
    NamedText(y, v);
    ItemsText(Named(name, v), Nil);
    ItemsText(b, Nil);
    ItemsText(a, One(b));
    BridgeTexts(x, y, Print(v));
  }

  lemma {:induction false} OpenAtQuote(x: string, rest: string)
    requires forall c | c in x :: c != '"' && c != '\\'
    ensures !ClosedBody(x + ("\"" + rest))
  {
    if x != "" {
      assert x[0] in x && (x + ("\"" + rest))[1..] == x[1..] + ("\"" + rest);
      assert forall c | c in x[1..] :: c in x;
      OpenAtQuote(x[1..], rest);
    }
  }

  lemma BridgeName(x: string, y: string)
    requires PlainKey(x) && PlainKey(y)
    ensures !ClosedBody(CStr(Bridge(x, y))) && !StringBody(CStr(Bridge(x, y)))
    ensures ValidName(Bridge(x, y)) <==> |x| + |y| <= 250
  {
    var name := Bridge(x, y);
    assert name == x + ("\"" + (":{},\"" + y)) && '\0' !in name && CStr(name) == name;
    assert forall c | c in name :: c >= ' ';
    hide ClosedBody, StringBody, ValidName, CStr;
    OpenAtQuote(x, ":{},\"" + y);
    LongNames(name);
    if StringBody(name) {
      BodyIsClosed(name);
    }
  }

  /** The two members that such a property is read as. */
  lemma TwoMembersAreGood(x: string, y: string, p: ToolParam, strict: bool)
    requires PlainKey(x) && PlainKey(y)
    ensures GoodItems(Two(Named(x, Obj(Nil)), Named(y, ParamTree(p))), true, strict)
    ensures ItemsDepth(Two(Named(x, Obj(Nil)), Named(y, ParamTree(p))), true) <= 1
  {
    var items := Two(Named(x, Obj(Nil)), Named(y, ParamTree(p)));
    hide Named, ParamTree, PlainKey, ItemsDepth;
    assert KindDepth(Obj(items), true) == 1 + ItemsDepth(items, true);
    hide Good, GoodItems, GoodItem, KindDepth;
    ParamGood(p, strict);
    GoodMembers(x, Obj(Nil), y, ParamTree(p), x, Obj(Nil), strict);
    DepthOfMembers(x, Obj(Nil), y, ParamTree(p), x, Obj(Nil));
    GoodContainer(true, items, strict);
  }

  /** The list with two parameters that it is read as. */
  function TwoParameters(t: ToolDefinition, x: string, y: string, p: ToolParam): Json {
    ListWith(t, Two(Named(x, Obj(Nil)), Named(y, ParamTree(p))), One(Required(t)))
  }

  lemma BridgeText(t: ToolDefinition, x: string, y: string, p: ToolParam)
    requires t.params == [p] && p.name == Bridge(x, y) && PlainKey(x) && PlainKey(y)
    ensures Print(ListResult([t])) == Print(TwoParameters(t, x, y, p))
  {
    var one, two := One(Named(p.name, ParamTree(p))), Two(Named(x, Obj(Nil)), Named(y, ParamTree(p)));
    hide *;
    ListOfOne(t);
    OneProperty(t, p);
    BridgeIsTwoMembers(x, y, ParamTree(p));
    ListText(t, PropertyItems(t.params), One(Required(t)));
    TwoText(t, x, y, p);
  }

  lemma TwoText(t: ToolDefinition, x: string, y: string, p: ToolParam)
    ensures Print(TwoParameters(t, x, y, p)) ==
            ListHead(t) + PrintItems(Two(Named(x, Obj(Nil)), Named(y, ParamTree(p)))) + "}"
            + ItemsRest(One(Required(t))) + "}}]}"
  {
    hide Print, PrintItems, Named, ParamTree, ListWith, ListHead, ItemsRest, Required;
    ListText(t, Two(Named(x, Obj(Nil)), Named(y, ParamTree(p))), One(Required(t)));
  }

  lemma TwoParametersAreGood(t: ToolDefinition, x: string, y: string, p: ToolParam)
    requires PlainKey(x) && PlainKey(y)
    ensures WellFormed(TwoParameters(t, x, y, p)) && Shallow(TwoParameters(t, x, y, p))
  {
    TwoMembersAreGood(x, y, p, true);
    RequiredIsGood(t, true);
    hide Good, GoodItems, ItemsDepth, Named, ParamTree, Required, ListWith, PlainKey;
    ListWithGood(t, Two(Named(x, Obj(Nil)), Named(y, ParamTree(p))), One(Required(t)), true);
    GoodMeans(TwoParameters(t, x, y, p));
  }

  /**
    Neither closed names nor names fit for a JSON string are necessary: a parameter named by a bridge is
    neither, and its list, which is sent, is the text of a list with two parameters. That is JSON, and
    the parser reads it.
   */
  lemma QuotesCanCancel(id: int, t: ToolDefinition, p: ToolParam, x: string, y: string, maxBytes: nat)
    requires t.params == [p] && p.name == Bridge(x, y) && PlainKey(x) && PlainKey(y)
    ensures ToolsError([t]).None? <==> ValidButForName(t, p) && |x| + |y| <= 250
    ensures !ClosedBody(CStr(p.name)) && !StringBody(CStr(p.name))
    ensures Print(ListResult([t])) == Print(TwoParameters(t, x, y, p))
    ensures IsJsonText(Print(ListResult([t])))
    ensures var s := Print(ListTree(Some(id), [t]));
            ParseMessage(s, maxBytes).Some? <==> |s| <= maxBytes && Fits(id)
  {
    hide *;
    ValidWithName(t, p);
    BridgeName(x, y);
    BridgeText(t, x, y, p);
    TwoParametersAreGood(t, x, y, p);
    var v := TwoParameters(t, x, y, p);
    WellFormedIsScannable(v);
    PrintIsJsonIff(v);
    SameReply(id, [t], v);
    ResultReplyParses(id, v, maxBytes);
  }

  function ReplyHead(id: int): string {
    "{" + (PrintItem(Named("jsonrpc", TextValue("2.0"))) + ("," + (PrintItem(Named("id", IntJson(id)))
    + ",\"result\":")))
  }

  lemma ReplyText(id: int, v: Json)
    ensures Print(ReplyTree(Some(id), Named("result", v))) == ReplyHead(id) + Print(v) + "}"
  {
    var a, b, c := Named("jsonrpc", TextValue("2.0")), Named("id", IntJson(id)), Named("result", v);
    hide Print, PrintItem, PrintItems, Named, TextValue, IntJson;
    NamedText("result", v);
    ItemsText(c, Nil);
    ItemsText(b, One(c));
    ObjectText(a, Two(b, c));
    ReplyTexts(PrintItem(a), PrintItem(b), Print(v));
  }

  lemma ReplyTexts(a: string, b: string, v: string)
    ensures "{" + (a + ("," + (b + ("," + ("\"" + "result" + "\":" + v + ""))))) + "}" ==
            "{" + (a + ("," + (b + ",\"result\":"))) + v + "}"
  {
  }

  lemma SameReply(id: int, tools: seq<ToolDefinition>, v: Json)
    requires Print(ListResult(tools)) == Print(v)
    ensures Print(ListTree(Some(id), tools)) == Print(ReplyTree(Some(id), Named("result", v)))
  {
    hide Print, ReplyTree, ReplyHead, Named, ListResult;
    ReplyText(id, ListResult(tools));
    ReplyText(id, v);
  }

  // ------------------------------------------------- a name that closes the list and the result

  /** A name that ends the list and the result, and then starts a second id and one more member. */
  function SecondId(x: string, n: int, y: string): string {
    x + "\":{}}}}]},\"id\":" + IntText(n) + ",\"" + y
  }

  /** The list as it is read: it ends in the name. */
  function ShortList(t: ToolDefinition, x: string): Json {
    ListWith(t, One(Named(x, Obj(Nil))), Nil)
  }

  /** The members of the reply as it is read: a result, a second id and one more member. */
  function ReadMembers(id: int, v: Json, n: int, y: string, w: Json): Items {
    Cons(Named("jsonrpc", TextValue("2.0")), Cons(Named("id", IntJson(id)),
      Three(Named("result", v), Named("id", IntJson(n)), Named(y, w))))
  }

  /** What stands behind the brace that the parser takes for the last. */
  function Unread(t: ToolDefinition): string {
    ItemsRest(One(Required(t))) + "}}]}}"
  }

  lemma ShortListText(t: ToolDefinition, x: string)
    requires PlainKey(x)
    ensures Print(ShortList(t, x)) == ListHead(t) + ("\"" + x + "\":" + "{}") + "}" + "" + "}}]}"
  {
    assert '\0' !in x;
    var a := Named(x, Obj(Nil));
    EmptyObject();
    hide PlainKey, Print, PrintItem, PrintItems, Named, ListHead, ListWith;
    NamedText(x, Obj(Nil));
    ItemsText(a, Nil);
    assert PrintItem(a) + "" == PrintItem(a);
    ListText(t, One(a), Nil);
  }

  lemma LongListText(t: ToolDefinition, p: ToolParam)
    requires t.params == [p] && '\0' !in p.name
    ensures Print(ListResult([t])) ==
            ListHead(t) + ("\"" + p.name + "\":" + Print(ParamTree(p))) + "}" + ItemsRest(One(Required(t))) + "}}]}"
  {
    var a := Named(p.name, ParamTree(p));
    ListOfOne(t);
    OneProperty(t, p);
    hide Print, PrintItem, PrintItems, Named, ParamTree, ListHead, ListWith, ListResult, ItemsRest, PropertyItems,
      Required;
    NamedText(p.name, ParamTree(p));
    ItemsText(a, Nil);
    NoRest();
    assert PrintItem(a) + "" == PrintItem(a);
    ListText(t, One(a), One(Required(t)));
  }

  lemma NoRest()
    ensures ItemsRest(Nil) == ""
  {
  }

  lemma ReadText(id: int, v: Json, n: int, y: string, w: Json)
    requires '\0' !in y
    ensures Print(Obj(ReadMembers(id, v, n, y, w))) ==
            ReplyHead(id) + Print(v) + (",\"id\":" + IntText(n) + ",\"" + y + "\":" + Print(w)) + "}"
  {
    hide Print, PrintItem, PrintItems, Named, TextValue, IntJson, IntText, ItemsRest;
    var a, b, c := Named("jsonrpc", TextValue("2.0")), Named("id", IntJson(id)), Named("result", v);
    var d, e := Named("id", IntJson(n)), Named(y, w);
    NamedText("result", v);
    NumberText("id", n);
    NamedText(y, w);
    FiveTexts(a, b, c, d, e);
    ReadTexts(PrintItem(a), PrintItem(b), Print(v), IntText(n), y, Print(w));
  }

  lemma NumberText(key: string, n: int)
    requires '\0' !in key
    ensures PrintItem(Named(key, IntJson(n))) == "\"" + key + "\":" + IntText(n)
  {
    hide Print, PrintItem, Named, IntJson, IntText;
    IntTextRoundTrip(n);
    NamedText(key, IntJson(n));
  }

  lemma FiveTexts(a: Item, b: Item, c: Item, d: Item, e: Item)
    ensures Print(Obj(Cons(a, Cons(b, Three(c, d, e))))) ==
            "{" + (PrintItem(a) + ("," + (PrintItem(b) + ("," + (PrintItem(c) + ("," + (PrintItem(d) + ("," +
            (PrintItem(e) + ""))))))))) + "}"
  {
    hide Print, PrintItem, PrintItems;
    ItemsText(e, Nil);
    ItemsText(d, One(e));
    ItemsText(c, Two(d, e));
    ItemsText(b, Three(c, d, e));
    ObjectText(a, Cons(b, Three(c, d, e)));
  }

  lemma ReadTexts(a: string, b: string, v: string, i: string, y: string, w: string)
    ensures "{" + (a + ("," + (b + ("," + (("\"" + "result" + "\":" + v) + ("," + (("\"" + "id" + "\":" + i) + ("," +
            (("\"" + y + "\":" + w) + ""))))))))) + "}" ==
            "{" + (a + ("," + (b + ",\"result\":"))) + v + (",\"id\":" + i + ",\"" + y + "\":" + w) + "}"
  {
  }

  /** The same characters, with the ends of the list in the name or behind it. */
  lemma SecondIdTexts(r: string, h: string, x: string, i: string, y: string, w: string, q: string)
    ensures r + (h + ("\"" + (x + "\":{}}}}]},\"id\":" + i + ",\"" + y) + "\":" + w) + "}" + q + "}}]}") + "}" ==
            "" + (r + (h + ("\"" + x + "\":" + "{}") + "}" + "" + "}}]}")
            + (",\"id\":" + i + ",\"" + y + "\":" + w) + "}") + (q + "}}]}}")
  {
  }

  lemma SecondIdText(id: int, t: ToolDefinition, p: ToolParam, x: string, n: int, y: string)
    requires t.params == [p] && p.name == SecondId(x, n, y) && PlainKey(x) && '\0' !in y && '\0' !in p.name
    ensures Print(ListTree(Some(id), [t])) ==
            "" + Print(Obj(ReadMembers(id, ShortList(t, x), n, y, ParamTree(p)))) + Unread(t)
  {
    hide PlainKey, Print, ParamTree, ShortList, IntText, ItemsRest, ReplyHead, ListHead, ListResult, ReplyTree,
      ReadMembers, Named, Required;
    ReplyText(id, ListResult([t]));
    LongListText(t, p);
    ShortListText(t, x);
    ReadText(id, ShortList(t, x), n, y, ParamTree(p));
    SecondIdTexts(ReplyHead(id), ListHead(t), x, IntText(n), y, Print(ParamTree(p)), ItemsRest(One(Required(t))));
  }

  lemma ShortListIsGood(t: ToolDefinition, x: string)
    requires PlainKey(x)
    ensures Scannable(ShortList(t, x)) && Shallow(ShortList(t, x))
  {
    var a := Named(x, Obj(Nil));
    NamedValue(x, Obj(Nil));
    ItemsDepthUpToThree(a, a, a);
    assert KindDepth(Obj(Nil), true) == 1;
    hide Good, GoodItem, GoodItems, GoodText, ItemsDepth, KindDepth, Named, ListWith, PlainKey;
    assert ItemsDepth(Nil, true) == 0;
    GoodKey(x, false);
    GoodMembers(x, Obj(Nil), x, Obj(Nil), x, Obj(Nil), false);
    GoodNamed(x, Obj(Nil), false);
    GoodUpToThree(a, a, a, true, false);
    ListWithGood(t, One(a), Nil, false);
    GoodMeans(ShortList(t, x));
  }

  lemma ParamIsGood(p: ToolParam)
    ensures Scannable(ParamTree(p)) && Shallow(ParamTree(p))
  {
    ParamGood(p, false);
    hide Good, KindDepth;
    GoodMeans(ParamTree(p));
    assert ParamTree(p).Container? && ParamTree(p).braces;
  }

  /** The last three of five members: a result, a second id and one that the parser ignores. */
  lemma LastThree(c: Item, d: Item, e: Item, n: int, items: Items)
    requires items == Three(c, d, e) && ScannableItem(c, true) && ScannableItem(d, true) && ScannableItem(e, true)
    requires RoleOf(Message, c.key.name) == Result && RoleOf(Message, d.key.name) == Id
    requires RoleOf(Message, e.key.name) == Other && d.value == IntJson(n)
    requires Shallow(c.value) && Shallow(e.value)
    ensures ScannableItems(items, true) && (AllAcceptable(Message, items) <==> Fits(n))
    ensures LastMembers(Message, items) == NO_MEMBER.(id := Some(d.value), result := Some(c.value))
  {
    IntTextRoundTrip(n);
    hide ScannableItem, RoleOf, Shallow, IntegerOf, IntJson;
    ItemsUpToThree(c, d, e);
    Members3(c, d, e);
  }

  /** One more member in front, an id or one that the parser ignores. */
  lemma OneInFront(head: Item, tail: Items, items: Items)
    requires items == Cons(head, tail) && ScannableItem(head, true) && ScannableItems(tail, true)
    ensures ScannableItems(items, true) && head.key.Key? && Scannable(head.value)
    ensures var role := RoleOf(Message, head.key.name);
            && (AllAcceptable(Message, items) <==> Acceptable(role, head.value) && AllAcceptable(Message, tail))
            && LastMembers(Message, items) == Then(Only(role, head.value), LastMembers(Message, tail))
  {
    hide RoleOf, Acceptable, Only, Then;
  }

  lemma ReadMembersMean(id: int, v: Json, n: int, y: string, w: Json, items: Items)
    requires items == ReadMembers(id, v, n, y, w) && PlainKey(y) && RoleOf(Message, y) == Other
    requires Scannable(v) && Shallow(v) && Scannable(w) && Shallow(w)
    ensures ScannableItems(items, true) && (AllAcceptable(Message, items) <==> Fits(id) && Fits(n))
    ensures LastMembers(Message, items) == NO_MEMBER.(id := Some(IntJson(n)), result := Some(v))
  {
    var a, b, c := Named("jsonrpc", TextValue("2.0")), Named("id", IntJson(id)), Named("result", v);
    var d, e := Named("id", IntJson(n)), Named(y, w);
    var last := Three(c, d, e);
    TextIsScannable("2.0");
    IntTextRoundTrip(id);
    ReplyKeys();
    hide Scannable, ScannableItem, ScannableItems, Shallow, IntegerOf, IntJson, TextValue, Named, PlainKey, RoleOf,
      AllAcceptable, LastMembers, Fits;
    NamedItem("jsonrpc", TextValue("2.0"));
    NamedItem("id", IntJson(id));
    NamedItem("result", v);
    NamedItem("id", IntJson(n));
    NamedItem(y, w);
    LastThree(c, d, e, n, last);
    OneInFront(b, last, Cons(b, last));
    OneInFront(a, Cons(b, last), items);
  }

  /** Digits and a minus sign are no control characters. */
  lemma IntTextIsClean(n: int)
    ensures forall c | c in IntText(n) :: c >= ' '
  {
    IntTextRoundTrip(n);
    NumeralIsPlain(IntJson(n).numeral);
  }

  lemma SecondIdIsClean(x: string, n: int, y: string)
    requires PlainKey(x) && PlainKey(y)
    ensures forall c | c in SecondId(x, n, y) :: c >= ' '
    ensures '\0' !in SecondId(x, n, y) && '\0' !in y && SecondId(x, n, y) != ""
  {
    IntTextIsClean(n);
    hide IntText;
  }

  /**
    The last duplicate wins, and nothing behind the brace that ends the message counts. So a name that
    passes the adapter's check can close the result and give the reply another id: the list sent for
    request `id` is read as a response to request `n`.
   */
  lemma SecondIdWins(id: int, t: ToolDefinition, p: ToolParam, x: string, n: int, y: string, maxBytes: nat)
    requires t.params == [p] && p.name == SecondId(x, n, y)
    requires PlainKey(x) && PlainKey(y) && RoleOf(Message, y) == Other
    ensures ToolsError([t]).None? <==> ValidButForName(t, p) && |p.name| <= 256
    ensures var s := Print(ListTree(Some(id), [t]));
            var m := ParseMessage(s, maxBytes);
            && (m.Some? <==> |s| <= maxBytes && Fits(id) && Fits(n))
            && (m.Some? ==>
                  && m.value.valid && m.value.isResponse && !m.value.isRequest && m.value.id == Some(n)
                  && Holds(s, m.value.result, Print(ShortList(t, x))))
  {
    hide *;
    ValidWithName(t, p);
    SecondIdIsClean(x, n, y);
    LongNames(p.name);
    SecondIdText(id, t, p, x, n, y);
    ShortListIsGood(t, x);
    ParamIsGood(p);
    var v, w := ShortList(t, x), ParamTree(p);
    var items := ReadMembers(id, v, n, y, w);
    ReadMembersMean(id, v, n, y, w, items);
    OtherReply(Print(ListTree(Some(id), [t])), items, Unread(t), v, n, maxBytes);
  }

  lemma OtherReply(s: string, items: Items, rest: string, v: Json, n: int, maxBytes: nat)
    requires s == "" + Print(Obj(items)) + rest && ScannableItems(items, true)
    requires LastMembers(Message, items) == NO_MEMBER.(id := Some(IntJson(n)), result := Some(v))
    ensures var m := ParseMessage(s, maxBytes);
            && (m.Some? <==> |s| <= maxBytes && AllAcceptable(Message, items))
            && (m.Some? ==>
                  && m.value.valid && m.value.isResponse && !m.value.isRequest && m.value.id == Some(n)
                  && Holds(s, m.value.result, Print(v)))
  {
    assert AllJsonSpace("") && Scannable(Obj(items));
    IntTextRoundTrip(n);
    hide Print, ScannableItems, Scannable, LastMembers, AllAcceptable, ParseMessage, IntegerOf, IntJson, Holds;
    ParsedMessageAgrees("", "", items, rest, maxBytes);
  }
}
