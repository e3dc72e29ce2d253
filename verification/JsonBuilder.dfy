/**
  The message builder. It keeps no stack: whether a comma is due is read off the last byte written.
  It is proved against a reference that does keep a stack of open containers and builds a tree.
 */
module JsonBuilderModule {
  import opened Text
  import opened Json
  import opened Escape
  import opened Decimal

  /** A JSON text: a value with white space around it. */
  datatype Raw = Raw(pre: string, value: Json, post: string)

  function RawText(raw: Raw): string {
    raw.pre + Print(raw.value) + raw.post
  }

  predicate WellFormedRaw(raw: Raw) {
    AllJsonSpace(raw.pre) && AllJsonSpace(raw.post) && WellFormed(raw.value)
  }

  /** All the comma rule needs of a value: its print does not end in an opening bracket. */
  predicate Tidy(v: Json) {
    v.Number? ==> WellFormedNumeral(v.numeral)
  }

  predicate TidyRaw(raw: Raw) {
    AllJsonSpace(raw.post) && Tidy(raw.value)
  }

  predicate TidyItems(items: Items) {
    match items
    case Nil => true
    case Cons(head, tail) => AllJsonSpace(head.post) && Tidy(head.value) && TidyItems(tail)
  }

  /**
    The calls a client can make. A raw argument is any text; when it is a JSON text, `raw` says which.
   */
  datatype Call =
    | StartObject
    | EndObject
    | AddField(key: string, value: string)
    | AddFieldNumber(key: string, number: int)
    | AddFieldBool(key: string, flag: bool)
    | AddFieldRaw(key: string, text: string, raw: Option<Raw>)
    | AddObjectField(key: string)
    | CloseObjectField
    | AddArrayField(key: string)
    | CloseArrayField
    | AddArrayElement(value: string)
    | AddArrayElementRaw(text: string, raw: Option<Raw>)

  // ---------------------------------------------------------- what is written

  function LastIs(buf: string, c: char): bool {
    buf != "" && buf[|buf| - 1] == c
  }

  /** The last-byte rule: no comma at the start, nor just after one of the given brackets. */
  function Comma(buf: string, brackets: string): string {
    if buf == "" || buf[|buf| - 1] in brackets then "" else ","
  }

  function KeyText(key: string): string {
    "\"" + CStr(key) + "\":"
  }

  function Quoted(value: string): string {
    "\"" + EscapeAll(CStr(value)) + "\""
  }

  function BoolText(flag: bool): string {
    if flag then "true" else "false"
  }

  /** What one call appends to the buffer. */
  function Appended(buf: string, call: Call): string {
    match call
    case StartObject => "{"
    case EndObject => "}"
    case AddField(key, value) => Comma(buf, "{") + (KeyText(key) + Quoted(value))
    case AddFieldNumber(key, number) => Comma(buf, "{") + (KeyText(key) + IntText(number))
    case AddFieldBool(key, flag) => Comma(buf, "{") + (KeyText(key) + BoolText(flag))
    case AddFieldRaw(key, text, _) => Comma(buf, "{[") + (KeyText(key) + CStr(text))
    case AddObjectField(key) => Comma(buf, "{") + (KeyText(key) + "{")
    case CloseObjectField => "}"
    case AddArrayField(key) => Comma(buf, "{") + (KeyText(key) + "[")
    case CloseArrayField => "]"
    case AddArrayElement(value) => Comma(buf, "[") + Quoted(value)
    case AddArrayElementRaw(text, _) => Comma(buf, "[") + CStr(text)
  }

  function Emit(buf: string, call: Call): string {
    buf + Appended(buf, call)
  }

  function EmitAll(buf: string, calls: seq<Call>): string
    decreases |calls|
  {
    if calls == [] then buf else EmitAll(Emit(buf, calls[0]), calls[1..])
  }

  // ------------------------------------------------- the reference: a tree in the making

  /**
    The open containers, outermost first; each holds the items it was given so far. An `Entry` is an
    object that is the first element of its array.
   */
  datatype Stack =
    | Root(items: Items)
    | Nested(outer: Stack, key: string, braces: bool, items: Items)
    | Entry(list: Stack, items: Items)

  datatype Draft = Empty | Open(stack: Stack) | Finished(tree: Json)

  function InObject(stack: Stack): bool {
    stack.Nested? ==> stack.braces
  }

  function Add(stack: Stack, item: Item): Stack {
    match stack
    case Root(items) => Root(Snoc(items, item))
    case Nested(outer, key, braces, items) => Nested(outer, key, braces, Snoc(items, item))
    case Entry(outer, items) => Entry(outer, Snoc(items, item))
  }

  function Field(key: string, raw: Raw): Item {
    Item("", Key(CStr(key), "", raw.pre), raw.value, raw.post)
  }

  function Element(raw: Raw): Item {
    Item(raw.pre, NoKey, raw.value, raw.post)
  }

  function Plain(v: Json): Raw {
    Raw("", v, "")
  }

  function TextValue(value: string): Json {
    String(EscapeAll(CStr(value)))
  }

  function AddTo(d: Draft, key: string, raw: Raw): Option<Draft> {
    if d.Open? && InObject(d.stack) && TidyRaw(raw)
    then Some(Open(Add(d.stack, Field(key, raw))))
    else None
  }

  function AddElementTo(d: Draft, raw: Raw): Option<Draft> {
    if d.Open? && !InObject(d.stack) && TidyRaw(raw)
    then Some(Open(Add(d.stack, Element(raw))))
    else None
  }

  function OpenIn(d: Draft, key: string, braces: bool): Option<Draft> {
    if d.Open? && InObject(d.stack)
    then Some(Open(Nested(d.stack, key, braces, Nil)))
    else None
  }

  /** The container that a finished one goes into, if there is one. */
  function CloseIn(d: Draft, braces: bool): Option<Draft> {
    if !d.Open? || InObject(d.stack) != braces then None
    else
      var v := Container(braces, "", d.stack.items);
      match d.stack
      case Root(_) => Some(Finished(v))
      case Nested(outer, key, _, _) => Some(Open(Add(outer, Field(key, Plain(v)))))
      case Entry(outer, _) => Some(Open(Add(outer, Element(Plain(v)))))
  }

  /** `start_object` writes no comma: it starts the message, or the first element of an array. */
  function StartIn(d: Draft): Option<Draft> {
    if d.Empty? then Some(Open(Root(Nil)))
    else if d.Open? && !InObject(d.stack) && d.stack.items.Nil? then Some(Open(Entry(d.stack, Nil)))
    else None
  }

  predicate IsText(text: string, raw: Option<Raw>) {
    raw.Some? && CStr(text) == RawText(raw.value)
  }

  /** The tree in the making after a call; `None` when the call is not well nested. */
  function Build(d: Draft, call: Call): Option<Draft> {
    match call
    case StartObject => StartIn(d)
    case EndObject => CloseIn(d, true)
    case AddField(key, value) => AddTo(d, key, Plain(TextValue(value)))
    case AddFieldNumber(key, number) => AddTo(d, key, Plain(IntJson(number)))
    case AddFieldBool(key, flag) => AddTo(d, key, Plain(if flag then True else False))
    case AddFieldRaw(key, text, raw) => if IsText(text, raw) then AddTo(d, key, raw.value) else None
    case AddObjectField(key) => OpenIn(d, key, true)
    case CloseObjectField => CloseIn(d, true)
    case AddArrayField(key) => OpenIn(d, key, false)
    case CloseArrayField => CloseIn(d, false)
    case AddArrayElement(value) => AddElementTo(d, Plain(TextValue(value)))
    case AddArrayElementRaw(text, raw) => if IsText(text, raw) then AddElementTo(d, raw.value) else None
  }

  function BuildAll(d: Draft, calls: seq<Call>): Option<Draft>
    decreases |calls|
  {
    if calls == [] then Some(d)
    else
      match Build(d, calls[0])
      case None => None
      case Some(next) => BuildAll(next, calls[1..])
  }

  /** The text of a tree in the making: every open container printed without its closing bracket. */
  function StackText(stack: Stack): string {
    match stack
    case Root(items) => "{" + PrintItems(items)
    case Nested(outer, key, braces, items) =>
      StackText(outer) + (if outer.items.Nil? then "" else ",")
      + KeyText(key) + [OpenOf(braces)] + PrintItems(items)
    case Entry(outer, items) => StackText(outer) + "{" + PrintItems(items)
  }

  function DraftText(d: Draft): string {
    match d
    case Empty => ""
    case Open(stack) => StackText(stack)
    case Finished(tree) => Print(tree)
  }

  predicate SoundStack(stack: Stack) {
    TidyItems(stack.items)
    && match stack
       case Root(_) => true
       case Nested(outer, _, _, _) => SoundStack(outer) && InObject(outer)
       case Entry(outer, _) => SoundStack(outer) && !InObject(outer) && outer.items.Nil?
  }

  predicate Sound(d: Draft) {
    d.Open? ==> SoundStack(d.stack)
  }

  // ------------------------------------------------------------ the last byte

  /** No value ends in an opening bracket. */
  lemma ValueLast(v: Json)
    requires Tidy(v)
    ensures Print(v) != "" && !LastIs(Print(v), '{') && !LastIs(Print(v), '[')
  {
    if v.Number? {
      NumeralLast(v.numeral);
    }
  }

  lemma NumeralLast(n: Numeral)
    requires WellFormedNumeral(n)
    ensures PrintNumeral(n) != "" && IsDigit(PrintNumeral(n)[|PrintNumeral(n)| - 1])
  {
    var digits :=
      if n.exponent.Some? then n.exponent.value.digits
      else if n.fraction.Some? then n.fraction.value
      else n.whole;
    assert digits[|digits| - 1] in digits;
    var t := PrintNumeral(n);
    assert t[|t| - 1] == digits[|digits| - 1];
  }

  lemma ItemLast(item: Item)
    requires AllJsonSpace(item.post) && Tidy(item.value)
    ensures PrintItem(item) != "" && !LastIs(PrintItem(item), '{') && !LastIs(PrintItem(item), '[')
  {
    ValueLast(item.value);
    if item.post != "" {
      assert item.post[|item.post| - 1] in item.post;
    }
  }

  lemma {:induction false} ItemsLast(items: Items)
    requires TidyItems(items) && items.Cons?
    ensures PrintItems(items) != "" && !LastIs(PrintItems(items), '{') && !LastIs(PrintItems(items), '[')
  {
    hide PrintItem, Tidy;
    if items.tail.Nil? {
      ItemLast(items.head);
    } else {
      ItemsLast(items.tail);
    }
  }

  /** The last byte tells whether the innermost open container is still empty. */
  lemma StackLast(stack: Stack)
    requires SoundStack(stack)
    ensures StackText(stack) != ""
    ensures LastIs(StackText(stack), '{') <==> stack.items.Nil? && InObject(stack)
    ensures LastIs(StackText(stack), '[') <==> stack.items.Nil? && !InObject(stack)
  {
    if stack.items.Cons? {
      hide PrintItems, TidyItems;
      ItemsLast(stack.items);
    }
  }

  // ----------------------------------------------------------- the refinement

  lemma AddText(stack: Stack, item: Item)
    ensures StackText(Add(stack, item)) ==
            StackText(stack) + ((if stack.items.Nil? then "" else ",") + PrintItem(item))
    ensures SoundStack(stack) && AllJsonSpace(item.post) && Tidy(item.value) ==> SoundStack(Add(stack, item))
  {
    PrintSnoc(stack.items, item);
    SnocTidy(stack.items, item);
    hide PrintItems, PrintItem, Snoc, TidyItems, Tidy;
    var comma := if stack.items.Nil? then "" else ",";
    match stack
    case Root(items) =>
      assert "{" + (PrintItems(items) + comma + PrintItem(item)) ==
             "{" + PrintItems(items) + (comma + PrintItem(item));
    case Nested(outer, key, braces, items) =>
      var before := StackText(stack)[..|StackText(stack)| - |PrintItems(items)|];
      assert StackText(stack) == before + PrintItems(items);
      assert before + (PrintItems(items) + comma + PrintItem(item)) ==
             StackText(stack) + (comma + PrintItem(item));
    case Entry(outer, items) =>
      var before := StackText(outer) + "{";
      assert before + (PrintItems(items) + comma + PrintItem(item)) ==
             before + PrintItems(items) + (comma + PrintItem(item));
  }

  lemma {:induction false} SnocTidy(items: Items, item: Item)
    ensures TidyItems(Snoc(items, item)) <==> TidyItems(items) && AllJsonSpace(item.post) && Tidy(item.value)
  {
    match items
    case Nil =>
    case Cons(_, tail) => SnocTidy(tail, item);
  }

  lemma FieldText(key: string, raw: Raw)
    ensures PrintItem(Field(key, raw)) == KeyText(key) + RawText(raw)
  {
    hide Print, CStr;
    var quoted := "\"" + CStr(key) + "\"";
    assert quoted + "" + ":" == KeyText(key);
    calc {
      PrintItem(Field(key, raw));
      "" + (quoted + "" + ":" + raw.pre) + Print(raw.value) + raw.post;
      KeyText(key) + RawText(raw);
    }
  }

  lemma ElementText(raw: Raw)
    ensures PrintItem(Element(raw)) == RawText(raw)
  {
    assert raw.pre + "" == raw.pre;
  }

  lemma PlainText(v: Json)
    ensures RawText(Plain(v)) == Print(v)
  {
    assert "" + Print(v) + "" == Print(v);
  }

  /** The comma rule of each call agrees with the reference. */
  lemma CommaRight(stack: Stack)
    requires SoundStack(stack)
    ensures var comma := if stack.items.Nil? then "" else ",";
            && (InObject(stack) ==> Comma(StackText(stack), "{") == Comma(StackText(stack), "{[") == comma)
            && (!InObject(stack) ==> Comma(StackText(stack), "[") == comma)
  {
    StackLast(stack);
  }

  lemma AddToMirrors(d: Draft, key: string, raw: Raw)
    requires Sound(d) && AddTo(d, key, raw).Some?
    ensures var t := DraftText(d);
            var piece := KeyText(key) + RawText(raw);
            && DraftText(AddTo(d, key, raw).value) == t + (Comma(t, "{") + piece) == t + (Comma(t, "{[") + piece)
    ensures Sound(AddTo(d, key, raw).value)
  {
    hide StackText, SoundStack, Comma, KeyText, RawText, PrintItem, Tidy, Add;
    AddText(d.stack, Field(key, raw));
    FieldText(key, raw);
    CommaRight(d.stack);
  }

  lemma AddElementToMirrors(d: Draft, raw: Raw)
    requires Sound(d) && AddElementTo(d, raw).Some?
    ensures var t := DraftText(d);
            DraftText(AddElementTo(d, raw).value) == t + (Comma(t, "[") + RawText(raw))
    ensures Sound(AddElementTo(d, raw).value)
  {
    hide StackText, SoundStack, Comma, KeyText, RawText, PrintItem, Tidy, Add;
    AddText(d.stack, Element(raw));
    ElementText(raw);
    CommaRight(d.stack);
  }

  lemma RegroupTexts(a: string, b: string, c: string, d: string, e: string)
    ensures a + (b + (c + d)) + e == a + (b + (c + (d + e))) == a + b + c + d + e
  {
  }

  lemma OpenInMirrors(d: Draft, key: string, braces: bool)
    requires Sound(d) && OpenIn(d, key, braces).Some?
    ensures var t := DraftText(d);
            DraftText(OpenIn(d, key, braces).value) == t + (Comma(t, "{") + (KeyText(key) + [OpenOf(braces)]))
    ensures Sound(OpenIn(d, key, braces).value)
  {
    CommaRight(d.stack);
    hide Comma, KeyText, OpenOf;
    var comma := if d.stack.items.Nil? then "" else ",";
    RegroupTexts(StackText(d.stack), comma, KeyText(key), [OpenOf(braces)], "");
  }

  lemma CloseInMirrors(d: Draft, braces: bool)
    requires Sound(d) && CloseIn(d, braces).Some?
    ensures DraftText(CloseIn(d, braces).value) == DraftText(d) + [CloseOf(braces)]
    ensures Sound(CloseIn(d, braces).value)
  {
    match d.stack
    case Root(items) =>
      hide PrintItems;
      assert "{" + "" == "{";
    case Nested(outer, key, _, items) => CloseFieldMirrors(outer, key, braces, items);
    case Entry(outer, items) => CloseEntryMirrors(outer, items);
  }

  lemma CloseFieldMirrors(outer: Stack, key: string, braces: bool, items: Items)
    requires SoundStack(outer) && InObject(outer) && TidyItems(items)
    ensures var v := Container(braces, "", items);
            var after := Add(outer, Field(key, Plain(v)));
            StackText(after) == StackText(Nested(outer, key, braces, items)) + [CloseOf(braces)] && SoundStack(after)
  {
    var v := Container(braces, "", items);
    var open, close := [OpenOf(braces)], [CloseOf(braces)];
    var comma := if outer.items.Nil? then "" else ",";
    hide PrintItems, PrintItem, TidyItems, Add, KeyText;
    AddText(outer, Field(key, Plain(v)));
    FieldText(key, Plain(v));
    PlainText(v);
    assert open + "" == open;
    RegroupTexts(StackText(outer), comma, KeyText(key), open + PrintItems(items), close);
    RegroupTexts(StackText(outer), comma, KeyText(key), open, PrintItems(items));
    assert Print(v) == open + PrintItems(items) + close;
  }

  lemma CloseEntryMirrors(outer: Stack, items: Items)
    requires SoundStack(outer) && !InObject(outer) && outer.items.Nil? && TidyItems(items)
    ensures var after := Add(outer, Element(Plain(Container(true, "", items))));
            StackText(after) == StackText(Entry(outer, items)) + "}" && SoundStack(after)
  {
    var v := Container(true, "", items);
    hide PrintItems, PrintItem, TidyItems, Add;
    AddText(outer, Element(Plain(v)));
    ElementText(Plain(v));
    PlainText(v);
    assert "{" + "" == "{";
    assert Print(v) == "{" + PrintItems(items) + "}";
    hide Print;
    assert StackText(outer) + ("" + ("{" + PrintItems(items) + "}")) ==
           StackText(outer) + "{" + PrintItems(items) + "}";
  }

  lemma StartInMirrors(d: Draft)
    requires Sound(d) && StartIn(d).Some?
    ensures DraftText(StartIn(d).value) == DraftText(d) + "{" && Sound(StartIn(d).value)
  {
    assert "" + "{" == "{" + "";
  }

  /** One call: what the last-byte builder appends is what the tree gained. */
  lemma StepMirrors(d: Draft, call: Call)
    requires Sound(d) && Build(d, call).Some?
    ensures DraftText(Build(d, call).value) == Emit(DraftText(d), call)
    ensures Sound(Build(d, call).value)
  {
    hide AddTo, AddElementTo, OpenIn, CloseIn, StartIn, DraftText, Comma, KeyText, RawText, PrintItems, TidyItems;
    match call
    case StartObject => StartInMirrors(d);
    case EndObject => CloseInMirrors(d, true);
    case AddField(key, value) =>
      PlainText(TextValue(value));
      AddToMirrors(d, key, Plain(TextValue(value)));
    case AddFieldNumber(key, number) =>
      IntTextRoundTrip(number);
      PlainText(IntJson(number));
      AddToMirrors(d, key, Plain(IntJson(number)));
    case AddFieldBool(key, flag) =>
      PlainText(if flag then True else False);
      AddToMirrors(d, key, Plain(if flag then True else False));
    case AddFieldRaw(key, _, raw) => AddToMirrors(d, key, raw.value);
    case AddObjectField(key) => OpenInMirrors(d, key, true);
    case CloseObjectField => CloseInMirrors(d, true);
    case AddArrayField(key) => OpenInMirrors(d, key, false);
    case CloseArrayField => CloseInMirrors(d, false);
    case AddArrayElement(value) =>
      PlainText(TextValue(value));
      AddElementToMirrors(d, Plain(TextValue(value)));
    case AddArrayElementRaw(_, raw) => AddElementToMirrors(d, raw.value);
  }

  /**
    Every well-nested sequence of calls leaves in the buffer exactly the print of the tree it
    describes, commas included; once the outermost object is closed, that is the whole message.
   */
  lemma {:induction false} BuilderMirrorsTree(d: Draft, calls: seq<Call>)
    requires Sound(d) && BuildAll(d, calls).Some?
    ensures EmitAll(DraftText(d), calls) == DraftText(BuildAll(d, calls).value)
    ensures Sound(BuildAll(d, calls).value)
    decreases |calls|
  {
    hide Build, Emit, DraftText, Sound;
    if calls != [] {
      StepMirrors(d, calls[0]);
      BuilderMirrorsTree(Build(d, calls[0]).value, calls[1..]);
    }
  }

  // -------------------------------------------------------- when the tree is JSON

  /** Calls whose keys need no escaping and whose raw arguments are JSON texts. */
  predicate Proper(call: Call) {
    match call
    case AddField(key, _) => PlainKey(key)
    case AddFieldNumber(key, _) => PlainKey(key)
    case AddFieldBool(key, _) => PlainKey(key)
    case AddFieldRaw(key, _, raw) => PlainKey(key) && (raw.Some? ==> WellFormedRaw(raw.value))
    case AddObjectField(key) => PlainKey(key)
    case AddArrayField(key) => PlainKey(key)
    case AddArrayElementRaw(_, raw) => raw.Some? ==> WellFormedRaw(raw.value)
    case _ => true
  }

  predicate WellFormedStack(stack: Stack) {
    && WellFormedItems(stack.items, InObject(stack))
    && match stack
       case Root(_) => true
       case Nested(outer, key, _, _) => WellFormedStack(outer) && InObject(outer) && PlainKey(key)
       case Entry(outer, _) => WellFormedStack(outer) && !InObject(outer)
  }

  predicate WellFormedDraft(d: Draft) {
    match d
    case Empty => true
    case Open(stack) => WellFormedStack(stack)
    case Finished(tree) => WellFormed(tree)
  }

  lemma WellFormedAdd(stack: Stack, item: Item)
    requires WellFormedStack(stack) && WellFormedItem(item, InObject(stack))
    ensures WellFormedStack(Add(stack, item))
  {
    SnocWellFormed(stack.items, item, InObject(stack));
  }

  lemma WellFormedField(key: string, raw: Raw)
    requires PlainKey(key) && WellFormedRaw(raw)
    ensures WellFormedItem(Field(key, raw), true)
  {
    PlainKeyBody(key);
  }

  lemma StepKeepsWellFormed(d: Draft, call: Call)
    requires WellFormedDraft(d) && Proper(call) && Build(d, call).Some?
    ensures WellFormedDraft(Build(d, call).value)
  {
    hide WellFormedItems, PlainKey, StringBody, Add, PrintItems, CStr;
    match call
    case StartObject => NilWellFormed(true);
    case EndObject => CloseKeepsWellFormed(d.stack);
    case AddField(key, value) =>
      EscapeIsBody(CStr(value));
      WellFormedField(key, Plain(TextValue(value)));
      WellFormedAdd(d.stack, Field(key, Plain(TextValue(value))));
    case AddFieldNumber(key, number) =>
      WellFormedField(key, Plain(IntJson(number)));
      WellFormedAdd(d.stack, Field(key, Plain(IntJson(number))));
    case AddFieldBool(key, flag) =>
      WellFormedField(key, Plain(if flag then True else False));
      WellFormedAdd(d.stack, Field(key, Plain(if flag then True else False)));
    case AddFieldRaw(key, _, raw) =>
      WellFormedField(key, raw.value);
      WellFormedAdd(d.stack, Field(key, raw.value));
    case AddObjectField(key) => NilWellFormed(true);
    case CloseObjectField => CloseKeepsWellFormed(d.stack);
    case AddArrayField(key) => NilWellFormed(false);
    case CloseArrayField => CloseKeepsWellFormed(d.stack);
    case AddArrayElement(value) =>
      EscapeIsBody(CStr(value));
      WellFormedAdd(d.stack, Element(Plain(TextValue(value))));
    case AddArrayElementRaw(_, raw) => WellFormedAdd(d.stack, Element(raw.value));
  }

  lemma NilWellFormed(braces: bool)
    ensures WellFormedItems(Nil, braces)
  {
  }

  lemma CloseKeepsWellFormed(stack: Stack)
    requires WellFormedStack(stack)
    ensures var v := Container(InObject(stack), "", stack.items);
            match stack
            case Root(_) => WellFormed(v)
            case Nested(outer, key, _, _) => WellFormedStack(Add(outer, Field(key, Plain(v))))
            case Entry(outer, _) => WellFormedStack(Add(outer, Element(Plain(v))))
  {
    var v := Container(InObject(stack), "", stack.items);
    match stack
    case Root(_) =>
    case Nested(outer, key, _, _) =>
      WellFormedField(key, Plain(v));
      WellFormedAdd(outer, Field(key, Plain(v)));
    case Entry(outer, _) => WellFormedAdd(outer, Element(Plain(v)));
  }

  /** A finished tree made by proper calls is a JSON text of the grammar. */
  lemma {:induction false} BuiltTreeIsJson(d: Draft, calls: seq<Call>)
    requires WellFormedDraft(d) && BuildAll(d, calls).Some? && (forall call | call in calls :: Proper(call))
    ensures WellFormedDraft(BuildAll(d, calls).value)
    decreases |calls|
  {
    hide Build, WellFormedDraft, Proper;
    if calls != [] {
      assert calls[0] in calls;
      StepKeepsWellFormed(d, calls[0]);
      BuiltTreeIsJson(Build(d, calls[0]).value, calls[1..]);
    }
  }

  lemma AppendedInTurn(buf: string, a: string, b: string, c: string)
    ensures buf + a + b + c == buf + (a + (b + c))
    ensures b == "" ==> buf + a + c == buf + (a + c)
  {
  }

  // ----------------------------------------------------------------- the class

  /** The reference after a call; once a call was not well nested there is no tree any more. */
  function Advance(draft: Option<Draft>, call: Call): Option<Draft> {
    match draft
    case None => None
    case Some(d) => Build(d, call)
  }

  class JsonBuilder {
    var buffer: string
    /** The tree described so far, for as long as the calls are well nested. */
    ghost var draft: Option<Draft>

    ghost predicate Valid()
      reads this
    {
      draft.Some? ==> Sound(draft.value) && buffer == DraftText(draft.value)
    }

    constructor ()
      ensures Valid() && buffer == "" && draft == Some(Empty)
    {
      buffer := "";
      draft := Some(Empty);
    }

    /** The buffer has just been extended as `call` says; so is the tree. */
    ghost method Record(call: Call)
      requires draft.Some? ==> Sound(draft.value) && buffer == Emit(DraftText(draft.value), call)
      modifies this`draft
      ensures Valid()
      ensures draft == Advance(old(draft), call)
    {
      if draft.Some? && Build(draft.value, call).Some? {
        StepMirrors(draft.value, call);
      }
      draft := Advance(draft, call);
    }

    /** A comma, unless the buffer is empty or ends in one of the brackets. */
    method Separate(brackets: string)
      modifies this`buffer
      ensures buffer == old(buffer) + Comma(old(buffer), brackets)
    {
      if buffer != "" && buffer[|buffer| - 1] !in brackets {
        buffer := buffer + ",";
      }
    }

    method AppendKey(key: string)
      modifies this`buffer
      ensures buffer == old(buffer) + KeyText(key)
    {
      buffer := buffer + "\"";
      buffer := buffer + CStr(key);
      buffer := buffer + "\":";
    }

    method AppendQuoted(value: string)
      modifies this`buffer
      ensures buffer == old(buffer) + Quoted(value)
    {
      buffer := buffer + "\"";
      buffer := AppendEscaped(buffer, value);
      buffer := buffer + "\"";
    }

    method StartObject()
      requires Valid()
      modifies this
      ensures Valid()
      ensures buffer == Emit(old(buffer), Call.StartObject)
      ensures draft == Advance(old(draft), Call.StartObject)
    {
      hide Build, DraftText, Sound, Comma, KeyText, Quoted, IntText;
      buffer := buffer + "{";
      Record(Call.StartObject);
    }

    method EndObject()
      requires Valid()
      modifies this
      ensures Valid()
      ensures buffer == Emit(old(buffer), Call.EndObject)
      ensures draft == Advance(old(draft), Call.EndObject)
    {
      hide Build, DraftText, Sound, Comma, KeyText, Quoted, IntText;
      buffer := buffer + "}";
      Record(Call.EndObject);
    }

    method AddField(key: string, value: string)
      requires Valid()
      modifies this
      ensures Valid()
      ensures buffer == Emit(old(buffer), Call.AddField(key, value))
      ensures draft == Advance(old(draft), Call.AddField(key, value))
    {
      hide Build, DraftText, Sound, Comma, KeyText, Quoted, IntText;
      ghost var before := buffer;
      Separate("{");
      AppendKey(key);
      AppendQuoted(value);
      AppendedInTurn(before, Comma(before, "{"), KeyText(key), Quoted(value));
      Record(Call.AddField(key, value));
    }

    method AddFieldNumber(key: string, number: int)
      requires Valid()
      modifies this
      ensures Valid()
      ensures buffer == Emit(old(buffer), Call.AddFieldNumber(key, number))
      ensures draft == Advance(old(draft), Call.AddFieldNumber(key, number))
    {
      hide Build, DraftText, Sound, Comma, KeyText, Quoted, IntText;
      ghost var before := buffer;
      Separate("{");
      AppendKey(key);
      buffer := buffer + IntText(number);
      AppendedInTurn(before, Comma(before, "{"), KeyText(key), IntText(number));
      Record(Call.AddFieldNumber(key, number));
    }

    method AddFieldBool(key: string, flag: bool)
      requires Valid()
      modifies this
      ensures Valid()
      ensures buffer == Emit(old(buffer), Call.AddFieldBool(key, flag))
      ensures draft == Advance(old(draft), Call.AddFieldBool(key, flag))
    {
      hide Build, DraftText, Sound, Comma, KeyText, Quoted, IntText;
      ghost var before := buffer;
      Separate("{");
      AppendKey(key);
      buffer := buffer + (if flag then "true" else "false");
      AppendedInTurn(before, Comma(before, "{"), KeyText(key), BoolText(flag));
      Record(Call.AddFieldBool(key, flag));
    }

    method AddFieldRaw(key: string, value: string, ghost raw: Option<Raw>)
      requires Valid()
      modifies this
      ensures Valid()
      ensures buffer == Emit(old(buffer), Call.AddFieldRaw(key, value, raw))
      ensures draft == Advance(old(draft), Call.AddFieldRaw(key, value, raw))
    {
      hide Build, DraftText, Sound, Comma, KeyText, Quoted, IntText;
      ghost var before := buffer;
      Separate("{[");
      AppendKey(key);
      buffer := buffer + CStr(value);
      AppendedInTurn(before, Comma(before, "{["), KeyText(key), CStr(value));
      Record(Call.AddFieldRaw(key, value, raw));
    }

    method AddObjectField(key: string)
      requires Valid()
      modifies this
      ensures Valid()
      ensures buffer == Emit(old(buffer), Call.AddObjectField(key))
      ensures draft == Advance(old(draft), Call.AddObjectField(key))
    {
      hide Build, DraftText, Sound, Comma, KeyText, Quoted, IntText;
      ghost var before := buffer;
      Separate("{");
      AppendKey(key);
      buffer := buffer + "{";
      AppendedInTurn(before, Comma(before, "{"), KeyText(key), "{");
      Record(Call.AddObjectField(key));
    }

    method CloseObjectField()
      requires Valid()
      modifies this
      ensures Valid()
      ensures buffer == Emit(old(buffer), Call.CloseObjectField)
      ensures draft == Advance(old(draft), Call.CloseObjectField)
    {
      hide Build, DraftText, Sound, Comma, KeyText, Quoted, IntText;
      buffer := buffer + "}";
      Record(Call.CloseObjectField);
    }

    method AddArrayField(key: string)
      requires Valid()
      modifies this
      ensures Valid()
      ensures buffer == Emit(old(buffer), Call.AddArrayField(key))
      ensures draft == Advance(old(draft), Call.AddArrayField(key))
    {
      hide Build, DraftText, Sound, Comma, KeyText, Quoted, IntText;
      ghost var before := buffer;
      Separate("{");
      AppendKey(key);
      buffer := buffer + "[";
      AppendedInTurn(before, Comma(before, "{"), KeyText(key), "[");
      Record(Call.AddArrayField(key));
    }

    method CloseArrayField()
      requires Valid()
      modifies this
      ensures Valid()
      ensures buffer == Emit(old(buffer), Call.CloseArrayField)
      ensures draft == Advance(old(draft), Call.CloseArrayField)
    {
      hide Build, DraftText, Sound, Comma, KeyText, Quoted, IntText;
      buffer := buffer + "]";
      Record(Call.CloseArrayField);
    }

    method AddArrayElement(value: string)
      requires Valid()
      modifies this
      ensures Valid()
      ensures buffer == Emit(old(buffer), Call.AddArrayElement(value))
      ensures draft == Advance(old(draft), Call.AddArrayElement(value))
    {
      hide Build, DraftText, Sound, Comma, KeyText, Quoted, IntText;
      ghost var before := buffer;
      Separate("[");
      AppendQuoted(value);
      AppendedInTurn(before, Comma(before, "["), "", Quoted(value));
      Record(Call.AddArrayElement(value));
    }

    method AddArrayElementRaw(value: string, ghost raw: Option<Raw>)
      requires Valid()
      modifies this
      ensures Valid()
      ensures buffer == Emit(old(buffer), Call.AddArrayElementRaw(value, raw))
      ensures draft == Advance(old(draft), Call.AddArrayElementRaw(value, raw))
    {
      hide Build, DraftText, Sound, Comma, KeyText, Quoted, IntText;
      ghost var before := buffer;
      Separate("[");
      buffer := buffer + CStr(value);
      AppendedInTurn(before, Comma(before, "["), "", CStr(value));
      Record(Call.AddArrayElementRaw(value, raw));
    }

    method Reset()
      modifies this
      ensures Valid() && buffer == "" && draft == Some(Empty)
    {
      buffer := "";
      draft := Some(Empty);
    }
  }
}
