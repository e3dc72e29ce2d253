/**
  A parsed message in terms of the text of its keys: which member each field comes from, and which
  values each key admits. Nothing here refers to how the parser tells its keys apart.
 */
module ParsedFields {
  import opened Text
  import opened Json
  import opened ParserSpec
  import opened Decimal
  import opened ParseTheorems

  // ---------------------------------------------------------------- which values are read

  /** An integer that `parse_int` reads. */
  predicate SmallInteger(v: Json)
    requires Scannable(v)
  {
    IntegerOf(v).Some? && -2147483647 <= IntegerOf(v).value <= 2147483647
  }

  /** Nests containers of its own outermost kind at most 64 deep. */
  predicate Steppable(v: Json) {
    OwnDepth(v) <= 64
  }

  predicate ErrorMemberFits(item: Item)
    requires ScannableItem(item, true)
  {
    var name, v := item.key.name, item.value;
    && (name == "code" ==> SmallInteger(v))
    && (name == "message" ==> v.String?)
    && (name != "code" && name != "message" ==> Steppable(v))
  }

  predicate ErrorMembersFit(items: Items)
    requires ScannableItems(items, true)
  {
    items.Cons? ==> ErrorMemberFits(items.head) && ErrorMembersFit(items.tail)
  }

  predicate ErrorFits(v: Json)
    requires Scannable(v)
  {
    match v
    case Container(braces, gap, items) => braces && ErrorMembersFit(items)
    case _ => false
  }

  predicate MemberFits(item: Item)
    requires ScannableItem(item, true)
  {
    var name, v := item.key.name, item.value;
    && (name == "method" ==> v.String?)
    && (name == "id" ==> SmallInteger(v))
    && (name == "error" ==> ErrorFits(v))
    && (name != "method" && name != "id" && name != "error" ==> Steppable(v))
  }

  predicate MembersFit(items: Items)
    requires ScannableItems(items, true)
  {
    items.Cons? ==> MemberFits(items.head) && MembersFit(items.tail)
  }

  lemma {:induction false} ErrorFitsIff(items: Items)
    requires ScannableItems(items, true)
    ensures ErrorMembersFit(items) <==> AllAcceptable(ErrorObject, items)
  {
    hide IntegerOf, OwnDepth;
    if items.Cons? {
      ErrorFitsIff(items.tail);
    }
  }

  lemma {:induction false} FitsIff(items: Items)
    requires ScannableItems(items, true)
    ensures MembersFit(items) <==> AllAcceptable(Message, items)
  {
    hide IntegerOf, OwnDepth;
    if items.Cons? {
      FitsIff(items.tail);
      var v := items.head.value;
      if v.Container? && v.braces {
        ItemsOf(v);
        ErrorFitsIff(v.items);
      }
      hide ErrorMembersFit;
    }
  }

  // ------------------------------------------------------------ where the fields come from

  /** The last member of this name in any of the error objects. */
  function LastInErrors(items: Items, name: string): Option<Json> {
    match items
    case Nil => None
    case Cons(head, tail) =>
      var later := LastInErrors(tail, name);
      if later.Some? then later
      else if head.key.Key? && head.key.name == "error" then Lookup(head.value, name)
      else None
  }

  lemma {:induction false} LastOfError(items: Items)
    requires ScannableItems(items, true)
    ensures LastMembers(ErrorObject, items) ==
            NO_MEMBER.(code := LastNamed(items, "code"), text := LastNamed(items, "message"))
  {
    hide Scannable;
    if items.Cons? {
      LastOfError(items.tail);
    }
  }

  lemma {:induction false} LastOfMessage(items: Items)
    requires ScannableItems(items, true)
    ensures LastMembers(Message, items) ==
            Lasts(LastNamed(items, "method"), LastNamed(items, "id"), LastNamed(items, "params"),
                  LastNamed(items, "result"), LastNamed(items, "error"),
                  LastInErrors(items, "code"), LastInErrors(items, "message"))
  {
    if items.Cons? {
      LastOfMessage(items.tail);
      var head := items.head;
      assert ScannableItem(head, true);
      HeadOnly(head);
      hide Scannable, Only, RoleOf;
    }
  }

  /** What one member contributes, by the text of its key. */
  lemma HeadOnly(item: Item)
    requires ScannableItem(item, true)
    ensures var name, v := item.key.name, item.value;
            var only := Only(RoleOf(Message, name), v);
            && (name == "method" ==> only == NO_MEMBER.(methodName := Some(v)))
            && (name == "id" ==> only == NO_MEMBER.(id := Some(v)))
            && (name == "params" ==> only == NO_MEMBER.(params := Some(v)))
            && (name == "result" ==> only == NO_MEMBER.(result := Some(v)))
            && (name == "error" ==>
                  only == NO_MEMBER.(error := Some(v), code := Lookup(v, "code"), text := Lookup(v, "message")))
            && (name != "method" && name != "id" && name != "params" && name != "result" && name != "error" ==>
                  only == NO_MEMBER)
  {
    ErrorOnly(item.value);
    hide Scannable, LastMembers, Lookup, Then;
  }

  lemma ErrorOnly(v: Json)
    requires Scannable(v)
    ensures Only(Error, v) == NO_MEMBER.(error := Some(v), code := Lookup(v, "code"), text := Lookup(v, "message"))
  {
    if v.Container? && v.braces {
      ItemsOf(v);
      LastOfError(v.items);
    }
    hide Scannable, LastMembers, LastNamed;
  }

  lemma ItemsOf(v: Json)
    requires Scannable(v) && v.Container?
    ensures ScannableItems(v.items, v.braces)
  {
  }

  // ----------------------------------------------------------------------- the theorem

  ghost predicate ShowsBody(s: string, span: Option<Span>, v: Option<Json>) {
    if v.Some? then HoldsBody(s, span, v.value) else span == None
  }

  ghost predicate ShowsText(s: string, span: Option<Span>, v: Option<Json>) {
    if v.Some? then Holds(s, span, Print(v.value)) else span == None
  }

  lemma {:induction false} NamedIsScannable(items: Items, name: string, braces: bool)
    requires ScannableItems(items, braces) && LastNamed(items, name).Some?
    ensures Scannable(LastNamed(items, name).value)
  {
    match items
    case Cons(head, tail) =>
      if LastNamed(tail, name).Some? {
        NamedIsScannable(tail, name, braces);
      }
  }

  /** The fields of a message, each by the key it comes from. */
  ghost predicate FieldsFrom(s: string, items: Items, m: MCPMessage) {
    && m.valid && m.raw == Some(Span(0, |s|))
    && (m.isRequest <==> LastNamed(items, "method").Some?)
    && (m.isResponse <==> LastNamed(items, "result").Some? || LastNamed(items, "error").Some?)
    && (m.hasResult <==> LastNamed(items, "result").Some?)
    && (m.hasError <==> LastNamed(items, "error").Some?)
    && ShowsBody(s, m.methodName, LastNamed(items, "method"))
    && ShowsText(s, m.params, LastNamed(items, "params"))
    && ShowsText(s, m.result, LastNamed(items, "result"))
    && ShowsBody(s, m.errorMsg, LastInErrors(items, "message"))
    && (match LastNamed(items, "id")
        case None => m.id == None
        case Some(v) => m.id.Some? && IsInteger(v, m.id.value))
    && (match LastInErrors(items, "code")
        case None => m.errorCode == 0
        case Some(v) => IsInteger(v, m.errorCode))
  }

  /**
    On a printed object, before any further bytes: there is a message exactly when the text is not too
    long and every member has a value its key admits; and every field is that of the last member of its
    name, `code` and `message` being looked up in the errors.
   */
  lemma ParsedByKey(pre: string, gap: string, items: Items, rest: string, maxBytes: nat)
    requires AllJsonSpace(pre) && Scannable(Container(true, gap, items)) && ScannableItems(items, true)
    ensures var s := pre + Print(Container(true, gap, items)) + rest;
            var m := ParseMessage(s, maxBytes);
            && (m.Some? <==> |s| <= maxBytes && MembersFit(items))
            && (m.Some? ==> FieldsFrom(s, items, m.value))
  {
    var s := pre + Print(Container(true, gap, items)) + rest;
    hide Print, Scannable, ScannableItems, AllAcceptable, MembersFit, LastMembers, ParseMessage, LastNamed,
      LastInErrors;
    FitsIff(items);
    LastOfMessage(items);
    ParsedMessageAgrees(pre, gap, items, rest, maxBytes);
  }
}
