/** The main statements about parsing a message, on every printed object and on every input. */
module ParseTheorems {
  import opened Text
  import opened Json
  import opened ParserSpec
  import opened ScanProofs
  import opened Decimal
  import opened ParseFold

  /**
    Parsing refines the fold: on an object printed after any white space and before any further
    bytes, the message is the fold of its members, and there is a message exactly when the fold and
    the size limit allow one.
   */
  lemma ParsingRefinesFold(pre: string, gap: string, items: Items, rest: string, maxBytes: nat)
    requires AllJsonSpace(pre) && Scannable(Container(true, gap, items))
    ensures var s := pre + Print(Container(true, gap, items)) + rest;
            ParseMessage(s, maxBytes) ==
            if |s| > maxBytes then None
            else
              match Fold(Message, items, |pre| + 1 + |gap|, FRESH_MESSAGE.(raw := Some(Span(0, |s|))))
              case None => None
              case Some(m) => Some(m.(valid := true))
  {
    var obj := Container(true, gap, items);
    var s := pre + Print(obj) + rest;
    ObjectAt(pre, Print(obj), rest);
    hide At, Members, Fold, Print, PrintItems, ScannableItems;
    ContainerLayout(s, |pre|, true, gap, items);
    SkipWsExact(s, 0, pre);
    LoopExact(Message, s, |pre| + 1, gap, items, FRESH_MESSAGE.(raw := Some(Span(0, |s|))));
  }

  lemma ObjectAt(pre: string, t: string, rest: string)
    ensures At(pre + t + rest, 0, pre) && At(pre + t + rest, |pre|, t)
  {
    AtSlice(pre + t + rest, 0, pre);
    AtSlice(pre + t + rest, |pre|, t);
  }

  // ------------------------------------------------- when the fold succeeds

  /** What the value of a member must be for the message to be valid. */
  predicate Acceptable(role: Role, v: Json)
    requires Scannable(v)
    decreases v, 1
  {
    match role
    case Code | Id => IntegerOf(v).Some? && Fits(IntegerOf(v).value)
    case ErrorText | Method => v.String?
    case Error => v.Container? && v.braces && AllAcceptable(ErrorObject, v.items)
    case Params | Result | Other => Shallow(v)
  }

  predicate AllAcceptable(level: Level, items: Items)
    requires ScannableItems(items, true)
    decreases items, 0
  {
    match items
    case Nil => true
    case Cons(head, tail) =>
      assert ScannableItem(head, true);
      Acceptable(RoleOf(level, head.key.name), head.value) && AllAcceptable(level, tail)
  }

  lemma {:induction false} MeaningIffAcceptable(role: Role, v: Json, at: nat, msg: MCPMessage)
    requires Scannable(v)
    ensures Meaning(role, v, at, msg).Some? <==> Acceptable(role, v)
    decreases v, 1
  {
    if role.Error? && v.Container? && v.braces {
      FoldIffAcceptable(ErrorObject, v.items, at + 1 + |v.gap|, msg);
    }
  }

  lemma {:induction false} FoldIffAcceptable(level: Level, items: Items, at: nat, msg: MCPMessage)
    requires ScannableItems(items, true)
    ensures Fold(level, items, at, msg).Some? <==> AllAcceptable(level, items)
    decreases items, 0
  {
    match items
    case Nil =>
    case Cons(head, tail) =>
      assert ScannableItem(head, true);
      hide Print, PrintItem, PrintKey, RoleOf, Meaning, Acceptable, Scannable;
      var role, k := RoleOf(level, head.key.name), at + |head.pre| + |PrintKey(head.key)|;
      MeaningIffAcceptable(role, head.value, k, msg);
      var m := Meaning(role, head.value, k, msg);
      if m.Some? {
        FoldIffAcceptable(level, tail, at + |PrintItem(head)| + 1, m.value);
      }
  }

  lemma ScannableObject(gap: string, items: Items)
    requires Scannable(Container(true, gap, items))
    ensures ScannableItems(items, true)
  {
  }

  /** A printed object within the size limit is a valid message exactly when its members are acceptable. */
  lemma ValidIffAcceptable(pre: string, gap: string, items: Items, rest: string, maxBytes: nat)
    requires AllJsonSpace(pre) && Scannable(Container(true, gap, items))
    requires |pre + Print(Container(true, gap, items)) + rest| <= maxBytes
    ensures ParseMessage(pre + Print(Container(true, gap, items)) + rest, maxBytes).Some? <==>
            AllAcceptable(Message, items)
  {
    hide Print, Fold, AllAcceptable, ParseMessage, Scannable;
    assert ScannableItems(items, true) by { ScannableObject(gap, items); }
    var s := pre + Print(Container(true, gap, items)) + rest;
    ParsingRefinesFold(pre, gap, items, rest, maxBytes);
    FoldIffAcceptable(Message, items, |pre| + 1 + |gap|, FRESH_MESSAGE.(raw := Some(Span(0, |s|))));
  }

  // --------------------------------------------------- what the fold records

  /** The value of the last member of each role, if there is one. */
  datatype Lasts = Lasts(
    methodName: Option<Json>, id: Option<Json>, params: Option<Json>, result: Option<Json>,
    error: Option<Json>, code: Option<Json>, text: Option<Json>)

  function Later(a: Option<Json>, b: Option<Json>): Option<Json> { if b.Some? then b else a }

  function Then(a: Lasts, b: Lasts): Lasts {
    Lasts(Later(a.methodName, b.methodName), Later(a.id, b.id), Later(a.params, b.params),
          Later(a.result, b.result), Later(a.error, b.error), Later(a.code, b.code), Later(a.text, b.text))
  }

  const NO_MEMBER: Lasts := Lasts(None, None, None, None, None, None, None)

  /** What one member contributes; an error object also contributes its own members. */
  function Only(role: Role, v: Json): Lasts
    requires Scannable(v)
    decreases v, 1
  {
    match role
    case Method => NO_MEMBER.(methodName := Some(v))
    case Id => NO_MEMBER.(id := Some(v))
    case Params => NO_MEMBER.(params := Some(v))
    case Result => NO_MEMBER.(result := Some(v))
    case Code => NO_MEMBER.(code := Some(v))
    case ErrorText => NO_MEMBER.(text := Some(v))
    case Error => Then(if v.Container? && v.braces then LastMembers(ErrorObject, v.items) else NO_MEMBER,
                       NO_MEMBER.(error := Some(v)))
    case Other => NO_MEMBER
  }

  function LastMembers(level: Level, items: Items): Lasts
    requires ScannableItems(items, true)
    decreases items, 0
  {
    match items
    case Nil => NO_MEMBER
    case Cons(head, tail) =>
      assert ScannableItem(head, true);
      Then(Only(RoleOf(level, head.key.name), head.value), LastMembers(level, tail))
  }

  /** The span holds exactly this text. */
  ghost predicate Holds(s: string, span: Option<Span>, text: string) {
    span.Some? && span.value.End() <= |s| && s[span.value.start..span.value.End()] == text
  }

  ghost predicate HoldsBody(s: string, span: Option<Span>, v: Json) {
    v.String? && Holds(s, span, v.body)
  }

  ghost predicate IsInteger(v: Json, n: int) {
    Scannable(v) && IntegerOf(v) == Some(n) && Fits(n)
  }

  /**
    A message agrees with the last value of each role, starting from the message `before`: the last
    duplicate wins, every span is exact, and no flag that is set is ever cleared.
   */
  ghost predicate Agrees(s: string, last: Lasts, before: MCPMessage, after: MCPMessage) {
    && (after.isRequest <==> before.isRequest || last.methodName.Some?)
    && (after.isResponse <==> before.isResponse || last.result.Some? || last.error.Some?)
    && (after.hasResult <==> before.hasResult || last.result.Some?)
    && (after.hasError <==> before.hasError || last.error.Some?)
    && (if last.methodName.Some? then HoldsBody(s, after.methodName, last.methodName.value)
        else after.methodName == before.methodName)
    && (if last.params.Some? then Holds(s, after.params, Print(last.params.value))
        else after.params == before.params)
    && (if last.result.Some? then Holds(s, after.result, Print(last.result.value))
        else after.result == before.result)
    && (if last.text.Some? then HoldsBody(s, after.errorMsg, last.text.value)
        else after.errorMsg == before.errorMsg)
    && (if last.id.Some? then after.id.Some? && IsInteger(last.id.value, after.id.value)
        else after.id == before.id)
    && (if last.code.Some? then IsInteger(last.code.value, after.errorCode)
        else after.errorCode == before.errorCode)
    && after.raw == before.raw && after.valid == before.valid
  }

  lemma AgreesThen(s: string, a: Lasts, b: Lasts, m: MCPMessage, n: MCPMessage, o: MCPMessage)
    requires Agrees(s, a, m, n) && Agrees(s, b, n, o)
    ensures Agrees(s, Then(a, b), m, o)
  {
  }

  lemma AgreesNothing(s: string, m: MCPMessage)
    ensures Agrees(s, NO_MEMBER, m, m)
  {
  }

  lemma ClosingAgrees(s: string, v: Json, m: MCPMessage)
    ensures Agrees(s, NO_MEMBER.(error := Some(v)), m, AsResponse(AtClose(ErrorObject, m)))
  {
  }

  /** A role whose value is recorded as it stands. */
  lemma SimpleMeaningAgrees(s: string, role: Role, v: Json, at: nat, msg: MCPMessage)
    requires Scannable(v) && At(s, at, Print(v)) && !role.Error?
    requires Meaning(role, v, at, msg).Some?
    ensures Agrees(s, Only(role, v), msg, Meaning(role, v, at, msg).value)
  {
    AtSlice(s, at, Print(v));
    if role.Method? || role.ErrorText? {
      BodyHeld(s, at, v);
    }
    hide At, Print, Scannable;
  }

  lemma BodyHeld(s: string, at: nat, v: Json)
    requires At(s, at, Print(v)) && v.String?
    ensures HoldsBody(s, Some(Span(at + 1, |v.body|)), v)
  {
    assert Print(v) == "\"" + v.body + "\"";
    hide At, Print;
    StringLayout(s, at, v.body);
    AtSplit(s, at + 1, v.body, "\"");
    AtSlice(s, at + 1, v.body);
  }

  lemma {:induction false} MeaningAgrees(s: string, role: Role, v: Json, at: nat, msg: MCPMessage)
    requires Scannable(v) && At(s, at, Print(v))
    requires Meaning(role, v, at, msg).Some?
    ensures Agrees(s, Only(role, v), msg, Meaning(role, v, at, msg).value)
    decreases v, 1
  {
    hide At, Meaning, Fold, Print, Agrees, Only, Then, LastMembers, Scannable, ScannableItems, PrintItems;
    if role.Error? {
      ErrorMeaning(v, at, msg);
      assert v == Container(true, v.gap, v.items);
      ContainerLayout(s, at, true, v.gap, v.items);
      FoldAgrees(ErrorObject, s, v.items, at + 1 + |v.gap|, msg);
      var m := Fold(ErrorObject, v.items, at + 1 + |v.gap|, msg).value;
      ClosingAgrees(s, v, m);
      AgreesThen(s, LastMembers(ErrorObject, v.items), NO_MEMBER.(error := Some(v)), msg, m,
                 AsResponse(AtClose(ErrorObject, m)));
    } else {
      SimpleMeaningAgrees(s, role, v, at, msg);
    }
  }

  lemma ErrorMeaning(v: Json, at: nat, msg: MCPMessage)
    requires Scannable(v) && Meaning(Error, v, at, msg).Some?
    ensures v.Container? && v.braces && ScannableItems(v.items, true)
    ensures var m := Fold(ErrorObject, v.items, at + 1 + |v.gap|, msg);
            m.Some? && Meaning(Error, v, at, msg) == Some(AsResponse(AtClose(ErrorObject, m.value)))
    ensures Only(Error, v) == Then(LastMembers(ErrorObject, v.items), NO_MEMBER.(error := Some(v)))
  {
    hide Then;
  }

  lemma FoldCons(level: Level, items: Items, at: nat, msg: MCPMessage)
    requires ScannableItems(items, true) && items.Cons?
    requires Fold(level, items, at, msg).Some?
    ensures items.head.key.Key? && Scannable(items.head.value)
    ensures ScannableItems(items.tail, true)
    ensures var role, k := RoleOf(level, items.head.key.name), at + |items.head.pre| + |PrintKey(items.head.key)|;
            var m := Meaning(role, items.head.value, k, msg);
            && m.Some?
            && Fold(level, items, at, msg) ==
               Fold(level, items.tail, at + |PrintItem(items.head)| + 1, m.value)
            && LastMembers(level, items) == Then(Only(role, items.head.value), LastMembers(level, items.tail))
  {
    hide Meaning, Print, PrintItem, PrintKey, RoleOf, Then, Only;
    assert ScannableItem(items.head, true);
  }

  lemma FoldNil(level: Level, at: nat, msg: MCPMessage)
    ensures Fold(level, Nil, at, msg) == Some(msg) && LastMembers(level, Nil) == NO_MEMBER
  {
  }

  /** Every field of the message tells of the last member of its role, in the words of the text. */
  lemma {:induction false} FoldAgrees(level: Level, s: string, items: Items, at: nat, msg: MCPMessage)
    requires ScannableItems(items, true) && At(s, at, PrintItems(items))
    requires Fold(level, items, at, msg).Some?
    ensures Agrees(s, LastMembers(level, items), msg, Fold(level, items, at, msg).value)
    decreases items, 0
  {
    hide At, Fold, Meaning, Print, PrintItem, PrintItems, PrintKey, RoleOf, Agrees, Only, Then,
      LastMembers, Scannable, ScannableItem, ScannableItems;
    if items.Nil? {
      FoldNil(level, at, msg);
      AgreesNothing(s, msg);
    } else {
      FoldCons(level, items, at, msg);
      var head, tail := items.head, items.tail;
      var role, k := RoleOf(level, head.key.name), at + |head.pre| + |PrintKey(head.key)|;
      var m, next := Meaning(role, head.value, k, msg).value, at + |PrintItem(head)| + 1;
      ItemsLayout(s, at, items);
      ItemLayout(s, at, head);
      MeaningAgrees(s, role, head.value, k, msg);
      if tail.Nil? {
        FoldNil(level, next, m);
        AgreesNothing(s, m);
        AgreesThen(s, Only(role, head.value), NO_MEMBER, msg, m, m);
      } else {
        FoldAgrees(level, s, tail, next, m);
        AgreesThen(s, Only(role, head.value), LastMembers(level, tail), msg, m, Fold(level, tail, next, m).value);
      }
    }
  }

  /**
    The whole of parsing on a printed object: there is a message exactly when the members are
    acceptable and the text is not too long, and it agrees with the last member of each role.
   */
  lemma ParsedMessageAgrees(pre: string, gap: string, items: Items, rest: string, maxBytes: nat)
    requires AllJsonSpace(pre) && Scannable(Container(true, gap, items)) && ScannableItems(items, true)
    ensures var s := pre + Print(Container(true, gap, items)) + rest;
            var m := ParseMessage(s, maxBytes);
            && (m.Some? <==> |s| <= maxBytes && AllAcceptable(Message, items))
            && (m.Some? ==>
                  Agrees(s, LastMembers(Message, items),
                         FRESH_MESSAGE.(raw := Some(Span(0, |s|)), valid := true), m.value))
  {
    var s := pre + Print(Container(true, gap, items)) + rest;
    hide At, Fold, AllAcceptable, Print, PrintItems, Scannable, ScannableItems, LastMembers, Agrees, ParseMessage;
    ParsingRefinesFold(pre, gap, items, rest, maxBytes);
    var first, at := FRESH_MESSAGE.(raw := Some(Span(0, |s|))), |pre| + 1 + |gap|;
    FoldIffAcceptable(Message, items, at, first);
    ObjectAt(pre, Print(Container(true, gap, items)), rest);
    ContainerLayout(s, |pre|, true, gap, items);
    var m := Fold(Message, items, at, first);
    if m.Some? {
      FoldAgrees(Message, s, items, at, first);
      StillAgrees(s, LastMembers(Message, items), first, m.value);
    }
  }

  lemma StillAgrees(s: string, last: Lasts, before: MCPMessage, after: MCPMessage)
    requires Agrees(s, last, before, after)
    ensures Agrees(s, last, before.(valid := true), after.(valid := true))
  {
  }

  // ------------------------------------------------------ spans, on every input

  /** A span that `skip_value` returned somewhere in the text. */
  ghost predicate Skipped(s: string, span: Option<Span>) {
    span.Some? ==> exists i :: 0 <= i <= |s| && SkipValue(s, i) == span
  }

  predicate Inside(s: string, span: Option<Span>) {
    span.Some? ==> span.value.End() <= |s|
  }

  ghost predicate GoodMessage(s: string, m: MCPMessage) {
    && Skipped(s, m.params) && Skipped(s, m.result)
    && Inside(s, m.methodName) && Inside(s, m.errorMsg)
    && (m.isRequest ==> m.methodName.Some?)
    && (m.id.Some? ==> Fits(m.id.value))
  }

  lemma {:induction false} MembersGood(level: Level, s: string, i: nat, msg: MCPMessage)
    requires i <= |s| && GoodMessage(s, msg) && Members(level, s, i, msg).Some?
    ensures GoodMessage(s, Members(level, s, i, msg).value.value)
    decreases |s| - i, 0
  {
    hide GoodMessage, Member, RoleOf, KeyText, AtClose;
    var j := SkipWs(s, i);
    if s[j] == '}' {
      CloseGood(level, s, msg);
    } else {
      var key := ParseKey(s, j).value;
      var role := RoleOf(level, KeyText(s, key.value));
      MemberGood(role, s, key.next, msg);
      var m := Member(role, s, key.next, msg).value;
      MembersGood(level, s, MemberSeparator(s, m.next).value, m.value);
    }
  }

  lemma CloseGood(level: Level, s: string, msg: MCPMessage)
    requires GoodMessage(s, msg)
    ensures GoodMessage(s, AtClose(level, msg)) && GoodMessage(s, AsResponse(msg))
  {
  }

  lemma {:induction false} MemberGood(role: Role, s: string, i: nat, msg: MCPMessage)
    requires i <= |s| && GoodMessage(s, msg) && Member(role, s, i, msg).Some?
    ensures GoodMessage(s, Member(role, s, i, msg).value.value)
    decreases |s| - i, 2
  {
    if role.Error? {
      var j := SkipWs(s, i);
      hide GoodMessage, Members, AsResponse;
      MembersGood(ErrorObject, s, j + 1, msg);
      CloseGood(ErrorObject, s, Members(ErrorObject, s, j + 1, msg).value.value);
    } else {
      hide Members, SkipValue, ParseString, ParseInt;
    }
  }

  /**
    On every input, well-formed or not: the spans of a valid message lie inside it, and its
    parameters and result are spans `skip_value` returned.
   */
  lemma ParsedMessageGood(s: string, maxBytes: nat)
    requires ParseMessage(s, maxBytes).Some?
    ensures GoodMessage(s, ParseMessage(s, maxBytes).value)
  {
    var first := FRESH_MESSAGE.(raw := Some(Span(0, |s|)));
    assert GoodMessage(s, first);
    MembersGood(Message, s, SkipWs(s, 0) + 1, first);
  }
}
