/**
  Parsing refines a fold. On every printed object the parser's result is the left fold, over the
  members in order, of what each member means; it fails exactly when some member means nothing.
 */
module ParseFold {
  import opened Text
  import opened Json
  import opened ParserSpec
  import opened ScanProofs
  import opened Decimal

  // -------------------------------------------------------------------- meaning

  /** Values the parser can step over: those that do not nest their outermost bracket too deeply. */
  predicate Shallow(v: Json) {
    OwnDepth(v) <= MAX_DEPTH
  }

  /** What a member records, when its value is printed at offset `at`; `None` when it is refused. */
  function Meaning(role: Role, v: Json, at: nat, msg: MCPMessage): Option<MCPMessage>
    requires Scannable(v)
    decreases v, 1
  {
    if role.Code? || role.Id? then
      match IntegerOf(v)
      case None => None
      case Some(n) => if Fits(n) then Some(RecordInt(role, n, msg)) else None
    else if role.ErrorText? || role.Method? then
      if v.String? then Some(RecordText(role, Span(at + 1, |v.body|), msg)) else None
    else if role.Error? then
      if v.Container? && v.braces then
        match Fold(ErrorObject, v.items, at + 1 + |v.gap|, msg)
        case None => None
        case Some(m) => Some(AsResponse(AtClose(ErrorObject, m)))
      else None
    else
      if Shallow(v) then Some(RecordSpan(role, Span(at, |Print(v)|), msg)) else None
  }

  /** The fold over members whose print starts at offset `at`. */
  function Fold(level: Level, items: Items, at: nat, msg: MCPMessage): Option<MCPMessage>
    requires ScannableItems(items, true)
    decreases items, 0
  {
    match items
    case Nil => Some(msg)
    case Cons(head, tail) =>
      assert ScannableItem(head, true);
      match Meaning(RoleOf(level, head.key.name), head.value, at + |head.pre| + |PrintKey(head.key)|, msg)
      case None => None
      case Some(m) => Fold(level, tail, at + |PrintItem(head)| + 1, m)
  }

  // ----------------------------------------------------- one routine at a time

  lemma ParseStringExact(s: string, i: nat, ws: string, v: Json)
    requires At(s, i, ws) && AllJsonSpace(ws)
    requires At(s, i + |ws|, Print(v)) && Scannable(v) && EndsValue(s, i + |ws| + |Print(v)|)
    ensures ParseString(s, i) ==
            if v.String? then Some(Span(i + |ws| + 1, |v.body|)) else None
  {
    hide At, StringEnd, ClosedBody, EndsValue;
    var q := i + |ws|;
    ValueEndExact(s, q, v);
    SkipWsExact(s, i, ws);
    match v
    case String(body) =>
      StringLayout(s, q, body);
      StringEndExact(s, q + 1, body);
    case _ => FirstChar(s, q, v);
  }

  /** The first character of a value tells its kind. */
  lemma FirstChar(s: string, i: nat, v: Json)
    requires At(s, i, Print(v)) && Scannable(v)
    ensures i < |s| && !IsSpace(s[i])
    ensures s[i] == '"' <==> v.String?
    ensures s[i] == '{' <==> v.Container? && v.braces
    ensures s[i] == '[' <==> v.Container? && !v.braces
    ensures s[i] == '-' || IsDigit(s[i]) <==> v.Number?
    ensures s[i] == 'n' <==> v.Null?
    ensures s[i] == 't' <==> v.True?
    ensures s[i] == 'f' <==> v.False?
  {
    match v
    case Null => assert s[i] == 'n';
    case True => assert s[i] == 't';
    case False => assert s[i] == 'f';
    case Number(n) => NumeralFirstChar(s, i, n);
    case String(body) => StringLayout(s, i, body);
    case Container(braces, gap, items) =>
      hide At;
      ContainerLayout(s, i, braces, gap, items);
  }

  lemma NumeralFirstChar(s: string, i: nat, n: Numeral)
    requires At(s, i, PrintNumeral(n)) && WellFormedNumeral(n)
    ensures i < |s| && (s[i] == '-' || IsDigit(s[i]))
  {
    hide At, PrintNumeral;
    NumeralLayout(s, i, n);
  }

  // ------------------------------------------------------------ between members

  /** White space and then a comma or the closing brace: what follows a member's value. */
  ghost predicate Followed(s: string, i: nat, post: string) {
    var j := i + |post|;
    At(s, i, post) && AllJsonSpace(post) && j < |s| && (s[j] == ',' || s[j] == '}')
  }

  /** Where the loop goes on: after a comma, but at a closing brace. */
  function NextMember(s: string, i: nat): nat
    requires i < |s|
  {
    if s[i] == ',' then i + 1 else i
  }

  lemma FollowedEnds(s: string, i: nat, post: string)
    requires Followed(s, i, post)
    ensures i < |s| && EndsValue(s, i) && !IsDigit(s[i])
    ensures var j := i + |post|;
            MemberSeparator(s, i) == Some(NextMember(s, j))
  {
    SkipWsExact(s, i, post);
    if post != "" {
      assert post[0] in post;
    }
  }

  /** Where the digits of a numeral end: a fraction, an exponent, or what follows the numeral. */
  lemma WholePart(s: string, i: nat, n: Numeral)
    requires At(s, i, PrintNumeral(n)) && WellFormedNumeral(n)
    requires var j := i + |PrintNumeral(n)|; j < |s| && !IsDigit(s[j])
    ensures var j := i + (if n.negative then 1 else 0) + |n.whole|;
            && At(s, i, (if n.negative then "-" else "") + n.whole)
            && j < |s| && !IsDigit(s[j])
            && (n.fraction.None? && n.exponent.None? ==> j == i + |PrintNumeral(n)|)
            && (n.fraction.Some? || n.exponent.Some? ==>
                  !IsSpace(s[j]) && s[j] != ',' && s[j] != '}')
  {
    var minus := if n.negative then "-" else "";
    AtSplit(s, i, minus + n.whole + PrintFraction(n.fraction), PrintExponent(n.exponent));
    AtSplit(s, i, minus + n.whole, PrintFraction(n.fraction));
  }

  /** `parse_int` and the separator after it: a fraction or an exponent is refused by the latter. */
  lemma IntegerStep(s: string, i: nat, ws: string, v: Json, post: string)
    requires At(s, i, ws) && AllJsonSpace(ws)
    requires At(s, i + |ws|, Print(v)) && Scannable(v)
    requires Followed(s, i + |ws| + |Print(v)|, post)
    ensures var n := IntegerOf(v);
            var p := ParseInt(s, i);
            && (n.Some? && Fits(n.value) ==> p == Some(Parsed(n.value, i + |ws| + |Print(v)|)))
            && (!(n.Some? && Fits(n.value)) ==> p.None? || MemberSeparator(s, p.value.next).None?)
  {
    hide At, Followed, ParseInt, Print, PrintNumeral, SkipWs, EndsValue;
    var q := i + |ws|;
    FollowedEnds(s, q + |Print(v)|, post);
    FirstChar(s, q, v);
    if v.Number? {
      NumberStep(s, i, ws, v, post);
    } else {
      ValueEndExact(s, q, v);
      SkipWsExact(s, i, ws);
      NotAnInteger(s, i);
    }
  }

  lemma NotAnInteger(s: string, i: nat)
    requires i <= |s|
    requires var q := SkipWs(s, i); q < |s| && s[q] != '-' && !IsDigit(s[q])
    ensures ParseInt(s, i) == None
  {
  }

  lemma NumberStep(s: string, i: nat, ws: string, v: Json, post: string)
    requires At(s, i, ws) && AllJsonSpace(ws)
    requires At(s, i + |ws|, Print(v)) && Scannable(v) && v.Number?
    requires Followed(s, i + |ws| + |Print(v)|, post)
    ensures var n := IntegerOf(v);
            var p := ParseInt(s, i);
            && (n.Some? && Fits(n.value) ==> p == Some(Parsed(n.value, i + |ws| + |Print(v)|)))
            && (!(n.Some? && Fits(n.value)) ==> p.None? || MemberSeparator(s, p.value.next).None?)
  {
    hide At, Followed, ParseInt, PrintNumeral, EndsValue, Value;
    FollowedEnds(s, i + |ws| + |Print(v)|, post);
    WholePart(s, i + |ws|, v.numeral);
    ParseIntExact(s, i, ws, v.numeral.negative, v.numeral.whole);
  }

  // ---------------------------------------------------------------- one member

  /** A member from after its colon: white space, the value, and what follows a member. */
  ghost predicate Laid(s: string, i: nat, ws: string, v: Json, post: string) {
    && At(s, i, ws) && AllJsonSpace(ws)
    && At(s, i + |ws|, Print(v)) && Scannable(v)
    && Followed(s, i + |ws| + |Print(v)|, post)
  }

  /** A member's value and its separator are read as what the member means. */
  lemma {:induction false} StepExact(
    role: Role, s: string, i: nat, ws: string, v: Json, post: string, msg: MCPMessage)
    requires Laid(s, i, ws, v, post)
    ensures MemberStep(role, s, i, msg) ==
            match Meaning(role, v, i + |ws|, msg)
            case None => None
            case Some(m) => Some(Parsed(m, NextMember(s, i + |ws| + |Print(v)| + |post|)))
    decreases v, 2
  {
    hide Laid, MemberStep, Meaning, NextMember, Print;
    if role.ErrorText? || role.Method? {
      TextStep(role, s, i, ws, v, post, msg);
    } else if role.Code? || role.Id? {
      IntStep(role, s, i, ws, v, post, msg);
    } else if role.Error? {
      ErrorStep(s, i, ws, v, post, msg);
    } else {
      SpanStep(role, s, i, ws, v, post, msg);
    }
  }

  lemma TextStep(role: Role, s: string, i: nat, ws: string, v: Json, post: string, msg: MCPMessage)
    requires Laid(s, i, ws, v, post) && (role.ErrorText? || role.Method?)
    ensures MemberStep(role, s, i, msg) ==
            match Meaning(role, v, i + |ws|, msg)
            case None => None
            case Some(m) => Some(Parsed(m, NextMember(s, i + |ws| + |Print(v)| + |post|)))
  {
    hide At, Followed, EndsValue, ParseString, MemberSeparator, NextMember, RecordText, Scannable, PrintItems,
      PrintNumeral;
    assert v.String? ==> |Print(v)| == |v.body| + 2;
    FollowedEnds(s, i + |ws| + |Print(v)|, post);
    ParseStringExact(s, i, ws, v);
  }

  lemma IntStep(role: Role, s: string, i: nat, ws: string, v: Json, post: string, msg: MCPMessage)
    requires Laid(s, i, ws, v, post) && (role.Code? || role.Id?)
    ensures MemberStep(role, s, i, msg) ==
            match Meaning(role, v, i + |ws|, msg)
            case None => None
            case Some(m) => Some(Parsed(m, NextMember(s, i + |ws| + |Print(v)| + |post|)))
  {
    hide At, Followed, EndsValue, Print, ParseInt, MemberSeparator, NextMember, RecordInt, IntegerOf, Scannable;
    FollowedEnds(s, i + |ws| + |Print(v)|, post);
    IntegerStep(s, i, ws, v, post);
  }

  lemma SpanStep(role: Role, s: string, i: nat, ws: string, v: Json, post: string, msg: MCPMessage)
    requires Laid(s, i, ws, v, post) && (role.Params? || role.Result? || role.Other?)
    ensures MemberStep(role, s, i, msg) ==
            match Meaning(role, v, i + |ws|, msg)
            case None => None
            case Some(m) => Some(Parsed(m, NextMember(s, i + |ws| + |Print(v)| + |post|)))
  {
    hide At, Followed, EndsValue, Print, SkipValue, MemberSeparator, NextMember, RecordSpan, OwnDepth, Scannable;
    FollowedEnds(s, i + |ws| + |Print(v)|, post);
    AtSplit(s, i, ws, Print(v));
    SkipValueExact(s, i, ws, v);
  }

  lemma {:induction false} ErrorStep(s: string, i: nat, ws: string, v: Json, post: string, msg: MCPMessage)
    requires Laid(s, i, ws, v, post)
    ensures MemberStep(Error, s, i, msg) ==
            match Meaning(Error, v, i + |ws|, msg)
            case None => None
            case Some(m) => Some(Parsed(m, NextMember(s, i + |ws| + |Print(v)| + |post|)))
    decreases v, 1
  {
    hide At, Followed, AllJsonSpace, EndsValue, Print, Fold, ParseErrorObject, MemberSeparator, NextMember,
      AsResponse, AtClose, Scannable;
    FollowedEnds(s, i + |ws| + |Print(v)|, post);
    ErrorObjectExact(s, i, ws, v, msg);
  }

  lemma {:induction false} ErrorObjectExact(s: string, i: nat, ws: string, v: Json, msg: MCPMessage)
    requires At(s, i, ws) && AllJsonSpace(ws)
    requires At(s, i + |ws|, Print(v)) && Scannable(v)
    requires EndsValue(s, i + |ws| + |Print(v)|)
    ensures ParseErrorObject(s, i, msg) ==
            if v.Container? && v.braces then
              match Fold(ErrorObject, v.items, i + |ws| + 1 + |v.gap|, msg)
              case None => None
              case Some(m) => Some(Parsed(AtClose(ErrorObject, m), i + |ws| + |Print(v)|))
            else None
    decreases v, 0
  {
    hide At, EndsValue, Fold, Members, AtClose, PrintItems, ScannableItems;
    assert v.Container? && v.braces ==> AllJsonSpace(v.gap) && ScannableItems(v.items, true);
    hide Print, Scannable, ValueEnd, OwnDepth;
    var q := i + |ws|;
    ValueEndExact(s, q, v);
    SkipWsExact(s, i, ws);
    FirstChar(s, q, v);
    if v.Container? && v.braces {
      assert v == Container(true, v.gap, v.items);
      ContainerLayout(s, q, true, v.gap, v.items);
      LoopExact(ErrorObject, s, q + 1, v.gap, v.items, msg);
    }
  }

  /** A member loop, from the white space before its first member to its closing brace. */
  lemma {:induction false} LoopExact(level: Level, s: string, i: nat, ws: string, items: Items, msg: MCPMessage)
    requires At(s, i, ws) && AllJsonSpace(ws)
    requires At(s, i + |ws|, PrintItems(items)) && ScannableItems(items, true)
    requires var j := i + |ws| + |PrintItems(items)|; j < |s| && s[j] == '}'
    ensures Members(level, s, i, msg) ==
            match Fold(level, items, i + |ws|, msg)
            case None => None
            case Some(m) => Some(Parsed(AtClose(level, m), i + |ws| + |PrintItems(items)| + 1))
    decreases items
  {
    hide At, Members, EndsValue, PrintItem, Meaning, RoleOf, PrintKey, ScannableKey, Scannable, Print;
    if items.Nil? {
      SkipWsExact(s, i, ws);
      LoopEnds(level, s, i, msg);
    } else {
      var head := items.head;
      assert ScannableItem(head, true);
      var at := i + |ws|;
      ItemsLayout(s, at, items);
      HeadExact(level, s, i, ws, head, msg);
      var m := Meaning(RoleOf(level, head.key.name), head.value, at + |head.pre| + |PrintKey(head.key)|, msg);
      if m.Some? {
        AtEmpty(s, NextMember(s, at + |PrintItem(head)|));
        LoopExact(level, s, NextMember(s, at + |PrintItem(head)|), "", items.tail, m.value);
      }
    }
  }

  lemma LoopEnds(level: Level, s: string, i: nat, msg: MCPMessage)
    requires i <= |s|
    requires var j := SkipWs(s, i); j < |s| && s[j] == '}'
    ensures Members(level, s, i, msg) == Some(Parsed(AtClose(level, msg), SkipWs(s, i) + 1))
  {
  }

  /** A quoted name: its span, and the text of that span. */
  lemma QuotedNameExact(s: string, i: nat, name: string)
    requires At(s, i, "\"" + name + "\"") && ClosedBody(name)
    ensures i + |name| + 2 <= |s| && s[i] == '"'
    ensures ParseString(s, i) == Some(Span(i + 1, |name|)) && KeyText(s, Span(i + 1, |name|)) == name
  {
    hide At, StringEnd, ClosedBody;
    StringLayout(s, i, name);
    StringEndExact(s, i + 1, name);
    AtSplit(s, i + 1, name, "\"");
    AtSlice(s, i + 1, name);
  }

  lemma KeyExact(s: string, i: nat, key: Key)
    requires At(s, i, PrintKey(key)) && key.Key? && ScannableKey(key)
    ensures ParseKey(s, i) ==
            Some(Parsed(Span(i + 1, |key.name|), i + |PrintKey(key)| - |key.afterColon|))
    ensures i + 1 + |key.name| <= |s| && KeyText(s, Span(i + 1, |key.name|)) == key.name
    ensures s[i] == '"'
  {
    hide At, ClosedBody, ParseString, PrintKey, KeyText;
    KeyLayout(s, i, key);
    QuotedNameExact(s, i, key.name);
    SkipWsExact(s, i + 2 + |key.name|, key.beforeColon);
  }

  /** One round of a member loop. */
  lemma {:induction false} HeadExact(level: Level, s: string, i: nat, ws: string, item: Item, msg: MCPMessage)
    requires At(s, i, ws) && AllJsonSpace(ws)
    requires At(s, i + |ws|, PrintItem(item)) && ScannableItem(item, true)
    requires var j := i + |ws| + |PrintItem(item)|; j < |s| && (s[j] == ',' || s[j] == '}')
    ensures var k := i + |ws| + |item.pre| + |PrintKey(item.key)|;
            Members(level, s, i, msg) ==
            match Meaning(RoleOf(level, item.key.name), item.value, k, msg)
            case None => None
            case Some(m) => Members(level, s, NextMember(s, i + |ws| + |PrintItem(item)|), m)
    decreases item
  {
    hide At, EndsValue, PrintItem, MemberStep, Meaning, ParseKey, RoleOf, PrintKey, Print, Scannable, ClosedBody,
      NextMember, KeyText;
    var at := i + |ws|;
    ItemLayout(s, at, item);
    AtSplit(s, i, ws, item.pre);
    var k := at + |item.pre|;
    KeyExact(s, k, item.key);
    SkipWsExact(s, i, ws + item.pre);
    KeyLayout(s, k, item.key);
    StepExact(RoleOf(level, item.key.name), s, k + |PrintKey(item.key)| - |item.key.afterColon|,
              item.key.afterColon, item.value, item.post, msg);
  }
}
