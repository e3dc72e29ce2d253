/**
  Lists of tools and the parser: the names of parameters are written unescaped. A quote in one turns
  strings and structure around for everything behind it, up to the next quote in a name.
 */
module ToolLists {
  import opened Text
  import opened Json
  import opened ParserSpec
  import opened ScanProofs
  import opened Decimal
  import opened Escape
  import opened ParseFold
  import opened ParseTheorems
  import opened B = JsonBuilderModule
  import opened Replies
  import opened McpAdapter

  // --------------------------------------------------- a reply with any text for a result

  /** The members of a reply with a result. */
  lemma ReplyParts(id: int, v: Json) returns (a: Item, b: Item, c: Item)
    ensures ReplyTree(Some(id), Named("result", v)) == Obj(Three(a, b, c))
    ensures ScannableItem(a, true) && RoleOf(Message, a.key.name) == Other && Shallow(a.value)
    ensures ScannableItem(b, true) && RoleOf(Message, b.key.name) == Id && b.value == IntJson(id)
    ensures c == Item("", Key("result", "", ""), v, "")
  {
    TextIsScannable("2.0");
    a, b, c := Named("jsonrpc", TextValue("2.0")), Named("id", IntJson(id)), Named("result", v);
    ReplyKeys();
    hide TextValue, IntJson, PlainKey, Shallow, RoleOf, CStr, ScannableItem;
    PlainKeyBody("result");
    NamedItem("jsonrpc", TextValue("2.0"));
    NamedItem("id", IntJson(id));
  }

  /** A container without white space. */
  lemma BareLayout(s: string, i: nat, braces: bool, items: Items) returns (close: nat)
    requires At(s, i, Print(Container(braces, "", items)))
    ensures i < |s| && s[i] == OpenOf(braces) && At(s, i + 1, PrintItems(items))
    ensures close == i + 1 + |PrintItems(items)| && close < |s| && s[close] == CloseOf(braces)
    ensures close + 1 == i + |Print(Container(braces, "", items))|
  {
    hide At, Print, PrintItems, OpenOf, CloseOf;
    ContainerLayout(s, i, braces, "", items);
    close := i + 1 + |PrintItems(items)|;
  }

  /** Where three members of an object stand. */
  lemma ObjectLayout(s: string, i: nat, a: Item, b: Item, c: Item) returns (j: nat, k: nat, close: nat)
    requires At(s, i, Print(Obj(Three(a, b, c))))
    ensures i < |s| && s[i] == '{' && At(s, i + 1, PrintItem(a))
    ensures j == i + 1 + |PrintItem(a)| + 1 <= |s| && s[j - 1] == ',' && At(s, j, PrintItem(b))
    ensures k == j + |PrintItem(b)| + 1 <= |s| && s[k - 1] == ',' && At(s, k, PrintItem(c))
    ensures close == k + |PrintItem(c)| < |s| && s[close] == '}' && close + 1 == i + |Print(Obj(Three(a, b, c)))|
  {
    hide At, Print, PrintItem, PrintItems;
    close := BareLayout(s, i, true, Three(a, b, c));
    ItemsLayout(s, i + 1, Three(a, b, c));
    j := i + 1 + |PrintItem(a)| + 1;
    ItemsLayout(s, j, Two(b, c));
    k := j + |PrintItem(b)| + 1;
    ItemsLayout(s, k, One(c));
  }

  /** The last member of a reply, when `skip_value` steps over its value or fails there. */
  lemma LastMember(s: string, j: nat, c: Item, at: nat, msg: MCPMessage)
    requires At(s, j, PrintItem(c)) && |s| == j + |PrintItem(c)| + 1 && s[|s| - 1] == '}'
    requires c.pre == "" && c.key == Key("result", "", "") && c.post == ""
    requires at + |Print(c.value)| + 1 == |s|
    requires SkipValue(s, at) == None || SkipValue(s, at) == Some(Span(at, |Print(c.value)|))
    ensures Members(Message, s, j, msg) ==
            match SkipValue(s, at)
            case None => None
            case Some(v) => Some(Parsed(RecordSpan(Result, v, msg), |s|))
  {
    hide At, Print, PrintItem, PrintKey, SkipValue, Members, Member, RoleOf, MemberStep, ParseKey, ClosedBody,
      StringBody, PlainKey, CStr, RecordSpan;
    ResultRole();
    PlainKeyBody("result");
    BodyIsClosed("result");
    ItemLayout(s, j, c);
    KeyExact(s, j, c.key);
    AtEmpty(s, j);
    SkipWsExact(s, j, "");
    MembersOnce(s, j, Span(j + 1, 6), at, msg);
    ResultStep(s, at, Print(c.value), msg);
    if SkipValue(s, at).Some? {
      AtEmpty(s, |s| - 1);
      SkipWsExact(s, |s| - 1, "");
      LoopEnds(Message, s, |s| - 1, RecordSpan(Result, SkipValue(s, at).value, msg));
    }
  }

  lemma MembersOnce(s: string, j: nat, key: Span, at: nat, msg: MCPMessage)
    requires j < |s| && SkipWs(s, j) == j && s[j] != '}' && ParseKey(s, j) == Some(Parsed(key, at))
    requires key.End() <= |s| && RoleOf(Message, s[key.start..key.End()]) == Result
    ensures Members(Message, s, j, msg) ==
            match MemberStep(Result, s, at, msg)
            case None => None
            case Some(m) => Members(Message, s, m.next, m.value)
  {
    hide MemberStep, RoleOf, ParseKey, SkipWs;
  }

  lemma ResultStep(s: string, at: nat, text: string, msg: MCPMessage)
    requires at + |text| + 1 == |s| && s[|s| - 1] == '}'
    requires SkipValue(s, at) == None || SkipValue(s, at) == Some(Span(at, |text|))
    ensures MemberStep(Result, s, at, msg) ==
            match SkipValue(s, at)
            case None => None
            case Some(v) => Some(Parsed(RecordSpan(Result, v, msg), |s| - 1))
  {
    hide SkipValue;
    AtEmpty(s, |s| - 1);
    SkipWsExact(s, |s| - 1, "");
  }

  lemma PassedOver(v: Json, at: nat, msg: MCPMessage)
    requires Scannable(v) && Shallow(v)
    ensures Meaning(Other, v, at, msg) == Some(msg)
  {
    hide Scannable, Shallow, Fold, Print;
  }

  lemma IdRecorded(id: int, at: nat, msg: MCPMessage)
    ensures Meaning(Id, IntJson(id), at, msg) == if Fits(id) then Some(msg.(id := Some(id))) else None
  {
    IntTextRoundTrip(id);
    hide Scannable, Shallow, Fold, Print, IntegerOf, IntJson;
  }

  lemma KeyedItem(item: Item)
    requires ScannableItem(item, true)
    ensures item.key.Key? && Scannable(item.value)
  {
  }

  lemma AfterComma(s: string, j: nat)
    requires 0 < j <= |s| && s[j - 1] == ','
    ensures NextMember(s, j - 1) == j && AllJsonSpace("")
  {
  }

  /** A member that another one follows. */
  lemma OneMember(s: string, i: nat, item: Item, j: nat, msg: MCPMessage) returns (k: nat)
    requires At(s, i, PrintItem(item)) && ScannableItem(item, true)
    requires j == i + |PrintItem(item)| + 1 <= |s| && s[j - 1] == ','
    ensures item.key.Key? && Scannable(item.value)
    ensures Members(Message, s, i, msg) ==
            match Meaning(RoleOf(Message, item.key.name), item.value, k, msg)
            case None => None
            case Some(m) => Members(Message, s, j, m)
  {
    hide *;
    AtEmpty(s, i);
    KeyedItem(item);
    AfterComma(s, j);
    var ws := "";
    k := i + |ws| + |item.pre| + |PrintKey(item.key)|;
    HeadExact(Message, s, i, ws, item, msg);
  }

  /** The two members in front of the result. */
  lemma FirstMembers(s: string, id: int, a: Item, b: Item, i: nat, j: nat, msg: MCPMessage)
    requires At(s, 1, PrintItem(a)) && ScannableItem(a, true) && RoleOf(Message, a.key.name) == Other
    requires Shallow(a.value)
    requires i == 1 + |PrintItem(a)| + 1 <= |s| && s[i - 1] == ','
    requires At(s, i, PrintItem(b)) && ScannableItem(b, true) && RoleOf(Message, b.key.name) == Id
    requires b.value == IntJson(id) && j == i + |PrintItem(b)| + 1 <= |s| && s[j - 1] == ','
    ensures Members(Message, s, 1, msg) ==
            if Fits(id) then Members(Message, s, j, msg.(id := Some(id))) else None
  {
    hide *;
    var k := OneMember(s, 1, a, i, msg);
    PassedOver(a.value, k, msg);
    var l := OneMember(s, i, b, j, msg);
    IdRecorded(id, l, msg);
  }

  /** A reply with a result is accepted exactly when `skip_value` steps over that, whatever text it is. */
  lemma RawReplyParses(id: int, v: Json, maxBytes: nat) returns (at: nat)
    ensures var s := Print(ReplyTree(Some(id), Named("result", v)));
            && at + |Print(v)| + 1 == |s| && At(s, at, Print(v)) && s[|s| - 1] == '}'
            && (SkipValue(s, at) == None || SkipValue(s, at) == Some(Span(at, |Print(v)|)) ==>
                  ReadAs(s, id, SkipValue(s, at), ParseMessage(s, maxBytes), maxBytes))
  {
    var s := Print(ReplyTree(Some(id), Named("result", v)));
    hide At, Print, PrintItem, SkipValue, Members, ReplyTree, Named, ScannableItem, Shallow, RoleOf, IntJson, PrintKey;
    var a, b, c := ReplyParts(id, v);
    AtWhole(s);
    var i, j, close := ObjectLayout(s, 0, a, b, c);
    ItemLayout(s, j, c);
    at := j + |PrintKey(c.key)|;
    if SkipValue(s, at) == None || SkipValue(s, at) == Some(Span(at, |Print(v)|)) {
      var first := FRESH_MESSAGE.(raw := Some(Span(0, |s|)));
      FirstMembers(s, id, a, b, i, j, first);
      LastMember(s, j, c, at, first.(id := Some(id)));
      AtEmpty(s, 0);
      SkipWsExact(s, 0, "");
    }
  }

  /** What becomes of a reply whose result is stepped over, or not. */
  ghost predicate ReadAs(s: string, id: int, result: Option<Span>, m: Option<MCPMessage>, maxBytes: nat) {
    && (m.Some? <==> |s| <= maxBytes && Fits(id) && result.Some?)
    && (m.Some? ==>
          && m.value.valid && m.value.id == Some(id) && m.value.result == result
          && m.value.isResponse && m.value.hasResult && !m.value.isRequest && !m.value.hasError)
  }

  // ------------------------------------------------------ following the bracket counter

  /** The brace counter at two positions with their depths: going on from either is the same. */
  ghost predicate Follows(s: string, i: nat, d: nat, j: nat, e: nat) {
    i <= |s| && j <= |s| && d > 0 && e > 0
    && SkipNested(s, i, d, true, MAX_DEPTH) == SkipNested(s, j, e, true, MAX_DEPTH)
  }

  /** The string that opens at `p` is still open at `i`. */
  ghost predicate StillOpen(s: string, p: nat, i: nat) {
    p < i <= |s| && s[p] == '"' && StringEnd(s, p + 1) == StringEnd(s, i)
  }

  /**
    The counter, started at `o`, comes to `i` at depth `d`: between strings, or with a string open, in
    which case it counts no braces until that ends.
   */
  ghost predicate Reaches(s: string, o: nat, i: nat, open: bool, d: nat) {
    if open then exists p :: Follows(s, o, 1, p, d) && StillOpen(s, p, i) else Follows(s, o, 1, i, d)
  }

  lemma ReachesDepth(s: string, o: nat, i: nat, open: bool, d: nat)
    requires Reaches(s, o, i, open, d)
    ensures d > 0
  {
  }

  lemma PastQuote(s: string, o: nat, i: nat, open: bool, d: nat)
    requires Reaches(s, o, i, open, d) && i < |s| && s[i] == '"'
    ensures Reaches(s, o, i + 1, !open, d)
  {
    if open {
      var p :| Follows(s, o, 1, p, d) && StillOpen(s, p, i);
      assert SkipString(s, p) == Some(i + 1);
      assert Follows(s, p, d, i + 1, d);
    } else {
      assert StillOpen(s, i, i + 1);
    }
  }

  /** A character that means nothing to the counter, in strings or between them. */
  predicate FlatChar(c: char) {
    c != '"' && c != '\\' && c != '{' && c != '}'
  }

  predicate FlatText(t: string) {
    forall c | c in t :: FlatChar(c)
  }

  lemma PastText(s: string, o: nat, i: nat, t: string, open: bool, d: nat)
    requires Reaches(s, o, i, open, d) && At(s, i, t) && FlatText(t)
    ensures Reaches(s, o, i + |t|, open, d)
  {
    hide At, SkipNested, StringEnd;
    if open {
      var p :| Follows(s, o, 1, p, d) && StillOpen(s, p, i);
      StringGoesOn(s, i, t);
      assert StillOpen(s, p, i + |t|);
    } else {
      OverPlain(s, i, t, d, true, MAX_DEPTH);
      AtSlice(s, i, t);
    }
  }

  lemma {:induction false} StringGoesOn(s: string, i: nat, t: string)
    requires At(s, i, t) && '"' !in t && '\\' !in t
    ensures i + |t| <= |s| && StringEnd(s, i) == StringEnd(s, i + |t|)
    decreases |t|
  {
    if t != "" {
      assert t[0] in t && forall c | c in t[1..] :: c in t;
      StringGoesOn(s, i + 1, t[1..]);
    }
  }

  lemma PastChar(s: string, o: nat, i: nat, c: char, open: bool, d: nat)
    requires Reaches(s, o, i, open, d) && i < |s| && s[i] == c && FlatChar(c)
    ensures Reaches(s, o, i + 1, open, d)
  {
    AtOne(s, i, c);
    hide At, Reaches;
    assert FlatText([c]);
    PastText(s, o, i, [c], open, d);
  }

  /** Braces count between strings only. */
  lemma PastBrace(s: string, o: nat, i: nat, open: bool, d: nat)
    requires Reaches(s, o, i, open, d) && i < |s|
    ensures s[i] == '{' && (open || d < MAX_DEPTH) ==> Reaches(s, o, i + 1, open, if open then d else d + 1)
    ensures s[i] == '}' && (open || d > 1) ==> Reaches(s, o, i + 1, open, if open then d else d - 1)
  {
    if open {
      var p :| Follows(s, o, 1, p, d) && StillOpen(s, p, i);
      hide Follows;
      assert s[i] == '{' || s[i] == '}' ==> StillOpen(s, p, i + 1);
    }
  }

  /** The depth inside a container. */
  function Inner(braces: bool, open: bool, d: nat): nat {
    if braces && !open then d + 1 else d
  }

  lemma PastOpening(s: string, o: nat, i: nat, braces: bool, open: bool, d: nat)
    requires Reaches(s, o, i, open, d) && i < |s| && s[i] == OpenOf(braces) && (braces ==> d < MAX_DEPTH)
    ensures Reaches(s, o, i + 1, open, Inner(braces, open, d)) && Inner(braces, open, d) <= d + if braces then 1 else 0
  {
    hide Reaches;
    if braces {
      PastBrace(s, o, i, open, d);
    } else {
      PastChar(s, o, i, '[', open, d);
    }
  }

  lemma PastClosing(s: string, o: nat, i: nat, braces: bool, open: bool, d: nat)
    requires Reaches(s, o, i, open, Inner(braces, open, d)) && i < |s| && s[i] == CloseOf(braces) && d > 0
    ensures Reaches(s, o, i + 1, open, d)
  {
    hide Reaches;
    if braces {
      PastBrace(s, o, i, open, Inner(braces, open, d));
    } else {
      PastChar(s, o, i, ']', open, d);
    }
  }

  // -------------------------------------------------------------- names with quotes

  function Quotes(t: string): nat {
    if t == "" then 0 else (if t[0] == '"' then 1 else 0) + Quotes(t[1..])
  }

  function Odd(n: nat): bool {
    n % 2 == 1
  }

  /** Nothing but quotes that means anything to the counter. */
  predicate QuotedText(t: string) {
    forall c | c in t :: c == '"' || FlatChar(c)
  }

  /** Every quote turns strings and what is between them around. */
  lemma {:induction false} PastName(s: string, o: nat, i: nat, t: string, open: bool, d: nat)
    requires Reaches(s, o, i, open, d) && At(s, i, t) && QuotedText(t)
    ensures Reaches(s, o, i + |t|, open != Odd(Quotes(t)), d)
    decreases |t|
  {
    hide Reaches;
    if t != "" {
      assert t[0] in t && forall c | c in t[1..] :: c in t;
      if t[0] == '"' {
        PastQuote(s, o, i, open, d);
        PastName(s, o, i + 1, t[1..], !open, d);
      } else {
        PastChar(s, o, i, t[0], open, d);
        PastName(s, o, i + 1, t[1..], open, d);
      }
    }
  }

  /** A string between quotes, and what stands in it. */
  lemma PastQuoted(s: string, o: nat, i: nat, t: string, open: bool, d: nat)
    requires Reaches(s, o, i, open, d) && At(s, i, "\"" + t + "\"") && QuotedText(t)
    ensures Reaches(s, o, i + |t| + 2, open != Odd(Quotes(t)), d)
  {
    hide At, Reaches, QuotedText, Odd;
    StringLayout(s, i, t);
    AtSplit(s, i + 1, t, "\"");
    AtOne(s, i + 1 + |t|, '"');
    PastQuote(s, o, i, open, d);
    PastName(s, o, i + 1, t, !open, d);
    PastQuote(s, o, i + 1 + |t|, !open != Odd(Quotes(t)), d);
  }

  lemma {:induction false} FlatHasNoQuotes(t: string)
    requires FlatText(t)
    ensures QuotedText(t) && Quotes(t) == 0
    decreases |t|
  {
    if t != "" {
      assert t[0] in t && forall c | c in t[1..] :: c in t;
      FlatHasNoQuotes(t[1..]);
    }
  }

  lemma PastString(s: string, o: nat, i: nat, t: string, open: bool, d: nat)
    requires Reaches(s, o, i, open, d) && At(s, i, "\"" + t + "\"") && FlatText(t)
    ensures Reaches(s, o, i + |t| + 2, open, d)
  {
    hide At, Reaches, FlatText, QuotedText;
    FlatHasNoQuotes(t);
    PastQuoted(s, o, i, t, open, d);
  }

  // ------------------------------------------------------------------- flat trees

  /** Strings and keys are flat; so whether strings and structure are turned around, nothing changes. */
  predicate Flat(v: Json) {
    match v
    case Number(n) => WellFormedNumeral(n)
    case String(body) => FlatText(body)
    case Container(_, gap, items) => gap == "" && FlatItems(items)
    case _ => true
  }

  predicate FlatItems(items: Items) {
    items.Cons? ==> FlatItem(items.head) && FlatItems(items.tail)
  }

  predicate FlatItem(item: Item) {
    Bare(item) && (item.key.Key? ==> FlatText(item.key.name)) && Flat(item.value)
  }

  /** No white space around the tokens of an item. */
  predicate Bare(item: Item) {
    item.pre == "" && item.post == "" && (item.key.Key? ==> item.key.beforeColon == "" && item.key.afterColon == "")
  }

  lemma PastKey(s: string, o: nat, i: nat, name: string, open: bool, d: nat)
    requires Reaches(s, o, i, open, d) && At(s, i, PrintKey(Key(name, "", ""))) && QuotedText(name)
    ensures Reaches(s, o, i + |PrintKey(Key(name, "", ""))|, open != Odd(Quotes(name)), d)
  {
    hide At, Reaches, PrintKey, QuotedText, Odd;
    KeyLayout(s, i, Key(name, "", ""));
    PastQuoted(s, o, i, name, open, d);
    PastChar(s, o, i + |name| + 2, ':', open != Odd(Quotes(name)), d);
  }

  lemma {:induction false} PastFlat(s: string, o: nat, i: nat, v: Json, open: bool, d: nat)
    requires Reaches(s, o, i, open, d) && At(s, i, Print(v)) && Flat(v) && d + KindDepth(v, true) <= MAX_DEPTH
    ensures Reaches(s, o, i + |Print(v)|, open, d)
    decreases v, 0
  {
    hide At, Reaches, PrintItems, PrintNumeral, WellFormedNumeral, FlatItems, ItemsDepth;
    match v
    case String(body) => PastString(s, o, i, body, open, d);
    case Container(braces, gap, items) =>
      ReachesDepth(s, o, i, open, d);
      PastContainer(s, o, i, braces, items, open, d);
    case Number(n) =>
      NumeralIsPlain(n);
      PastText(s, o, i, PrintNumeral(n), open, d);
    case _ => PastText(s, o, i, Print(v), open, d);
  }

  lemma DepthInside(braces: bool, items: Items)
    ensures KindDepth(Container(braces, "", items), true) == ItemsDepth(items, true) + if braces then 1 else 0
  {
    hide ItemsDepth;
  }

  lemma {:induction false} PastContainer(
    s: string, o: nat, i: nat, braces: bool, items: Items, open: bool, d: nat)
    requires Reaches(s, o, i, open, d) && d > 0 && At(s, i, Print(Container(braces, "", items))) && FlatItems(items)
    requires d + KindDepth(Container(braces, "", items), true) <= MAX_DEPTH
    ensures Reaches(s, o, i + |Print(Container(braces, "", items))|, open, d)
    decreases items, 1
  {
    hide *;
    DepthInside(braces, items);
    var close := BareLayout(s, i, braces, items);
    PastOpening(s, o, i, braces, open, d);
    PastItems(s, o, i + 1, items, open, Inner(braces, open, d));
    PastClosing(s, o, close, braces, open, d);
  }

  lemma {:induction false} PastItems(s: string, o: nat, i: nat, items: Items, open: bool, d: nat)
    requires Reaches(s, o, i, open, d) && At(s, i, PrintItems(items)) && FlatItems(items)
    requires d + ItemsDepth(items, true) <= MAX_DEPTH
    ensures Reaches(s, o, i + |PrintItems(items)|, open, d)
    decreases items, 0
  {
    hide At, Reaches, PrintItem, FlatItem, KindDepth;
    if items.Cons? {
      ItemsLayout(s, i, items);
      PastItem(s, o, i, items.head, open, d);
      if items.tail.Cons? {
        var j := i + |PrintItem(items.head)|;
        PastChar(s, o, j, ',', open, d);
        PastItems(s, o, j + 1, items.tail, open, d);
      }
    }
  }

  lemma {:induction false} PastItem(s: string, o: nat, i: nat, item: Item, open: bool, d: nat)
    requires Reaches(s, o, i, open, d) && At(s, i, PrintItem(item)) && FlatItem(item)
    requires d + KindDepth(item.value, true) <= MAX_DEPTH
    ensures Reaches(s, o, i + |PrintItem(item)|, open, d)
    decreases item
  {
    hide At, Reaches, PrintItem, PrintKey, Print, Flat, FlatText, KindDepth;
    ItemLayout(s, i, item);
    PastFlatKey(s, o, i, item.key, open, d);
    PastFlat(s, o, i + |PrintKey(item.key)|, item.value, open, d);
  }

  lemma PastFlatKey(s: string, o: nat, i: nat, key: Key, open: bool, d: nat)
    requires Reaches(s, o, i, open, d) && At(s, i, PrintKey(key))
    requires key.Key? ==> FlatText(key.name) && key.beforeColon == "" && key.afterColon == ""
    ensures Reaches(s, o, i + |PrintKey(key)|, open, d)
  {
    if key.Key? {
      hide At, Reaches, PrintKey, FlatText, QuotedText;
      FlatHasNoQuotes(key.name);
      PastKey(s, o, i, key.name, open, d);
    }
  }

  // ------------------------------------------------------------- lists from the front

  lemma SnocAppends(items: Items, item: Item, last: Item)
    ensures Snoc(Cons(item, items), last) == Cons(item, Snoc(items, last))
  {
  }

  function Property(p: ToolParam): Item {
    Named(p.name, ParamTree(p))
  }

  lemma {:induction false} PropertiesCons(params: seq<ToolParam>)
    requires params != []
    ensures PropertyItems(params) == Cons(Property(params[0]), PropertyItems(params[1..]))
    decreases |params|
  {
    hide Property, Named, ParamTree;
    var before, last := params[..|params| - 1], params[|params| - 1];
    assert Property(last) == Named(last.name, ParamTree(last)) by { PropertyIs(last); }
    if |params| > 1 {
      PropertiesCons(before);
      assert before[0] == params[0] && before[1..] == params[1..][..|params[1..]| - 1];
      SnocAppends(PropertyItems(before[1..]), Property(params[0]), Property(last));
    } else {
      assert before == [] && params[1..] == [] && PropertyItems([]) == Nil;
    }
  }

  lemma PropertyIs(p: ToolParam)
    ensures Property(p) == Named(p.name, ParamTree(p))
  {
  }

  function ToolElement(t: ToolDefinition): Item {
    Element(Plain(ToolTree(t)))
  }

  lemma ToolElementIs(t: ToolDefinition)
    ensures ToolElement(t) == Element(Plain(ToolTree(t)))
  {
  }

  lemma {:induction false} ToolsCons(tools: seq<ToolDefinition>)
    requires tools != []
    ensures ToolItems(tools) == Cons(ToolElement(tools[0]), ToolItems(tools[1..]))
    decreases |tools|
  {
    hide ToolElement, Element, ToolTree;
    var before, last := tools[..|tools| - 1], tools[|tools| - 1];
    ToolElementIs(last);
    if |tools| > 1 {
      ToolsCons(before);
      assert before[0] == tools[0] && before[1..] == tools[1..][..|tools[1..]| - 1];
      SnocAppends(ToolItems(before[1..]), ToolElement(tools[0]), ToolElement(last));
    } else {
      assert before == [] && tools[1..] == [] && ToolItems([]) == Nil;
    }
  }

  // -------------------------------------------------------------------- plain texts

  /** A text that is printed as it is and that means nothing to the counter. */
  predicate PlainText(t: string) {
    PlainKey(t) && FlatText(t)
  }

  /** A name that may hold quotes, but no braces, backslashes or control characters. */
  predicate PlainName(t: string) {
    QuotedText(t) && forall c | c in t :: c >= ' '
  }

  predicate PlainParam(p: ToolParam) {
    PlainName(p.name) && PlainText(p.kind) && PlainText(p.description) && (p.required ==> PlainText(p.name))
  }

  predicate PlainTool(t: ToolDefinition) {
    PlainText(t.name) && PlainText(t.description) && forall p | p in t.params :: PlainParam(p)
  }

  function ParamQuotes(params: seq<ToolParam>): nat {
    if params == [] then 0 else Quotes(params[0].name) + ParamQuotes(params[1..])
  }

  /** The quotes in all names of parameters. */
  function NameQuotes(tools: seq<ToolDefinition>): nat {
    if tools == [] then 0 else ParamQuotes(tools[0].params) + NameQuotes(tools[1..])
  }

  lemma PlainIsFlat(t: string)
    requires PlainText(t)
    ensures TextValue(t) == String(t) && Flat(TextValue(t)) && KindDepth(TextValue(t), true) == 0
  {
    PlainKeyBody(t);
    PlainKeyEscape(t);
  }

  lemma FlatNamed(key: string, v: Json)
    requires PlainText(key) && Flat(v)
    ensures FlatItem(Named(key, v)) && Named(key, v).value == v
  {
    PlainKeyBody(key);
  }

  lemma FlatPair(k1: string, v1: string, k2: string, v2: string)
    requires PlainText(k1) && PlainText(v1) && PlainText(k2) && PlainText(v2)
    ensures Flat(PairTree(k1, v1, k2, v2)) && KindDepth(PairTree(k1, v1, k2, v2), true) == 1
  {
    hide PlainText, TextValue, Named, FlatItem, Flat;
    PlainIsFlat(v1);
    PlainIsFlat(v2);
    FlatNamed(k1, TextValue(v1));
    FlatNamed(k2, TextValue(v2));
    PairDepth(k1, v1, k2, v2);
    FlatTwo(Named(k1, TextValue(v1)), Named(k2, TextValue(v2)));
  }

  lemma FlatTwo(a: Item, b: Item)
    requires FlatItem(a) && FlatItem(b)
    ensures Flat(Obj(Two(a, b)))
  {
    hide FlatItem;
    assert FlatItems(One(b)) && FlatItems(Two(a, b));
  }

  lemma {:induction false} FlatSnoc(items: Items, item: Item)
    requires FlatItems(items) && FlatItem(item)
    ensures FlatItems(Snoc(items, item))
  {
    hide FlatItem;
    if items.Cons? {
      FlatSnoc(items.tail, item);
    }
  }

  lemma {:induction false} FlatRequired(params: seq<ToolParam>)
    requires forall p | p in params :: PlainParam(p)
    ensures FlatItems(RequiredItems(params))
    decreases |params|
  {
    if params != [] {
      var before, p := params[..|params| - 1], params[|params| - 1];
      assert p in params && forall q | q in before :: q in params;
      FlatRequired(before);
      if p.required {
        PlainIsFlat(p.name);
        assert FlatItem(Element(Plain(TextValue(p.name))));
        hide FlatItem, Element, TextValue;
        FlatSnoc(RequiredItems(before), Element(Plain(TextValue(p.name))));
      }
    }
  }

  // -------------------------------------------------------------- through a list of tools

  /** The depth of a level of the list: with a string open it stays at that of the names. */
  function Level(open: bool, level: nat): nat {
    if open then 4 else level
  }

  /** An item without white space, under a key that turns nothing around. */
  predicate FlatKey(item: Item) {
    Bare(item) && (item.key.Key? ==> FlatText(item.key.name))
  }

  /** Over the key of an item, up to its value. */
  lemma PastItemKey(s: string, o: nat, i: nat, item: Item, open: bool, d: nat) returns (j: nat)
    requires Reaches(s, o, i, open, d) && At(s, i, PrintItem(item)) && FlatKey(item)
    ensures Reaches(s, o, j, open, d) && At(s, j, Print(item.value)) && j + |Print(item.value)| == i + |PrintItem(item)|
  {
    hide At, Reaches, PrintItem, PrintKey, Print, FlatText;
    ItemLayout(s, i, item);
    PastFlatKey(s, o, i, item.key, open, d);
    j := i + |PrintKey(item.key)|;
  }

  lemma NamedIsFlat(key: string, v: Json)
    requires PlainText(key)
    ensures FlatKey(Named(key, v)) && Named(key, v).value == v
  {
    PlainKeyBody(key);
  }

  lemma PropertyParts(p: ToolParam)
    requires PlainParam(p)
    ensures Property(p) == Item("", Key(p.name, "", ""), ParamTree(p), "") && QuotedText(p.name)
    ensures Flat(ParamTree(p)) && 4 + KindDepth(ParamTree(p), true) <= MAX_DEPTH
  {
    assert CStr(p.name) == p.name;
    assert PlainText("type") && PlainText("description");
    hide CStr, PlainText, ParamTree, QuotedText;
    FlatParam(p);
  }

  /** A parameter: its name may turn everything around. */
  lemma PastProperty(s: string, o: nat, i: nat, p: ToolParam, open: bool, turned: bool)
    requires Reaches(s, o, i, open, 4) && At(s, i, PrintItem(Property(p))) && PlainParam(p)
    requires turned == (open != Odd(Quotes(p.name)))
    ensures Reaches(s, o, i + |PrintItem(Property(p))|, turned, 4)
  {
    hide *;
    var item := Property(p);
    PropertyParts(p);
    ItemLayout(s, i, item);
    PastKey(s, o, i, p.name, open, 4);
    PastFlat(s, o, i + |PrintKey(item.key)|, ParamTree(p), turned, 4);
  }

  lemma FlatParam(p: ToolParam)
    requires PlainText("type") && PlainText("description") && PlainText(p.kind) && PlainText(p.description)
    ensures Flat(ParamTree(p)) && KindDepth(ParamTree(p), true) == 1
  {
    FlatPair("type", p.kind, "description", p.description);
  }

  lemma {:induction false} PastProperties(
    s: string, o: nat, i: nat, params: seq<ToolParam>, open: bool, turned: bool)
    requires Reaches(s, o, i, open, 4) && At(s, i, PrintItems(PropertyItems(params)))
    requires turned == (open != Odd(ParamQuotes(params))) && forall p | p in params :: PlainParam(p)
    ensures Reaches(s, o, i + |PrintItems(PropertyItems(params))|, turned, 4)
    decreases |params|
  {
    hide *;
    if params == [] {
      NilPrints();
    } else {
      var rest := params[1..];
      ParamQuotesSum(params);
      var between := TurnedBetween(open, turned, Quotes(params[0].name), ParamQuotes(rest));
      PropertiesCons(params);
      PropertiesEnd(rest);
      assert forall q | q in rest :: q in params;
      ItemsLayout(s, i, PropertyItems(params));
      PastProperty(s, o, i, params[0], open, between);
      if rest != [] {
        var j := i + |PrintItem(Property(params[0]))|;
        PastComma(s, o, j, between, 4);
        PastProperties(s, o, j + 1, rest, between, turned);
      }
    }
  }

  lemma PastComma(s: string, o: nat, i: nat, open: bool, d: nat)
    requires Reaches(s, o, i, open, d) && i < |s| && s[i] == ','
    ensures Reaches(s, o, i + 1, open, d)
  {
    hide Reaches;
    PastChar(s, o, i, ',', open, d);
  }

  lemma NilPrints()
    ensures PrintItems(PropertyItems([])) == "" == PrintItems(ToolItems([]))
    ensures !Odd(ParamQuotes([])) && !Odd(NameQuotes([]))
  {
  }

  lemma ParamQuotesSum(params: seq<ToolParam>)
    requires params != []
    ensures ParamQuotes(params) == Quotes(params[0].name) + ParamQuotes(params[1..])
    ensures params[1..] == [] ==> !Odd(ParamQuotes(params[1..]))
  {
  }

  lemma NameQuotesSum(tools: seq<ToolDefinition>)
    requires tools != []
    ensures NameQuotes(tools) == ParamQuotes(tools[0].params) + NameQuotes(tools[1..])
    ensures tools[1..] == [] ==> !Odd(NameQuotes(tools[1..]))
  {
  }

  /** How far the first `a` of some quotes turn. */
  lemma TurnedBetween(open: bool, turned: bool, a: nat, b: nat) returns (between: bool)
    requires turned == (open != Odd(a + b))
    ensures between == (open != Odd(a)) && turned == (between != Odd(b)) && (!Odd(b) ==> turned == between)
  {
    between := open != Odd(a);
  }

  lemma PropertiesEnd(params: seq<ToolParam>)
    ensures PropertyItems(params).Nil? <==> params == []
  {
    if params != [] {
      PropertiesCons(params);
    }
  }

  lemma ToolsEnd(tools: seq<ToolDefinition>)
    ensures ToolItems(tools).Nil? <==> tools == []
  {
    if tools != [] {
      ToolsCons(tools);
    }
  }

  /** The braces of the upper levels. */
  lemma PastOpeningLevel(s: string, o: nat, i: nat, open: bool, level: nat)
    requires Reaches(s, o, i, open, Level(open, level)) && i < |s| && s[i] == '{' && 1 <= level <= 3
    ensures Reaches(s, o, i + 1, open, Level(open, level + 1))
  {
    hide Reaches;
    PastBrace(s, o, i, open, Level(open, level));
  }

  lemma PastClosingLevel(s: string, o: nat, i: nat, open: bool, level: nat)
    requires Reaches(s, o, i, open, Level(open, level + 1)) && i < |s| && s[i] == '}' && 1 <= level <= 3
    ensures Reaches(s, o, i + 1, open, Level(open, level))
  {
    hide Reaches;
    PastBrace(s, o, i, open, Level(open, level + 1));
  }

  /** An item that turns nothing around. */
  lemma PastEasy(s: string, o: nat, i: nat, item: Item, open: bool, level: nat)
    requires Reaches(s, o, i, open, Level(open, level)) && At(s, i, PrintItem(item))
    requires FlatItem(item) && KindDepth(item.value, true) == 0 && level <= 4
    ensures Reaches(s, o, i + |PrintItem(item)|, open, Level(open, level))
  {
    hide Reaches, At, PrintItem, FlatItem, KindDepth;
    PastItem(s, o, i, item, open, Level(open, level));
  }

  lemma OwnNames()
    ensures PlainText("type") && PlainText("description") && PlainText("properties") && PlainText("required")
    ensures PlainText("object") && PlainText("name") && PlainText("inputSchema") && PlainText("tools")
  {
    OwnKeys();
    hide PlainKey;
    assert PlainText("object") by { ObjectIsPlain(); }
  }

  lemma ObjectIsPlain()
    ensures PlainText("object")
  {
  }

  lemma PastPropertyMember(s: string, o: nat, i: nat, item: Item, params: seq<ToolParam>, open: bool, turned: bool)
    requires Reaches(s, o, i, open, Level(open, 3)) && forall p | p in params :: PlainParam(p)
    requires turned == (open != Odd(ParamQuotes(params)))
    requires At(s, i, PrintItem(item)) && FlatKey(item) && item.value == Obj(PropertyItems(params))
    ensures Reaches(s, o, i + |PrintItem(item)|, turned, Level(turned, 3))
  {
    hide *;
    ObjIs(PropertyItems(params));
    var j := PastItemKey(s, o, i, item, open, Level(open, 3));
    var close := BareLayout(s, j, true, PropertyItems(params));
    BraceChars();
    PastOpeningLevel(s, o, j, open, 3);
    AtFour();
    PastProperties(s, o, j + 1, params, open, turned);
    PastClosingLevel(s, o, close, turned, 3);
  }

  lemma ObjIs(items: Items)
    ensures Obj(items) == Container(true, "", items) && Arr(items) == Container(false, "", items)
  {
  }

  lemma BraceChars()
    ensures OpenOf(true) == '{' && CloseOf(true) == '}' && OpenOf(false) == '[' && CloseOf(false) == ']'
  {
  }

  lemma AtFour()
    ensures Level(true, 4) == 4 == Level(false, 4)
  {
  }

  lemma SchemaParts(params: seq<ToolParam>) returns (a: Item, b: Item, c: Item)
    requires forall p | p in params :: PlainParam(p)
    ensures SchemaTree(params) == Obj(Three(a, b, c)) && FlatKey(b) && b.value == Obj(PropertyItems(params))
    ensures FlatItem(a) && KindDepth(a.value, true) == 0 && FlatItem(c) && KindDepth(c.value, true) == 0
  {
    OwnNames();
    RequiredGood(params, false);
    FlatRequired(params);
    var required := Arr(RequiredItems(params));
    assert Flat(required) && KindDepth(required, true) == 0;
    hide PlainText, FlatItem, FlatKey, Flat, Named, TextValue, PlainParam, KindDepth, RequiredItems, PropertyItems;
    PlainIsFlat("object");
    NamedIsFlat("properties", Obj(PropertyItems(params)));
    FlatNamed("type", TextValue("object"));
    FlatNamed("required", required);
    a, b, c := Named("type", TextValue("object")), Named("properties", Obj(PropertyItems(params))),
               Named("required", required);
  }

  lemma PastSchema(s: string, o: nat, i: nat, params: seq<ToolParam>, open: bool, turned: bool)
    requires Reaches(s, o, i, open, Level(open, 2)) && At(s, i, Print(SchemaTree(params)))
    requires turned == (open != Odd(ParamQuotes(params))) && forall p | p in params :: PlainParam(p)
    ensures Reaches(s, o, i + |Print(SchemaTree(params))|, turned, Level(turned, 2))
  {
    hide *;
    var a, b, c := SchemaParts(params);
    var j, k, close := ObjectLayout(s, i, a, b, c);
    PastOpeningLevel(s, o, i, open, 2);
    PastEasy(s, o, i + 1, a, open, 3);
    PastComma(s, o, j - 1, open, Level(open, 3));
    PastPropertyMember(s, o, j, b, params, open, turned);
    PastComma(s, o, k - 1, turned, Level(turned, 3));
    PastEasy(s, o, k, c, turned, 3);
    PastClosingLevel(s, o, close, turned, 2);
  }

  lemma ToolParts(t: ToolDefinition) returns (a: Item, b: Item, c: Item)
    requires PlainTool(t)
    ensures ToolTree(t) == Obj(Three(a, b, c)) && FlatKey(c) && c.value == SchemaTree(t.params)
    ensures FlatItem(a) && KindDepth(a.value, true) == 0 && FlatItem(b) && KindDepth(b.value, true) == 0
  {
    OwnNames();
    hide PlainText, FlatItem, FlatKey, Flat, Named, TextValue, KindDepth, SchemaTree;
    NamedIsFlat("inputSchema", SchemaTree(t.params));
    PlainIsFlat(t.name);
    PlainIsFlat(t.description);
    FlatNamed("name", TextValue(t.name));
    FlatNamed("description", TextValue(t.description));
    a, b := Named("name", TextValue(t.name)), Named("description", TextValue(t.description));
    c := Named("inputSchema", SchemaTree(t.params));
  }

  lemma ToolIsPlain(t: ToolDefinition)
    requires PlainTool(t)
    ensures forall p | p in t.params :: PlainParam(p)
  {
    hide PlainParam;
  }

  lemma PastTool(s: string, o: nat, i: nat, t: ToolDefinition, open: bool, turned: bool)
    requires Reaches(s, o, i, open, Level(open, 1)) && At(s, i, Print(ToolTree(t))) && PlainTool(t)
    requires turned == (open != Odd(ParamQuotes(t.params)))
    ensures Reaches(s, o, i + |Print(ToolTree(t))|, turned, Level(turned, 1))
  {
    hide *;
    ToolIsPlain(t);
    var a, b, c := ToolParts(t);
    PastToolMembers(s, o, i, a, b, c, t.params, open, turned);
  }

  lemma PastToolMembers(
    s: string, o: nat, i: nat, a: Item, b: Item, c: Item, params: seq<ToolParam>, open: bool, turned: bool)
    requires Reaches(s, o, i, open, Level(open, 1)) && At(s, i, Print(Obj(Three(a, b, c))))
    requires FlatItem(a) && KindDepth(a.value, true) == 0 && FlatItem(b) && KindDepth(b.value, true) == 0
    requires FlatKey(c) && c.value == SchemaTree(params) && forall p | p in params :: PlainParam(p)
    requires turned == (open != Odd(ParamQuotes(params)))
    ensures Reaches(s, o, i + |Print(Obj(Three(a, b, c)))|, turned, Level(turned, 1))
  {
    hide *;
    var j, k, close := ObjectLayout(s, i, a, b, c);
    PastOpeningLevel(s, o, i, open, 1);
    PastEasy(s, o, i + 1, a, open, 2);
    PastComma(s, o, j - 1, open, Level(open, 2));
    PastEasy(s, o, j, b, open, 2);
    PastComma(s, o, k - 1, open, Level(open, 2));
    var m := PastItemKey(s, o, k, c, open, Level(open, 2));
    PastSchema(s, o, m, params, open, turned);
    PastClosingLevel(s, o, close, turned, 1);
  }

  lemma ElementPrints(t: ToolDefinition)
    ensures PrintItem(ToolElement(t)) == Print(ToolTree(t))
  {
    hide Print, ToolTree;
    assert PrintKey(NoKey) == "";
  }

  lemma {:induction false} PastTools(
    s: string, o: nat, i: nat, tools: seq<ToolDefinition>, open: bool, turned: bool)
    requires Reaches(s, o, i, open, Level(open, 1)) && At(s, i, PrintItems(ToolItems(tools)))
    requires turned == (open != Odd(NameQuotes(tools))) && forall t | t in tools :: PlainTool(t)
    ensures Reaches(s, o, i + |PrintItems(ToolItems(tools))|, turned, Level(turned, 1))
    decreases |tools|
  {
    hide *;
    if tools == [] {
      NilPrints();
    } else {
      var rest := tools[1..];
      NameQuotesSum(tools);
      var between := TurnedBetween(open, turned, ParamQuotes(tools[0].params), NameQuotes(rest));
      ToolsCons(tools);
      ToolsEnd(rest);
      assert forall q | q in rest :: q in tools;
      ElementPrints(tools[0]);
      ItemsLayout(s, i, ToolItems(tools));
      PastTool(s, o, i, tools[0], open, between);
      if rest != [] {
        var j := i + |PrintItem(ToolElement(tools[0]))|;
        PastComma(s, o, j, between, Level(between, 1));
        PastTools(s, o, j + 1, rest, between, turned);
      }
    }
  }

  // -------------------------------------------------------------------- the reply itself

  lemma AtStart(s: string, i: nat)
    requires i <= |s|
    ensures Reaches(s, i, i, false, Level(false, 1)) && Level(false, 1) == 1
    ensures FlatChar('[') && FlatChar(']')
  {
  }

  lemma OneItem(s: string, i: nat, item: Item)
    requires At(s, i, PrintItems(One(item)))
    ensures At(s, i, PrintItem(item)) && |PrintItems(One(item))| == |PrintItem(item)|
  {
    hide At, PrintItem, PrintItems;
    ItemsLayout(s, i, One(item));
  }

  lemma ListParts(tools: seq<ToolDefinition>) returns (m: Item)
    ensures ListResult(tools) == Container(true, "", One(m))
    ensures FlatKey(m) && m.value == Container(false, "", ToolItems(tools))
  {
    OwnNames();
    m := Named("tools", Arr(ToolItems(tools)));
    NamedIsFlat("tools", Arr(ToolItems(tools)));
  }

  /** The whole list: the counter comes to its last brace between strings, or with a string open. */
  lemma PastList(s: string, i: nat, tools: seq<ToolDefinition>, turned: bool) returns (close: nat)
    requires At(s, i, Print(ListResult(tools))) && forall t | t in tools :: PlainTool(t)
    requires turned == Odd(NameQuotes(tools))
    ensures i < close < |s| && s[i] == '{' && s[close] == '}' && close + 1 == i + |Print(ListResult(tools))|
    ensures Reaches(s, i + 1, close, turned, Level(turned, 1))
  {
    hide *;
    BraceChars();
    var m := ListParts(tools);
    close := BareLayout(s, i, true, One(m));
    AtStart(s, i + 1);
    OneItem(s, i + 1, m);
    var j := PastItemKey(s, i + 1, i + 1, m, false, 1);
    var end := BareLayout(s, j, false, ToolItems(tools));
    PastChar(s, i + 1, j, '[', false, 1);
    PastTools(s, i + 1, j + 1, tools, false, turned);
    PastChar(s, i + 1, end, ']', turned, Level(turned, 1));
  }

  /** Between strings the last brace ends the list; with a string open nothing does. */
  lemma ListEnds(s: string, i: nat, close: nat, open: bool)
    requires i < close && close + 2 == |s| && s[i] == '{' && s[close] == '}' && s[close + 1] == '}'
    requires Reaches(s, i + 1, close, open, Level(open, 1))
    ensures SkipValue(s, i) == if open then None else Some(Span(i, close + 1 - i))
  {
    AtEmpty(s, i);
    SkipWsExact(s, i, "");
    if open {
      var p :| Follows(s, i + 1, 1, p, 4) && StillOpen(s, p, close);
      assert StringEnd(s, close + 1) == None;
      assert StringEnd(s, close) == None;
      assert SkipString(s, p) == None;
      assert SkipNested(s, p, 4, true, MAX_DEPTH) == None;
    } else {
      assert SkipNested(s, close, 1, true, MAX_DEPTH) == Some(close + 1);
    }
  }

  /**
    Quotes in names, all other texts being plain: the list is read exactly when there is an even
    number of them in all, whatever tools and parameters they are in. Between an odd one and the next
    the braces of the list are taken for text, but as many open there as close.
   */
  lemma ReadIffQuotesEven(id: int, tools: seq<ToolDefinition>, maxBytes: nat)
    requires forall t | t in tools :: PlainTool(t)
    ensures var s := Print(ListTree(Some(id), tools));
            var m := ParseMessage(s, maxBytes);
            && (m.Some? <==> |s| <= maxBytes && Fits(id) && NameQuotes(tools) % 2 == 0)
            && (m.Some? ==>
                  && m.value.valid && m.value.id == Some(id) && m.value.isResponse && !m.value.isRequest
                  && m.value.hasResult && !m.value.hasError && Holds(s, m.value.result, Print(ListResult(tools))))
  {
    var v := ListResult(tools);
    var s := Print(ListTree(Some(id), tools));
    hide At, Reaches, Print, ListResult, PlainTool, NameQuotes, SkipValue, ParseMessage, ReplyTree, Named;
    var at := RawReplyParses(id, v, maxBytes);
    var close := PastList(s, at, tools, Odd(NameQuotes(tools)));
    ListEnds(s, at, close, Odd(NameQuotes(tools)));
    AtSlice(s, at, Print(v));
  }

  /** A parameter whose name is a quote, and a tool with it. */
  const QUOTE_PARAM := ToolParam("\"", "string", "", false)
  const QUOTE_TOOL := ToolDefinition("t", "", [QUOTE_PARAM])

  /** A list with this tool is sent, for its name passes the adapter's own check, and the parser refuses it. */
  lemma QuoteInNameIsRefused(id: int, maxBytes: nat)
    ensures ToolsError([QUOTE_TOOL]).None?
    ensures ParseMessage(Print(ListTree(Some(id), [QUOTE_TOOL])), maxBytes) == None
  {
    hide *;
    QuoteToolIsOdd();
    OddIsRefused(id, [QUOTE_TOOL], maxBytes);
  }

  lemma OddIsRefused(id: int, tools: seq<ToolDefinition>, maxBytes: nat)
    requires NameQuotes(tools) == 1 && forall t | t in tools :: PlainTool(t)
    ensures ParseMessage(Print(ListTree(Some(id), tools)), maxBytes) == None
  {
    hide *;
    ReadIffQuotesEven(id, tools, maxBytes);
  }

  lemma QuoteToolIsOdd()
    ensures ToolsError([QUOTE_TOOL]).None? && PlainTool(QUOTE_TOOL) && NameQuotes([QUOTE_TOOL]) == 1
  {
    assert ValidTool(QUOTE_TOOL);
    assert PlainTool(QUOTE_TOOL);
    hide ValidTool, PlainTool, ToolsError;
    assert ParamQuotes([QUOTE_PARAM]) == 1;
  }
}
