/** Which of the printed parameters the adapter picks up: the tool's name, its arguments, the token. */
module CallParams {
  import opened Text
  import opened Json
  import opened ScanProofs
  import opened Extract
  import opened ExtractSearch
  import opened Escape

  const NAME: string := "name"
  const ARGUMENTS: string := "arguments"
  const AUTH_TOKEN: string := "auth_token"

  // ------------------------------------------------------------- what comes before a member

  /** Some key or string value, at any depth, shows the key. */
  predicate Mentions(v: Json, key: string) {
    match v
    case String(body) => Shows(body, key)
    case Container(_, _, items) => ItemsMention(items, key)
    case _ => false
  }

  predicate ItemsMention(items: Items, key: string) {
    items.Cons? && (ItemMentions(items.head, key) || ItemsMention(items.tail, key))
  }

  predicate ItemMentions(item: Item, key: string) {
    (item.key.Key? && Shows(item.key.name, key)) || Mentions(item.value, key)
  }

  /** Some member, at any depth, has a key that shows the key and a string for its value. */
  predicate HoldsText(v: Json, key: string) {
    v.Container? && ItemsHold(v.items, key)
  }

  predicate ItemsHold(items: Items, key: string) {
    items.Cons? && (ItemHolds(items.head, key) || ItemsHold(items.tail, key))
  }

  predicate ItemHolds(item: Item, key: string) {
    (item.key.Key? && Shows(item.key.name, key) && item.value.String?) || HoldsText(item.value, key)
  }

  lemma {:induction false} FoundIffMentioned(v: Json, key: string, at: nat)
    ensures Find(v, key, at).Some? <==> Mentions(v, key)
    decreases v, 0
  {
    hide Shows;
    if v.Container? {
      ItemsFoundIffMentioned(v.items, key, at + 1 + |v.gap|);
    }
  }

  lemma {:induction false} ItemsFoundIffMentioned(items: Items, key: string, at: nat)
    ensures FindInItems(items, key, at).Some? <==> ItemsMention(items, key)
    decreases items, 0
  {
    hide Shows, PrintKey, PrintItem;
    if items.Cons? {
      var item := items.head;
      FoundIffMentioned(item.value, key, at + |item.pre| + |PrintKey(item.key)|);
      ItemsFoundIffMentioned(items.tail, key, at + |PrintItem(item)| + 1);
    }
  }

  lemma {:induction false} FoundIffHeld(v: Json, key: string, at: nat)
    ensures FindText(v, key, at).Some? <==> HoldsText(v, key)
    decreases v, 0
  {
    hide Shows;
    if v.Container? {
      ItemsFoundIffHeld(v.items, key, at + 1 + |v.gap|);
    }
  }

  lemma {:induction false} ItemsFoundIffHeld(items: Items, key: string, at: nat)
    ensures FindTextInItems(items, key, at).Some? <==> ItemsHold(items, key)
    decreases items, 0
  {
    hide Shows, PrintKey, PrintItem;
    if items.Cons? {
      var item := items.head;
      FoundIffHeld(item.value, key, at + |item.pre| + |PrintKey(item.key)|);
      ItemsFoundIffHeld(items.tail, key, at + |PrintItem(item)| + 1);
    }
  }

  // --------------------------------------------------------------- a member among others

  function Append(a: Items, b: Items): Items {
    match a
    case Nil => b
    case Cons(head, tail) => Cons(head, Append(tail, b))
  }

  /** The room that items take in front of another one, commas included. */
  function Room(items: Items): nat {
    match items
    case Nil => 0
    case Cons(head, tail) => |PrintItem(head)| + 1 + Room(tail)
  }

  lemma {:induction false} FindAfter(before: Items, more: Items, key: string, at: nat)
    ensures FindInItems(Append(before, more), key, at) ==
            Or(FindInItems(before, key, at), FindInItems(more, key, at + Room(before)))
    ensures FindTextInItems(Append(before, more), key, at) ==
            Or(FindTextInItems(before, key, at), FindTextInItems(more, key, at + Room(before)))
    decreases before
  {
    hide FindInItem, FindTextInItem, PrintItem;
    match before
    case Nil =>
    case Cons(head, tail) => FindAfter(tail, more, key, at + |PrintItem(head)| + 1);
  }

  lemma {:induction false} RoomIsLength(items: Items)
    ensures Room(items) == if items.Nil? then 0 else |PrintItems(items)| + 1
  {
    hide PrintItem;
    if items.Cons? {
      RoomIsLength(items.tail);
    }
  }

  /** Where a hit's value starts. */
  predicate Within(hit: Option<Hit>, end: nat) {
    hit.Some? && hit.value.AsKey? ==> hit.value.at < end
  }

  lemma {:induction false} HitsWithin(v: Json, key: string, at: nat)
    ensures Within(Find(v, key, at), at + |Print(v)|) && Within(FindText(v, key, at), at + |Print(v)|)
    decreases v, 0
  {
    hide Shows, PrintNumeral;
    if v.Container? {
      ItemsHitsWithin(v.items, key, at + 1 + |v.gap|);
      RoomIsLength(v.items);
      hide PrintItems, FindInItems, FindTextInItems;
    }
  }

  lemma {:induction false} ItemsHitsWithin(items: Items, key: string, at: nat)
    ensures Within(FindInItems(items, key, at), at + Room(items))
    ensures Within(FindTextInItems(items, key, at), at + Room(items))
    decreases items, 0
  {
    hide Shows, PrintKey, Print;
    if items.Cons? {
      var item := items.head;
      HitsWithin(item.value, key, at + |item.pre| + |PrintKey(item.key)|);
      ItemsHitsWithin(items.tail, key, at + |PrintItem(item)| + 1);
    }
  }

  /** Call parameters, or any other object, with a member singled out. */
  function ObjectWith(gap: string, before: Items, item: Item, after: Items): Json {
    Container(true, gap, Append(before, Cons(item, after)))
  }

  function ValueOffset(gap: string, before: Items, item: Item): nat {
    1 + |gap| + Room(before) + |item.pre| + |PrintKey(item.key)|
  }

  /**
    A member with this key gives its value to `extract_value_span` exactly when no key and no string
    value in front of it, at any depth, is the key or ends in an escaped quote and the key.
   */
  lemma MemberFoundIff(gap: string, before: Items, item: Item, after: Items, key: string)
    requires Scannable(ObjectWith(gap, before, item, after)) && KeyWord(key)
    requires item.key.Key? && item.key.name == key
    ensures ExtractedSpan(Print(ObjectWith(gap, before, item, after)), key) ==
            Some(Span(ValueOffset(gap, before, item), ValueLength(item)))
            <==> !ItemsMention(before, key)
  {
    hide Print, PrintKey, Scannable, ExtractedSpan, Append, ItemsMention, ValueLength, Room, KeyWord, Find, SpanOfHit;
    SpanFoundInText(ObjectWith(gap, before, item, after), key);
    var first, mine := FirstSpan(gap, before, item, after, key);
    PickSpan(first, mine);
  }

  /** The first hit is one in front of the member, or else the member itself. */
  lemma FirstSpan(gap: string, before: Items, item: Item, after: Items, key: string)
    returns (first: Option<Hit>, mine: Hit)
    requires item.key.Key? && item.key.name == key
    ensures Find(ObjectWith(gap, before, item, after), key, 0) == Or(first, Some(mine))
    ensures mine.AsKey? && mine.item == item && mine.at == ValueOffset(gap, before, item)
    ensures Within(first, mine.at) && (first.Some? <==> ItemsMention(before, key))
  {
    var at := 1 + |gap|;
    var q := at + Room(before) + |item.pre|;
    FindAfter(before, Cons(item, after), key, at);
    ItemsFoundIffMentioned(before, key, at);
    ItemsHitsWithin(before, key, at);
    first, mine := FindInItems(before, key, at), AsKey(q, item, q + |PrintKey(item.key)|);
    assert FindInItem(item, key, at + Room(before)) == Some(mine);
    hide FindInItem, Print, PrintKey, Append, ItemsMention, Room;
    assert FindInItems(Cons(item, after), key, at + Room(before)) == Some(mine);
    hide FindInItems;
  }

  lemma PickSpan(first: Option<Hit>, mine: Hit)
    requires mine.AsKey? && Within(first, mine.at)
    ensures SpanOfHit(Some(mine)) == Some(Span(mine.at, ValueLength(mine.item)))
    ensures SpanOfHit(Or(first, Some(mine))) == SpanOfHit(Some(mine)) <==> first.None?
  {
    hide ValueLength;
  }

  /**
    A string member with this key gives its body to `extract_string` exactly when no member in front
    of it, at any depth, has a string under a key that is the key or ends in an escaped quote and it.
   */
  lemma StringMemberFoundIff(gap: string, before: Items, item: Item, after: Items, key: string)
    requires Scannable(ObjectWith(gap, before, item, after)) && KeyWord(key)
    requires item.key.Key? && item.key.name == key && item.value.String?
    ensures ExtractedString(Print(ObjectWith(gap, before, item, after)), key) ==
            Some(Span(ValueOffset(gap, before, item) + 1, |item.value.body|))
            <==> !ItemsHold(before, key)
  {
    hide Print, PrintKey, Scannable, ExtractedString, Append, ItemsHold, Room, KeyWord, FindText, BodyOfHit;
    StringFoundInText(ObjectWith(gap, before, item, after), key);
    var first, mine := FirstString(gap, before, item, after, key);
    PickString(first, mine);
  }

  lemma FirstString(gap: string, before: Items, item: Item, after: Items, key: string)
    returns (first: Option<Hit>, mine: Hit)
    requires item.key.Key? && item.key.name == key && item.value.String?
    ensures FindText(ObjectWith(gap, before, item, after), key, 0) == Or(first, Some(mine))
    ensures mine.AsKey? && mine.item == item && mine.at == ValueOffset(gap, before, item)
    ensures Within(first, mine.at) && StringHit(first) && (first.Some? <==> ItemsHold(before, key))
  {
    var at := 1 + |gap|;
    var q := at + Room(before) + |item.pre|;
    FindAfter(before, Cons(item, after), key, at);
    ItemsFoundIffHeld(before, key, at);
    ItemsHitsWithin(before, key, at);
    ItemsTextHits(before, key, at);
    first, mine := FindTextInItems(before, key, at), AsKey(q, item, q + |PrintKey(item.key)|);
    assert FindTextInItem(item, key, at + Room(before)) == Some(mine);
    hide FindTextInItem, Print, PrintKey, Append, ItemsHold, Room;
    assert FindTextInItems(Cons(item, after), key, at + Room(before)) == Some(mine);
    hide FindTextInItems;
  }

  lemma PickString(first: Option<Hit>, mine: Hit)
    requires mine.AsKey? && mine.item.value.String? && Within(first, mine.at) && StringHit(first)
    ensures BodyOfHit(Some(mine)) == Some(Span(mine.at + 1, |mine.item.value.body|))
    ensures BodyOfHit(Or(first, Some(mine))) == BodyOfHit(Some(mine)) <==> first.None?
  {
  }

  /** What the search for a string finds are members with strings. */
  predicate StringHit(hit: Option<Hit>) {
    hit.Some? ==> hit.value.AsKey? && hit.value.item.value.String?
  }

  lemma {:induction false} TextHits(v: Json, key: string, at: nat)
    ensures StringHit(FindText(v, key, at))
    decreases v, 0
  {
    if v.Container? {
      ItemsTextHits(v.items, key, at + 1 + |v.gap|);
    }
  }

  lemma {:induction false} ItemsTextHits(items: Items, key: string, at: nat)
    ensures StringHit(FindTextInItems(items, key, at))
    decreases items, 0
  {
    hide Shows, PrintKey, PrintItem;
    if items.Cons? {
      var item := items.head;
      TextHits(item.value, key, at + |item.pre| + |PrintKey(item.key)|);
      ItemsTextHits(items.tail, key, at + |PrintItem(item)| + 1);
    }
  }

  // --------------------------------------------------------------- what the spans hold

  lemma {:induction false} MemberAt(s: string, i: nat, before: Items, item: Item, after: Items)
    requires At(s, i, PrintItems(Append(before, Cons(item, after))))
    ensures At(s, i + Room(before), PrintItem(item))
    decreases before
  {
    hide At, PrintItem, PrintItems;
    ItemsLayout(s, i, Append(before, Cons(item, after)));
    if before.Cons? {
      MemberAt(s, i + |PrintItem(before.head)| + 1, before.tail, item, after);
    }
  }

  /** A member's value stands where the offset says. */
  lemma ValueAtOffset(gap: string, before: Items, item: Item, after: Items)
    ensures At(Print(ObjectWith(gap, before, item, after)), ValueOffset(gap, before, item), Print(item.value))
  {
    var t, items := Print(ObjectWith(gap, before, item, after)), Append(before, Cons(item, after));
    hide *;
    AtWhole(t);
    ObjectIs(gap, before, item, after, items);
    ContainerLayout(t, 0, true, gap, items);
    MemberAt(t, 1 + |gap|, before, item, after);
    ItemLayout(t, 1 + |gap| + Room(before), item);
    OffsetIs(gap, before, item);
  }

  lemma ObjectIs(gap: string, before: Items, item: Item, after: Items, items: Items)
    requires items == Append(before, Cons(item, after))
    ensures ObjectWith(gap, before, item, after) == Container(true, gap, items)
  {
  }

  lemma OffsetIs(gap: string, before: Items, item: Item)
    ensures ValueOffset(gap, before, item) == 1 + |gap| + Room(before) + |item.pre| + |PrintKey(item.key)|
  {
    hide PrintKey, Room;
  }

  lemma BodyAtOffset(gap: string, before: Items, item: Item, after: Items)
    requires item.value.String?
    ensures var t := Print(ObjectWith(gap, before, item, after));
            var k := ValueOffset(gap, before, item) + 1;
            k + |item.value.body| <= |t| && t[k..k + |item.value.body|] == item.value.body
  {
    var t, at, body := Print(ObjectWith(gap, before, item, after)), ValueOffset(gap, before, item), item.value.body;
    assert Print(item.value) == "\"" + body + "\"";
    hide At, Print, ObjectWith, ValueOffset;
    ValueAtOffset(gap, before, item, after);
    StringLayout(t, at, body);
    AtSplit(t, at + 1, body, "\"");
    AtSlice(t, at + 1, body);
  }

  // -------------------------------------------------------------- names and arguments

  lemma KeyWords()
    ensures KeyWord(NAME) && KeyWord(ARGUMENTS) && KeyWord(AUTH_TOKEN)
    ensures !Shows(NAME, ARGUMENTS)
  {
    assert |NAME| == 4 && |ARGUMENTS| == 9;
    LongKeyWords();
    assert KeyWord(NAME);
    hide KeyWord;
  }

  lemma LongKeyWords()
    ensures KeyWord(ARGUMENTS) && KeyWord(AUTH_TOKEN)
  {
    assert KeyWord(ARGUMENTS);
    assert KeyWord(AUTH_TOKEN);
  }

  function CallObject(gap: string, first: Item, second: Item): Json {
    ObjectWith(gap, Nil, first, Cons(second, Nil))
  }

  /** `{"name":"...","arguments":...}` with any white space. */
  predicate IsCall(gap: string, first: Item, second: Item) {
    && Scannable(CallObject(gap, first, second))
    && first.key.Key? && first.key.name == NAME && first.value.String?
    && second.key.Key? && second.key.name == ARGUMENTS
  }

  /** The name first, then the arguments: the name is always found. */
  lemma NameFound(gap: string, first: Item, second: Item)
    requires IsCall(gap, first, second)
    ensures ExtractedString(Print(CallObject(gap, first, second)), NAME) ==
            Some(Span(ValueOffset(gap, Nil, first) + 1, |first.value.body|))
  {
    hide Print, Scannable, ExtractedString, ValueOffset;
    KeyWords();
    hide KeyWord;
    StringMemberFoundIff(gap, Nil, first, Cons(second, Nil), NAME);
  }

  /** The arguments are found unless the name shows their key; then nothing is, and the tool gets `{}`. */
  lemma ArgumentsFoundUnlessHidden(gap: string, first: Item, second: Item)
    requires IsCall(gap, first, second)
    ensures ExtractedSpan(Print(CallObject(gap, first, second)), ARGUMENTS) ==
            if Shows(first.value.body, ARGUMENTS) then None
            else Some(Span(ValueOffset(gap, Cons(first, Nil), second), ValueLength(second)))
  {
    KeyWords();
    hide Print, PrintKey, Scannable, ExtractedSpan, ValueOffset, ValueLength, KeyWord, Shows;
    if Shows(first.value.body, ARGUMENTS) {
      SpanFoundInText(CallObject(gap, first, second), ARGUMENTS);
      TextFirst(gap, first, second);
    } else {
      assert Append(Nil, Cons(first, Cons(second, Nil))) == Append(Cons(first, Nil), Cons(second, Nil));
      MemberFoundIff(gap, Cons(first, Nil), second, Nil, ARGUMENTS);
      assert !ItemMentions(first, ARGUMENTS);
    }
  }

  lemma TextFirst(gap: string, first: Item, second: Item)
    requires first.key.Key? && first.key.name == NAME && first.value.String? && Shows(first.value.body, ARGUMENTS)
    ensures SpanOfHit(Find(CallObject(gap, first, second), ARGUMENTS, 0)) == None
  {
    KeyWords();
    hide Print, PrintKey, Shows, KeyWord, ValueLength;
    var at := 1 + |gap|;
    var hit := FindInItem(first, ARGUMENTS, at);
    assert KeyHit(first, ARGUMENTS, at + |first.pre|) == None;
    TextHit(first.value.body, at + |first.pre| + |PrintKey(first.key)|);
    assert hit.Some? && hit.value.AsText?;
    hide FindInItem, PrintItem;
    assert FindInItems(Cons(first, Cons(second, Nil)), ARGUMENTS, at) == hit;
  }

  lemma TextHit(body: string, at: nat)
    requires Shows(body, ARGUMENTS)
    ensures Find(String(body), ARGUMENTS, at).Some? && Find(String(body), ARGUMENTS, at).value.AsText?
  {
  }

  // ----------------------------------------------------- in terms of the unescaped name

  lemma EscapesToKey(n: string, key: string)
    requires KeyWord(key)
    ensures EscapeAll(n) == key <==> n == key
  {
    hide EscapeAll, Unescape;
    KeyNeedsNoEscape(key);
    UnescapeEscape(n);
    UnescapeEscape(key);
  }

  lemma KeyNeedsNoEscape(key: string)
    requires KeyWord(key)
    ensures EscapeAll(key) == key
  {
    PlainKeyEscape(key);
  }

  lemma QuoteInEscape(c: char, k: nat)
    requires k < |EscapeChar(c)| && EscapeChar(c)[k] == '"'
    ensures c == '"' && k == 1
  {
    HexRoundTrip(c as nat / 16 % 16);
    HexRoundTrip(c as nat % 16);
  }

  predicate EndsWith(t: string, end: string) {
    |t| >= |end| && t[|t| - |end|..] == end
  }

  lemma EndOfTail(a: string, b: string, end: string)
    requires |b| >= |end|
    ensures EndsWith(a + b, end) <==> EndsWith(b, end)
  {
    assert (a + b)[|a + b| - |end|..] == b[|b| - |end|..];
  }

  /** Escaping neither makes nor breaks an ending of a quote and a key. */
  lemma {:induction false} EscapedEnding(n: string, key: string)
    requires KeyWord(key)
    ensures EndsWith(EscapeAll(n), "\"" + key) <==> EndsWith(n, "\"" + key)
    decreases |n|
  {
    if n != "" {
      var c, rest, b := n[0], EscapeAll(n[1..]), n[1..];
      assert n == [c] + b && EscapeAll(n) == EscapeChar(c) + rest;
      EscapeIsLonger(b);
      hide EscapeChar, EscapeAll, EndsWith, KeyWord;
      EscapedEnding(b, key);
      EscapesToKey(b, key);
      if |b| > |key| {
        EndOfTail([c], b, "\"" + key);
        EndOfTail(EscapeChar(c), rest, "\"" + key);
      } else {
        ShortEnding(c, b, rest, key);
      }
    }
  }

  /** The part of an ending that reaches into the first character. */
  lemma ShortEnding(c: char, b: string, rest: string, key: string)
    requires |b| <= |key| && |b| <= |rest| && (rest == key <==> b == key)
    requires EndsWith(rest, "\"" + key) <==> EndsWith(b, "\"" + key)
    ensures EndsWith(EscapeChar(c) + rest, "\"" + key) <==> EndsWith([c] + b, "\"" + key)
  {
    hide EscapeChar;
    QuoteEscape();
    OneMore([c], b, key);
    if |rest| > |key| {
      EndOfTail(EscapeChar(c), rest, "\"" + key);
    } else {
      OneMore(EscapeChar(c), rest, key);
      if EndsWith(EscapeChar(c) + rest, "\"" + key) {
        QuoteInEscape(c, |EscapeChar(c)| + |rest| - |key| - 1);
      }
    }
  }

  lemma QuoteEscape()
    ensures EscapeChar('"') == "\\\""
  {
  }

  /** A short tail: the quote is in front of it. */
  lemma OneMore(a: string, b: string, key: string)
    requires |b| <= |key|
    ensures EndsWith(a + b, "\"" + key) ==>
              |a| + |b| > |key| && a[|a| + |b| - |key| - 1] == '"' && (|b| == |key| ==> b == key)
    ensures b == key && a != "" && a[|a| - 1] == '"' ==> EndsWith(a + b, "\"" + key)
  {
    var s, n := a + b, |a| + |b| - |key| - 1;
    if n >= 0 {
      assert s[n..][0] == s[n] == a[n];
      assert |b| == |key| ==> s[n..] == [a[n]] + b && s[n..][1..] == b;
      assert ("\"" + key)[1..] == key;
    }
  }

  /** A printed name shows a key exactly when the name itself is the key or ends in a quote and the key. */
  lemma HidingNames(n: string, key: string)
    requires KeyWord(key)
    ensures Shows(EscapeAll(n), key) <==> n == key || EndsWith(n, "\"" + key)
  {
    hide EscapeAll, KeyWord;
    EscapesToKey(n, key);
    EscapedEnding(n, key);
  }

  // ------------------------------------------------------------ where the search goes wrong

  lemma {:induction false} KeyWordIsClosed(key: string)
    requires key == "" || KeyWord(key)
    ensures ClosedBody(key)
    decreases |key|
  {
    if key != "" {
      assert key[0] in key && forall c | c in key[1..] :: c in key;
      KeyWordIsClosed(key[1..]);
    }
  }

  lemma PairIsScannable(key: string, v: Json)
    requires KeyWord(key) && Scannable(v)
    ensures ScannableItem(Pair(key, v), true) && |PrintKey(Pair(key, v).key)| == |key| + 3
  {
    KeyWordIsClosed(key);
  }

  function Pair(key: string, v: Json): Item {
    Item("", Key(key, "", ""), v, "")
  }

  /** A string inside the arguments is taken for a later member of the call: its tool's name, or its token. */
  lemma InnerTextWins(key: string, x: string, y: string)
    requires KeyWord(key) && ClosedBody(x) && ClosedBody(y)
    ensures var arguments := Pair(ARGUMENTS, Container(true, "", Cons(Pair(key, String(x)), Nil)));
            var t := Print(Container(true, "", Cons(arguments, Cons(Pair(key, String(y)), Nil))));
            ExtractedString(t, key) == Some(Span(18 + |key|, |x|))
  {
    var inner, outer := Pair(key, String(x)), Pair(key, String(y));
    var inside := Container(true, "", Cons(inner, Nil));
    var arguments := Pair(ARGUMENTS, inside);
    KeyWords();
    hide PrintKey, Print, Shows, ClosedBody, KeyWord, ExtractedString;
    PairIsScannable(key, String(x));
    PairIsScannable(key, String(y));
    assert ScannableItems(Nil, true) && ScannableItems(Cons(inner, Nil), true);
    assert Scannable(inside);
    PairIsScannable(ARGUMENTS, inside);
    assert ScannableItems(Cons(outer, Nil), true) && ScannableItems(Cons(arguments, Cons(outer, Nil)), true);
    StringFoundInText(Container(true, "", Cons(arguments, Cons(outer, Nil))), key);
    hide Scannable, ScannableItem, ScannableItems;
    InnerHit(key, x, 14);
    assert FindText(inside, key, 13) == FindTextInItem(inner, key, 14);
    assert FindTextInItem(arguments, key, 1) == FindText(inside, key, 13);
  }

  lemma InnerHit(key: string, x: string, at: nat)
    ensures var inner := Pair(key, String(x)); FindTextInItem(inner, key, at) == Some(AsKey(at, inner, at + |key| + 3))
  {
    assert Shows(key, key);
    hide Shows;
  }

  /** A string value in front of the arguments that shows their key loses them. */
  lemma TextLosesArguments(rest: Items)
    requires ScannableItems(rest, true)
    ensures var t := Print(Container(true, "", Cons(Pair("x", String(ARGUMENTS)), rest)));
            ExtractedSpan(t, ARGUMENTS) == None
  {
    var first := Pair("x", String(ARGUMENTS));
    var v := Container(true, "", Cons(first, rest));
    assert KeyWord("x") && !Shows("x", ARGUMENTS);
    KeyWords();
    hide Shows, ClosedBody, KeyWord, ExtractedSpan, Print, PrintKey;
    KeyWordIsClosed(ARGUMENTS);
    PairIsScannable("x", String(ARGUMENTS));
    SpanFoundInText(v, ARGUMENTS);
    TextHit(ARGUMENTS, 5);
    hide Scannable, ScannableItem, ScannableItems, FindInItems;
    assert Find(String(ARGUMENTS), ARGUMENTS, 5).value.AsText?;
    TextBlocks(first, rest);
  }

  /** Nothing behind a first string value counts. */
  lemma TextBlocks(first: Item, rest: Items)
    requires first.pre == "" && |PrintKey(first.key)| == 4 && KeyHit(first, ARGUMENTS, 1) == None
    requires Find(first.value, ARGUMENTS, 5).Some? && Find(first.value, ARGUMENTS, 5).value.AsText?
    ensures SpanOfHit(Find(Container(true, "", Cons(first, rest)), ARGUMENTS, 0)) == None
  {
    hide Shows, KeyHit, PrintKey, PrintItem;
    assert FindInItem(first, ARGUMENTS, 1) == Find(first.value, ARGUMENTS, 5);
    hide FindInItem;
  }
}
