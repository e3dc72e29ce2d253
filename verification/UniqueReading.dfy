/**
  A text has at most one reading: two trees with the same print are the same, except that white space
  behind an opening bracket can count to the container or to its first item. So whether a printed text
  is JSON can be told from the tree it was printed from.
 */
module UniqueReading {
  import opened Text
  import opened Json
  import opened ParserSpec
  import opened ScanProofs
  import opened ParseFold
  import opened B = JsonBuilderModule

  // -------------------------------------------------------------- where white space counts

  /** White space behind an opening bracket counts to the first item, if there is one. */
  function Tight(v: Json): Json {
    match v
    case Container(braces, gap, Cons(head, tail)) =>
      Container(braces, "", Cons(TightItem(head, gap), TightItems(tail)))
    case _ => v
  }

  function TightItems(items: Items): Items {
    match items
    case Nil => Nil
    case Cons(head, tail) => Cons(TightItem(head, ""), TightItems(tail))
  }

  function TightItem(item: Item, gap: string): Item {
    Item(gap + item.pre, item.key, Tight(item.value), item.post)
  }

  predicate IsTight(v: Json) {
    v.Container? ==> (v.items.Cons? ==> v.gap == "") && AreTight(v.items)
  }

  predicate AreTight(items: Items) {
    items.Cons? ==> IsTight(items.head.value) && AreTight(items.tail)
  }

  lemma {:induction false} TightIsTight(v: Json)
    ensures IsTight(Tight(v))
    decreases v, 0
  {
    if v.Container? && v.items.Cons? {
      TightIsTight(v.items.head.value);
      TightAreTight(v.items.tail);
    }
  }

  lemma {:induction false} TightAreTight(items: Items)
    ensures AreTight(TightItems(items))
    decreases items, 0
  {
    match items
    case Nil =>
    case Cons(head, tail) =>
      TightIsTight(head.value);
      TightAreTight(tail);
  }

  lemma {:induction false} TightPrints(v: Json)
    ensures Print(Tight(v)) == Print(v)
    decreases v, 0
  {
    match v
    case Container(braces, gap, Cons(head, tail)) =>
      TightItemPrints(head, gap);
      TightItemsPrint(tail);
      hide PrintItem, TightItem, TightItems;
      ItemsText(TightItem(head, gap), TightItems(tail));
      ItemsText(head, tail);
      hide PrintItems;
      MoveGap(gap, PrintItem(head), ItemsRest(tail), [OpenOf(braces)], [CloseOf(braces)]);
    case _ =>
  }

  /** What is printed behind an item. */
  function ItemsRest(items: Items): string {
    if items.Nil? then "" else "," + PrintItems(items)
  }

  lemma ItemsText(head: Item, tail: Items)
    ensures PrintItems(Cons(head, tail)) == PrintItem(head) + ItemsRest(tail)
  {
    hide PrintItem;
  }

  lemma MoveGap(gap: string, first: string, rest: string, open: string, close: string)
    ensures open + "" + (gap + first + rest) + close == open + gap + (first + rest) + close
  {
    assert gap + first + rest == gap + (first + rest);
  }

  lemma {:induction false} TightItemPrints(item: Item, gap: string)
    ensures PrintItem(TightItem(item, gap)) == gap + PrintItem(item)
    decreases item, 1
  {
    TightPrints(item.value);
    hide Print, Tight, PrintKey;
  }

  lemma {:induction false} TightItemsPrint(items: Items)
    ensures PrintItems(TightItems(items)) == PrintItems(items) && ItemsRest(TightItems(items)) == ItemsRest(items)
    decreases items, 0
  {
    match items
    case Nil =>
    case Cons(head, tail) =>
      TightItemPrints(head, "");
      TightItemsPrint(tail);
      assert TightItems(items) == Cons(TightItem(head, ""), TightItems(tail));
      hide PrintItem, TightItem, TightItems;
      assert "" + PrintItem(head) == PrintItem(head);
      ItemsText(TightItem(head, ""), TightItems(tail));
      ItemsText(head, tail);
      hide PrintItems;
  }

  lemma {:induction false} TightKeeps(v: Json)
    ensures WellFormed(Tight(v)) <==> WellFormed(v)
    ensures Scannable(Tight(v)) <==> Scannable(v)
    decreases v, 0
  {
    match v
    case Container(braces, gap, Cons(head, tail)) =>
      TightItemKeeps(head, gap, braces);
      TightItemsKeep(tail, braces);
      hide TightItem, WellFormedItem, ScannableItem;
    case _ =>
  }

  lemma {:induction false} TightItemKeeps(item: Item, gap: string, braces: bool)
    ensures WellFormedItem(TightItem(item, gap), braces) <==> AllJsonSpace(gap) && WellFormedItem(item, braces)
    ensures ScannableItem(TightItem(item, gap), braces) <==> AllJsonSpace(gap) && ScannableItem(item, braces)
    decreases item, 1
  {
    TightKeeps(item.value);
    assert AllJsonSpace(gap + item.pre) <==> AllJsonSpace(gap) && AllJsonSpace(item.pre);
    hide Tight, WellFormed, Scannable, AllJsonSpace, WellFormedKey, ScannableKey;
  }

  lemma {:induction false} TightItemsKeep(items: Items, braces: bool)
    ensures WellFormedItems(TightItems(items), braces) <==> WellFormedItems(items, braces)
    ensures ScannableItems(TightItems(items), braces) <==> ScannableItems(items, braces)
    decreases items, 0
  {
    match items
    case Nil =>
    case Cons(head, tail) =>
      TightItemKeeps(head, "", braces);
      TightItemsKeep(tail, braces);
      hide TightItem, WellFormedItem, ScannableItem;
  }

  // ------------------------------------------------------------------- the same place

  /** Two texts of one length at one place. */
  lemma SameText(s: string, i: nat, a: string, b: string)
    requires At(s, i, a) && At(s, i, b) && |a| == |b|
    ensures a == b
  {
    AtSlice(s, i, a);
    AtSlice(s, i, b);
  }

  /** White space before a character that is none. */
  lemma SameSpace(s: string, i: nat, a: string, b: string)
    requires At(s, i, a) && At(s, i, b) && AllJsonSpace(a) && AllJsonSpace(b)
    requires i + |a| < |s| && !IsSpace(s[i + |a|]) && i + |b| < |s| && !IsSpace(s[i + |b|])
    ensures a == b
  {
    hide At;
    SkipWsExact(s, i, a);
    SkipWsExact(s, i, b);
    SameText(s, i, a, b);
  }

  lemma SameBody(s: string, i: nat, a: string, b: string)
    requires At(s, i, "\"" + a + "\"") && At(s, i, "\"" + b + "\"") && ClosedBody(a) && ClosedBody(b)
    ensures a == b
  {
    hide At, ClosedBody, StringEnd;
    StringLayout(s, i, a);
    StringLayout(s, i, b);
    StringEndExact(s, i + 1, a);
    StringEndExact(s, i + 1, b);
    AtSplit(s, i + 1, a, "\"");
    AtSplit(s, i + 1, b, "\"");
    SameText(s, i + 1, a, b);
  }

  lemma SameKey(s: string, i: nat, a: Key, b: Key)
    requires At(s, i, PrintKey(a)) && At(s, i, PrintKey(b)) && a.Key? && b.Key? && ScannableKey(a) && ScannableKey(b)
    requires i + |PrintKey(a)| < |s| && !IsSpace(s[i + |PrintKey(a)|])
    requires i + |PrintKey(b)| < |s| && !IsSpace(s[i + |PrintKey(b)|])
    ensures a == b
  {
    hide At, ClosedBody, PrintKey, AllJsonSpace;
    KeyLayout(s, i, a);
    KeyLayout(s, i, b);
    SameBody(s, i, a.name, b.name);
    SameSpace(s, i + |a.name| + 2, a.beforeColon, b.beforeColon);
    SameSpace(s, i + |a.name| + 3 + |a.beforeColon|, a.afterColon, b.afterColon);
  }

  // ------------------------------------------------------------------------ numerals

  /** Where the parts of a numeral end. */
  lemma NumeralEnds(s: string, i: nat, n: Numeral) returns (first: nat, j: nat, k: nat)
    requires At(s, i, PrintNumeral(n)) && WellFormedNumeral(n) && EndsValue(s, i + |PrintNumeral(n)|)
    ensures i < |s| && (n.negative <==> s[i] == '-') && first == (if n.negative then i + 1 else i)
    ensures At(s, first, n.whole) && DigitsEnd(s, first) == j == first + |n.whole|
    ensures At(s, j, PrintFraction(n.fraction)) && FractionEnd(s, j) == k == j + |PrintFraction(n.fraction)|
    ensures At(s, k, PrintExponent(n.exponent)) && ExponentEnd(s, k) == k + |PrintExponent(n.exponent)|
  {
    hide At, PrintNumeral, PrintFraction, PrintExponent, ExponentEnd, FractionEnd, DigitsEnd, EndsValue,
      WellFormedExponent;
    NumeralLayout(s, i, n);
    first := if n.negative then i + 1 else i;
    assert IsDigit(n.whole[0]);
    j, k := first + |n.whole|, first + |n.whole| + |PrintFraction(n.fraction)|;
    ExponentEndExact(s, k, n.exponent);
    FractionEndExact(s, j, n.fraction);
    DigitsEndExact(s, first, n.whole);
  }

  lemma SameNumeral(s: string, i: nat, m: Numeral, n: Numeral)
    requires At(s, i, PrintNumeral(m)) && WellFormedNumeral(m) && EndsValue(s, i + |PrintNumeral(m)|)
    requires At(s, i, PrintNumeral(n)) && WellFormedNumeral(n) && EndsValue(s, i + |PrintNumeral(n)|)
    ensures m == n
  {
    hide At, PrintNumeral, PrintFraction, PrintExponent, ExponentEnd, FractionEnd, DigitsEnd, EndsValue,
      WellFormedExponent;
    var first, j, k := NumeralEnds(s, i, m);
    var first', j', k' := NumeralEnds(s, i, n);
    SameText(s, first, m.whole, n.whole);
    SameText(s, j, PrintFraction(m.fraction), PrintFraction(n.fraction));
    SameFraction(m.fraction, n.fraction);
    SameText(s, k, PrintExponent(m.exponent), PrintExponent(n.exponent));
    SameExponent(m.exponent, n.exponent);
  }

  lemma SameFraction(a: Option<string>, b: Option<string>)
    requires PrintFraction(a) == PrintFraction(b)
    ensures a == b
  {
    if a.Some? && b.Some? {
      assert ("." + a.value)[1..] == a.value && ("." + b.value)[1..] == b.value;
    }
  }

  lemma SameExponent(a: Option<Exponent>, b: Option<Exponent>)
    requires PrintExponent(a) == PrintExponent(b)
    requires (a.Some? ==> WellFormedExponent(a.value)) && (b.Some? ==> WellFormedExponent(b.value))
    ensures a == b
  {
    if a.Some? && b.Some? {
      var x, y := a.value, b.value;
      var t := PrintExponent(a);
      assert t == [x.letter] + x.sign + x.digits == [y.letter] + y.sign + y.digits;
      SignOfExponent(t, x);
      SignOfExponent(t, y);
      assert t[1 + |x.sign|..] == x.digits && t[1 + |y.sign|..] == y.digits;
    }
  }

  lemma SignOfExponent(t: string, x: Exponent)
    requires t == [x.letter] + x.sign + x.digits && WellFormedExponent(x)
    ensures |t| > 1 && t[0] == x.letter && x.sign == if t[1] == '+' || t[1] == '-' then [t[1]] else ""
  {
    assert x.digits[0] in x.digits;
    assert x.sign == "" ==> t[1] == x.digits[0];
    assert x.sign != "" ==> t[1] == x.sign[0];
  }

  // -------------------------------------------------------------------------- trees

  lemma PostEndsValue(s: string, i: nat, post: string)
    requires At(s, i, post) && AllJsonSpace(post) && EndsItem(s, i + |post|)
    ensures EndsValue(s, i)
  {
    if post != "" {
      assert post[0] in post;
    }
  }

  /** Two trees that stand at one place are one. */
  lemma {:induction false} SameValue(s: string, i: nat, u: Json, v: Json)
    requires At(s, i, Print(u)) && Scannable(u) && IsTight(u) && EndsValue(s, i + |Print(u)|)
    requires At(s, i, Print(v)) && Scannable(v) && IsTight(v) && EndsValue(s, i + |Print(v)|)
    ensures u == v
    decreases u, 0
  {
    hide At, PrintItems, PrintNumeral, EndsValue, WellFormedNumeral, ClosedBody, ScannableItems, AreTight, IsSpace;
    FirstChar(s, i, u);
    FirstChar(s, i, v);
    match u
    case Number(n) => SameNumeral(s, i, n, v.numeral);
    case String(body) => SameBody(s, i, body, v.body);
    case Container(braces, gap, items) => SameContainer(s, i, braces, gap, items, v.gap, v.items);
    case _ =>
  }

  lemma {:induction false} SameContainer(
    s: string, i: nat, braces: bool, gap: string, items: Items, gap': string, items': Items)
    requires At(s, i, Print(Container(braces, gap, items))) && AllJsonSpace(gap) && ScannableItems(items, braces)
    requires At(s, i, Print(Container(braces, gap', items'))) && AllJsonSpace(gap') && ScannableItems(items', braces)
    requires IsTight(Container(braces, gap, items)) && IsTight(Container(braces, gap', items'))
    ensures gap == gap' && items == items'
    decreases items, 1
  {
    hide At, Print, PrintItems, ScannableItems, AreTight, AllJsonSpace;
    ContainerLayout(s, i, braces, gap, items);
    ContainerLayout(s, i, braces, gap', items');
    if items.Nil? && items'.Nil? {
      NilPrints();
      SameSpace(s, i + 1, gap, gap');
    } else if items.Nil? {
      NilPrints();
      NotEmpty(s, i + 1, braces, gap, items');
    } else if items'.Nil? {
      NilPrints();
      NotEmpty(s, i + 1, braces, gap', items);
    } else {
      SameItems(s, i + 1, braces, items, items');
    }
  }

  lemma NilPrints()
    ensures PrintItems(Nil) == ""
  {
  }

  /** White space in front of an item does not end at a closing bracket. */
  lemma NotEmpty(s: string, i: nat, braces: bool, gap: string, items: Items)
    requires At(s, i, gap) && AllJsonSpace(gap) && i + |gap| < |s| && !IsSpace(s[i + |gap|])
    requires At(s, i, PrintItems(items)) && items.Cons? && ScannableItems(items, braces)
    ensures s[i + |gap|] != '}' && s[i + |gap|] != ']'
  {
    hide At, PrintItem, PrintItems, ScannableItem, AllJsonSpace, PrintKey, Print, SkipWs;
    ItemsLayout(s, i, items);
    var k, j := ItemStarts(s, i, items.head, braces);
    SameSpace(s, i, gap, items.head.pre);
  }

  /** Where an item starts behind its white space, and where its value does. */
  lemma ItemStarts(s: string, i: nat, item: Item, braces: bool) returns (k: nat, j: nat)
    requires At(s, i, PrintItem(item)) && ScannableItem(item, braces)
    ensures At(s, i, item.pre) && AllJsonSpace(item.pre)
    ensures k == i + |item.pre| && k < |s| && !IsSpace(s[k]) && s[k] != '}' && s[k] != ']'
    ensures At(s, k, PrintKey(item.key)) && ScannableKey(item.key) && item.key.Key? == braces
    ensures j == k + |PrintKey(item.key)| && j < |s| && !IsSpace(s[j]) && At(s, j, Print(item.value))
  {
    hide At, PrintItem, Print, Scannable, ScannableKey, AllJsonSpace;
    ItemLayout(s, i, item);
    k, j := i + |item.pre|, i + |item.pre| + |PrintKey(item.key)|;
    FirstChar(s, j, item.value);
    if braces {
      KeyLayout(s, k, item.key);
      StringLayout(s, k, item.key.name);
    }
  }

  /** Where its value ends, and the white space behind that. */
  lemma ItemStops(s: string, i: nat, item: Item, braces: bool, j: nat) returns (e: nat)
    requires At(s, i, PrintItem(item)) && ScannableItem(item, braces) && EndsItem(s, i + |PrintItem(item)|)
    requires j == i + |item.pre| + |PrintKey(item.key)|
    ensures Scannable(item.value) && AllJsonSpace(item.post)
    ensures e == j + |Print(item.value)| && EndsValue(s, e) && At(s, e, item.post)
    ensures e + |item.post| < |s| && !IsSpace(s[e + |item.post|])
  {
    hide At, PrintItem, Print, PrintKey, Scannable, ScannableKey, AllJsonSpace, EndsValue;
    ItemLayout(s, i, item);
    e := j + |Print(item.value)|;
    PostEndsValue(s, e, item.post);
  }

  lemma {:induction false} SameItems(s: string, i: nat, braces: bool, us: Items, vs: Items)
    requires At(s, i, PrintItems(us)) && us.Cons? && ScannableItems(us, braces) && AreTight(us)
    requires At(s, i, PrintItems(vs)) && vs.Cons? && ScannableItems(vs, braces) && AreTight(vs)
    requires i + |PrintItems(us)| < |s| && s[i + |PrintItems(us)|] == CloseOf(braces)
    requires i + |PrintItems(vs)| < |s| && s[i + |PrintItems(vs)|] == CloseOf(braces)
    ensures us == vs
    decreases us, 0
  {
    hide At, PrintItem, ScannableItem, IsTight, PrintItems;
    ItemsLayout(s, i, us);
    ItemsLayout(s, i, vs);
    SameItem(s, i, braces, us.head, vs.head);
    if us.tail.Cons? && vs.tail.Cons? {
      SameItems(s, i + |PrintItem(us.head)| + 1, braces, us.tail, vs.tail);
    }
  }

  lemma {:induction false} SameItem(s: string, i: nat, braces: bool, a: Item, b: Item)
    requires At(s, i, PrintItem(a)) && ScannableItem(a, braces) && IsTight(a.value)
    requires At(s, i, PrintItem(b)) && ScannableItem(b, braces) && IsTight(b.value)
    requires EndsItem(s, i + |PrintItem(a)|) && EndsItem(s, i + |PrintItem(b)|)
    ensures a == b
    decreases a
  {
    hide At, Print, PrintItem, Scannable, ScannableItem, ScannableKey, IsTight, AllJsonSpace, EndsValue, EndsItem;
    var k, j := ItemStarts(s, i, a, braces);
    var k', j' := ItemStarts(s, i, b, braces);
    SameSpace(s, i, a.pre, b.pre);
    if braces {
      SameKey(s, k, a.key, b.key);
    }
    hide PrintKey;
    var e := ItemStops(s, i, a, braces, j);
    var e' := ItemStops(s, i, b, braces, j');
    SameValue(s, j, a.value, b.value);
    SameSpace(s, e, a.post, b.post);
  }

  // ----------------------------------------------------------------------- theorems

  /** The print of a tree is read in one way only. */
  lemma ReadOnce(u: Json, v: Json)
    requires Scannable(u) && Scannable(v) && Print(u) == Print(v)
    ensures Tight(u) == Tight(v)
  {
    var raw := Plain(v);
    assert RawText(raw) == Print(v) by { hide Print; assert "" + Print(v) + "" == Print(v); }
    hide Print, Scannable, Tight, RawText;
    ReadInside(u, raw);
  }

  lemma ReadInside(u: Json, raw: Raw)
    requires Scannable(u) && Scannable(raw.value) && AllJsonSpace(raw.pre) && AllJsonSpace(raw.post)
    requires RawText(raw) == Print(u)
    ensures Tight(u) == Tight(raw.value)
  {
    var t, v := Print(u), raw.value;
    RawLayout(t, raw);
    RawLayout(t, Plain(u));
    hide At, Print, RawText, Scannable, Tight, EndsValue, AllJsonSpace, IsSpace;
    FirstChar(t, 0, u);
    if raw.pre != "" {
      SpaceFirst(t, raw.pre);
      assert false;
    } else {
      EndOfText(t, |Print(v)|, raw.post);
      EndOfText(t, |t|, "");
      SameReading(t, u, v);
    }
  }

  lemma SameReading(t: string, u: Json, v: Json)
    requires At(t, 0, Print(u)) && Scannable(u) && EndsValue(t, |Print(u)|)
    requires At(t, 0, Print(v)) && Scannable(v) && EndsValue(t, |Print(v)|)
    ensures Tight(u) == Tight(v)
  {
    hide At, Print, Scannable, WellFormed, Tight, IsTight, EndsValue;
    TightPrints(u);
    TightPrints(v);
    TightKeeps(u);
    TightKeeps(v);
    TightIsTight(u);
    TightIsTight(v);
    SameValue(t, 0, Tight(u), Tight(v));
  }

  lemma RawLayout(t: string, raw: Raw)
    requires RawText(raw) == t || (raw == Plain(raw.value) && Print(raw.value) == t)
    ensures At(t, 0, raw.pre) && At(t, |raw.pre|, Print(raw.value))
    ensures At(t, |raw.pre| + |Print(raw.value)|, raw.post) && |raw.pre| + |Print(raw.value)| + |raw.post| == |t|
  {
    var v := Print(raw.value);
    assert t == raw.pre + v + raw.post == t[0..0 + |t|];
    hide At, Print;
    AtSlice(t, 0, t);
    AtSplit(t, 0, raw.pre + v, raw.post);
    AtSplit(t, 0, raw.pre, v);
  }

  lemma SpaceFirst(t: string, ws: string)
    requires At(t, 0, ws) && AllJsonSpace(ws) && ws != ""
    ensures t != "" && IsSpace(t[0])
  {
    assert ws[0] in ws;
  }

  /** Behind a value there is white space, or the text is over. */
  lemma EndOfText(t: string, i: nat, ws: string)
    requires i + |ws| == |t| && (ws == "" || At(t, i, ws)) && AllJsonSpace(ws)
    ensures EndsValue(t, i)
  {
    if ws != "" {
      assert ws[0] in ws;
    }
  }

  /** A JSON text: section 2 of RFC 8259. */
  ghost predicate IsJsonText(t: string) {
    exists raw :: WellFormedRaw(raw) && RawText(raw) == t
  }

  /** The print of a tree is a JSON text exactly when the tree is well-formed, however else it might be read. */
  lemma PrintIsJsonIff(u: Json)
    requires Scannable(u)
    ensures IsJsonText(Print(u)) <==> WellFormed(u)
  {
    if WellFormed(u) {
      var raw := Plain(u);
      assert RawText(raw) == Print(u) by { hide Print; assert "" + Print(u) + "" == Print(u); }
      hide RawText, Print, WellFormed;
      assert WellFormedRaw(raw);
    }
    if IsJsonText(Print(u)) {
      var raw :| WellFormedRaw(raw) && RawText(raw) == Print(u);
      hide Print, WellFormed, Scannable, RawText, Tight;
      WellFormedIsScannable(raw.value);
      ReadInside(u, raw);
      TightKeeps(u);
      TightKeeps(raw.value);
    }
  }
}
