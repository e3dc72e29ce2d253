/**
  The flat scanners against the grammar: on the print of a tree, wherever it stands, `skip_value`
  stops exactly at its end, and fails exactly when brackets of the outermost kind nest too deeply.
 */
module ScanProofs {
  import opened Text
  import opened Json
  import opened ParserSpec

  /** White space as the parser skips it: a superset of JSON white space. */
  predicate AllSpace(t: string) {
    forall c | c in t :: IsSpace(c)
  }

  lemma {:induction false} SkipWsExact(s: string, i: nat, t: string)
    requires At(s, i, t) && AllSpace(t)
    requires i + |t| < |s| ==> !IsSpace(s[i + |t|])
    ensures SkipWs(s, i) == i + |t|
    decreases |t|
  {
    if t != "" {
      assert t[0] in t;
      SkipWsExact(s, i + 1, t[1..]);
    }
  }

  // --------------------------------------------------------------------- layout

  /** Where the parts of a printed tree stand. */
  lemma StringLayout(s: string, i: nat, body: string)
    requires At(s, i, "\"" + body + "\"")
    ensures i + |body| + 2 <= |s| && s[i] == '"' && At(s, i + 1, body + "\"")
  {
    assert "\"" + body + "\"" == "\"" + (body + "\"");
    AtSplit(s, i, "\"", body + "\"");
  }

  lemma KeyLayout(s: string, i: nat, key: Key)
    requires At(s, i, PrintKey(key)) && key.Key?
    ensures At(s, i, "\"" + key.name + "\"")
    ensures At(s, i + |key.name| + 2, key.beforeColon)
    ensures var colon := i + |key.name| + 2 + |key.beforeColon|;
            && colon < |s| && s[colon] == ':'
            && At(s, colon + 1, key.afterColon)
            && |PrintKey(key)| == colon + 1 + |key.afterColon| - i
  {
    var quoted := "\"" + key.name + "\"";
    AtSplit(s, i, quoted + key.beforeColon + ":", key.afterColon);
    AtSplit(s, i, quoted + key.beforeColon, ":");
    AtSplit(s, i, quoted, key.beforeColon);
  }

  lemma ItemLayout(s: string, i: nat, item: Item)
    requires At(s, i, PrintItem(item))
    ensures At(s, i, item.pre)
    ensures var k := i + |item.pre|;
            var j := k + |PrintKey(item.key)|;
            && At(s, k, PrintKey(item.key))
            && At(s, j, Print(item.value))
            && At(s, j + |Print(item.value)|, item.post)
            && |PrintItem(item)| == j + |Print(item.value)| + |item.post| - i
  {
    var key, value := PrintKey(item.key), Print(item.value);
    AtSplit(s, i, item.pre + key + value, item.post);
    AtSplit(s, i, item.pre + key, value);
    AtSplit(s, i, item.pre, key);
  }

  lemma ItemsLayout(s: string, i: nat, items: Items)
    requires At(s, i, PrintItems(items)) && items.Cons?
    ensures At(s, i, PrintItem(items.head))
    ensures items.tail.Nil? ==> |PrintItems(items)| == |PrintItem(items.head)|
    ensures items.tail.Cons? ==>
              var j := i + |PrintItem(items.head)|;
              && j < |s| && s[j] == ','
              && At(s, j + 1, PrintItems(items.tail))
              && |PrintItems(items)| == j + 1 + |PrintItems(items.tail)| - i
  {
    hide At, PrintItem;
    var item, rest := PrintItem(items.head), if items.tail.Nil? then "" else "," + PrintItems(items.tail);
    AtSplit(s, i, item, rest);
    if items.tail.Cons? {
      AtSplit(s, i + |item|, ",", PrintItems(items.tail));
      AtOne(s, i + |item|, ',');
    }
  }

  lemma ContainerLayout(s: string, i: nat, braces: bool, gap: string, items: Items)
    requires At(s, i, Print(Container(braces, gap, items)))
    ensures i < |s| && s[i] == OpenOf(braces)
    ensures At(s, i + 1, gap)
    ensures At(s, i + 1 + |gap|, PrintItems(items))
    ensures var j := i + 1 + |gap| + |PrintItems(items)|;
            && j < |s| && s[j] == CloseOf(braces)
            && |Print(Container(braces, gap, items))| == j + 1 - i
  {
    var open, close, inner := [OpenOf(braces)], [CloseOf(braces)], PrintItems(items);
    assert Print(Container(braces, gap, items)) == open + gap + inner + close;
    hide At, Print, PrintItems, OpenOf, CloseOf;
    AtSplit(s, i, open + gap + inner, close);
    AtSplit(s, i, open + gap, inner);
    AtSplit(s, i, open, gap);
    AtOne(s, i, OpenOf(braces));
    AtOne(s, i + 1 + |gap| + |inner|, CloseOf(braces));
  }

  // -------------------------------------------------------------------- strings

  /** A string body hides no closing quote. */
  lemma {:induction false} StringEndExact(s: string, i: nat, body: string)
    requires At(s, i, body + "\"") && ClosedBody(body)
    ensures StringEnd(s, i) == Some(i + |body|)
    decreases |body|
  {
    AtChars(s, i, body + "\"");
    if body != "" {
      var n := if body[0] != '\\' then 1 else 2;
      assert body + "\"" == body[..n] + (body[n..] + "\"");
      AtSplit(s, i, body[..n], body[n..] + "\"");
      StringEndExact(s, i + n, body[n..]);
      assert forall k :: i <= k < i + |body| ==> s[k] == (body + "\"")[k - i] == body[k - i];
    }
  }

  /** Closed is what it takes: a text and a quote end, for the scanner, at that quote and not before. */
  lemma ClosedIffEnds(t: string)
    ensures ClosedBody(t) <==> StringEnd(t + "\"", 0) == Some(|t|)
  {
    if ClosedBody(t) {
      AtSlice(t + "\"", 0, t + "\"");
      StringEndExact(t + "\"", 0, t);
    } else if StringEnd(t + "\"", 0) == Some(|t|) {
      assert t[0..] == t;
      EndsOnlyIfClosed(t, 0);
    }
  }

  lemma {:induction false} EndsOnlyIfClosed(t: string, i: nat)
    requires i <= |t| && StringEnd(t + "\"", i) == Some(|t|)
    ensures ClosedBody(t[i..])
    decreases |t| - i
  {
    var s := t + "\"";
    if i < |t| {
      assert s[i] == t[i] && t[i..][1..] == t[i + 1..];
      if t[i] == '\\' {
        assert i + 2 <= |t|;
        assert t[i..][2..] == t[i + 2..];
        EndsOnlyIfClosed(t, i + 2);
      } else {
        EndsOnlyIfClosed(t, i + 1);
      }
    }
  }

  lemma SkipStringExact(s: string, i: nat, body: string)
    requires At(s, i, "\"" + body + "\"") && ClosedBody(body)
    ensures SkipString(s, i) == Some(i + |body| + 2)
  {
    hide At;
    StringLayout(s, i, body);
    StringEndExact(s, i + 1, body);
  }

  // -------------------------------------------------------------------- numbers

  /** What may follow a value inside a JSON text. */
  predicate EndsValue(s: string, i: nat) {
    i < |s| ==> IsSpace(s[i]) || s[i] == ',' || s[i] == ']' || s[i] == '}'
  }

  /** What follows an item of a container. */
  predicate EndsItem(s: string, i: nat) {
    i < |s| && (s[i] == ',' || s[i] == '}' || s[i] == ']')
  }

  lemma {:induction false} DigitsEndExact(s: string, i: nat, t: string)
    requires At(s, i, t) && AllDigits(t)
    requires i + |t| < |s| ==> !IsDigit(s[i + |t|])
    ensures DigitsEnd(s, i) == i + |t|
    decreases |t|
  {
    if t != "" {
      assert t[0] in t;
      DigitsEndExact(s, i + 1, t[1..]);
    }
  }

  lemma ExponentLayout(s: string, i: nat, x: Exponent)
    requires At(s, i, PrintExponent(Some(x))) && WellFormedExponent(x)
    ensures i < |s| && s[i] == x.letter
    ensures x.sign != "" ==> i + 1 < |s| && s[i + 1] == x.sign[0]
    ensures var j := i + 1 + |x.sign|;
            j < |s| && IsDigit(s[j]) && At(s, j, x.digits) && |PrintExponent(Some(x))| == j + |x.digits| - i
  {
    hide At;
    AtSplit(s, i, [x.letter] + x.sign, x.digits);
    AtSplit(s, i, [x.letter], x.sign);
    AtOne(s, i, x.letter);
    AtSlice(s, i + 1, x.sign);
    AtSlice(s, i + 1 + |x.sign|, x.digits);
    AtChars(s, i + 1, x.sign);
    AtChars(s, i + 1 + |x.sign|, x.digits);
    assert x.digits[0] in x.digits;
  }

  lemma ExponentEndExact(s: string, i: nat, e: Option<Exponent>)
    requires At(s, i, PrintExponent(e))
    requires e.Some? ==> WellFormedExponent(e.value)
    requires EndsValue(s, i + |PrintExponent(e)|)
    ensures ExponentEnd(s, i) == i + |PrintExponent(e)|
    ensures i < |s| ==> !IsDigit(s[i]) && s[i] != '.'
  {
    if e.Some? {
      var x := e.value;
      hide At, DigitsEnd;
      ExponentLayout(s, i, x);
      DigitsEndExact(s, i + 1 + |x.sign|, x.digits);
    }
  }

  lemma FractionEndExact(s: string, i: nat, fraction: Option<string>)
    requires At(s, i, PrintFraction(fraction))
    requires fraction.Some? ==> AllDigits(fraction.value)
    requires var j := i + |PrintFraction(fraction)|; j < |s| ==> !IsDigit(s[j]) && s[j] != '.'
    ensures FractionEnd(s, i) == i + |PrintFraction(fraction)|
    ensures i < |s| ==> !IsDigit(s[i])
  {
    if fraction.Some? {
      AtSplit(s, i, ".", fraction.value);
      AtChars(s, i, ".");
      DigitsEndExact(s, i + 1, fraction.value);
    }
  }

  lemma NumeralLayout(s: string, i: nat, n: Numeral)
    requires At(s, i, PrintNumeral(n))
    ensures n.negative ==> i < |s| && s[i] == '-'
    ensures var first := if n.negative then i + 1 else i;
            && At(s, first, n.whole)
            && (n.whole != "" ==> first < |s| && s[first] == n.whole[0])
            && At(s, first + |n.whole|, PrintFraction(n.fraction))
            && At(s, first + |n.whole| + |PrintFraction(n.fraction)|, PrintExponent(n.exponent))
            && |PrintNumeral(n)| ==
               first + |n.whole| + |PrintFraction(n.fraction)| + |PrintExponent(n.exponent)| - i
  {
    var minus := if n.negative then "-" else "";
    var fraction, exponent := PrintFraction(n.fraction), PrintExponent(n.exponent);
    AtSplit(s, i, minus + n.whole + fraction, exponent);
    AtSplit(s, i, minus + n.whole, fraction);
    AtSplit(s, i, minus, n.whole);
  }

  lemma NumberEndExact(s: string, i: nat, n: Numeral)
    requires At(s, i, PrintNumeral(n)) && WellFormedNumeral(n)
    requires EndsValue(s, i + |PrintNumeral(n)|)
    ensures i < |s| && (s[i] == '-' || IsDigit(s[i]))
    ensures NumberEnd(s, i) == Some(i + |PrintNumeral(n)|)
  {
    hide At, PrintNumeral, PrintFraction, PrintExponent, ExponentEnd, FractionEnd, DigitsEnd,
      EndsValue, WellFormedExponent;
    NumeralLayout(s, i, n);
    var first := if n.negative then i + 1 else i;
    assert IsDigit(s[first]);
    var j := first + |n.whole|;
    ExponentEndExact(s, j + |PrintFraction(n.fraction)|, n.exponent);
    FractionEndExact(s, j, n.fraction);
    DigitsEndExact(s, first, n.whole);
  }

  // ----------------------------------------------------------------- containers

  /** Text without quotes and without brackets of the counted kind leaves the counter alone. */
  lemma {:induction false} OverPlain(s: string, i: nat, t: string, depth: nat, braces: bool, limit: nat)
    requires At(s, i, t) && depth > 0
    requires '"' !in t && OpenOf(braces) !in t && CloseOf(braces) !in t
    ensures SkipNested(s, i, depth, braces, limit) == SkipNested(s, i + |t|, depth, braces, limit)
    decreases |t|
  {
    if t != "" {
      assert t[0] in t;
      OverPlain(s, i + 1, t[1..], depth, braces, limit);
    }
  }

  lemma OverString(s: string, i: nat, body: string, depth: nat, braces: bool, limit: nat)
    requires At(s, i, "\"" + body + "\"") && ClosedBody(body) && depth > 0
    ensures SkipNested(s, i, depth, braces, limit) == SkipNested(s, i + |body| + 2, depth, braces, limit)
  {
    hide At;
    SkipStringExact(s, i, body);
  }

  lemma NumeralIsPlain(n: Numeral)
    requires WellFormedNumeral(n)
    ensures forall c | c in PrintNumeral(n) :: IsDigit(c) || c in "-+.eE"
  {
    assert forall c | c in PrintFraction(n.fraction) :: IsDigit(c) || c == '.';
    assert forall c | c in PrintExponent(n.exponent) :: IsDigit(c) || c in "-+eE";
  }

  lemma OverKey(s: string, i: nat, key: Key, depth: nat, braces: bool, limit: nat)
    requires At(s, i, PrintKey(key)) && ScannableKey(key) && depth > 0
    ensures SkipNested(s, i, depth, braces, limit) == SkipNested(s, i + |PrintKey(key)|, depth, braces, limit)
  {
    hide At, SkipNested, ClosedBody;
    if key.Key? {
      KeyLayout(s, i, key);
      var j := i + |key.name| + 2;
      OverString(s, i, key.name, depth, braces, limit);
      OverPlain(s, j, key.beforeColon, depth, braces, limit);
      OverChar(s, j + |key.beforeColon|, depth, braces, limit);
      OverPlain(s, j + |key.beforeColon| + 1, key.afterColon, depth, braces, limit);
    }
  }

  /** One character that is neither a quote nor a bracket of the counted kind. */
  lemma OverChar(s: string, i: nat, depth: nat, braces: bool, limit: nat)
    requires i < |s| && depth > 0
    requires s[i] != '"' && s[i] != OpenOf(braces) && s[i] != CloseOf(braces)
    ensures SkipNested(s, i, depth, braces, limit) == SkipNested(s, i + 1, depth, braces, limit)
  {
  }

  /** Entering a container and leaving it again. */
  lemma OverBrackets(s: string, i: nat, j: nat, depth: nat, b: bool, braces: bool, limit: nat)
    requires i < |s| && j < |s| && s[i] == OpenOf(b) && s[j] == CloseOf(b) && 0 < depth <= limit
    ensures b != braces ==>
              && SkipNested(s, i, depth, braces, limit) == SkipNested(s, i + 1, depth, braces, limit)
              && SkipNested(s, j, depth, braces, limit) == SkipNested(s, j + 1, depth, braces, limit)
    ensures b == braces && depth < limit ==>
              && SkipNested(s, i, depth, braces, limit) == SkipNested(s, i + 1, depth + 1, braces, limit)
              && SkipNested(s, j, depth + 1, braces, limit) == SkipNested(s, j + 1, depth, braces, limit)
    ensures b == braces && depth == limit ==> SkipNested(s, i, depth, braces, limit) == None
  {
  }

  /** Scanning with a counter from inside a container, in one step over a whole value. */
  ghost predicate StepsOver(s: string, i: nat, j: nat, depth: nat, added: nat, braces: bool, limit: nat)
    requires i <= |s| && j <= |s|
  {
    SkipNested(s, i, depth, braces, limit) ==
      if depth + added <= limit then SkipNested(s, j, depth, braces, limit) else None
  }

  lemma {:induction false} OverValue(s: string, i: nat, v: Json, depth: nat, braces: bool, limit: nat)
    requires At(s, i, Print(v)) && Scannable(v) && 0 < depth <= limit
    ensures StepsOver(s, i, i + |Print(v)|, depth, KindDepth(v, braces), braces, limit)
    decreases v
  {
    hide At, SkipNested, PrintNumeral, WellFormedNumeral, PrintItems, ScannableItems, ItemsDepth;
    match v
    case Null => OverPlain(s, i, "null", depth, braces, limit);
    case True => OverPlain(s, i, "true", depth, braces, limit);
    case False => OverPlain(s, i, "false", depth, braces, limit);
    case Number(n) =>
      NumeralIsPlain(n);
      OverPlain(s, i, PrintNumeral(n), depth, braces, limit);
    case String(body) => OverString(s, i, body, depth, braces, limit);
    case Container(b, gap, items) =>
      OverContainer(s, i, b, gap, items, depth, braces, limit);
  }

  lemma {:induction false} OverContainer(
    s: string, i: nat, b: bool, gap: string, items: Items, depth: nat, braces: bool, limit: nat)
    requires At(s, i, Print(Container(b, gap, items))) && 0 < depth <= limit
    requires AllJsonSpace(gap) && ScannableItems(items, b)
    ensures var added := (if b == braces then 1 else 0) + ItemsDepth(items, braces);
            StepsOver(s, i, i + |Print(Container(b, gap, items))|, depth, added, braces, limit)
    decreases items, 1
  {
    hide At, SkipNested, PrintItems, ScannableItems, ItemsDepth;
    ContainerLayout(s, i, b, gap, items);
    var j := i + 1 + |gap|;
    var d := if b == braces then depth + 1 else depth;
    OverBrackets(s, i, j + |PrintItems(items)|, depth, b, braces, limit);
    if d <= limit {
      OverPlain(s, i + 1, gap, d, braces, limit);
      OverItems(s, j, items, d, braces, limit);
    }
  }

  lemma {:induction false} OverItems(s: string, i: nat, items: Items, depth: nat, braces: bool, limit: nat)
    requires At(s, i, PrintItems(items)) && 0 < depth <= limit
    requires ScannableItems(items, true) || ScannableItems(items, false)
    ensures StepsOver(s, i, i + |PrintItems(items)|, depth, ItemsDepth(items, braces), braces, limit)
    decreases items, 0
  {
    hide At, SkipNested, PrintItem, KindDepth, ScannableItem;
    if items.Cons? {
      ItemsLayout(s, i, items);
      OverItem(s, i, items.head, depth, braces, limit);
      if items.tail.Cons? {
        var j := i + |PrintItem(items.head)|;
        OverChar(s, j, depth, braces, limit);
        OverItems(s, j + 1, items.tail, depth, braces, limit);
      }
    }
  }

  lemma {:induction false} OverItem(s: string, i: nat, item: Item, depth: nat, braces: bool, limit: nat)
    requires At(s, i, PrintItem(item)) && 0 < depth <= limit
    requires ScannableItem(item, true) || ScannableItem(item, false)
    ensures StepsOver(s, i, i + |PrintItem(item)|, depth, KindDepth(item.value, braces), braces, limit)
    decreases item
  {
    hide At, SkipNested, PrintItem, KindDepth, PrintKey, Print, Scannable, ScannableKey;
    ItemLayout(s, i, item);
    var k := i + |item.pre|;
    var j := k + |PrintKey(item.key)|;
    OverPlain(s, i, item.pre, depth, braces, limit);
    OverKey(s, k, item.key, depth, braces, limit);
    OverValue(s, j, item.value, depth, braces, limit);
    OverPlain(s, j + |Print(item.value)|, item.post, depth, braces, limit);
  }

  /** With any limit, the loop leaves a container just after its own closing bracket, or not at all. */
  lemma NestedExact(s: string, i: nat, v: Json, limit: nat)
    requires At(s, i, Print(v)) && Scannable(v) && v.Container? && limit > 0
    ensures i < |s| && s[i] == OpenOf(v.braces)
    ensures SkipNested(s, i + 1, 1, v.braces, limit) ==
            if OwnDepth(v) <= limit then Some(i + |Print(v)|) else None
  {
    hide At, PrintItems, ScannableItems, ItemsDepth;
    var Container(braces, gap, items) := v;
    assert v == Container(braces, gap, items);
    ContainerLayout(s, i, braces, gap, items);
    OverPlain(s, i + 1, gap, 1, braces, limit);
    OverItems(s, i + 1 + |gap|, items, 1, braces, limit);
    var j := i + 1 + |gap| + |PrintItems(items)|;
    assert SkipNested(s, j, 1, braces, limit) == Some(j + 1);
    assert OwnDepth(v) == 1 + ItemsDepth(items, braces);
  }

  lemma SkipContainerExact(s: string, i: nat, v: Json)
    requires At(s, i, Print(v)) && Scannable(v) && v.Container?
    ensures SkipContainer(s, i, v.braces) ==
            if OwnDepth(v) <= MAX_DEPTH then Some(i + |Print(v)|) else None
  {
    hide At, Print, SkipNested;
    NestedExact(s, i, v, MAX_DEPTH);
  }

  // --------------------------------------------------------------------- values

  lemma WordEndExact(s: string, i: nat, word: string)
    requires At(s, i, word) && word != ""
    ensures i < |s| && s[i] == word[0]
    ensures WordEnd(s, i, word) == Some(i + |word|)
  {
    AtSlice(s, i, word);
  }

  lemma ValueEndExact(s: string, i: nat, v: Json)
    requires At(s, i, Print(v)) && Scannable(v)
    requires EndsValue(s, i + |Print(v)|)
    ensures i < |s| && !IsSpace(s[i])
    ensures ValueEnd(s, i) == if OwnDepth(v) <= MAX_DEPTH then Some(i + |Print(v)|) else None
  {
    hide At, SkipString, SkipContainer, NumberEnd, WordEnd, PrintItems, PrintNumeral, EndsValue, ClosedBody,
      ScannableItems;
    match v
    case Null => WordEndExact(s, i, "null");
    case True => WordEndExact(s, i, "true");
    case False => WordEndExact(s, i, "false");
    case Number(n) => NumberEndExact(s, i, n);
    case String(body) =>
      StringLayout(s, i, body);
      SkipStringExact(s, i, body);
    case Container(braces, gap, items) =>
      ContainerLayout(s, i, braces, gap, items);
      assert v == Container(braces, gap, items);
      SkipContainerExact(s, i, v);
  }

  /**
    The bracket counter looks at one kind of bracket only, and still `skip_value` finds the end of
    every well-formed value; it fails on exactly those that nest the outermost kind too deeply.
   */
  lemma SkipValueExact(s: string, i: nat, ws: string, v: Json)
    requires At(s, i, ws + Print(v)) && AllSpace(ws) && Scannable(v)
    requires EndsValue(s, i + |ws| + |Print(v)|)
    ensures SkipValue(s, i) ==
            if OwnDepth(v) <= MAX_DEPTH then Some(Span(i + |ws|, |Print(v)|)) else None
  {
    hide At, Print, Scannable, OwnDepth, ValueEnd, EndsValue;
    AtSplit(s, i, ws, Print(v));
    ValueEndExact(s, i + |ws|, v);
    SkipWsExact(s, i, ws);
  }
}
