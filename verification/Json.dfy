/**
  JSON texts as sections 2 to 7 of RFC 8259 define them. A tree keeps the white space around every
  token, so that every well-formed JSON text is the print of a tree. Objects and arrays are one
  constructor, `Container`: the parser under study tells them apart by their brackets only.
 */
module Json {
  import opened Text

  datatype Json =
    | Null
    | True
    | False
    | Number(numeral: Numeral)
    | String(body: string)
    | Container(braces: bool, gap: string, items: Items)

  /** A number: optional minus, whole part, optional fraction, optional exponent. */
  datatype Numeral =
    Numeral(negative: bool, whole: string, fraction: Option<string>, exponent: Option<Exponent>)

  datatype Exponent = Exponent(letter: char, sign: string, digits: string)

  /** The members of an object or the elements of an array, in order. */
  datatype Items = Nil | Cons(head: Item, tail: Items)
  datatype Item = Item(pre: string, key: Key, value: Json, post: string)

  /** The `"key" :` part of an object member; the key is kept as printed, with its escapes. */
  datatype Key = NoKey | Key(name: string, beforeColon: string, afterColon: string)

  // ------------------------------------------------------------------ printing

  function OpenOf(braces: bool): char { if braces then '{' else '[' }
  function CloseOf(braces: bool): char { if braces then '}' else ']' }

  function Print(v: Json): string {
    match v
    case Null => "null"
    case True => "true"
    case False => "false"
    case Number(n) => PrintNumeral(n)
    case String(body) => "\"" + body + "\""
    case Container(braces, gap, items) =>
      [OpenOf(braces)] + gap + PrintItems(items) + [CloseOf(braces)]
  }

  function PrintItems(items: Items): string {
    match items
    case Nil => ""
    case Cons(head, tail) => PrintItem(head) + (if tail.Nil? then "" else "," + PrintItems(tail))
  }

  function PrintItem(item: Item): string {
    item.pre + PrintKey(item.key) + Print(item.value) + item.post
  }

  function PrintKey(key: Key): string {
    match key
    case NoKey => ""
    case Key(name, beforeColon, afterColon) => "\"" + name + "\"" + beforeColon + ":" + afterColon
  }

  function PrintNumeral(n: Numeral): string {
    (if n.negative then "-" else "") + n.whole + PrintFraction(n.fraction) + PrintExponent(n.exponent)
  }

  function PrintFraction(fraction: Option<string>): string {
    match fraction
    case None => ""
    case Some(digits) => "." + digits
  }

  function PrintExponent(exponent: Option<Exponent>): string {
    match exponent
    case None => ""
    case Some(e) => [e.letter] + e.sign + e.digits
  }

  // ------------------------------------------------------------ well-formedness

  predicate WellFormed(v: Json) {
    match v
    case Null => true
    case True => true
    case False => true
    case Number(n) => WellFormedNumeral(n)
    case String(body) => StringBody(body)
    case Container(braces, gap, items) => AllJsonSpace(gap) && WellFormedItems(items, braces)
  }

  predicate WellFormedItems(items: Items, braces: bool) {
    match items
    case Nil => true
    case Cons(head, tail) => WellFormedItem(head, braces) && WellFormedItems(tail, braces)
  }

  predicate WellFormedItem(item: Item, braces: bool) {
    && AllJsonSpace(item.pre)
    && AllJsonSpace(item.post)
    && WellFormedKey(item.key)
    && item.key.Key? == braces
    && WellFormed(item.value)
  }

  predicate WellFormedKey(key: Key) {
    key.Key? ==>
      && StringBody(key.name)
      && AllJsonSpace(key.beforeColon)
      && AllJsonSpace(key.afterColon)
  }

  /** Section 6: no leading zero, at least one digit in every part that is there. */
  predicate WellFormedNumeral(n: Numeral) {
    && n.whole != "" && AllDigits(n.whole) && (n.whole[0] == '0' ==> n.whole == "0")
    && (n.fraction.Some? ==> n.fraction.value != "" && AllDigits(n.fraction.value))
    && (n.exponent.Some? ==> WellFormedExponent(n.exponent.value))
  }

  predicate WellFormedExponent(e: Exponent) {
    && (e.letter == 'e' || e.letter == 'E')
    && (e.sign == "" || e.sign == "+" || e.sign == "-")
    && e.digits != "" && AllDigits(e.digits)
  }

  predicate IsHexDigit(c: char) {
    IsDigit(c) || 'a' <= c <= 'f' || 'A' <= c <= 'F'
  }

  /** Section 7: what may stand between the quotes of a string. */
  predicate StringBody(t: string) {
    t == "" ||
    if t[0] == '\\' then
      |t| > 1 &&
      if t[1] == 'u' then
        |t| >= 6 && (forall k :: 2 <= k < 6 ==> IsHexDigit(t[k])) && StringBody(t[6..])
      else
        t[1] in "\"\\/bfnrt" && StringBody(t[2..])
    else
      t[0] != '"' && t[0] >= ' ' && StringBody(t[1..])
  }

  // ------------------------------------------------------ what the scanners ask for

  /** No quote that is not escaped, and no backslash without a character behind it. */
  predicate ClosedBody(t: string) {
    t == "" ||
    if t[0] == '\\' then |t| > 1 && ClosedBody(t[2..]) else t[0] != '"' && ClosedBody(t[1..])
  }

  /**
    Trees whose brackets, separators and numbers are as in JSON, but whose strings and keys need only
    be closed: control characters and unknown escapes may stand in them.
   */
  predicate Scannable(v: Json) {
    match v
    case Null => true
    case True => true
    case False => true
    case Number(n) => WellFormedNumeral(n)
    case String(body) => ClosedBody(body)
    case Container(braces, gap, items) => AllJsonSpace(gap) && ScannableItems(items, braces)
  }

  predicate ScannableItems(items: Items, braces: bool) {
    match items
    case Nil => true
    case Cons(head, tail) => ScannableItem(head, braces) && ScannableItems(tail, braces)
  }

  predicate ScannableItem(item: Item, braces: bool) {
    && AllJsonSpace(item.pre)
    && AllJsonSpace(item.post)
    && ScannableKey(item.key)
    && item.key.Key? == braces
    && Scannable(item.value)
  }

  predicate ScannableKey(key: Key) {
    key.Key? ==>
      && ClosedBody(key.name)
      && AllJsonSpace(key.beforeColon)
      && AllJsonSpace(key.afterColon)
  }

  lemma {:induction false} BodyIsClosed(t: string)
    requires StringBody(t)
    ensures ClosedBody(t)
    decreases |t|
  {
    if t != "" && t[0] == '\\' && t[1] == 'u' {
      BodyIsClosed(t[6..]);
      assert t[2..][1..] == t[3..] && t[3..][1..] == t[4..] && t[4..][1..] == t[5..] && t[5..][1..] == t[6..];
      assert ClosedBody(t[5..]) && ClosedBody(t[4..]) && ClosedBody(t[3..]) && ClosedBody(t[2..]);
    } else if t != "" {
      BodyIsClosed(if t[0] == '\\' then t[2..] else t[1..]);
    }
  }

  /** Every JSON text is scannable. */
  lemma {:induction false} WellFormedIsScannable(v: Json)
    requires WellFormed(v)
    ensures Scannable(v)
  {
    match v
    case String(body) => BodyIsClosed(body);
    case Container(braces, _, items) => WellFormedItemsAreScannable(items, braces);
    case _ =>
  }

  lemma {:induction false} WellFormedItemsAreScannable(items: Items, braces: bool)
    requires WellFormedItems(items, braces)
    ensures ScannableItems(items, braces)
  {
    match items
    case Nil =>
    case Cons(head, tail) =>
      if head.key.Key? {
        BodyIsClosed(head.key.name);
      }
      WellFormedIsScannable(head.value);
      WellFormedItemsAreScannable(tail, braces);
  }

  // ------------------------------------------------------------------- nesting

  function Max(a: nat, b: nat): nat { if a < b then b else a }

  /** The largest number of containers of one kind on a path into a value. */
  function KindDepth(v: Json, braces: bool): nat {
    if v.Container? then (if v.braces == braces then 1 else 0) + ItemsDepth(v.items, braces) else 0
  }

  function ItemsDepth(items: Items, braces: bool): nat {
    match items
    case Nil => 0
    case Cons(head, tail) => Max(KindDepth(head.value, braces), ItemsDepth(tail, braces))
  }

  /** How deep a value nests containers of the kind of its own outermost brackets. */
  function OwnDepth(v: Json): nat {
    if v.Container? then KindDepth(v, v.braces) else 0
  }

  // -------------------------------------------------------------------- lookup

  /** The value of the last member whose key is printed as this text. */
  function LastNamed(items: Items, name: string): Option<Json> {
    match items
    case Nil => None
    case Cons(head, tail) =>
      var later := LastNamed(tail, name);
      if later.Some? then later
      else if head.key.Key? && head.key.name == name then Some(head.value)
      else None
  }

  /** A member of an object. */
  function Lookup(v: Json, name: string): Option<Json> {
    if v.Container? && v.braces then LastNamed(v.items, name) else None
  }

  // ------------------------------------------------------------ building blocks

  function Snoc(items: Items, item: Item): Items {
    match items
    case Nil => Cons(item, Nil)
    case Cons(head, tail) => Cons(head, Snoc(tail, item))
  }

  /** A comma goes before every item but the first. */
  lemma {:induction false} PrintSnoc(items: Items, item: Item)
    ensures PrintItems(Snoc(items, item)) ==
            PrintItems(items) + (if items.Nil? then "" else ",") + PrintItem(item)
  {
    match items
    case Nil =>
    case Cons(head, tail) =>
      PrintSnoc(tail, item);
      hide PrintItem;
      RegroupItems(PrintItem(head), ",", PrintItems(tail), if tail.Nil? then "" else ",", PrintItem(item));
  }

  lemma RegroupItems(a: string, comma: string, b: string, c: string, d: string)
    ensures a + (comma + (b + c + d)) == a + (comma + b) + c + d
    ensures b == "" && c == "" ==> a + (comma + (b + c + d)) == a + comma + d
  {
  }

  lemma {:induction false} SnocWellFormed(items: Items, item: Item, braces: bool)
    ensures WellFormedItems(Snoc(items, item), braces) <==>
            WellFormedItems(items, braces) && WellFormedItem(item, braces)
  {
    match items
    case Nil =>
    case Cons(_, tail) => SnocWellFormed(tail, item, braces);
  }
}
