/**
  What the adapter's text searches find in a printed value. They look for the text of a quoted key, so
  they meet every key and every string of the value, at any depth, in the order of the text.
 */
module ExtractSearch {
  import opened Text
  import opened Json
  import opened ParserSpec
  import opened ScanProofs
  import opened ParseFold
  import opened Extract
  import opened ExtractProofs

  /** No quote, no backslash, no white space or other control character, and nothing that JSON puts between strings. */
  predicate KeyChar(c: char) {
    c > ' ' && c !in "\"\\:,{}[]"
  }

  predicate KeyWord(key: string) {
    key != "" && forall c | c in key :: KeyChar(c)
  }

  /** A printed string shows the quoted key: it is the key, or it ends in a quote and the key. */
  predicate Shows(body: string, key: string) {
    body == key || (|body| > |key| && body[|body| - |key| - 1..] == "\"" + key)
  }

  // ------------------------------------------------------------- the search on the tree

  /** Where the quoted key shows: in a key, with the member's value at `at`, or in a string value. */
  datatype Hit = AsKey(quote: nat, item: Item, at: nat) | AsText(quote: nat)

  function Or(a: Option<Hit>, b: Option<Hit>): Option<Hit> {
    if a.Some? then a else b
  }

  function KeyHit(item: Item, key: string, k: nat): Option<Hit> {
    if item.key.Key? && Shows(item.key.name, key)
    then Some(AsKey(k + |item.key.name| - |key|, item, k + |PrintKey(item.key)|))
    else None
  }

  /** The hit, if it is a member whose value is a string. */
  function IfText(hit: Option<Hit>): Option<Hit> {
    if hit.Some? && hit.value.AsKey? && hit.value.item.value.String? then hit else None
  }

  /** The first hit in a value printed at `at`. */
  function Find(v: Json, key: string, at: nat): Option<Hit> {
    match v
    case String(body) => if Shows(body, key) then Some(AsText(at + |body| - |key|)) else None
    case Container(_, gap, items) => FindInItems(items, key, at + 1 + |gap|)
    case _ => None
  }

  function FindInItems(items: Items, key: string, at: nat): Option<Hit> {
    match items
    case Nil => None
    case Cons(head, tail) => Or(FindInItem(head, key, at), FindInItems(tail, key, at + |PrintItem(head)| + 1))
  }

  function FindInItem(item: Item, key: string, at: nat): Option<Hit> {
    var k := at + |item.pre|;
    Or(KeyHit(item, key, k), Find(item.value, key, k + |PrintKey(item.key)|))
  }

  /** The first key that shows it and has a string for its value. */
  function FindText(v: Json, key: string, at: nat): Option<Hit> {
    if v.Container? then FindTextInItems(v.items, key, at + 1 + |v.gap|) else None
  }

  function FindTextInItems(items: Items, key: string, at: nat): Option<Hit> {
    match items
    case Nil => None
    case Cons(head, tail) => Or(FindTextInItem(head, key, at), FindTextInItems(tail, key, at + |PrintItem(head)| + 1))
  }

  function FindTextInItem(item: Item, key: string, at: nat): Option<Hit> {
    var k := at + |item.pre|;
    Or(IfText(KeyHit(item, key, k)), FindText(item.value, key, k + |PrintKey(item.key)|))
  }

  // -------------------------------------------------------------------- where keys show

  /** Inside a string every quote is escaped. */
  lemma {:induction false} QuoteIsEscaped(body: string, j: nat)
    requires ClosedBody(body) && j < |body| && body[j] == '"'
    ensures j > 0 && body[j - 1] == '\\'
    decreases |body|
  {
    var n := if body[0] != '\\' then 1 else 2;
    if j >= n {
      QuoteIsEscaped(body[n..], j - n);
    }
  }

  lemma NoKeyWithoutQuote(t: string, p: nat, text: string, key: string)
    requires At(t, p, text) && '"' !in text
    ensures forall k :: p <= k < p + |text| ==> !KeyAt(t, k, key)
  {
    AtChars(t, p, text);
    hide At;
    assert forall k :: p <= k < p + |text| ==> t[k] == text[k - p] && text[k - p] in text;
  }

  /** What may follow a string: no character of a key, and no colon after white space. */
  predicate EndsText(t: string, i: nat) {
    && i <= |t|
    && (i < |t| ==> !KeyChar(t[i]))
    && (SkipBlank(t, i) < |t| ==> t[SkipBlank(t, i)] != ':')
  }

  /** Within a printed string the quoted key stands at most once, at its end. */
  lemma KeyInString(t: string, o: nat, body: string, key: string, k: nat)
    requires At(t, o, "\"" + body + "\"") && ClosedBody(body) && KeyWord(key)
    requires o <= k < o + |body| + 2 <= |t|
    requires o + |body| + 2 < |t| ==> !KeyChar(t[o + |body| + 2])
    ensures KeyAt(t, k, key) <==> Shows(body, key) && k == o + |body| - |key|
  {
    AtChars(t, o, "\"" + body + "\"");
    hide At, ClosedBody;
    var e := o + |body| + 1;
    assert forall j :: 0 <= j < |body| ==> t[o + 1 + j] == ("\"" + body + "\"")[j + 1] == body[j];
    assert t[e] == ("\"" + body + "\"")[|body| + 1] == '"';
    if KeyAt(t, k, key) {
      KeyEndsString(t, o, body, key, k);
    }
    if Shows(body, key) && k == o + |body| - |key| {
      ShownKey(t, o, body, key);
    }
  }

  lemma KeyEndsString(t: string, o: nat, body: string, key: string, k: nat)
    requires ClosedBody(body) && KeyWord(key) && KeyAt(t, k, key)
    requires o <= k < o + |body| + 2 <= |t| && t[o + |body| + 1] == '"'
    requires forall j :: 0 <= j < |body| ==> t[o + 1 + j] == body[j]
    requires o + |body| + 2 < |t| ==> !KeyChar(t[o + |body| + 2])
    ensures Shows(body, key) && k == o + |body| - |key|
  {
    KeyClosesString(t, o, body, key, k);
    KeyChars(t, k, key);
    assert t[k] == '"';
    hide ClosedBody, KeyWord, Shows, KeyAt, KeyChar;
    var n := k - o;
    assert body[n..] == key by {
      assert forall j :: 0 <= j < |key| ==> body[n..][j] == body[n + j] == t[o + 1 + (n + j)] == t[k + 1 + j];
    }
    assert n > 0 ==> body[n - 1] == t[k] == '"';
    ShownTail(body, key);
  }

  /** A quoted key between quotes ends where the string ends. */
  lemma KeyClosesString(t: string, o: nat, body: string, key: string, k: nat)
    requires ClosedBody(body) && KeyWord(key) && KeyAt(t, k, key)
    requires o <= k < o + |body| + 2 <= |t| && t[o + |body| + 1] == '"'
    requires forall j :: 0 <= j < |body| ==> t[o + 1 + j] == body[j]
    requires o + |body| + 2 < |t| ==> !KeyChar(t[o + |body| + 2])
    ensures k + |key| == o + |body|
  {
    KeyChars(t, k, key);
    hide ClosedBody, KeyAt, KeyWord, KeyChar;
    var close := k + 1 + |key|;
    if close < o + |body| + 1 {
      assert body[close - o - 1] == '"';
      QuoteIsEscaped(body, close - o - 1);
      assert false;
    }
  }

  lemma KeyChars(t: string, k: nat, key: string)
    requires KeyWord(key) && KeyAt(t, k, key)
    ensures k + 1 + |key| < |t| && t[k + 1 + |key|] == '"' && |key| > 0
    ensures forall i :: k < i <= k + |key| ==> KeyChar(t[i]) && t[i] != '"' && t[i] != '\\'
    ensures forall j :: 0 <= j < |key| ==> t[k + 1 + j] == key[j]
  {
    assert forall j :: 0 <= j < |key| ==> t[k + 1 + j] == t[k + 1..k + 1 + |key|][j] == key[j] && key[j] in key;
    assert forall i :: k < i <= k + |key| ==> t[i] == t[k + 1 + (i - k - 1)];
  }

  lemma ShownKey(t: string, o: nat, body: string, key: string)
    requires Shows(body, key) && o + |body| + 2 <= |t| && t[o] == '"' && t[o + |body| + 1] == '"'
    requires forall j :: 0 <= j < |body| ==> t[o + 1 + j] == body[j]
    ensures KeyAt(t, o + |body| - |key|, key)
  {
    var n := |body| - |key|;
    var k := o + n;
    ShownTail(body, key);
    hide Shows;
    assert t[k + 1..k + 1 + |key|] == key by {
      assert forall j :: 0 <= j < |key| ==>
        t[k + 1..k + 1 + |key|][j] == t[o + 1 + n + j] == body[n + j] == body[n..][j];
    }
  }

  /** Shown text is the tail of the string, behind a quote or at its start. */
  lemma ShownTail(body: string, key: string)
    ensures Shows(body, key) <==>
            var n := |body| - |key|;
            n >= 0 && body[n..] == key && (n > 0 ==> body[n - 1] == '"')
  {
    var n := |body| - |key|;
    if n > 0 {
      assert body[n - 1..] == [body[n - 1]] + body[n..];
      assert ("\"" + key)[1..] == key;
    } else if n == 0 {
      assert body[0..] == body;
    }
  }

  // ------------------------------------------------------------ the search on the text

  /** A hit is really there: the key, and behind it the member's value or no colon at all. */
  ghost predicate Placed(t: string, h: Hit, key: string) {
    && KeyAt(t, h.quote, key)
    && match h
       case AsText(q) => AfterColon(t, q, key) == None
       case AsKey(q, item, at) =>
         && AfterColon(t, q, key) == Some(at)
         && At(t, at, Print(item.value)) && Scannable(item.value)
         && At(t, at + |Print(item.value)|, item.post) && AllJsonSpace(item.post)
         && EndsItem(t, at + |Print(item.value)| + |item.post|)
  }

  /** From `p`, both searches stop at the given hits, or go on from `q`. */
  ghost predicate Seen(t: string, p: nat, q: nat, key: string, hit: Option<Hit>, text: Option<Hit>) {
    && p <= |t| && q <= |t|
    && (match hit
        case None => FirstKey(t, p, key) == FirstKey(t, q, key)
        case Some(h) => FirstKey(t, p, key) == h.quote && Placed(t, h, key))
    && (match text
        case None => FirstStringMatch(t, p, key) == FirstStringMatch(t, q, key)
        case Some(h) =>
          FirstStringMatch(t, p, key) == h.quote && Placed(t, h, key) && h.AsKey? && h.item.value.String?)
  }

  lemma SeenThen(t: string, p: nat, q: nat, r: nat, key: string,
                 hit: Option<Hit>, text: Option<Hit>, hit': Option<Hit>, text': Option<Hit>)
    returns (h: Option<Hit>, x: Option<Hit>)
    requires Seen(t, p, q, key, hit, text) && Seen(t, q, r, key, hit', text')
    ensures h == Or(hit, hit') && x == Or(text, text')
    ensures Seen(t, p, r, key, h, x)
  {
    h, x := Or(hit, hit'), Or(text, text');
    hide Placed, FirstKey, FirstStringMatch;
  }

  /** Nothing to see on both sides. */
  lemma SeenAround(t: string, p: nat, q: nat, r: nat, e: nat, key: string, hit: Option<Hit>, text: Option<Hit>)
    requires Seen(t, p, q, key, None, None) && Seen(t, q, r, key, hit, text) && Seen(t, r, e, key, None, None)
    ensures Seen(t, p, e, key, hit, text)
  {
    hide Placed, FirstKey, FirstStringMatch;
  }

  lemma ThenNothing(t: string, p: nat, q: nat, r: nat, key: string, hit: Option<Hit>, text: Option<Hit>)
    requires Seen(t, p, q, key, hit, text) && Seen(t, q, r, key, None, None)
    ensures Seen(t, p, r, key, hit, text)
  {
    hide Placed, FirstKey, FirstStringMatch;
  }

  lemma {:induction false} JumpFirstKey(t: string, p: nat, q: nat, key: string)
    requires p <= q <= |t| && forall k :: p <= k < q ==> !KeyAt(t, k, key)
    ensures FirstKey(t, p, key) == FirstKey(t, q, key)
    decreases q - p
  {
    hide KeyAt;
    if p < q {
      JumpFirstKey(t, p + 1, q, key);
    }
  }

  lemma {:induction false} JumpFirstMatch(t: string, p: nat, q: nat, key: string)
    requires p <= q <= |t| && forall k :: p <= k < q ==> StringMatch(t, k, key).None?
    ensures FirstStringMatch(t, p, key) == FirstStringMatch(t, q, key)
    decreases q - p
  {
    hide StringMatch;
    if p < q {
      JumpFirstMatch(t, p + 1, q, key);
    }
  }

  /** Where no key stands, both searches go on. */
  lemma SeenNothing(t: string, p: nat, q: nat, key: string)
    requires p <= q <= |t| && forall k :: p <= k < q ==> !KeyAt(t, k, key)
    ensures Seen(t, p, q, key, None, None)
  {
    hide KeyAt, AfterColon, FirstKey, FirstStringMatch;
    JumpFirstKey(t, p, q, key);
    assert forall k :: p <= k < q ==> StringMatch(t, k, key).None?;
    hide StringMatch;
    JumpFirstMatch(t, p, q, key);
  }

  lemma SeenPlain(t: string, p: nat, text: string, key: string)
    requires At(t, p, text) && '"' !in text && p + |text| <= |t|
    ensures Seen(t, p, p + |text|, key, None, None)
  {
    hide At, KeyAt;
    NoKeyWithoutQuote(t, p, text, key);
    SeenNothing(t, p, p + |text|, key);
  }

  lemma {:induction false} SpaceIsPlain(ws: string)
    requires AllJsonSpace(ws)
    ensures '"' !in ws
  {
  }

  /** Where exactly one key stands, and its hit is known. */
  lemma SeenOne(t: string, p: nat, q: nat, key: string, h: Hit)
    requires p <= h.quote < q <= |t| && Placed(t, h, key)
    requires forall k :: p <= k < q ==> (KeyAt(t, k, key) <==> k == h.quote)
    ensures Seen(t, p, q, key, Some(h), if h.AsKey? && h.item.value.String? then Some(h) else None)
  {
    assert FirstKey(t, h.quote, key) == h.quote;
    hide KeyAt, FirstKey;
    JumpFirstKey(t, p, h.quote, key);
    var found := h.AsKey? && h.item.value.String?;
    assert StringMatch(t, h.quote, key).Some? <==> found by { MatchAtHit(t, h, key); }
    assert forall k :: p <= k < q && k != h.quote ==> StringMatch(t, k, key).None?;
    if found {
      assert FirstStringMatch(t, h.quote, key) == h.quote;
      hide StringMatch, FirstStringMatch;
      JumpFirstMatch(t, p, h.quote, key);
    } else {
      hide StringMatch, FirstStringMatch;
      JumpFirstMatch(t, p, q, key);
    }
  }

  lemma MatchAtHit(t: string, h: Hit, key: string)
    requires Placed(t, h, key)
    ensures StringMatch(t, h.quote, key) ==
            if h.AsKey? && h.item.value.String? then Some(h.at + 1) else None
  {
    hide KeyAt, AfterColon;
    if h.AsKey? {
      FirstChar(t, h.at, h.item.value);
    }
  }

  // ------------------------------------------------------- the two searches are the same

  /** A string in a value: a key or a string value, and how it is followed. */
  lemma SeenString(t: string, o: nat, body: string, key: string, hit: Option<Hit>)
    requires At(t, o, "\"" + body + "\"") && ClosedBody(body) && KeyWord(key) && o + |body| + 2 <= |t|
    requires o + |body| + 2 < |t| ==> !KeyChar(t[o + |body| + 2])
    requires Shows(body, key) <==> hit.Some?
    requires hit.Some? ==> hit.value.quote == o + |body| - |key|
    requires hit.Some? && KeyAt(t, hit.value.quote, key) ==> Placed(t, hit.value, key)
    ensures Seen(t, o, o + |body| + 2, key, hit, IfText(hit))
  {
    assert Shows(body, key) ==> |key| <= |body|;
    hide At, ClosedBody, KeyAt, Shows, Placed, Seen;
    forall k | o <= k < o + |body| + 2
      ensures KeyAt(t, k, key) <==> hit.Some? && k == hit.value.quote
    {
      KeyInString(t, o, body, key, k);
    }
    if hit.Some? {
      SeenOne(t, o, o + |body| + 2, key, hit.value);
    } else {
      SeenNothing(t, o, o + |body| + 2, key);
    }
  }

  /** A string value is followed by no colon, so it only stops the search for a key. */
  lemma SearchText(t: string, p: nat, body: string, key: string)
    requires At(t, p, "\"" + body + "\"") && ClosedBody(body) && KeyWord(key) && EndsText(t, p + |body| + 2)
    ensures Seen(t, p, p + |body| + 2, key, Find(String(body), key, p), None)
  {
    hide At, ClosedBody, KeyAt, Seen;
    SeenString(t, p, body, key, Find(String(body), key, p));
  }

  lemma {:induction false} SkipBlankExact(t: string, i: nat, ws: string)
    requires At(t, i, ws) && AllJsonSpace(ws)
    requires i + |ws| == |t| || (i + |ws| < |t| && !IsJsonSpace(t[i + |ws|]))
    ensures SkipBlank(t, i) == i + |ws|
    decreases |ws|
  {
    if ws != "" {
      assert ws[0] in ws;
      SkipBlankExact(t, i + 1, ws[1..]);
    }
  }

  lemma NoKeyAhead(t: string, i: nat, ws: string)
    requires At(t, i, ws) && AllJsonSpace(ws) && i + |ws| < |t| && !KeyChar(t[i + |ws|])
    ensures i < |t| && !KeyChar(t[i])
  {
    if ws != "" {
      assert ws[0] in ws;
    }
  }

  /** Behind a printed key: the colon, then the value. */
  lemma ColonAhead(t: string, k: nat, key: Key)
    requires At(t, k, PrintKey(key)) && key.Key? && AllJsonSpace(key.beforeColon) && AllJsonSpace(key.afterColon)
    requires var at := k + |PrintKey(key)|; at < |t| && !IsJsonSpace(t[at])
    ensures var o := k + |key.name| + 2;
            var colon := o + |key.beforeColon|;
            && colon < |t| && t[colon] == ':' && !KeyChar(t[o])
            && SkipBlank(t, o) == colon && SkipBlank(t, colon + 1) == k + |PrintKey(key)|
  {
    hide At, PrintKey;
    KeyLayout(t, k, key);
    var o := k + |key.name| + 2;
    NoKeyAhead(t, o, key.beforeColon);
    SkipBlankExact(t, o, key.beforeColon);
    SkipBlankExact(t, o + |key.beforeColon| + 1, key.afterColon);
  }

  /** From behind a key to its value. */
  lemma SearchColon(t: string, k: nat, o: nat, item: Item, key: string) returns (q: nat)
    requires item.key.Key? && o == k + |item.key.name| + 2
    requires At(t, k, PrintKey(item.key))
    requires AllJsonSpace(item.key.beforeColon) && AllJsonSpace(item.key.afterColon)
    requires k + |PrintKey(item.key)| <= |t|
    ensures q == k + |PrintKey(item.key)| && Seen(t, o, q, key, None, None)
  {
    hide At, PrintKey, Seen;
    KeyLayout(t, k, item.key);
    q := k + |PrintKey(item.key)|;
    var colon := o + |item.key.beforeColon|;
    SpaceIsPlain(item.key.beforeColon);
    SpaceIsPlain(item.key.afterColon);
    AtOne(t, colon, ':');
    SeenPlain(t, o, item.key.beforeColon, key);
    SeenPlain(t, colon, ":", key);
    SeenPlain(t, colon + 1, item.key.afterColon, key);
    SeenAround(t, o, colon, colon + 1, q, key, None, None);
  }

  lemma KeyHitPlaced(t: string, k: nat, item: Item, key: string)
    requires At(t, k, PrintKey(item.key)) && ScannableItem(item, true) && KeyHit(item, key, k).Some?
    requires Behind(t, k, item) && KeyAt(t, KeyHit(item, key, k).value.quote, key)
    ensures Placed(t, KeyHit(item, key, k).value, key)
  {
    hide At, Print, PrintKey, Scannable, ClosedBody, KeyAt;
    FirstChar(t, k + |PrintKey(item.key)|, item.value);
    ColonAhead(t, k, item.key);
  }

  /** Behind the key of a member: its value, white space, and the end of the member. */
  ghost predicate Behind(t: string, k: nat, item: Item) {
    var at := k + |PrintKey(item.key)|;
    && At(t, at, Print(item.value)) && At(t, at + |Print(item.value)|, item.post)
    && EndsItem(t, at + |Print(item.value)| + |item.post|)
  }

  lemma BehindStarts(t: string, k: nat, item: Item)
    requires Behind(t, k, item) && Scannable(item.value)
    ensures var at := k + |PrintKey(item.key)|; at < |t| && !IsJsonSpace(t[at])
  {
    hide At, Print, PrintKey;
    FirstChar(t, k + |PrintKey(item.key)|, item.value);
  }

  /** The key itself. */
  lemma SearchName(t: string, k: nat, item: Item, key: string) returns (o: nat, hit: Option<Hit>, text: Option<Hit>)
    requires At(t, k, PrintKey(item.key)) && ScannableItem(item, true) && KeyWord(key) && Behind(t, k, item)
    ensures o == k + |item.key.name| + 2 && hit == KeyHit(item, key, k) && text == IfText(hit)
    ensures Seen(t, k, o, key, hit, text)
  {
    hide At, Print, PrintKey, Scannable, ClosedBody, KeyAt, Seen, Placed, Behind, Shows, KeyWord;
    hit := KeyHit(item, key, k);
    o, text := k + |item.key.name| + 2, IfText(hit);
    if hit.Some? && KeyAt(t, hit.value.quote, key) {
      KeyHitPlaced(t, k, item, key);
    }
    BehindStarts(t, k, item);
    KeyLayout(t, k, item.key);
    ColonAhead(t, k, item.key);
    SeenString(t, k, item.key.name, key, hit);
  }

  /** A key and the white space around its colon. */
  lemma SearchKey(t: string, k: nat, item: Item, key: string) returns (q: nat, hit: Option<Hit>, text: Option<Hit>)
    requires At(t, k, PrintKey(item.key)) && ScannableItem(item, true) && KeyWord(key) && Behind(t, k, item)
    ensures q == k + |PrintKey(item.key)| && hit == KeyHit(item, key, k) && text == IfText(hit)
    ensures Seen(t, k, q, key, hit, text)
  {
    AtEnds(t, k, PrintKey(item.key));
    hide At, Print, PrintKey, Scannable, ClosedBody, Seen, Behind, KeyHit, IfText, Or, AllJsonSpace, KeyWord;
    var o: nat;
    o, hit, text := SearchName(t, k, item, key);
    q := SearchColon(t, k, o, item, key);
    ThenNothing(t, k, o, q, key, hit, text);
  }

  lemma SearchAnyKey(t: string, k: nat, item: Item, braces: bool, key: string)
    returns (q: nat, hit: Option<Hit>, text: Option<Hit>)
    requires At(t, k, PrintKey(item.key)) && ScannableItem(item, braces) && KeyWord(key) && Behind(t, k, item)
    ensures q == k + |PrintKey(item.key)| && hit == KeyHit(item, key, k) && text == IfText(hit)
    ensures Seen(t, k, q, key, hit, text)
  {
    hide Seen;
    if braces {
      q, hit, text := SearchKey(t, k, item, key);
    } else {
      AtEnds(t, k, PrintKey(item.key));
      SeenNothing(t, k, k, key);
      q, hit, text := k, None, None;
    }
  }

  /** Searching over a printed value. */
  lemma {:induction false} SearchValue(t: string, p: nat, v: Json, key: string)
    returns (q: nat, hit: Option<Hit>, text: Option<Hit>)
    requires At(t, p, Print(v)) && Scannable(v) && KeyWord(key) && EndsText(t, p + |Print(v)|)
    ensures q == p + |Print(v)| && hit == Find(v, key, p) && text == FindText(v, key, p)
    ensures Seen(t, p, q, key, hit, text)
    decreases v, 0
  {
    hide At, Seen, PrintNumeral, WellFormedNumeral, PrintItems, ScannableItems, ClosedBody, EndsText;
    q, hit, text := p + |Print(v)|, Find(v, key, p), FindText(v, key, p);
    match v
    case String(body) => SearchText(t, p, body, key);
    case Container(braces, gap, items) => q, hit, text := SearchContainer(t, p, braces, gap, items, key);
    case _ =>
      BareText(v);
      AtEnds(t, p, Print(v));
      SeenPlain(t, p, Print(v), key);
  }

  lemma {:induction false} SearchContainer(t: string, p: nat, braces: bool, gap: string, items: Items, key: string)
    returns (q: nat, hit: Option<Hit>, text: Option<Hit>)
    requires At(t, p, Print(Container(braces, gap, items))) && AllJsonSpace(gap) && ScannableItems(items, braces)
    requires KeyWord(key)
    ensures var v := Container(braces, gap, items);
            q == p + |Print(v)| && hit == Find(v, key, p) && text == FindText(v, key, p)
    ensures Seen(t, p, q, key, hit, text)
    decreases items, 1
  {
    var at := p + 1 + |gap|;
    hide At, Seen, Print, PrintItems, ScannableItems, FindInItems, FindTextInItems;
    ContainerLayout(t, p, braces, gap, items);
    SeenOpening(t, p, braces, gap, key);
    var close: nat;
    close, hit, text := SearchItems(t, at, items, braces, key);
    SeenClosing(t, close, braces, key);
    q := close + 1;
    SeenAround(t, p, at, close, q, key, hit, text);
  }

  lemma SeenOpening(t: string, p: nat, braces: bool, gap: string, key: string)
    requires p < |t| && t[p] == OpenOf(braces) && At(t, p + 1, gap) && AllJsonSpace(gap) && p + 1 + |gap| <= |t|
    ensures Seen(t, p, p + 1 + |gap|, key, None, None)
  {
    hide At, Seen;
    SpaceIsPlain(gap);
    NoKeyWithoutQuote(t, p + 1, gap, key);
    SeenNothing(t, p, p + 1 + |gap|, key);
  }

  lemma SeenClosing(t: string, p: nat, braces: bool, key: string)
    requires p < |t| && t[p] == CloseOf(braces)
    ensures Seen(t, p, p + 1, key, None, None)
  {
    hide Seen;
    SeenNothing(t, p, p + 1, key);
  }

  lemma {:induction false} SearchItems(t: string, p: nat, items: Items, braces: bool, key: string)
    returns (q: nat, hit: Option<Hit>, text: Option<Hit>)
    requires At(t, p, PrintItems(items)) && ScannableItems(items, braces) && KeyWord(key)
    requires EndsItem(t, p + |PrintItems(items)|)
    ensures q == p + |PrintItems(items)| && hit == FindInItems(items, key, p) && text == FindTextInItems(items, key, p)
    ensures Seen(t, p, q, key, hit, text)
    decreases items, 0
  {
    hide At, Seen, PrintItem, ScannableItem, FindInItem, FindTextInItem;
    if items.Nil? {
      hide KeyAt;
      SeenNothing(t, p, p, key);
      q, hit, text := p, None, None;
    } else {
      ItemsLayout(t, p, items);
      q, hit, text := SearchItem(t, p, items.head, braces, key);
      if items.tail.Cons? {
        var e, hit', text' := SearchItems(t, q + 1, items.tail, braces, key);
        SeenComma(t, q, e, key, hit', text');
        hit, text := SeenThen(t, p, q, e, key, hit, text, hit', text');
        q := e;
      }
    }
  }

  lemma SeenComma(t: string, c: nat, e: nat, key: string, hit: Option<Hit>, text: Option<Hit>)
    requires c < |t| && t[c] == ',' && Seen(t, c + 1, e, key, hit, text)
    ensures Seen(t, c, e, key, hit, text)
  {
    hide Placed;
  }

  lemma {:induction false} SearchItem(t: string, p: nat, item: Item, braces: bool, key: string)
    returns (q: nat, hit: Option<Hit>, text: Option<Hit>)
    requires At(t, p, PrintItem(item)) && ScannableItem(item, braces) && KeyWord(key)
    requires EndsItem(t, p + |PrintItem(item)|)
    ensures q == p + |PrintItem(item)| && hit == FindInItem(item, key, p) && text == FindTextInItem(item, key, p)
    ensures Seen(t, p, q, key, hit, text)
    decreases item, 1
  {
    var k := p + |item.pre|;
    hide At, Seen, PrintItem, PrintKey, Print, Scannable, ScannableKey, Find, FindText, KeyHit, IfText, Or, Behind,
      EndsItem, AllJsonSpace, KeyWord;
    ItemLayout(t, p, item);
    assert Behind(t, k, item) by { BehindKey(t, p, item); }
    SeenSpace(t, p, item.pre, key);
    var e: nat;
    e, hit, text := SearchMember(t, k, item, braces, key);
    SeenSpace(t, e, item.post, key);
    q := e + |item.post|;
    SeenAround(t, p, k, e, q, key, hit, text);
  }

  lemma BehindKey(t: string, p: nat, item: Item)
    requires At(t, p, PrintItem(item)) && EndsItem(t, p + |PrintItem(item)|)
    ensures Behind(t, p + |item.pre|, item)
  {
    hide At, PrintItem, PrintKey, Print;
    ItemLayout(t, p, item);
  }

  lemma SeenSpace(t: string, p: nat, ws: string, key: string)
    requires At(t, p, ws) && AllJsonSpace(ws)
    ensures p + |ws| <= |t| && Seen(t, p, p + |ws|, key, None, None)
  {
    AtEnds(t, p, ws);
    SpaceIsPlain(ws);
    hide At, Seen;
    SeenPlain(t, p, ws, key);
  }

  lemma BehindParts(t: string, k: nat, item: Item)
    requires Behind(t, k, item) && AllJsonSpace(item.post)
    ensures At(t, k + |PrintKey(item.key)|, Print(item.value))
    ensures EndsText(t, k + |PrintKey(item.key)| + |Print(item.value)|)
  {
    hide At, Print, PrintKey, AllJsonSpace;
    PostEndsText(t, k + |PrintKey(item.key)| + |Print(item.value)|, item.post);
  }

  /** A key, if there is one, and the value. */
  lemma {:induction false} SearchMember(t: string, k: nat, item: Item, braces: bool, key: string)
    returns (q: nat, hit: Option<Hit>, text: Option<Hit>)
    requires At(t, k, PrintKey(item.key)) && ScannableItem(item, braces) && KeyWord(key) && Behind(t, k, item)
    ensures var at := k + |PrintKey(item.key)|;
            && q == at + |Print(item.value)|
            && hit == Or(KeyHit(item, key, k), Find(item.value, key, at))
            && text == Or(IfText(KeyHit(item, key, k)), FindText(item.value, key, at))
    ensures Seen(t, k, q, key, hit, text)
    decreases item, 0
  {
    hide At, Seen, PrintItem, PrintKey, Print, Scannable, ScannableKey, Find, FindText, KeyHit, IfText, Or, Behind,
      EndsItem, AllJsonSpace, KeyWord, EndsText;
    BehindParts(t, k, item);
    var at, keyHit, keyText := SearchAnyKey(t, k, item, braces, key);
    var hit', text';
    q, hit', text' := SearchValue(t, at, item.value, key);
    hit, text := SeenThen(t, k, at, q, key, keyHit, keyText, hit', text');
  }

  lemma AtEnds(t: string, k: nat, text: string)
    requires At(t, k, text)
    ensures k + |text| <= |t|
  {
  }

  lemma PostEndsText(t: string, i: nat, post: string)
    requires At(t, i, post) && AllJsonSpace(post) && EndsItem(t, i + |post|)
    ensures EndsText(t, i)
  {
    SkipBlankExact(t, i, post);
    NoKeyAhead(t, i, post);
  }

  // ------------------------------------------------------------ what the adapter extracts

  /** How far a member's value reaches for `extract_value_span`: a bare one takes the white space behind it. */
  function ValueLength(item: Item): nat {
    |Print(item.value)| + if Delimited(item.value) then 0 else |item.post|
  }

  /** The value of the member hit; nothing at a string value. */
  function SpanOfHit(hit: Option<Hit>): Option<Span> {
    if hit.Some? && hit.value.AsKey? then Some(Span(hit.value.at, ValueLength(hit.value.item))) else None
  }

  /** The body of the string that is the value of the member hit. */
  function BodyOfHit(hit: Option<Hit>): Option<Span> {
    if hit.Some? && hit.value.AsKey? && hit.value.item.value.String?
    then Some(Span(hit.value.at + 1, |hit.value.item.value.body|))
    else None
  }

  /**
    On the print of any value, `extract_value_span` takes the first string that shows the key, among
    keys and string values at any depth. It returns that member's value, and nothing if it met a
    string value first.
   */
  lemma SpanFoundInText(v: Json, key: string)
    requires Scannable(v) && KeyWord(key)
    ensures ExtractedSpan(Print(v), key) == SpanOfHit(Find(v, key, 0))
  {
    hide Find, FindText, Seen, Print, Scannable, ExtractedSpan, SpanOfHit;
    var q, hit, text := SearchAll(v, key);
    SpanOfSeen(Print(v), key, hit, text);
  }

  lemma SpanOfSeen(t: string, key: string, hit: Option<Hit>, text: Option<Hit>)
    requires Seen(t, 0, |t|, key, hit, text)
    ensures ExtractedSpan(t, key) == SpanOfHit(hit)
  {
    FirstAtEnd(t, key);
    if hit.Some? && hit.value.AsKey? {
      PlacedSpan(t, hit.value, key);
    }
    hide FirstKey, FirstStringMatch, AfterColon, KeyAt, SpanEnd, Print, ValueLength, At;
  }

  lemma StringOfSeen(t: string, key: string, hit: Option<Hit>, text: Option<Hit>)
    requires Seen(t, 0, |t|, key, hit, text)
    ensures ExtractedString(t, key) == BodyOfHit(text)
  {
    FirstAtEnd(t, key);
    if text.Some? {
      MatchAtHit(t, text.value, key);
      PlacedBody(t, text.value, key);
    }
    hide FirstKey, FirstStringMatch, StringMatch, StringEnd, AfterColon, KeyAt, Print, At;
  }

  lemma FirstAtEnd(t: string, key: string)
    ensures FirstKey(t, |t|, key) == |t| == FirstStringMatch(t, |t|, key)
  {
  }

  lemma PlacedSpan(t: string, h: Hit, key: string)
    requires Placed(t, h, key) && h.AsKey?
    ensures h.at < |t| && SpanEnd(t, h.at) == h.at + ValueLength(h.item)
  {
    hide At, Print, SpanEnd, KeyAt, AfterColon;
    SpanEndExact(t, h.at, h.item.value, h.item.post);
  }

  /** The whole text of a value is searched from its start to its end. */
  lemma SearchAll(v: Json, key: string) returns (q: nat, hit: Option<Hit>, text: Option<Hit>)
    requires Scannable(v) && KeyWord(key)
    ensures q == |Print(v)| && hit == Find(v, key, 0) && text == FindText(v, key, 0)
    ensures Seen(Print(v), 0, q, key, hit, text)
  {
    var t := Print(v);
    AtWhole(t);
    assert EndsText(t, |t|);
    hide At, Print, Seen, Scannable, EndsText;
    q, hit, text := SearchValue(t, 0, v, key);
  }

  /** On the print of any value, `extract_string` takes the first such key whose value is a string. */
  lemma StringFoundInText(v: Json, key: string)
    requires Scannable(v) && KeyWord(key)
    ensures ExtractedString(Print(v), key) == BodyOfHit(FindText(v, key, 0))
  {
    hide Find, FindText, Seen, Print, Scannable, ExtractedString, BodyOfHit;
    var q, hit, text := SearchAll(v, key);
    StringOfSeen(Print(v), key, hit, text);
  }

  lemma PlacedBody(t: string, h: Hit, key: string)
    requires Placed(t, h, key) && h.AsKey? && h.item.value.String?
    ensures h.quote < |t| && h.at + 1 <= |t| && StringEnd(t, h.at + 1) == Some(h.at + 1 + |h.item.value.body|)
  {
    var body := h.item.value.body;
    assert Print(h.item.value) == "\"" + body + "\"";
    hide At, Print, AfterColon;
    StringLayout(t, h.at, body);
    StringEndExact(t, h.at + 1, body);
  }
}
