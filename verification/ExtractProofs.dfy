/** Where the spans end that the adapter's scanners find: inside the parameters, and with the printed value. */
module ExtractProofs {
  import opened Text
  import opened Json
  import opened ParserSpec
  import opened ScanProofs
  import opened Extract

  // -------------------------------------------------------- staying inside a span

  predicate EndsInBackslash(t: string) {
    t != "" && t[|t| - 1] == '\\'
  }

  lemma NumberEndsClean(s: string, i: nat)
    requires i < |s| && (s[i] == '-' || IsDigit(s[i])) && NumberEnd(s, i).Some?
    ensures s[NumberEnd(s, i).value - 1] != '\\'
  {
    var first := if s[i] == '-' then i + 1 else i;
    var whole := DigitsEnd(s, first);
    assert IsDigit(s[whole - 1]);
    var fraction := FractionEnd(s, whole);
    assert s[fraction - 1] == '.' || IsDigit(s[fraction - 1]);
  }

  /** A span that `skip_value` returned, on any input, does not end in a backslash. */
  lemma SkippedSpanEndsClean(s: string, i: nat)
    requires i <= |s| && SkipValue(s, i).Some?
    ensures var v := SkipValue(s, i).value; !EndsInBackslash(s[v.start..v.End()])
  {
    var start := SkipWs(s, i);
    var e := ValueEnd(s, start).value;
    assert s[start..e][e - start - 1] == s[e - 1];
    if s[start] == '-' || IsDigit(s[start]) {
      NumberEndsClean(s, start);
    }
  }

  // ------------------------------------------------------ when the scan runs too far

  /** How many backslashes a text ends in. */
  function TrailingBackslashes(t: string): (n: nat)
    ensures n <= |t| && (forall k :: |t| - n <= k < |t| ==> t[k] == '\\')
    ensures n < |t| ==> t[|t| - n - 1] != '\\'
  {
    if t == "" || t[|t| - 1] != '\\' then 0 else 1 + TrailingBackslashes(t[..|t| - 1])
  }

  /** The loop over an open string oversteps when it reads an escape whose character is missing. */
  lemma {:induction false} QuotedOverruns(t: string, p: nat)
    requires p <= |t|
    ensures var n := TrailingBackslashes(t);
            QuotedEnd(t, p) == |t| + 1 <==>
            StringEnd(t, p).None? && (if n <= |t| - p then n else |t| - p) % 2 == 1
    decreases |t| - p
  {
    if p < |t| && t[p] != '"' {
      if t[p] == '\\' && p + 1 < |t| {
        QuotedOverruns(t, p + 2);
      } else if t[p] != '\\' {
        QuotedOverruns(t, p + 1);
      }
    }
  }

  /** The quote that opens a string the bracket loop never sees closed, if it meets one. */
  function OpenQuote(t: string, p: nat, depth: nat, braces: bool): (q: Option<nat>)
    requires p <= |t|
    ensures q.Some? ==> p <= q.value < |t| && t[q.value] == '"' && StringEnd(t, q.value + 1).None?
    decreases |t| - p
  {
    if p == |t| then None
    else if t[p] == '"' then
      match StringEnd(t, p + 1)
      case None => Some(p)
      case Some(e) => OpenQuote(t, e + 1, depth, braces)
    else if t[p] == OpenOf(braces) then OpenQuote(t, p + 1, depth + 1, braces)
    else if t[p] == CloseOf(braces) && depth > 0 then
      if depth == 1 then None else OpenQuote(t, p + 1, depth - 1, braces)
    else OpenQuote(t, p + 1, depth, braces)
  }

  lemma {:induction false} BracketEndInOpenString(t: string, p: nat, depth: nat, braces: bool)
    requires p <= |t| && StringEnd(t, p).None?
    ensures BracketEnd(t, p, depth, braces, true) == QuotedEnd(t, p)
    decreases |t| - p
  {
    if p < |t| && !(t[p] == '\\' && p + 1 == |t|) {
      BracketEndInOpenString(t, if t[p] == '\\' then p + 2 else p + 1, depth, braces);
    }
  }

  lemma OpenStringOverruns(t: string, q: nat, depth: nat, braces: bool)
    requires q < |t| && t[q] == '"' && StringEnd(t, q + 1).None?
    ensures BracketEnd(t, q + 1, depth, braces, true) == |t| + 1 <==> TrailingBackslashes(t) % 2 == 1
  {
    hide BracketEnd, QuotedEnd;
    BracketEndInOpenString(t, q + 1, depth, braces);
    QuotedOverruns(t, q + 1);
  }

  lemma {:induction false} BracketOverruns(t: string, p: nat, depth: nat, braces: bool)
    requires p <= |t|
    ensures BracketEnd(t, p, depth, braces, false) == |t| + 1 <==>
            OpenQuote(t, p, depth, braces).Some? && TrailingBackslashes(t) % 2 == 1
    decreases |t| - p
  {
    hide TrailingBackslashes, StringEnd, OpenOf, CloseOf;
    if p < |t| {
      if t[p] == '"' {
        if StringEnd(t, p + 1).Some? {
          BracketEndOverString(t, p + 1, depth, braces);
          BracketOverruns(t, StringEnd(t, p + 1).value + 1, depth, braces);
        } else {
          OpenStringOverruns(t, p, depth, braces);
        }
      } else if t[p] == OpenOf(braces) {
        BracketOverruns(t, p + 1, depth + 1, braces);
      } else if t[p] == CloseOf(braces) && depth > 0 {
        if depth > 1 {
          BracketOverruns(t, p + 1, depth - 1, braces);
        }
      } else {
        BracketOverruns(t, p + 1, depth, braces);
      }
    }
  }

  /** The quote of a string left open in the value at `p`, if there is one. */
  function UnclosedQuote(t: string, p: nat): Option<nat>
    requires p < |t|
  {
    if t[p] == '{' || t[p] == '[' then OpenQuote(t, p, 0, t[p] == '{')
    else if t[p] == '"' && StringEnd(t, p + 1).None? then Some(p)
    else None
  }

  /**
    The span found for a key ends one past the end of the text exactly when a string in the value is
    left open and the text ends in an odd number of backslashes. It never ends further out.
   */
  lemma SpanOverrunsIff(t: string, key: string)
    requires ExtractedSpan(t, key).Some?
    ensures var found := ExtractedSpan(t, key).value;
            && found.start < |t| && found.End() <= |t| + 1
            && (found.End() == |t| + 1 <==>
                UnclosedQuote(t, found.start).Some? && TrailingBackslashes(t) % 2 == 1)
  {
    hide SpanEnd, UnclosedQuote, TrailingBackslashes, FirstKey, KeyAt, AfterColon;
    SpanEndOverruns(t, ExtractedSpan(t, key).value.start);
  }

  lemma SpanEndOverruns(t: string, p: nat)
    requires p < |t|
    ensures SpanEnd(t, p) == |t| + 1 <==> UnclosedQuote(t, p).Some? && TrailingBackslashes(t) % 2 == 1
  {
    hide TrailingBackslashes, BracketEnd, QuotedEnd, OpenQuote;
    if t[p] == '{' || t[p] == '[' {
      BracketOverruns(t, p, 0, t[p] == '{');
    } else if t[p] == '"' {
      QuotedOverruns(t, p + 1);
    }
  }

  /**
    In the parameters the parser hands to the adapter, the span found for any key lies inside them,
    even when the scan for the key began inside a string.
   */
  lemma SpanOfSkippedValueInside(s: string, i: nat, key: string)
    requires i <= |s| && SkipValue(s, i).Some?
    ensures var v := SkipValue(s, i).value;
            var found := ExtractedSpan(s[v.start..v.End()], key);
            found.Some? ==> v.start + found.value.End() <= v.End()
  {
    SkippedSpanEndsClean(s, i);
    var v := SkipValue(s, i).value;
    if ExtractedSpan(s[v.start..v.End()], key).Some? {
      SpanOverrunsIff(s[v.start..v.End()], key);
    }
  }

  /** A text on which it does end one past the end, and one that ends in a backslash on which it does not. */
  lemma BackslashOverruns()
    ensures var t := "\"k\":\"\\"; ExtractedSpan(t, "k") == Some(Span(4, 3)) && |t| == 6
    ensures var t := "\"k\":1\\"; ExtractedSpan(t, "k") == Some(Span(4, 2)) && |t| == 6
  {
    var t, u := "\"k\":\"\\", "\"k\":1\\";
    assert t[1..2] == "k" == u[1..2];
    assert KeyAt(t, 0, "k") && KeyAt(u, 0, "k");
    assert SkipBlank(t, 3) == 3 && SkipBlank(t, 4) == 4 && SkipBlank(u, 3) == 3 && SkipBlank(u, 4) == 4;
    assert QuotedEnd(t, 5) == 7 && BareEnd(u, 4) == 6;
  }

  // ---------------------------------------------------- exact ends of printed values

  lemma {:induction false} BracketEndOverString(t: string, p: nat, depth: nat, braces: bool)
    requires p <= |t| && StringEnd(t, p).Some?
    ensures BracketEnd(t, p, depth, braces, true) == BracketEnd(t, StringEnd(t, p).value + 1, depth, braces, false)
    decreases |t| - p
  {
    if t[p] == '\\' {
      BracketEndOverString(t, p + 2, depth, braces);
    } else if t[p] != '"' {
      BracketEndOverString(t, p + 1, depth, braces);
    }
  }

  /** Wherever the parser's bracket loop succeeds, under any limit, this one ends at the same place. */
  lemma {:induction false} BracketEndIsNestedEnd(t: string, p: nat, depth: nat, braces: bool, limit: nat)
    requires p <= |t| && depth > 0 && SkipNested(t, p, depth, braces, limit).Some?
    ensures BracketEnd(t, p, depth, braces, false) == SkipNested(t, p, depth, braces, limit).value
    decreases |t| - p
  {
    if t[p] == '"' {
      BracketEndOverString(t, p + 1, depth, braces);
      BracketEndIsNestedEnd(t, SkipString(t, p).value, depth, braces, limit);
    } else if t[p] == OpenOf(braces) {
      BracketEndIsNestedEnd(t, p + 1, depth + 1, braces, limit);
    } else if t[p] == CloseOf(braces) {
      if depth > 1 {
        BracketEndIsNestedEnd(t, p + 1, depth - 1, braces, limit);
      }
    } else {
      BracketEndIsNestedEnd(t, p + 1, depth, braces, limit);
    }
  }

  lemma {:induction false} QuotedEndIsStringEnd(t: string, p: nat)
    requires p <= |t| && StringEnd(t, p).Some?
    ensures QuotedEnd(t, p) == StringEnd(t, p).value + 1
    decreases |t| - p
  {
    if t[p] == '\\' {
      QuotedEndIsStringEnd(t, p + 2);
    } else if t[p] != '"' {
      QuotedEndIsStringEnd(t, p + 1);
    }
  }

  lemma {:induction false} BareEndExact(t: string, p: nat, e: nat)
    requires p <= e < |t| && (t[e] == ',' || t[e] == '}' || t[e] == ']')
    requires forall k :: p <= k < e ==> t[k] != ',' && t[k] != '}' && t[k] != ']'
    ensures BareEnd(t, p) == e
    decreases e - p
  {
    if p < e {
      BareEndExact(t, p + 1, e);
    }
  }

  /** Strings and containers have an end of their own; other values run on to the next separator. */
  predicate Delimited(v: Json) {
    v.String? || v.Container?
  }

  lemma StringSpanEnd(t: string, p: nat, body: string)
    requires At(t, p, "\"" + body + "\"") && ClosedBody(body)
    ensures p < |t| && t[p] == '"' && SpanEnd(t, p) == p + |body| + 2
  {
    hide At, ClosedBody;
    StringLayout(t, p, body);
    StringEndExact(t, p + 1, body);
    QuotedEndIsStringEnd(t, p + 1);
  }

  lemma ContainerSpanEnd(t: string, p: nat, v: Json)
    requires At(t, p, Print(v)) && Scannable(v) && v.Container?
    ensures p < |t| && t[p] == OpenOf(v.braces) && SpanEnd(t, p) == p + |Print(v)|
  {
    hide At, Print, Scannable, KindDepth, SkipNested;
    var limit := Max(1, OwnDepth(v));
    NestedExact(t, p, v, limit);
    BracketEndIsNestedEnd(t, p + 1, 1, v.braces, limit);
  }

  lemma BareSpanEnd(t: string, p: nat, v: Json, post: string)
    requires At(t, p, Print(v)) && Scannable(v) && At(t, p + |Print(v)|, post) && AllJsonSpace(post)
    requires var e := p + |Print(v)| + |post|; e < |t| && (t[e] == ',' || t[e] == '}' || t[e] == ']')
    requires !Delimited(v)
    ensures p < |t| && !IsJsonSpace(t[p])
    ensures SpanEnd(t, p) == p + |Print(v)| + |post|
  {
    hide At, Print, Scannable;
    BareText(v);
    AtChars(t, p, Print(v));
    AtChars(t, p + |Print(v)|, post);
    var e := p + |Print(v)| + |post|;
    forall k | p <= k < e ensures t[k] != ',' && t[k] != '}' && t[k] != ']' {
      if k < p + |Print(v)| {
        assert Print(v)[k - p] in Print(v);
      } else {
        assert post[k - p - |Print(v)|] in post;
      }
    }
    assert Print(v)[0] in Print(v);
    BareEndExact(t, p, e);
  }

  /** The end found for a printed value: exact, at any depth, but for white space after a bare one. */
  lemma SpanEndExact(t: string, p: nat, v: Json, post: string)
    requires At(t, p, Print(v)) && Scannable(v) && At(t, p + |Print(v)|, post) && AllJsonSpace(post)
    requires var e := p + |Print(v)| + |post|; e < |t| && (t[e] == ',' || t[e] == '}' || t[e] == ']')
    ensures p < |t| && !IsJsonSpace(t[p])
    ensures SpanEnd(t, p) == p + |Print(v)| + (if Delimited(v) then 0 else |post|)
  {
    hide At, ScannableItems, PrintItems, SpanEnd, ClosedBody, PrintNumeral;
    if v.String? {
      StringSpanEnd(t, p, v.body);
    } else if v.Container? {
      ContainerSpanEnd(t, p, v);
    } else {
      BareSpanEnd(t, p, v, post);
    }
  }

  lemma BareText(v: Json)
    requires Scannable(v) && !Delimited(v)
    ensures Print(v) != ""
    ensures forall c | c in Print(v) :: IsDigit(c) || c in "-+.eEnultrfas"
  {
    if v.Number? {
      NumeralIsPlain(v.numeral);
    }
  }
}
