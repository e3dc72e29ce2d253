/**
  The adapter's own scanners over a span of JSON text. Neither parses: both look for the text of a
  quoted key anywhere, inside strings too.
 */
module Extract {
  import opened Text
  import opened Json
  import opened ParserSpec

  // --------------------------------------------------------------- what they find

  function SkipBlank(t: string, i: nat): (j: nat)
    requires i <= |t|
    ensures i <= j <= |t|
    ensures forall k :: i <= k < j ==> IsJsonSpace(t[k])
    ensures j < |t| ==> !IsJsonSpace(t[j])
    decreases |t| - i
  {
    if i < |t| && IsJsonSpace(t[i]) then SkipBlank(t, i + 1) else i
  }

  /** A quote at `q`, the key, and a closing quote. */
  predicate KeyAt(t: string, q: nat, key: string) {
    && q + 1 + |key| + 1 <= |t|
    && t[q] == '"' && t[q + 1..q + 1 + |key|] == key && t[q + 1 + |key|] == '"'
  }

  /** After the quoted key at `q`: white space, a colon, white space. */
  function AfterColon(t: string, q: nat, key: string): (r: Option<nat>)
    requires KeyAt(t, q, key)
    ensures r.Some? ==> q < r.value <= |t|
  {
    var colon := SkipBlank(t, q + |key| + 2);
    if colon < |t| && t[colon] == ':' then Some(SkipBlank(t, colon + 1)) else None
  }

  /** `"key" : "` at `q`: the position where the string value's content starts. */
  function StringMatch(t: string, q: nat, key: string): (r: Option<nat>)
    ensures r.Some? ==> q < r.value <= |t|
  {
    if !KeyAt(t, q, key) then None
    else
      match AfterColon(t, q, key)
      case None => None
      case Some(v) => if v < |t| && t[v] == '"' then Some(v + 1) else None
  }

  /** The first position from `p` on that satisfies a test, or the end of the text. */
  function FirstKey(t: string, p: nat, key: string): (q: nat)
    requires p <= |t|
    ensures p <= q <= |t|
    ensures q < |t| ==> KeyAt(t, q, key)
    ensures forall k :: p <= k < q ==> !KeyAt(t, k, key)
    decreases |t| - p
  {
    if p == |t| || KeyAt(t, p, key) then p else FirstKey(t, p + 1, key)
  }

  function FirstStringMatch(t: string, p: nat, key: string): (q: nat)
    requires p <= |t|
    ensures p <= q <= |t|
    ensures q < |t| ==> StringMatch(t, q, key).Some?
    ensures forall k :: p <= k < q ==> StringMatch(t, k, key).None?
    decreases |t| - p
  {
    if p == |t| || StringMatch(t, p, key).Some? then p else FirstStringMatch(t, p + 1, key)
  }

  function ExtractedString(t: string, key: string): Option<Span> {
    var q := FirstStringMatch(t, 0, key);
    if q == |t| then None
    else
      var start := StringMatch(t, q, key).value;
      match StringEnd(t, start)
      case None => None
      case Some(e) => Some(Span(start, e - start))
  }

  /** The bracket loop of `extract_value_span`; an escape at the very end carries it one past the end. */
  function BracketEnd(t: string, p: nat, depth: nat, braces: bool, inString: bool): (e: nat)
    requires p <= |t| + 1
    ensures p <= e <= |t| + 1
    decreases |t| + 1 - p
  {
    if p >= |t| then p
    else if inString then
      if t[p] == '\\' then BracketEnd(t, p + 2, depth, braces, true)
      else BracketEnd(t, p + 1, depth, braces, t[p] != '"')
    else if t[p] == '"' then BracketEnd(t, p + 1, depth, braces, true)
    else if t[p] == OpenOf(braces) then BracketEnd(t, p + 1, depth + 1, braces, false)
    else if t[p] == CloseOf(braces) && depth > 0 then
      if depth == 1 then p + 1 else BracketEnd(t, p + 1, depth - 1, braces, false)
    else BracketEnd(t, p + 1, depth, braces, false)
  }

  function QuotedEnd(t: string, p: nat): (e: nat)
    requires p <= |t| + 1
    ensures p <= e <= |t| + 1
    decreases |t| + 1 - p
  {
    if p >= |t| then p
    else if t[p] == '"' then p + 1
    else if t[p] == '\\' then QuotedEnd(t, p + 2)
    else QuotedEnd(t, p + 1)
  }

  function BareEnd(t: string, p: nat): (e: nat)
    requires p <= |t|
    ensures p <= e <= |t|
    ensures e < |t| ==> t[e] == ',' || t[e] == '}' || t[e] == ']'
    decreases |t| - p
  {
    if p == |t| || t[p] == ',' || t[p] == '}' || t[p] == ']' then p else BareEnd(t, p + 1)
  }

  function SpanEnd(t: string, p: nat): (e: nat)
    requires p < |t|
    ensures p <= e <= |t| + 1
  {
    if t[p] == '{' || t[p] == '[' then BracketEnd(t, p, 0, t[p] == '{', false)
    else if t[p] == '"' then QuotedEnd(t, p + 1)
    else BareEnd(t, p)
  }

  function ExtractedSpan(t: string, key: string): (r: Option<Span>)
    ensures r.Some? ==> r.value.End() <= |t| + 1
  {
    var q := FirstKey(t, 0, key);
    if q == |t| then None
    else
      match AfterColon(t, q, key)
      case None => None
      case Some(p) => if p == |t| then None else Some(Span(p, SpanEnd(t, p) - p))
  }

  // ------------------------------------------------------------------- the loops

  /** `memchr` for the next quote. */
  method FindQuote(t: string, p: nat) returns (q: nat)
    requires p <= |t|
    ensures p <= q <= |t|
    ensures q < |t| ==> t[q] == '"'
    ensures forall k :: p <= k < q ==> t[k] != '"'
  {
    q := p;
    while q < |t| && t[q] != '"'
      invariant p <= q <= |t|
      invariant forall k :: p <= k < q ==> t[k] != '"'
    {
      q := q + 1;
    }
  }

  method SkipBlanks(t: string, p: nat) returns (j: nat)
    requires p <= |t|
    ensures j == SkipBlank(t, p)
  {
    j := p;
    while j < |t| && IsJsonSpace(t[j])
      invariant j <= |t| && SkipBlank(t, j) == SkipBlank(t, p)
    {
      j := j + 1;
    }
  }

  lemma NoQuoteNoMatch(t: string, p: nat, q: nat, key: string)
    requires p <= q <= |t|
    requires forall k :: p <= k < q ==> t[k] != '"'
    ensures FirstKey(t, p, key) == FirstKey(t, q, key)
    ensures FirstStringMatch(t, p, key) == FirstStringMatch(t, q, key)
    decreases q - p
  {
    if p < q {
      NoQuoteNoMatch(t, p + 1, q, key);
    }
  }

  lemma {:induction false} TooShortNoMatch(t: string, p: nat, key: string)
    requires p <= |t| < p + 1 + |key| + 1
    ensures FirstKey(t, p, key) == |t| && FirstStringMatch(t, p, key) == |t|
    decreases |t| - p
  {
    if p < |t| {
      TooShortNoMatch(t, p + 1, key);
    }
  }

  /** The byte comparisons at an opening quote: the key, then its closing quote. */
  method KeyHere(t: string, quote: nat, key: string) returns (here: bool)
    requires quote < |t| && t[quote] == '"' && quote + 1 + |key| + 1 <= |t|
    ensures here == KeyAt(t, quote, key)
  {
    var p := quote + 1;
    if t[p..p + |key|] != key { return false; }
    return t[p + |key|] == '"';
  }

  method PastColon(t: string, quote: nat, key: string) returns (r: Option<nat>)
    requires KeyAt(t, quote, key)
    ensures r == AfterColon(t, quote, key)
  {
    var p := SkipBlanks(t, quote + |key| + 2);
    if p >= |t| || t[p] != ':' { return None; }
    p := SkipBlanks(t, p + 1);
    return Some(p);
  }

  method StringContentEnd(t: string, start: nat) returns (r: Option<nat>)
    requires start <= |t|
    ensures r == StringEnd(t, start)
  {
    var p := start;
    while p < |t| && t[p] != '"'
      invariant start <= p <= |t| && StringEnd(t, p) == StringEnd(t, start)
    {
      if t[p] == '\\' && p + 1 < |t| { p := p + 1; }
      p := p + 1;
    }
    return if p >= |t| then None else Some(p);
  }

  method ExtractString(t: string, key: string) returns (r: Option<Span>)
    ensures r == ExtractedString(t, key)
  {
    hide KeyAt, AfterColon, StringEnd;
    var p := 0;
    while p < |t|
      invariant p <= |t|
      invariant FirstStringMatch(t, p, key) == FirstStringMatch(t, 0, key)
      decreases |t| - p
    {
      var quote := FindQuote(t, p);
      NoQuoteNoMatch(t, p, quote, key);
      if quote == |t| { break; }
      if quote + 1 + |key| + 1 > |t| {
        TooShortNoMatch(t, quote, key);
        break;
      }
      p := quote + 1;
      var here := KeyHere(t, quote, key);
      if !here { continue; }
      var value := PastColon(t, quote, key);
      if value.None? || value.value >= |t| || t[value.value] != '"' { continue; }
      var start := value.value + 1;
      var end := StringContentEnd(t, start);
      if end.None? { return None; }
      return Some(Span(start, end.value - start));
    }
    return None;
  }

  method ScanBrackets(t: string, start: nat) returns (p: nat)
    requires start < |t| && (t[start] == '{' || t[start] == '[')
    ensures p == SpanEnd(t, start)
  {
    var open := t[start];
    var close := if open == '{' then '}' else ']';
    var depth, inStr := 0, false;
    p := start;
    while p < |t|
      invariant start <= p <= |t| + 1 && depth >= 0
      invariant if p == start then depth == 0 && !inStr else depth > 0
      invariant BracketEnd(t, p, depth, open == '{', inStr) == SpanEnd(t, start)
      decreases |t| + 1 - p
    {
      if inStr {
        if t[p] == '\\' {
          p := p + 1;
        } else if t[p] == '"' {
          inStr := false;
        }
      } else if t[p] == '"' {
        inStr := true;
      } else if t[p] == open {
        depth := depth + 1;
      } else if t[p] == close {
        depth := depth - 1;
        if depth == 0 {
          p := p + 1;
          break;
        }
      }
      p := p + 1;
    }
  }

  method ScanValue(t: string, start: nat) returns (p: nat)
    requires start < |t|
    ensures p == SpanEnd(t, start)
  {
    p := start;
    if t[p] == '{' || t[p] == '[' {
      p := ScanBrackets(t, start);
    } else if t[p] == '"' {
      p := p + 1;
      while p < |t| && t[p] != '"'
        invariant p <= |t| + 1 && QuotedEnd(t, p) == QuotedEnd(t, start + 1)
        decreases |t| + 1 - p
      {
        if t[p] == '\\' { p := p + 1; }
        p := p + 1;
      }
      if p < |t| { p := p + 1; }
    } else {
      while p < |t| && t[p] != ',' && t[p] != '}' && t[p] != ']'
        invariant p <= |t| && BareEnd(t, p) == BareEnd(t, start)
      {
        p := p + 1;
      }
    }
  }

  method ExtractValueSpan(t: string, key: string) returns (r: Option<Span>)
    ensures r == ExtractedSpan(t, key)
  {
    hide KeyAt, AfterColon, SpanEnd;
    var p := 0;
    while p < |t|
      invariant p <= |t|
      invariant FirstKey(t, p, key) == FirstKey(t, 0, key)
      decreases |t| - p
    {
      var quote := FindQuote(t, p);
      NoQuoteNoMatch(t, p, quote, key);
      if quote == |t| { return None; }
      if quote + 1 + |key| + 1 > |t| {
        TooShortNoMatch(t, quote, key);
        return None;
      }
      p := quote + 1;
      var here := KeyHere(t, quote, key);
      if !here { continue; }
      var value := PastColon(t, quote, key);
      if value.None? || value.value >= |t| { return None; }
      var e := ScanValue(t, value.value);
      return Some(Span(value.value, e - value.value));
    }
    return None;
  }
}
