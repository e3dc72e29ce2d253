/** Injection patterns before and after redaction and escaping, and the sanitizer as a whole. */
module Injection {
  import opened Text
  import opened Escape
  import opened Sanitizer

  function Patterns(): seq<string> {
    ["ignore previous", "forget about", "disregard", "override",
     "bypass", "instead do this", "now you are", "you are now"]
  }

  /** `std::tolower` in the C locale. */
  function Lower(c: char): char {
    if 'A' <= c <= 'Z' then (c as int + 32) as char else c
  }

  function LowerAll(s: string): string {
    if s == "" then "" else [Lower(s[0])] + LowerAll(s[1..])
  }

  /** A lower-case text begins with the pattern. */
  predicate Begins(s: string, p: string)
    decreases |p|
  {
    p == "" || (s != "" && Lower(s[0]) == p[0] && Begins(s[1..], p[1..]))
  }

  /** The pattern occurs somewhere, in any case. */
  predicate Occurs(s: string, p: string)
    decreases |s|
  {
    Begins(s, p) || (s != "" && Occurs(s[1..], p))
  }

  predicate Suspicious(s: string) {
    exists i | 0 <= i < |Patterns()| :: Occurs(s, Patterns()[i])
  }

  lemma {:induction false} LowerChars(s: string)
    ensures |LowerAll(s)| == |s|
    ensures forall i | 0 <= i < |s| :: LowerAll(s)[i] == Lower(s[i])
  {
    if s != "" {
      LowerChars(s[1..]);
    }
  }

  lemma {:induction false} BeginsIsAt(s: string, i: nat, p: string)
    requires i <= |s|
    ensures Begins(s[i..], p) <==> At(LowerAll(s), i, p)
    decreases |p|
  {
    LowerChars(s);
    hide Lower;
    if p != "" && i < |s| {
      assert s[i..][1..] == s[i + 1..];
      BeginsIsAt(s, i + 1, p[1..]);
    }
  }

  lemma {:induction false} OccursFrom(s: string, i: nat, p: string)
    requires i <= |s|
    ensures Occurs(s[i..], p) <==> exists k | i <= k <= |s| :: At(LowerAll(s), k, p)
    decreases |s| - i
  {
    hide Begins, At, LowerAll;
    BeginsIsAt(s, i, p);
    if i < |s| {
      assert s[i..][1..] == s[i + 1..];
      OccursFrom(s, i + 1, p);
    }
  }

  /** The recursive reading is what `find` on the lower-case text finds. */
  lemma OccursIsContains(s: string, p: string)
    ensures Occurs(s, p) <==> Contains(LowerAll(s), p)
  {
    LowerChars(s);
    OccursFrom(s, 0, p);
    assert s[0..] == s;
    var t := LowerAll(s);
    if Contains(t, p) {
      var k :| 0 <= k <= |t| && At(t, k, p);
      AtSlice(t, k, p);
      assert At(t, k, p);
    }
  }

  method ContainsInjectionPatterns(response: string) returns (found: bool)
    ensures found == Suspicious(response)
  {
    var lower := "";
    for k := 0 to |response|
      invariant lower + LowerAll(response[k..]) == LowerAll(response)
    {
      assert response[k..][1..] == response[k + 1..];
      ghost var before := lower;
      lower := lower + [Lower(response[k])];
      assert before + ([Lower(response[k])] + LowerAll(response[k + 1..])) == lower + LowerAll(response[k + 1..]);
    }
    assert lower + "" == lower;
    hide Occurs;
    var patterns := Patterns();
    hide Patterns;
    for i := 0 to |patterns|
      invariant forall j :: 0 <= j < i ==> !Occurs(response, patterns[j])
    {
      OccursIsContains(response, patterns[i]);
      if Contains(lower, patterns[i]) {
        return true;
      }
    }
    return false;
  }

  // ------------------------------------------------------------------- patterns

  /** Lower-case letters and blanks. */
  predicate PlainChar(c: char) {
    'a' <= c <= 'z' || c == ' '
  }

  predicate Plain(p: string) {
    p == "" || (PlainChar(p[0]) && Plain(p[1..]))
  }

  lemma {:induction false} PlainWord(p: string)
    requires forall c | c in p :: PlainChar(c)
    ensures Plain(p)
  {
    if p != "" {
      assert p[0] in p && forall c | c in p[1..] :: c in p;
      PlainWord(p[1..]);
    }
  }

  lemma PatternsArePlain(i: nat)
    requires i < |Patterns()|
    ensures Plain(Patterns()[i]) && |Patterns()[i]| >= 6
  {
    hide Plain;
    var p := Patterns()[i];
    assert forall c | c in p :: PlainChar(c);
    PlainWord(p);
  }

  // ------------------------------------------------------------------ redaction

  /** What redacted text begins with, the text began with. */
  lemma {:induction false} RedactBegins(start: bool, s: string, p: string)
    requires Plain(p) && Begins(Redact(start, s), p)
    ensures Begins(s, p)
    decreases |p|
  {
    hide PathStarts, Head;
    if p != "" {
      var r := Redact(start, s);
      if PathStarts(start, s) {
        assert false;
      } else {
        assert r[0] == s[0] && r[1..] == Redact(IsSpace(s[0]), s[1..]);
        RedactBegins(IsSpace(s[0]), s[1..], p[1..]);
      }
    }
  }

  /** A pattern of five characters or more reaches beyond the marker only from behind it. */
  lemma PastTheMarker(rest: string, p: string)
    requires Plain(p) && |p| >= 5 && Occurs(REDACTED + rest, p)
    ensures Occurs(rest, p)
  {
    var s := REDACTED + rest;
    hide Plain;
    NoneAt(s, p, 0);
    NoneAt(s, p, 1);
    NoneAt(s, p, 2);
    NoneAt(s, p, 3);
    NoneAt(s, p, 4);
    NoneAt(s, p, 5);
    NoneAt(s, p, 6);
    hide Begins, Occurs;
    assert s[0..] == s && s[7..] == rest;
  }

  /** No pattern starts in the marker. */
  lemma NoneAt(s: string, p: string, k: nat)
    requires k < 7 <= |s| && s[..7] == REDACTED && Plain(p) && |p| >= 5
    ensures !Begins(s[k..], p)
    ensures Occurs(s[k..], p) <==> Occurs(s[k + 1..], p)
  {
    assert s[k..][1..] == s[k + 1..];
    var bad := if k < 2 then k else 6;
    assert s[bad] == s[..7][bad];
    if Begins(s[k..], p) {
      BeginsAt(s[k..], p, bad - k);
    }
  }

  /** Character by character. */
  lemma {:induction false} BeginsAt(s: string, p: string, k: nat)
    requires Begins(s, p) && Plain(p) && k < |p|
    ensures k < |s| && Lower(s[k]) == p[k] && PlainChar(p[k])
    decreases k
  {
    if k > 0 {
      BeginsAt(s[1..], p[1..], k - 1);
    }
  }

  lemma {:induction false} OccursInSuffix(s: string, k: nat, p: string)
    requires k <= |s| && Occurs(s[k..], p)
    ensures Occurs(s, p)
    decreases k
  {
    if k > 0 {
      assert s[1..][k - 1..] == s[k..];
      OccursInSuffix(s[1..], k - 1, p);
    } else {
      assert s[0..] == s;
    }
  }

  /** Redaction never introduces a pattern. */
  lemma {:induction false} RedactAddsNone(start: bool, s: string, p: string)
    requires Plain(p) && |p| >= 5 && Occurs(Redact(start, s), p)
    ensures Occurs(s, p)
    decreases |s|
  {
    hide Head, Plain, Begins;
    if s != "" {
      var r := Redact(start, s);
      if PathStarts(start, s) {
        var k := |Head(s)|;
        hide Occurs;
        PastTheMarker(Redact(false, s[k..]), p);
        RedactAddsNone(false, s[k..], p);
        OccursInSuffix(s, k, p);
      } else if Begins(r, p) {
        RedactBegins(start, s, p);
      } else {
        assert r[1..] == Redact(IsSpace(s[0]), s[1..]);
        RedactAddsNone(IsSpace(s[0]), s[1..], p);
      }
    }
  }

  // ------------------------------------------------------------------- escaping

  /** The character is escaped, and what the escape ends in starts the pattern. */
  predicate EscapeStarts(c: char, p: string)
    requires p != ""
  {
    var e := EscapeChar(c);
    |e| > 1 && Lower(e[|e| - 1]) == p[0]
  }

  /** Somewhere the end of an escape and the text after it spell the pattern. */
  predicate SpeltByEscape(s: string, p: string)
    requires p != ""
    decreases |s|
  {
    s != "" && ((EscapeStarts(s[0], p) && Begins(s[1..], p[1..])) || SpeltByEscape(s[1..], p))
  }

  /** An escape is a backslash and one character, or a backslash, `u00`, a digit and one character. */
  lemma EscapeShapes(c: char)
    ensures var e := EscapeChar(c);
            || e == [c]
            || (e[0] == '\\' && !PlainChar(Lower(c))
                && (|e| == 2 || (|e| == 6 && e[1] == 'u' && e[2] == '0' && e[3] == '0' && IsDigit(e[4]))))
  {
    if c < ' ' && |EscapeChar(c)| == 6 {
      assert c as nat < 32;
    }
  }

  /** Escaping keeps what a text begins with, as far as patterns go. */
  lemma {:induction false} EscapeBegins(s: string, p: string)
    requires Plain(p)
    ensures Begins(EscapeAll(s), p) <==> Begins(s, p)
    decreases |p|
  {
    hide EscapeChar;
    if p != "" && s != "" {
      EscapeShapes(s[0]);
      var e, rest := EscapeChar(s[0]), EscapeAll(s[1..]);
      if e == [s[0]] {
        assert (e + rest)[1..] == rest;
        EscapeBegins(s[1..], p[1..]);
      } else {
        assert (e + rest)[0] == '\\';
      }
    }
  }

  /** A pattern can start at the last character of an escape, or after it. */
  lemma OccursPastEscape(c: char, rest: string, p: string)
    requires Plain(p) && |p| >= 2 && |EscapeChar(c)| > 1
    ensures var e := EscapeChar(c);
            Occurs(e + rest, p) <==> Begins([e[|e| - 1]] + rest, p) || Occurs(rest, p)
  {
    EscapeShapes(c);
    var e := EscapeChar(c);
    hide EscapeChar;
    var s := e + rest;
    assert s[0..] == s && s[|e|..] == rest && s[|e| - 1..] == [e[|e| - 1]] + rest;
    NoneInEscape(s, p, 0);
    if |e| == 6 {
      NoneInEscape(s, p, 1);
      NoneInEscape(s, p, 2);
      NoneInEscape(s, p, 3);
      NoneInEscape(s, p, 4);
    }
    hide Plain, Begins;
    assert s[|e| - 1..][1..] == rest;
    assert Occurs(s[|e| - 1..], p) <==> Begins(s[|e| - 1..], p) || Occurs(rest, p);
  }

  /** No pattern starts at a character it cannot contain, nor right before one. */
  lemma NoneInEscape(s: string, p: string, k: nat)
    requires k + 1 < |s| && Plain(p) && |p| >= 2
    requires !PlainChar(Lower(s[k])) || !PlainChar(Lower(s[k + 1]))
    ensures Occurs(s[k..], p) <==> Occurs(s[k + 1..], p)
  {
    assert s[k..][1..] == s[k + 1..];
    if Begins(s[k..], p) {
      BeginsAt(s[k..], p, 0);
      BeginsAt(s[k..], p, 1);
      assert false;
    }
  }

  /** A pattern occurs in escaped text exactly when it occurred before, or an escape spells it. */
  lemma {:induction false} EscapedOccurs(s: string, p: string)
    requires Plain(p) && |p| >= 2
    ensures Occurs(EscapeAll(s), p) <==> Occurs(s, p) || SpeltByEscape(s, p)
    decreases |s|
  {
    if s != "" {
      var e, rest := EscapeChar(s[0]), EscapeAll(s[1..]);
      EscapedOccurs(s[1..], p);
      EscapeShapes(s[0]);
      EscapeBegins(s, p);
      if e == [s[0]] {
        hide EscapeChar, Plain, Begins;
        assert (e + rest)[1..] == rest;
      } else {
        OccursPastEscape(s[0], rest, p);
        EscapeBegins(s[1..], p[1..]);
        hide EscapeChar;
        var last := [e[|e| - 1]] + rest;
        assert last[1..] == rest;
      }
    }
  }

  // ------------------------------------------------------------------ the sanitizer

  datatype SanitizeConfig =
    SanitizeConfig(maxResponseSize: nat, truncateOnSizeExceeded: bool, redactPaths: bool, escapeControlChars: bool)

  datatype Sanitized = Clean(text: string) | Refused(error: string)

  const TRUNCATED: string := "\n[OUTPUT TRUNCATED]"

  /** The response within the size limit, or nothing if it is to be refused. */
  function Limited(response: string, config: SanitizeConfig): Option<string> {
    if |response| <= config.maxResponseSize then Some(response)
    else if config.truncateOnSizeExceeded then Some(response[..config.maxResponseSize] + TRUNCATED)
    else None
  }

  function Redacted(text: string, config: SanitizeConfig): string {
    if config.redactPaths then Redact(true, text) else text
  }

  /** What `sanitize` returns. */
  function SanitizeResult(response: string, config: SanitizeConfig): Sanitized {
    match Limited(response, config)
    case None => Refused("Tool response exceeds maximum size")
    case Some(limited) =>
      if Suspicious(limited) then Refused("Tool response contains suspicious patterns")
      else
        var text := Redacted(limited, config);
        Clean(if config.escapeControlChars then EscapeAll(text) else text)
  }

  method Sanitize(response: string, config: SanitizeConfig) returns (r: Sanitized)
    ensures r == SanitizeResult(response, config)
  {
    hide Suspicious, Redact, EscapeAll;
    var result := response;
    if |result| > config.maxResponseSize {
      if config.truncateOnSizeExceeded {
        result := result[..config.maxResponseSize];
        result := result + TRUNCATED;
      } else {
        return Refused("Tool response exceeds maximum size");
      }
    }
    var found := ContainsInjectionPatterns(result);
    if found {
      return Refused("Tool response contains suspicious patterns");
    }
    if config.redactPaths {
      result := RedactPaths(result);
    }
    if config.escapeControlChars {
      result := EscapeControlCharacters(result);
    }
    return Clean(result);
  }

  /** Redacting a text without patterns leaves it without patterns. */
  lemma RedactedIsUnsuspicious(text: string, config: SanitizeConfig)
    requires !Suspicious(text)
    ensures !Suspicious(Redacted(text, config))
  {
    var r := Redacted(text, config);
    forall i | 0 <= i < |Patterns()|
      ensures !Occurs(r, Patterns()[i])
    {
      PatternsArePlain(i);
      if config.redactPaths && Occurs(r, Patterns()[i]) {
        RedactAddsNone(true, text, Patterns()[i]);
      }
    }
  }

  predicate SpeltByEscapes(s: string) {
    exists i | 0 <= i < |Patterns()| && Patterns()[i] != "" :: SpeltByEscape(s, Patterns()[i])
  }

  lemma EscapedText(text: string)
    requires !Suspicious(text)
    ensures Unescape(EscapeAll(text)) == Some(text)
    ensures Suspicious(EscapeAll(text)) <==> SpeltByEscapes(text)
  {
    UnescapeEscape(text);
    forall i | 0 <= i < |Patterns()|
      ensures |Patterns()[i]| >= 6
      ensures Occurs(EscapeAll(text), Patterns()[i]) <==> SpeltByEscape(text, Patterns()[i])
    {
      PatternsArePlain(i);
      EscapedOccurs(text, Patterns()[i]);
    }
  }

  /**
    What the sanitizer returns when it refuses nothing. Without escaping it shows no pattern. With
    escaping it unescapes to such a text, and shows a pattern itself exactly when, in the redacted
    text, the end of some escape and the text behind it spell one.
   */
  lemma SanitizedOutput(response: string, config: SanitizeConfig)
    requires SanitizeResult(response, config).Clean?
    ensures var redacted := Redacted(Limited(response, config).value, config);
            var output := SanitizeResult(response, config).text;
            && !Suspicious(redacted)
            && (!config.escapeControlChars ==> output == redacted)
            && (config.escapeControlChars ==> Unescape(output) == Some(redacted))
            && (Suspicious(output) <==> config.escapeControlChars && SpeltByEscapes(redacted))
  {
    hide Suspicious, SpeltByEscapes, Redacted, EscapeAll, Unescape;
    var limited := Limited(response, config).value;
    RedactedIsUnsuspicious(limited, config);
    EscapedText(Redacted(limited, config));
  }

  lemma {:induction false} OccursNeedsRoom(s: string, p: string)
    requires Occurs(s, p)
    ensures |p| <= |s|
    decreases |s| + |p|
  {
    if Begins(s, p) {
      if p != "" {
        BeginsOccurs(s[1..], p[1..]);
        OccursNeedsRoom(s[1..], p[1..]);
      }
    } else {
      OccursNeedsRoom(s[1..], p);
    }
  }

  lemma BeginsOccurs(s: string, p: string)
    requires Begins(s, p)
    ensures Occurs(s, p)
  {
  }

  /** A backspace in front of `ypass` passes the check, and its escape spells `bypass`. */
  lemma BackspaceSpellsBypass(config: SanitizeConfig) returns (response: string)
    requires config.maxResponseSize >= 6 && config.escapeControlChars
    ensures response == "\U{08}ypass" && SanitizeResult(response, config).Clean?
    ensures Suspicious(SanitizeResult(response, config).text)
  {
    response := "\U{08}ypass";
    BackspacePasses(response);
    BackspaceSpells(response);
    hide Occurs, Redact, EscapeAll, Suspicious, SpeltByEscapes, Unescape;
    RestIsKept(true, response);
    SanitizedOutput(response, config);
  }

  lemma BackspacePasses(text: string)
    requires text == "\U{08}ypass"
    ensures !Suspicious(text)
  {
    forall i | 0 <= i < |Patterns()|
      ensures !Occurs(text, Patterns()[i])
    {
      var p := Patterns()[i];
      if Occurs(text, p) {
        OccursNeedsRoom(text, p);
        assert p == "bypass" && !Begins(text, p);
        OccursNeedsRoom(text[1..], p);
        assert false;
      }
    }
  }

  lemma BackspaceSpells(text: string)
    requires text == "\U{08}ypass"
    ensures SpeltByEscapes(text)
  {
    assert text[1..] == "ypass" == "bypass"[1..];
    assert EscapeStarts(text[0], "bypass");
    hide EscapeStarts;
    BeginsItself("ypass");
    assert Patterns()[4] == "bypass" && SpeltByEscape(text, "bypass");
  }

  lemma {:induction false} BeginsItself(p: string)
    requires Plain(p)
    ensures Begins(p, p)
  {
    if p != "" {
      BeginsItself(p[1..]);
    }
  }

  // ---------------------------------------------------------- the check, letter by letter

  /** The same letter in either case, or the same character. */
  predicate SameLetter(c: char, d: char) {
    || c == d
    || ('a' <= c <= 'z' && d as int == c as int - 32)
    || ('a' <= d <= 'z' && c as int == d as int - 32)
  }

  /** At position `i` the text reads as the phrase. */
  predicate ReadsAs(s: string, i: nat, p: string) {
    i + |p| <= |s| && forall k | 0 <= k < |p| :: SameLetter(s[i + k], p[k])
  }

  lemma LowerIsSameLetter(c: char, d: char)
    requires PlainChar(d)
    ensures Lower(c) == d <==> SameLetter(c, d)
  {
  }

  lemma {:induction false} BeginsReads(s: string, i: nat, p: string)
    requires Plain(p) && i <= |s|
    ensures Begins(s[i..], p) <==> ReadsAs(s, i, p)
    decreases |p|
  {
    hide Lower, SameLetter;
    if p != "" && i < |s| {
      LowerIsSameLetter(s[i], p[0]);
      assert s[i..][1..] == s[i + 1..];
      BeginsReads(s, i + 1, p[1..]);
      if ReadsAs(s, i + 1, p[1..]) && SameLetter(s[i], p[0]) {
        assert forall k | 0 < k < |p| :: s[i + k] == s[i + 1 + (k - 1)] && p[k] == p[1..][k - 1];
      }
      if ReadsAs(s, i, p) {
        assert forall k | 0 <= k < |p| - 1 :: s[i + 1 + k] == s[i + (k + 1)] && p[1..][k] == p[k + 1];
        assert SameLetter(s[i + 0], p[0]);
      }
    }
  }

  lemma {:induction false} OccursReads(s: string, i: nat, p: string)
    requires Plain(p) && i <= |s|
    ensures Occurs(s[i..], p) <==> exists k | i <= k <= |s| :: ReadsAs(s, k, p)
    decreases |s| - i
  {
    hide Begins, ReadsAs, Plain;
    BeginsReads(s, i, p);
    if i < |s| {
      assert s[i..][1..] == s[i + 1..];
      OccursReads(s, i + 1, p);
    }
  }

  /** The phrases, as the source lists them. */
  predicate IsPhrase(p: string) {
    || p == "ignore previous" || p == "forget about" || p == "disregard" || p == "override"
    || p == "bypass" || p == "instead do this" || p == "now you are" || p == "you are now"
  }

  lemma PhrasesArePatterns(p: string)
    ensures IsPhrase(p) <==> exists i | 0 <= i < |Patterns()| :: Patterns()[i] == p
  {
    var t := Patterns();
    assert |t| == 8 && t[0] == "ignore previous" && t[1] == "forget about" && t[2] == "disregard" && t[3] == "override"
           && t[4] == "bypass" && t[5] == "instead do this" && t[6] == "now you are" && t[7] == "you are now";
  }

  /** A text is suspicious exactly when one of the phrases can be read in it, whatever the case of its letters. */
  lemma SuspiciousIffReads(s: string)
    ensures Suspicious(s) <==> exists p, k | IsPhrase(p) && 0 <= k <= |s| :: ReadsAs(s, k, p)
  {
    assert s[0..] == s;
    hide Occurs, ReadsAs, Patterns, IsPhrase, Plain;
    forall i | 0 <= i < |Patterns()|
      ensures Occurs(s, Patterns()[i]) <==> exists k | 0 <= k <= |s| :: ReadsAs(s, k, Patterns()[i])
      ensures IsPhrase(Patterns()[i])
    {
      PatternsArePlain(i);
      OccursReads(s, 0, Patterns()[i]);
      PhrasesArePatterns(Patterns()[i]);
    }
    if p, k :| IsPhrase(p) && 0 <= k <= |s| && ReadsAs(s, k, p) {
      PhrasesArePatterns(p);
      var i :| 0 <= i < |Patterns()| && Patterns()[i] == p;
      assert Occurs(s, Patterns()[i]);
    }
  }

  /** Two texts that differ in the case of letters only are treated alike. */
  lemma CaseDoesNotMatter(s: string, t: string)
    requires |s| == |t| && forall k | 0 <= k < |s| :: SameLetter(s[k], t[k])
    ensures Suspicious(s) <==> Suspicious(t)
  {
    SuspiciousIffReads(s);
    SuspiciousIffReads(t);
    hide Suspicious, IsPhrase;
    forall p, k | IsPhrase(p) && 0 <= k <= |s|
      ensures ReadsAs(s, k, p) <==> ReadsAs(t, k, p)
    {
      PhraseIsLower(p);
    }
  }

  lemma PhraseIsLower(p: string)
    requires IsPhrase(p)
    ensures forall c | c in p :: PlainChar(c)
  {
  }

  /**
    What is refused, and why: a response that is too long, unless it may be cut to the limit and marked,
    and a response in which, cut or not, a phrase can be read. What is returned otherwise is the kept
    text, redacted piece by piece and escaped, as far as that is asked for.
   */
  lemma RefusedIff(response: string, config: SanitizeConfig)
    ensures var max := config.maxResponseSize;
            var kept := if |response| <= max then response else response[..max] + "\n[OUTPUT TRUNCATED]";
            var r := SanitizeResult(response, config);
            if |response| > max && !config.truncateOnSizeExceeded then
              r == Refused("Tool response exceeds maximum size")
            else if exists p, k | IsPhrase(p) && 0 <= k <= |kept| :: ReadsAs(kept, k, p) then
              r == Refused("Tool response contains suspicious patterns")
            else
              var text := if config.redactPaths then JoinWithBlanks(RedactPieces(SplitAtBlanks(kept))) else kept;
              r.Clean? && if config.escapeControlChars then Unescape(r.text) == Some(text) else r.text == text
  {
    hide Suspicious, ReadsAs, IsPhrase, Redact, EscapeAll, Unescape, JoinWithBlanks, RedactPieces, SplitAtBlanks;
    if Limited(response, config).Some? {
      SuspiciousIffReads(Limited(response, config).value);
      RedactIsPiecewise(Limited(response, config).value);
    }
    if SanitizeResult(response, config).Clean? {
      SanitizedOutput(response, config);
    }
  }
}
