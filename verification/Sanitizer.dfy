/** Path redaction, the step of the response sanitizer that rewrites text in place. */
module Sanitizer {
  import opened Text

  // ------------------------------------------------------------ redacting paths

  const REDACTED: string := "/[PATH]"

  function Count(s: string, c: char): nat {
    if s == "" then 0 else (if s[0] == c then 1 else 0) + Count(s[1..], c)
  }

  /** Up to the first blank. */
  function Head(s: string): (h: string)
    ensures h <= s && ' ' !in h && (|h| < |s| ==> s[|h|] == ' ')
  {
    if s == "" || s[0] == ' ' then "" else [s[0]] + Head(s[1..])
  }

  /** A path may start where the text starts or after white space; it needs two slashes before a blank. */
  predicate PathStarts(start: bool, s: string) {
    start && s != "" && s[0] == '/' && Count(Head(s), '/') >= 2
  }

  /** One pass: `start` when the text before `s` is empty or ends in white space. */
  function Redact(start: bool, s: string): string
    decreases |s|
  {
    if s == "" then ""
    else if PathStarts(start, s) then REDACTED + Redact(false, s[|Head(s)|..])
    else [s[0]] + Redact(IsSpace(s[0]), s[1..])
  }

  /** `find` of a character at or after a position; the length if there is none. */
  method FindChar(s: string, c: char, from: nat) returns (k: nat)
    requires from <= |s|
    ensures from <= k <= |s| && (k < |s| ==> s[k] == c)
    ensures forall j :: from <= j < k ==> s[j] != c
  {
    k := from;
    while k < |s| && s[k] != c
      invariant from <= k <= |s| && forall j :: from <= j < k ==> s[j] != c
    {
      k := k + 1;
    }
  }

  predicate Fresh(s: string, pos: nat)
    requires pos <= |s|
  {
    pos == 0 || IsSpace(s[pos - 1])
  }

  method RedactPaths(text: string) returns (result: string)
    ensures result == Redact(true, text)
  {
    hide Redact, PathStarts, Head, Count;
    result := text;
    var pos := FindChar(result, '/', 0);
    assert text[0..] == text;
    Skip(text, 0, pos);
    while pos < |result|
      invariant pos <= |result| && (pos < |result| ==> result[pos] == '/')
      invariant result[..pos] + Redact(Fresh(result, pos), result[pos..]) == Redact(true, text)
      decreases |result| - pos
    {
      var end := FindChar(result, ' ', pos);
      HeadEndsAt(result, pos, end);
      var redacts := false;
      if pos == 0 || IsSpace(result[pos - 1]) {
        var slashes := CountChar(result[pos..end], '/');
        redacts := slashes >= 2;
      }
      RedactHere(result, pos, end, redacts);
      if redacts {
        result := result[..pos] + REDACTED + result[end..];
        pos := pos + 7;
      } else {
        pos := pos + 1;
      }
      ghost var next := pos;
      pos := FindChar(result, '/', pos);
      Skip(result, next, pos);
    }
    assert result[..pos] == result && result[pos..] == "";
    RedactNothing(Fresh(result, pos));
  }

  /** `std::count` over a piece of the text. */
  method CountChar(s: string, c: char) returns (n: nat)
    ensures n == Count(s, c)
  {
    n := 0;
    for k := 0 to |s|
      invariant n + Count(s[k..], c) == Count(s, c)
    {
      assert s[k..][1..] == s[k + 1..];
      if s[k] == c {
        n := n + 1;
      }
    }
  }

  lemma RedactNothing(start: bool)
    ensures Redact(start, "") == ""
  {
  }

  /** Text without slashes is kept. */
  lemma {:induction false} Skip(s: string, from: nat, end: nat)
    requires from <= end <= |s| && forall j :: from <= j < end ==> s[j] != '/'
    ensures s[..from] + Redact(Fresh(s, from), s[from..]) == s[..end] + Redact(Fresh(s, end), s[end..])
    decreases end - from
  {
    hide Head, Count;
    if from < end {
      assert s[from..][1..] == s[from + 1..];
      Skip(s, from + 1, end);
      assert Redact(Fresh(s, from), s[from..]) == [s[from]] + Redact(Fresh(s, from + 1), s[from + 1..]);
      hide Redact;
      assert s[..from + 1] == s[..from] + [s[from]];
    }
  }

  lemma {:induction false} HeadEndsAt(s: string, from: nat, end: nat)
    requires from <= end <= |s| && (end < |s| ==> s[end] == ' ')
    requires forall j :: from <= j < end ==> s[j] != ' '
    ensures Head(s[from..]) == s[from..end]
    decreases end - from
  {
    if from < end {
      assert s[from..][1..] == s[from + 1..];
      HeadEndsAt(s, from + 1, end);
      assert s[from..end] == [s[from]] + s[from + 1..end];
    }
  }

  /** One turn of the loop, at a slash. */
  lemma RedactHere(s: string, pos: nat, end: nat, redacts: bool)
    requires pos < end <= |s| && s[pos] == '/' && (end < |s| ==> s[end] == ' ')
    requires Head(s[pos..]) == s[pos..end]
    requires redacts <==> Fresh(s, pos) && Count(s[pos..end], '/') >= 2
    ensures var r := if redacts then s[..pos] + REDACTED + s[end..] else s;
            var next := if redacts then pos + 7 else pos + 1;
            next <= |r| && s[..pos] + Redact(Fresh(s, pos), s[pos..]) == r[..next] + Redact(Fresh(r, next), r[next..])
  {
    hide Head, Count;
    if redacts {
      var r := s[..pos] + REDACTED + s[end..];
      assert r[pos + 7..] == s[end..] && r[..pos + 7] == s[..pos] + REDACTED;
      assert s[pos..][end - pos..] == s[end..];
      assert r[pos + 6] == REDACTED[6];
      assert s[..pos] + (REDACTED + Redact(false, s[end..])) == s[..pos] + REDACTED + Redact(false, s[end..]);
    } else {
      assert s[pos..][1..] == s[pos + 1..];
      assert Redact(Fresh(s, pos), s[pos..]) == [s[pos]] + Redact(Fresh(s, pos + 1), s[pos + 1..]);
      hide Redact;
      assert s[..pos + 1] == s[..pos] + [s[pos]];
    }
  }

  // -------------------------------------------------- the same, piece by piece

  function SplitAtBlanks(s: string): (pieces: seq<string>)
    ensures |pieces| > 0 && forall p | p in pieces :: ' ' !in p
    decreases |s|
  {
    var h := Head(s);
    if |h| == |s| then [s] else [h] + SplitAtBlanks(s[|h| + 1..])
  }

  function JoinWithBlanks(pieces: seq<string>): string
    requires |pieces| > 0
  {
    if |pieces| == 1 then pieces[0] else pieces[0] + " " + JoinWithBlanks(pieces[1..])
  }

  /** The first slash that starts the piece or follows white space, if there is one. */
  function PathStart(start: bool, p: string): (k: Option<nat>)
    ensures k.Some? ==> k.value < |p| && p[k.value] == '/'
    decreases |p|
  {
    if p == "" then None
    else if start && p[0] == '/' then Some(0)
    else
      var k := PathStart(IsSpace(p[0]), p[1..]);
      if k.Some? then Some(k.value + 1) else None
  }

  /** Everything from there on goes, if it holds two slashes. */
  function Cut(p: string, k: Option<nat>): string
    requires k.Some? ==> k.value < |p|
  {
    if k.Some? && Count(p[k.value..], '/') >= 2 then p[..k.value] + REDACTED else p
  }

  function RedactPiece(start: bool, p: string): string {
    Cut(p, PathStart(start, p))
  }

  function RedactPieces(pieces: seq<string>): (r: seq<string>)
    ensures |r| == |pieces|
  {
    if pieces == [] then [] else [RedactPiece(true, pieces[0])] + RedactPieces(pieces[1..])
  }

  lemma {:induction false} CountInTail(p: string, k: nat, c: char)
    requires k <= |p|
    ensures Count(p[k..], c) <= Count(p, c)
    decreases k
  {
    if k > 0 {
      CountInTail(p[1..], k - 1, c);
      assert p[1..][k - 1..] == p[k..];
    } else {
      assert p[0..] == p;
    }
  }

  lemma HeadOfPiece(p: string, rest: string)
    requires ' ' !in p && (rest == "" || rest[0] == ' ')
    ensures Head(p + rest) == p
  {
    var s := p + rest;
    assert forall j :: 0 <= j < |p| ==> s[j] == p[j] && p[j] in p;
    HeadEndsAt(s, 0, |p|);
    assert s[0..] == s && s[..|p|] == p;
  }

  /** One step of the scan, seen from the first piece. */
  lemma ScanHit(start: bool, p: string, rest: string)
    requires p != "" && ' ' !in p && (rest == "" || rest[0] == ' ')
    requires start && p[0] == '/' && Count(p, '/') >= 2
    ensures Redact(start, p + rest) == REDACTED + Redact(false, rest)
  {
    HeadOfPiece(p, rest);
    hide Head, Count;
    assert (p + rest)[|p|..] == rest;
  }

  lemma ScanMiss(start: bool, p: string, rest: string)
    requires p != "" && ' ' !in p && (rest == "" || rest[0] == ' ')
    requires !(start && p[0] == '/' && Count(p, '/') >= 2)
    ensures Redact(start, p + rest) == [p[0]] + Redact(IsSpace(p[0]), p[1..] + rest)
  {
    HeadOfPiece(p, rest);
    hide Head, Count;
    assert (p + rest)[1..] == p[1..] + rest;
  }

  /** One piece is redacted on its own. */
  lemma {:induction false} RedactOnePiece(start: bool, p: string, rest: string)
    requires ' ' !in p && (rest == "" || rest[0] == ' ')
    ensures Redact(start, p + rest) == RedactPiece(start, p) + Redact(false, rest)
    decreases |p|
  {
    hide Redact, RedactPiece, Count, Head;
    if p == "" {
      assert p + rest == rest;
      NoPath(start, rest);
    } else if start && p[0] == '/' && Count(p, '/') >= 2 {
      ScanHit(start, p, rest);
      PieceHit(start, p);
    } else {
      RedactOnePiece(IsSpace(p[0]), p[1..], rest);
      ScanMiss(start, p, rest);
      PieceMiss(start, p);
      assert [p[0]] + (RedactPiece(IsSpace(p[0]), p[1..]) + Redact(false, rest)) ==
             RedactPiece(start, p) + Redact(false, rest);
    }
  }

  lemma NoPath(start: bool, rest: string)
    requires rest == "" || rest[0] == ' '
    ensures RedactPiece(start, "") == "" && Redact(start, rest) == Redact(false, rest)
  {
  }

  lemma PieceHit(start: bool, p: string)
    requires p != "" && start && p[0] == '/' && Count(p, '/') >= 2
    ensures RedactPiece(start, p) == REDACTED
  {
    assert p[0..] == p && p[..0] == "";
    hide Count;
  }

  lemma PieceMiss(start: bool, p: string)
    requires p != "" && !(start && p[0] == '/' && Count(p, '/') >= 2)
    ensures RedactPiece(start, p) == [p[0]] + RedactPiece(IsSpace(p[0]), p[1..])
  {
    var k := PathStart(IsSpace(p[0]), p[1..]);
    hide Cut;
    if start && p[0] == '/' {
      TooFewLeft(p, k);
    } else {
      LaterCut(p, k);
    }
  }

  lemma TooFewLeft(p: string, k: Option<nat>)
    requires p != "" && p[0] == '/' && Count(p, '/') < 2 && (k.Some? ==> k.value < |p[1..]|)
    ensures Cut(p, Some(0)) == p == [p[0]] + Cut(p[1..], k)
  {
    assert p[0..] == p == [p[0]] + p[1..];
    if k.Some? {
      CountInTail(p[1..], k.value, '/');
    }
  }

  lemma LaterCut(p: string, k: Option<nat>)
    requires p != "" && (k.Some? ==> k.value < |p[1..]|)
    ensures Cut(p, if k.Some? then Some(k.value + 1) else None) == [p[0]] + Cut(p[1..], k)
  {
    hide Count;
    if k.Some? {
      assert p[k.value + 1..] == p[1..][k.value..];
      assert p[..k.value + 1] == [p[0]] + p[1..][..k.value];
      assert p[..k.value + 1] + REDACTED == [p[0]] + (p[1..][..k.value] + REDACTED);
    }
  }

  /** The scan that replaces in place is: split at blanks, redact each piece, join again. */
  lemma {:induction false} RedactIsPiecewise(s: string)
    ensures Redact(true, s) == JoinWithBlanks(RedactPieces(SplitAtBlanks(s)))
    decreases |s|
  {
    var h := Head(s);
    if |h| == |s| {
      assert s + "" == s;
      RedactOnePiece(true, s, "");
      hide RedactPiece, Head;
    } else {
      var rest := s[|h|..];
      assert s == h + rest && rest[0] == ' ' && rest[1..] == s[|h| + 1..];
      RedactIsPiecewise(rest[1..]);
      PiecewiseStep(h, SplitAtBlanks(rest[1..]));
      assert SplitAtBlanks(s) == [h] + SplitAtBlanks(rest[1..]);
      RedactOnePiece(true, h, rest);
      hide RedactPiece, Head, SplitAtBlanks, RedactPieces, JoinWithBlanks;
      assert Redact(false, rest) == " " + Redact(true, rest[1..]);
      hide Redact;
      assert RedactPiece(true, h) + (" " + Redact(true, rest[1..])) ==
             RedactPiece(true, h) + " " + Redact(true, rest[1..]);
    }
  }

  lemma PiecewiseStep(h: string, pieces: seq<string>)
    requires |pieces| > 0
    ensures JoinWithBlanks(RedactPieces([h] + pieces)) ==
            RedactPiece(true, h) + " " + JoinWithBlanks(RedactPieces(pieces))
  {
    hide RedactPiece;
    assert ([h] + pieces)[1..] == pieces;
    var r := RedactPieces([h] + pieces);
    assert r[1..] == RedactPieces(pieces);
  }

  // --------------------------------------------------------------- idempotence

  /** Redaction leaves no more slashes before the first blank than there were. */
  lemma {:induction false} HeadLosesSlashes(start: bool, s: string)
    ensures Count(Head(Redact(start, s)), '/') <= Count(Head(s), '/')
    decreases |s|
  {
    if s != "" {
      if PathStarts(start, s) {
        RedactedHead(Redact(false, s[|Head(s)|..]));
        AfterHead(s);
        assert Redact(start, s) == REDACTED + Redact(false, s[|Head(s)|..]);
      } else if s[0] != ' ' {
        HeadLosesSlashes(IsSpace(s[0]), s[1..]);
        var r := Redact(start, s);
        assert r[0] == s[0] && r[1..] == Redact(IsSpace(s[0]), s[1..]);
        assert Head(r) == [s[0]] + Head(r[1..]) && Head(s) == [s[0]] + Head(s[1..]);
        assert ([s[0]] + Head(r[1..]))[1..] == Head(r[1..]) && ([s[0]] + Head(s[1..]))[1..] == Head(s[1..]);
      }
    }
  }

  /** After a path comes a blank or the end, and redaction keeps that. */
  lemma AfterHead(s: string)
    ensures var r := Redact(false, s[|Head(s)|..]); r == "" || r[0] == ' '
  {
  }

  lemma RedactedHead(rest: string)
    requires rest == "" || rest[0] == ' '
    ensures Head(REDACTED + rest) == REDACTED && Count(REDACTED, '/') == 1
  {
    HeadOfPiece(REDACTED, rest);
    NoSlash("[PATH]");
    assert REDACTED[1..] == "[PATH]";
  }

  lemma {:induction false} NoSlash(s: string)
    requires '/' !in s
    ensures Count(s, '/') == 0
  {
    if s != "" {
      NoSlash(s[1..]);
    }
  }

  /** Text without slashes is kept, from the front. */
  lemma {:induction false} RedactKeeps(start: bool, a: string, rest: string)
    requires '/' !in a && a != ""
    ensures Redact(start, a + rest) == a + Redact(IsSpace(a[|a| - 1]), rest)
    decreases |a|
  {
    var s := a + rest;
    assert s[1..] == a[1..] + rest && s[0] == a[0];
    if |a| == 1 {
      assert a[1..] + rest == rest;
    } else {
      RedactKeeps(IsSpace(a[0]), a[1..], rest);
    }
  }

  lemma RedactedStays(rest: string)
    requires rest == "" || rest[0] == ' '
    ensures Redact(true, REDACTED + rest) == REDACTED + Redact(false, rest)
  {
    var word := "[PATH]";
    RedactedHead(rest);
    assert '/' !in word && word[5] == ']';
    RedactKeeps(false, word, rest);
    hide Redact, Head, Count;
    WithSlash(word, rest);
    WithSlash(word, Redact(false, rest));
    LoneSlash(REDACTED + rest, word + rest);
  }

  lemma WithSlash(word: string, rest: string)
    requires word == "[PATH]"
    ensures REDACTED + rest == "/" + (word + rest)
  {
    assert REDACTED == "/" + word;
  }

  /** A slash alone before the first blank is kept. */
  lemma LoneSlash(s: string, tail: string)
    requires s == "/" + tail && Count(Head(s), '/') < 2
    ensures Redact(true, s) == "/" + Redact(false, tail)
  {
    hide Head, Count;
    assert s[0] == '/' && s[1..] == tail;
  }

  /** Redacting twice is redacting once. */
  lemma {:induction false} RedactIsIdempotent(start: bool, s: string)
    ensures Redact(start, Redact(start, s)) == Redact(start, s)
    decreases |s|
  {
    if s != "" {
      if PathStarts(start, s) {
        var left := s[|Head(s)|..];
        AfterHead(s);
        RedactIsIdempotent(false, left);
        RedactedStays(Redact(false, left));
        hide Head, Count;
      } else {
        var r := Redact(start, s);
        RedactIsIdempotent(IsSpace(s[0]), s[1..]);
        HeadLosesSlashes(start, s);
        hide Head, Count;
        assert r[0] == s[0] && r[1..] == Redact(IsSpace(s[0]), s[1..]);
        assert !PathStarts(start, r);
      }
    }
  }

  // -------------------------------------------------------------------- single words

  lemma {:induction false} CountsSomething(s: string, c: char)
    ensures Count(s, c) > 0 <==> c in s
  {
    if s != "" {
      assert s == [s[0]] + s[1..];
      CountsSomething(s[1..], c);
    }
  }

  lemma {:induction false} RestIsKept(start: bool, s: string)
    requires '/' !in s
    ensures Redact(start, s) == s
    decreases |s|
  {
    if s != "" {
      assert s[0] in s && forall c | c in s[1..] :: c in s;
      RestIsKept(IsSpace(s[0]), s[1..]);
    }
  }

  /** A word from the root with a further slash is a path, whole; with no further slash it is none. */
  lemma RootedWord(p: string, rest: string)
    requires ' ' !in p && '/' !in rest && (rest == "" || rest[0] == ' ')
    ensures '/' in p ==> Redact(true, "/" + p + rest) == "/[PATH]" + rest
    ensures '/' !in p ==> Redact(true, "/" + p + rest) == "/" + p + rest
  {
    var word := "/" + p;
    var s := word + rest;
    assert word[1..] == p && s[0] == '/' && s[|word|..] == rest && s[1..] == p + rest;
    HeadOfPiece(word, rest);
    CountsSomething(p, '/');
    assert Count(word, '/') == 1 + Count(p, '/');
    RestIsKept(false, rest);
    hide Count, Head;
    if '/' !in p {
      RestIsKept(false, p + rest);
    }
  }
}
