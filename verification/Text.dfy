/** Byte strings, positions in them, and the character classes of the C locale. */
module Text {

  datatype Option<+T> = None | Some(value: T)

  /** A piece of a buffer: a start offset and a length in bytes. */
  datatype Span = Span(start: nat, len: nat) {
    function End(): nat { start + len }
  }

  /** The text `t` stands at position `i` of `s`. */
  predicate At(s: string, i: nat, t: string)
    decreases |t|
  {
    i + |t| <= |s| && (t == "" || (s[i] == t[0] && At(s, i + 1, t[1..])))
  }

  lemma AtEmpty(s: string, i: nat)
    requires i <= |s|
    ensures At(s, i, "")
  {
  }

  lemma AtOne(s: string, i: nat, c: char)
    ensures At(s, i, [c]) <==> i < |s| && s[i] == c
  {
  }

  /** The same, said with a slice. */
  lemma {:induction false} AtSlice(s: string, i: nat, t: string)
    ensures At(s, i, t) <==> i + |t| <= |s| && s[i..i + |t|] == t
    decreases |t|
  {
    if i + |t| <= |s| && t != "" {
      AtSlice(s, i + 1, t[1..]);
      assert s[i..i + |t|] == [s[i]] + s[i + 1..i + |t|];
      assert t == [t[0]] + t[1..];
    }
  }

  lemma AtWhole(t: string)
    ensures At(t, 0, t)
  {
    AtSlice(t, 0, t);
    assert t[0..0 + |t|] == t;
  }

  lemma {:induction false} AtSplit(s: string, i: nat, a: string, b: string)
    ensures At(s, i, a + b) <==> At(s, i, a) && At(s, i + |a|, b)
    decreases |a|
  {
    if a == "" {
      assert a + b == b;
    } else {
      assert (a + b)[1..] == a[1..] + b;
      AtSplit(s, i + 1, a[1..], b);
    }
  }

  /** What stands at a position, character by character. */
  lemma {:induction false} AtChars(s: string, i: nat, t: string)
    requires At(s, i, t)
    ensures forall k :: i <= k < i + |t| ==> s[k] == t[k - i]
    decreases |t|
  {
    if t != "" {
      AtChars(s, i + 1, t[1..]);
    }
  }

  /** `std::isspace` in the C locale. */
  predicate IsSpace(c: char) {
    c == ' ' || c == '\t' || c == '\n' || c == '\r' || c == '\U{0B}' || c == '\U{0C}'
  }

  /** In ASCII: the tabs, feeds and return from 9 to 13, and the blank. */
  lemma SpaceCodes(c: char)
    ensures IsSpace(c) <==> 9 <= c as int <= 13 || c as int == 32
  {
  }

  /** The white space of section 2 of RFC 8259. */
  predicate IsJsonSpace(c: char) {
    c == ' ' || c == '\t' || c == '\n' || c == '\r'
  }

  predicate IsDigit(c: char) {
    '0' <= c <= '9'
  }

  predicate AllJsonSpace(t: string) {
    forall c | c in t :: IsJsonSpace(c)
  }

  predicate AllDigits(t: string) {
    forall c | c in t :: IsDigit(c)
  }

  /** What a C routine reads through `c_str()`: everything before the first NUL. */
  function CStr(s: string): (r: string)
    ensures r <= s
    ensures '\0' !in r
    ensures '\0' !in s ==> r == s
    ensures |r| < |s| ==> s[|r|] == '\0'
  {
    if s == [] || s[0] == '\0' then [] else [s[0]] + CStr(s[1..])
  }

  /** `std::string::find` succeeds. */
  predicate Contains(s: string, t: string) {
    exists i | 0 <= i <= |s| :: At(s, i, t)
  }
}
