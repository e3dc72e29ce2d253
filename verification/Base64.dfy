/**
  Base64 with padding, section 4 of RFC 4648. Bytes are 8-bit vectors; masks, shifts and sums are
  computed in 32 bits, as C++ promotes them, and must fit 8 bits where they are stored.
 */
module Base64 {
  import opened Text

  /** The alphabet, by ranges: upper case, lower case, digits, `+` and `/`. */
  function Letter(k: nat): char
    requires k < 64
  {
    if k < 26 then ('A' as int + k) as char
    else if k < 52 then ('a' as int + (k - 26)) as char
    else if k < 62 then ('0' as int + (k - 52)) as char
    else if k == 62 then '+' else '/'
  }

  function Alphabet(): string {
    seq(64, k requires 0 <= k < 64 => Letter(k))
  }

  /** `find` in the alphabet, from a position on. */
  function Find(c: char, from: nat): (k: Option<nat>)
    requires from <= 64
    ensures k.Some? ==> from <= k.value < 64 && Alphabet()[k.value] == c
    ensures k.None? ==> forall i :: from <= i < 64 ==> Alphabet()[i] != c
    decreases 64 - from
  {
    if from == 64 then None else if Alphabet()[from] == c then Some(from) else Find(c, from + 1)
  }

  function Sextet0(a: bv8): (p: bv8)
    ensures p < 64
  {
    ((a as bv32 & 0xfc) >> 2) as bv8
  }

  function Sextet1(a: bv8, b: bv8): (q: bv8)
    ensures q < 64
  {
    (((a as bv32 & 0x03) << 4) + ((b as bv32 & 0xf0) >> 4)) as bv8
  }

  function Sextet2(b: bv8, c: bv8): (r: bv8)
    ensures r < 64
  {
    (((b as bv32 & 0x0f) << 2) + ((c as bv32 & 0xc0) >> 6)) as bv8
  }

  function Sextet3(c: bv8): (s: bv8)
    ensures s < 64
  {
    (c as bv32 & 0x3f) as bv8
  }

  function Byte0(p: bv8, q: bv8): bv8
    requires p < 64 && q < 64
  {
    ((p as bv32 << 2) + ((q as bv32 & 0x30) >> 4)) as bv8
  }

  function Byte1(q: bv8, r: bv8): bv8
    requires q < 64 && r < 64
  {
    (((q as bv32 & 0xf) << 4) + ((r as bv32 & 0x3c) >> 2)) as bv8
  }

  function Byte2(r: bv8, s: bv8): bv8
    requires r < 64 && s < 64
  {
    (((r as bv32 & 0x3) << 6) + s as bv32) as bv8
  }

  lemma BytesOfSextets(a: bv8, b: bv8, c: bv8)
    ensures Byte0(Sextet0(a), Sextet1(a, b)) == a
    ensures Byte1(Sextet1(a, b), Sextet2(b, c)) == b
    ensures Byte2(Sextet2(b, c), Sextet3(c)) == c
  {
  }

  function LetterOf(s: bv8): char
    requires s < 64
  {
    Alphabet()[s as int]
  }

  /** The sextet a letter stands for. */
  function Digit(c: char): (s: Option<bv8>)
    ensures s.Some? ==> s.value < 64
  {
    var k := Find(c, 0);
    if k.Some? then Some(k.value as bv8) else None
  }

  lemma LettersDiffer(j: nat, k: nat)
    requires j < 64 && k < 64 && Alphabet()[j] == Alphabet()[k]
    ensures j == k
  {
  }

  lemma DigitOfLetter(s: bv8)
    requires s < 64
    ensures Digit(LetterOf(s)) == Some(s) && LetterOf(s) != '='
  {
    var k := Find(LetterOf(s), 0);
    hide Find;
    LettersDiffer(k.value, s as int);
  }

  lemma LetterOfDigit(c: char)
    requires Digit(c).Some?
    ensures LetterOf(Digit(c).value) == c
  {
    var k := Find(c, 0);
    hide Find, Letter;
    ThereAndBack(k.value);
  }

  lemma ThereAndBack(k: nat)
    requires k < 64
    ensures (k as bv8) as int == k
  {
  }

  // ------------------------------------------------------------------- encoding

  function Four(a: bv8, b: bv8, c: bv8): (t: string)
    ensures |t| == 4
  {
    [LetterOf(Sextet0(a)), LetterOf(Sextet1(a, b)), LetterOf(Sextet2(b, c)), LetterOf(Sextet3(c))]
  }

  function Encode(data: seq<bv8>): string {
    if data == [] then ""
    else if |data| == 1 then Four(data[0], 0, 0)[..2] + "=="
    else if |data| == 2 then Four(data[0], data[1], 0)[..3] + "="
    else Four(data[0], data[1], data[2]) + Encode(data[3..])
  }

  /** Fills the four-letter buffer from the three-byte one. */
  method Split(three: array<bv8>, four: array<bv8>)
    requires three.Length == 3 && four.Length == 4
    modifies four
    ensures forall k :: 0 <= k < 4 ==> four[k] < 64 && LetterOf(four[k]) == Four(three[0], three[1], three[2])[k]
  {
    hide LetterOf;
    four[0] := ((three[0] as bv32 & 0xfc) >> 2) as bv8;
    four[1] := (((three[0] as bv32 & 0x03) << 4) + ((three[1] as bv32 & 0xf0) >> 4)) as bv8;
    four[2] := (((three[1] as bv32 & 0x0f) << 2) + ((three[2] as bv32 & 0xc0) >> 6)) as bv8;
    four[3] := (three[2] as bv32 & 0x3f) as bv8;
  }

  /** Appends the letters of the first `n` sextets of the buffer. */
  method AppendLetters(buf: string, four: array<bv8>, n: nat, ghost letters: string) returns (r: string)
    requires n <= four.Length == |letters|
    requires forall k :: 0 <= k < four.Length ==> four[k] < 64 && LetterOf(four[k]) == letters[k]
    ensures r == buf + letters[..n]
  {
    hide LetterOf;
    r := buf;
    for k := 0 to n
      invariant r == buf + letters[..k]
    {
      r := r + [LetterOf(four[k])];
    }
  }

  /** The last one or two bytes, with their padding. */
  method EncodeLast(buf: string, three: array<bv8>, four: array<bv8>, i: nat) returns (r: string)
    requires three.Length == 3 && four.Length == 4 && three != four && 0 < i < 3
    modifies three, four
    ensures r == buf + Encode(old(three[..i]))
  {
    hide LetterOf, Sextet0, Sextet1, Sextet2, Sextet3;
    ghost var left := three[..i];
    for j := i to 3
      invariant three[..i] == left && forall k :: i <= k < j ==> three[k] == 0
    {
      three[j] := 0;
    }
    Split(three, four);
    ghost var group := Four(three[0], three[1], three[2]);
    EncodeTail(left, three[0], three[1], group);
    hide Four, Encode;
    r := AppendLetters(buf, four, i + 1, group);
    ghost var n, letters := i, r;
    var m := i;
    while m < 3
      invariant n <= m <= 3 && r == letters + seq(m - n, _ => '=')
    {
      m := m + 1;
      r := r + "=";
    }
    assert buf + group[..n + 1] + seq(3 - n, _ => '=') == buf + (group[..n + 1] + seq(3 - n, _ => '='));
  }

  /** The four letters of three bytes. */
  method EncodeThree(buf: string, three: array<bv8>, four: array<bv8>) returns (r: string)
    requires three.Length == 3 && four.Length == 4 && three != four
    modifies four
    ensures r == buf + Four(three[0], three[1], three[2])
  {
    Split(three, four);
    ghost var group := Four(three[0], three[1], three[2]);
    hide Four, LetterOf;
    r := AppendLetters(buf, four, 4, group);
  }

  method Base64Encode(data: seq<bv8>) returns (result: string)
    ensures result == Encode(data)
  {
    hide Encode, Four;
    result := "";
    var i := 0;
    var three, four := new bv8[3], new bv8[4];
    ghost var pending: seq<bv8> := [];
    assert pending + data[0..] == data;
    for j := 0 to |data|
      invariant 0 <= i < 3 && pending == three[..i]
      invariant result + Encode(pending + data[j..]) == Encode(data)
    {
      three[i] := data[j];
      i := i + 1;
      EncodeStep(result, pending, data, j);
      pending := pending + [data[j]];
      if i == 3 {
        assert pending == [three[0], three[1], three[2]];
        result := EncodeThree(result, three, four);
        i := 0;
        pending := [];
      }
    }
    assert pending + data[|data|..] == pending;
    if i > 0 {
      result := EncodeLast(result, three, four, i);
    } else {
      assert Encode([]) == "" by { EncodeNothing(); }
    }
  }

  lemma EncodeNothing()
    ensures Encode([]) == ""
  {
  }

  /** Reading one more byte, and writing out a full group. */
  lemma EncodeStep(buf: string, pending: seq<bv8>, data: seq<bv8>, j: nat)
    requires j < |data| && |pending| < 3
    ensures var read, rest := pending + [data[j]], data[j + 1..];
            pending + data[j..] == read + rest
            && (|read| == 3 ==>
                  buf + Encode(read + rest) == buf + Four(read[0], read[1], read[2]) + Encode([] + rest))
  {
    var read, rest := pending + [data[j]], data[j + 1..];
    assert pending + data[j..] == read + rest;
    if |read| == 3 {
      EncodeGroup(read + rest, read[0], read[1], read[2], rest);
      hide Encode, Four;
      assert [] + rest == rest;
      ghost var four := Four(read[0], read[1], read[2]);
      assert buf + (four + Encode(rest)) == buf + four + Encode(rest);
    }
  }

  lemma EncodeGroup(data: seq<bv8>, a: bv8, b: bv8, c: bv8, rest: seq<bv8>)
    requires data == [a, b, c] + rest
    ensures Encode(data) == Four(a, b, c) + Encode(rest)
  {
    assert data[3..] == rest;
  }

  lemma EncodeTail(left: seq<bv8>, a: bv8, b: bv8, group: string)
    requires 0 < |left| < 3 && left[0] == a && b == (if |left| == 2 then left[1] else 0) && group == Four(a, b, 0)
    ensures Encode(left) == group[..|left| + 1] + seq(3 - |left|, _ => '=')
  {
  }

  // ------------------------------------------------------------------- decoding

  /** Whether the whole text was accepted, and the bytes written (up to the fault, if not). */
  datatype Decoded = Decoded(ok: bool, bytes: seq<bv8>)

  function Three(p: bv8, q: bv8, r: bv8, s: bv8): (t: seq<bv8>)
    requires p < 64 && q < 64 && r < 64 && s < 64
    ensures |t| == 3
  {
    [Byte0(p, q), Byte1(q, r), Byte2(r, s)]
  }

  predicate Sextets(pending: seq<bv8>) {
    forall k :: 0 <= k < |pending| ==> pending[k] < 64
  }

  /** What one, two or three last letters still give. */
  function Tail(pending: seq<bv8>): seq<bv8>
    requires |pending| < 4 && Sextets(pending)
  {
    if |pending| < 2 then []
    else if |pending| == 2 then Three(pending[0], pending[1], 0, 0)[..1]
    else Three(pending[0], pending[1], pending[2], 0)[..2]
  }

  /** Decoding with up to three letters already read. */
  function Decode(pending: seq<bv8>, s: string): Decoded
    requires |pending| < 4 && Sextets(pending)
    decreases |s|
  {
    if s == "" || s[0] == '=' then Decoded(true, Tail(pending))
    else
      var d := Digit(s[0]);
      if d.None? then Decoded(false, [])
      else
        var read := pending + [d.value];
        if |read| < 4 then Decode(read, s[1..])
        else
          var rest := Decode([], s[1..]);
          Decoded(rest.ok, Three(read[0], read[1], read[2], read[3]) + rest.bytes)
  }

  /** Fills the three-byte buffer from the four-letter one. */
  method Join(four: array<bv8>, three: array<bv8>)
    requires three.Length == 3 && four.Length == 4 && Sextets(four[..])
    modifies three
    ensures three[..] == Three(four[0], four[1], four[2], four[3])
  {
    assert four[..][0] == four[0] && four[..][1] == four[1] && four[..][2] == four[2] && four[..][3] == four[3];
    three[0] := ((four[0] as bv32 << 2) + ((four[1] as bv32 & 0x30) >> 4)) as bv8;
    three[1] := (((four[1] as bv32 & 0xf) << 4) + ((four[2] as bv32 & 0x3c) >> 2)) as bv8;
    three[2] := (((four[2] as bv32 & 0x3) << 6) + four[3] as bv32) as bv8;
  }

  /** Appends the first `n` bytes of the buffer. */
  method AppendBytes(buf: seq<bv8>, three: array<bv8>, n: nat) returns (r: seq<bv8>)
    requires n <= three.Length
    ensures r == buf + three[..n]
  {
    r := buf;
    for k := 0 to n
      invariant r == buf + three[..k]
    {
      r := r + [three[k]];
    }
  }

  /** What the letters left over at the end give. */
  method DecodeLast(buf: seq<bv8>, four: array<bv8>, three: array<bv8>, i: nat) returns (r: seq<bv8>)
    requires three.Length == 3 && four.Length == 4 && three != four && 0 < i < 4 && Sextets(four[..i])
    modifies three, four
    ensures r == buf + Tail(old(four[..i]))
  {
    hide Byte0, Byte1, Byte2;
    ghost var pending := four[..i];
    for j := i to 4
      invariant four[..i] == pending && forall k :: i <= k < j ==> four[k] == 0
    {
      four[j] := 0;
    }
    assert forall k :: 0 <= k < i ==> four[k] == pending[k];
    Join(four, three);
    r := AppendBytes(buf, three, i - 1);
    assert three[..i - 1] == three[..][..i - 1];
  }

  /** Reading one more letter, and writing out a full group. */
  lemma DecodeStep(buf: seq<bv8>, pending: seq<bv8>, s: string, n: nat)
    requires n < |s| && s[n] != '=' && Digit(s[n]).Some? && |pending| < 4 && Sextets(pending)
    ensures var read := pending + [Digit(s[n]).value];
            if |read| < 4 then Decode(pending, s[n..]) == Decode(read, s[n + 1..])
            else After(buf, Decode(pending, s[n..]))
                 == After(buf + Three(read[0], read[1], read[2], read[3]), Decode([], s[n + 1..]))
  {
    hide Digit, Three;
    assert s[n..][0] == s[n] && s[n..][1..] == s[n + 1..];
    var read := pending + [Digit(s[n]).value];
    if |read| == 4 {
      var group, rest := Three(read[0], read[1], read[2], read[3]), Decode([], s[n + 1..]);
      assert buf + (group + rest.bytes) == buf + group + rest.bytes;
    }
  }

  function After(buf: seq<bv8>, d: Decoded): Decoded {
    Decoded(d.ok, buf + d.bytes)
  }

  /** At the end of the letters, or at one that is none. */
  lemma DecodeStops(pending: seq<bv8>, s: string, n: nat)
    requires n <= |s| && |pending| < 4 && Sextets(pending)
    ensures n == |s| || s[n] == '=' ==> Decode(pending, s[n..]) == Decoded(true, Tail(pending))
    ensures n < |s| && s[n] != '=' && Digit(s[n]).None? ==> Decode(pending, s[n..]) == Decoded(false, [])
  {
  }

  method Base64Decode(encoded: string) returns (ok: bool, decoded: seq<bv8>)
    ensures Decoded(ok, decoded) == Decode([], encoded)
  {
    hide Digit, Three, Tail, Decode;
    decoded := [];
    var i := 0;
    var four, three := new bv8[4], new bv8[3];
    var n := 0;
    ghost var pending: seq<bv8> := [];
    assert encoded[0..] == encoded;
    while n < |encoded| && encoded[n] != '='
      invariant 0 <= i < 4 && n <= |encoded| && pending == four[..i] && Sextets(pending)
      invariant Decode([], encoded) == After(decoded, Decode(pending, encoded[n..]))
      decreases |encoded| - n
    {
      DecodeStops(pending, encoded, n);
      var pos := Digit(encoded[n]);
      if pos.None? {
        return false, decoded;
      }
      DecodeStep(decoded, pending, encoded, n);
      four[i] := pos.value;
      i := i + 1;
      n := n + 1;
      pending := pending + [pos.value];
      if i == 4 {
        assert four[..] == pending;
        Join(four, three);
        decoded := AppendBytes(decoded, three, 3);
        assert three[..3] == three[..];
        i := 0;
        pending := [];
      }
    }
    DecodeStops(pending, encoded, n);
    if i > 0 {
      decoded := DecodeLast(decoded, four, three, i);
    } else {
      assert Tail([]) == [] by { TailOfNothing(); }
    }
    ok := true;
  }

  lemma TailOfNothing()
    ensures Tail([]) == []
  {
  }

  // ------------------------------------------------------------------ round trip

  predicate Letters(s: string) {
    forall k :: 0 <= k < |s| ==> Digit(s[k]).Some?
  }

  /** Four letters in a row decode on their own. */
  lemma DecodeFour(s: string, ds: seq<bv8>)
    requires |ds| == 4 && |s| >= 4 && Sextets(ds)
    requires forall k :: 0 <= k < 4 ==> s[k] != '=' && Digit(s[k]) == Some(ds[k])
    ensures Decode([], s) == After(Three(ds[0], ds[1], ds[2], ds[3]), Decode([], s[4..]))
  {
    hide Three, Digit, Decode;
    var first := ds[..3];
    ReadLetters(s, first, 0);
    DecodeStep([], first, s, 3);
    assert first + [ds[3]] == ds && first[..0] == [] && first[..3] == first && s[0..] == s;
    AfterNothing(Decode(first, s[3..]));
  }

  lemma AfterNothing(d: Decoded)
    ensures After([], d) == d
  {
  }

  lemma PadIsNoLetter()
    ensures Digit('=') == None
  {
  }

  /** One, two or three letters, then the end or padding. */
  lemma DecodePadded(letters: string, pad: string)
    requires 0 < |letters| < 4 && Letters(letters) && (pad == "" || pad[0] == '=')
    ensures var ds := seq(|letters|, k requires 0 <= k < |letters| => Digit(letters[k]).value);
            Sextets(ds) && Decode([], letters + pad) == Decoded(true, Tail(ds))
  {
    hide Three, Digit, Tail;
    PadIsNoLetter();
    var s := letters + pad;
    var ds := seq(|letters|, k requires 0 <= k < |letters| => Digit(letters[k]).value);
    forall k | 0 <= k < |letters|
      ensures Digit(s[k]) == Digit(letters[k]) && s[k] != '='
    {
      assert s[k] == letters[k] && letters[k] in letters;
    }
    assert s[0..] == s;
    ReadLetters(s, ds, 0);
    DecodeStops(ds, s, |letters|);
    assert ds[..0] == [] && ds[..|ds|] == ds;
  }

  /** Reading letters that fill no group. */
  lemma {:induction false} ReadLetters(s: string, ds: seq<bv8>, n: nat)
    requires n <= |ds| < 4 && |ds| <= |s| && Sextets(ds)
    requires forall k :: 0 <= k < |ds| ==> s[k] != '=' && Digit(s[k]) == Some(ds[k])
    ensures Decode(ds[..n], s[n..]) == Decode(ds[..|ds|], s[|ds|..])
    decreases |ds| - n
  {
    hide Three, Digit, Tail, Decode;
    if n < |ds| {
      DecodeStep([], ds[..n], s, n);
      assert ds[..n] + [ds[n]] == ds[..n + 1];
      ReadLetters(s, ds, n + 1);
    }
  }

  lemma FourLetters(a: bv8, b: bv8, c: bv8)
    ensures Letters(Four(a, b, c))
    ensures var t := Four(a, b, c);
            && Digit(t[0]) == Some(Sextet0(a)) && Digit(t[1]) == Some(Sextet1(a, b))
            && Digit(t[2]) == Some(Sextet2(b, c)) && Digit(t[3]) == Some(Sextet3(c))
  {
    DigitOfLetter(Sextet0(a));
    DigitOfLetter(Sextet1(a, b));
    DigitOfLetter(Sextet2(b, c));
    DigitOfLetter(Sextet3(c));
    hide LetterOf, Digit;
  }

  lemma DecodeGroup(a: bv8, b: bv8, c: bv8, rest: string)
    ensures Decode([], Four(a, b, c) + rest) == After([a, b, c], Decode([], rest))
  {
    FourLetters(a, b, c);
    BytesOfSextets(a, b, c);
    PadIsNoLetter();
    var t, ds := Four(a, b, c), [Sextet0(a), Sextet1(a, b), Sextet2(b, c), Sextet3(c)];
    hide Four, Digit, Decode, Sextet0, Sextet1, Sextet2, Sextet3, Byte0, Byte1, Byte2;
    assert (t + rest)[4..] == rest;
    DecodeFour(t + rest, ds);
  }

  lemma DecodeTwo(a: bv8, pad: string)
    requires pad == "" || pad[0] == '='
    ensures Decode([], Four(a, 0, 0)[..2] + pad) == Decoded(true, [a])
  {
    FourLetters(a, 0, 0);
    BytesOfSextets(a, 0, 0);
    var t := Four(a, 0, 0)[..2];
    hide Four, Digit, Decode, LetterOf, Sextet0, Sextet1, Byte0, Byte1, Byte2;
    DecodePadded(t, pad);
    var ds := seq(|t|, k requires 0 <= k < |t| => Digit(t[k]).value);
    assert ds[0] == Sextet0(a) && ds[1] == Sextet1(a, 0);
  }

  lemma DecodeThree(a: bv8, b: bv8, pad: string)
    requires pad == "" || pad[0] == '='
    ensures Decode([], Four(a, b, 0)[..3] + pad) == Decoded(true, [a, b])
  {
    FourLetters(a, b, 0);
    BytesOfSextets(a, b, 0);
    var t := Four(a, b, 0)[..3];
    hide Four, Digit, Decode, LetterOf, Sextet0, Sextet1, Sextet2, Byte0, Byte1, Byte2;
    DecodePadded(t, pad);
    var ds := seq(|t|, k requires 0 <= k < |t| => Digit(t[k]).value);
    assert ds[0] == Sextet0(a) && ds[1] == Sextet1(a, b) && ds[2] == Sextet2(b, 0);
  }

  /** Decoding inverts encoding, for every length. */
  lemma {:induction false} DecodeInvertsEncode(data: seq<bv8>)
    ensures Decode([], Encode(data)) == Decoded(true, data)
    decreases |data|
  {
    hide Four, Decode;
    if data == [] {
      DecodeStops([], "", 0);
      TailOfNothing();
    } else if |data| == 1 {
      DecodeTwo(data[0], "==");
    } else if |data| == 2 {
      DecodeThree(data[0], data[1], "=");
    } else {
      DecodeGroup(data[0], data[1], data[2], Encode(data[3..]));
      DecodeInvertsEncode(data[3..]);
      assert [data[0], data[1], data[2]] + data[3..] == data;
    }
  }

  lemma {:induction false} EncodedLength(data: seq<bv8>)
    ensures |Encode(data)| == (|data| + 2) / 3 * 4
  {
    hide Four;
    if |data| > 2 {
      EncodedLength(data[3..]);
    }
  }

  // ------------------------------------------------------------- canonical texts

  /** Groups of four letters; the last may end in one or two pads, with no stray bits before them. */
  predicate Canonical(s: string)
    decreases |s|
  {
    s == ""
    || (|s| >= 4
        && if |s| == 4 && s[3] == '=' then PaddedGroup(s) else Letters(s[..4]) && Canonical(s[4..]))
  }

  predicate PaddedGroup(s: string)
    requires |s| == 4
  {
    && Digit(s[0]).Some? && Digit(s[1]).Some?
    && if s[2] == '=' then Digit(s[1]).value & 0xf == 0
       else Digit(s[2]).Some? && Digit(s[2]).value & 0x3 == 0
  }

  lemma SextetsOfBytes(p: bv8, q: bv8, r: bv8, s: bv8)
    requires p < 64 && q < 64 && r < 64 && s < 64
    ensures var a, b, c := Byte0(p, q), Byte1(q, r), Byte2(r, s);
            && Sextet0(a) == p && Sextet1(a, b) == q && Sextet2(b, c) == r && Sextet3(c) == s
            && (q & 0xf == 0 ==> Sextet1(a, 0) == q) && (r & 0x3 == 0 ==> Sextet2(b, 0) == r)
  {
  }

  lemma StrayBits(a: bv8, b: bv8)
    ensures Sextet1(a, 0) & 0xf == 0 && Sextet2(b, 0) & 0x3 == 0
  {
  }

  lemma {:induction false} EncodeIsCanonical(data: seq<bv8>)
    ensures Canonical(Encode(data))
    decreases |data|
  {
    var s := Encode(data);
    if data != [] {
      PadIsNoLetter();
      var a, b, c := data[0], if |data| > 1 then data[1] else 0, if |data| > 2 then data[2] else 0;
      FourLetters(a, b, c);
      StrayBits(a, b);
      var t := Four(a, b, c);
      hide Four, Digit, Sextet0, Sextet1, Sextet2, Sextet3;
      if |data| > 2 {
        EncodeIsCanonical(data[3..]);
        assert s[..4] == t && s[4..] == Encode(data[3..]) && s[3] == t[3];
      } else {
        assert s[0] == t[0] && s[1] == t[1] && s[3] == '=';
        assert |data| == 2 ==> s[2] == t[2];
      }
    }
  }

  /** A group of letters, decoded and encoded again. */
  lemma ReencodeGroup(s: string, ds: seq<bv8>)
    requires |s| == |ds| == 4 && Sextets(ds) && forall k :: 0 <= k < 4 ==> Digit(s[k]) == Some(ds[k])
    ensures var t := Three(ds[0], ds[1], ds[2], ds[3]); Four(t[0], t[1], t[2]) == s
  {
    SextetsOfBytes(ds[0], ds[1], ds[2], ds[3]);
    LetterOfDigit(s[0]);
    LetterOfDigit(s[1]);
    LetterOfDigit(s[2]);
    LetterOfDigit(s[3]);
    hide LetterOf, Digit, Sextet0, Sextet1, Sextet2, Sextet3, Byte0, Byte1, Byte2;
  }

  lemma ReencodeTwo(s: string)
    requires |s| == 4 && s[3] == '=' && s[2] == '=' && PaddedGroup(s)
    ensures Decode([], s).ok && Encode(Decode([], s).bytes) == s
  {
    var p, q := Digit(s[0]).value, Digit(s[1]).value;
    SextetsOfBytes(p, q, 0, 0);
    LetterOfDigit(s[0]);
    LetterOfDigit(s[1]);
    var letters := [s[0], s[1]];
    hide LetterOf, Digit, Sextet0, Sextet1, Sextet2, Sextet3, Byte0, Byte1, Byte2, Decode;
    DecodePadded(letters, "==");
    var ds := seq(|letters|, k requires 0 <= k < |letters| => Digit(letters[k]).value);
    assert ds == [p, q];
    assert letters + "==" == s;
  }

  lemma ReencodeThree(s: string)
    requires |s| == 4 && s[3] == '=' && s[2] != '=' && PaddedGroup(s)
    ensures Decode([], s).ok && Encode(Decode([], s).bytes) == s
  {
    hide LetterOf, Digit, Sextet0, Sextet1, Sextet2, Sextet3, Byte0, Byte1, Byte2, Decode, Encode;
    var p, q, r := Digit(s[0]).value, Digit(s[1]).value, Digit(s[2]).value;
    SextetsOfBytes(p, q, r, 0);
    LetterOfDigit(s[0]);
    LetterOfDigit(s[1]);
    LetterOfDigit(s[2]);
    var letters := [s[0], s[1], s[2]];
    DecodePadded(letters, "=");
    var ds := seq(|letters|, k requires 0 <= k < |letters| => Digit(letters[k]).value);
    assert ds == [p, q, r];
    assert letters + "=" == s;
    var t := Three(p, q, r, 0);
    EncodeTwo(t[0], t[1]);
    var four := Four(t[0], t[1], 0);
    assert four[0] == s[0] && four[1] == s[1] && four[2] == s[2];
    assert Tail(ds) == [t[0], t[1]];
    hide Four, Three, PaddedGroup;
  }

  lemma EncodeTwo(a: bv8, b: bv8)
    ensures Encode([a, b]) == Four(a, b, 0)[..3] + "="
  {
  }

  lemma ReencodeFull(s: string, ds: seq<bv8>)
    requires |ds| == 4 && |s| >= 4 && Sextets(ds)
    requires forall k :: 0 <= k < 4 ==> s[k] != '=' && Digit(s[k]) == Some(ds[k])
    requires var rest := Decode([], s[4..]); rest.ok && Encode(rest.bytes) == s[4..]
    ensures Decode([], s).ok && Encode(Decode([], s).bytes) == s
  {
    hide Digit, Three, Four, Decode, Encode;
    DecodeFour(s, ds);
    ReencodeGroup(s[..4], ds);
    var t, rest := Three(ds[0], ds[1], ds[2], ds[3]), Decode([], s[4..]).bytes;
    assert t + rest == [t[0], t[1], t[2]] + rest;
    EncodeGroup(t + rest, t[0], t[1], t[2], rest);
    assert s[..4] + s[4..] == s;
  }

  lemma {:induction false} CanonicalReencodes(s: string)
    requires Canonical(s)
    ensures Decode([], s).ok && Encode(Decode([], s).bytes) == s
    decreases |s|
  {
    if s == "" {
      DecodeStops([], "", 0);
      TailOfNothing();
    } else if |s| == 4 && s[3] == '=' {
      if s[2] == '=' {
        ReencodeTwo(s);
      } else {
        ReencodeThree(s);
      }
    } else {
      hide Digit, Decode, Encode;
      CanonicalReencodes(s[4..]);
      var ds := DigitsOf(s);
      ReencodeFull(s, ds);
    }
  }

  lemma DigitsOf(s: string) returns (ds: seq<bv8>)
    requires |s| >= 4 && Letters(s[..4])
    ensures |ds| == 4 && Sextets(ds) && forall k :: 0 <= k < 4 ==> s[k] != '=' && Digit(s[k]) == Some(ds[k])
  {
    hide Digit;
    PadIsNoLetter();
    forall k | 0 <= k < 4
      ensures Digit(s[k]).Some? && s[k] != '='
    {
      assert s[..4][k] == s[k];
    }
    ds := seq(4, k requires 0 <= k < 4 => Digit(s[k]).value);
  }

  /** The decoder takes more than the encoder writes: encoding again gives back exactly the canonical texts. */
  lemma CanonicalIffReencodes(s: string)
    ensures Canonical(s) <==> Decode([], s).ok && Encode(Decode([], s).bytes) == s
  {
    hide Canonical, Decode, Encode;
    if Canonical(s) {
      CanonicalReencodes(s);
    } else {
      EncodeIsCanonical(Decode([], s).bytes);
    }
  }

  // ------------------------------------------------------- what the letters stand for

  const UPPER: string := "ABCDEFGHIJKLMNOPQRSTUVWXYZ"
  const LOWER: string := "abcdefghijklmnopqrstuvwxyz"
  const DIGITS: string := "0123456789"

  /** Table 1 of RFC 4648. */
  const TABLE: string := UPPER + LOWER + DIGITS + "+/"

  lemma TableParts()
    ensures |UPPER| == 26 == |LOWER| && |DIGITS| == 10 && |TABLE| == 64
    ensures forall k | 0 <= k < 26 :: UPPER[k] == Letter(k)
    ensures forall k | 0 <= k < 26 :: LOWER[k] == Letter(k + 26)
    ensures forall k | 0 <= k < 10 :: DIGITS[k] == Letter(k + 52)
  {
  }

  lemma AlphabetIsTable()
    ensures |TABLE| == 64 && Alphabet() == TABLE
  {
    TableParts();
    hide UPPER, LOWER, DIGITS;
    forall k | 0 <= k < 64
      ensures Letter(k) == TABLE[k]
    {
      if k < 26 {
        assert TABLE[k] == UPPER[k];
      } else if k < 52 {
        assert TABLE[k] == LOWER[k - 26];
      } else if k < 62 {
        assert TABLE[k] == DIGITS[k - 52];
      }
    }
  }

  /** A bit of a byte, the most significant first. */
  predicate BitOf(b: bv8, j: nat)
    requires j < 8
  {
    match j
    case 0 => b & 0x80 != 0
    case 1 => b & 0x40 != 0
    case 2 => b & 0x20 != 0
    case 3 => b & 0x10 != 0
    case 4 => b & 0x08 != 0
    case 5 => b & 0x04 != 0
    case 6 => b & 0x02 != 0
    case 7 => b & 0x01 != 0
  }

  /** A bit of the data, which zeros follow. */
  predicate DataBit(data: seq<bv8>, i: nat) {
    i / 8 < |data| && BitOf(data[i / 8], i % 8)
  }

  /** The number that six bits stand for. */
  function SixBits(a: bool, b: bool, c: bool, d: bool, e: bool, f: bool): (n: bv8)
    ensures n < 64
  {
    (if a then 0x20 else 0) | (if b then 0x10 else 0) | (if c then 0x08 else 0)
    | (if d then 0x04 else 0) | (if e then 0x02 else 0) | (if f then 0x01 else 0)
  }

  /** The number in bits 6k to 6k + 5 of the data. */
  function BitGroup(data: seq<bv8>, k: nat): (n: bv8)
    ensures n < 64
  {
    SixBits(DataBit(data, 6 * k), DataBit(data, 6 * k + 1), DataBit(data, 6 * k + 2),
            DataBit(data, 6 * k + 3), DataBit(data, 6 * k + 4), DataBit(data, 6 * k + 5))
  }

  lemma SextetsAreBits(a: bv8, b: bv8, c: bv8)
    ensures Sextet0(a) == SixBits(BitOf(a, 0), BitOf(a, 1), BitOf(a, 2), BitOf(a, 3), BitOf(a, 4), BitOf(a, 5))
    ensures Sextet1(a, b) == SixBits(BitOf(a, 6), BitOf(a, 7), BitOf(b, 0), BitOf(b, 1), BitOf(b, 2), BitOf(b, 3))
    ensures Sextet2(b, c) == SixBits(BitOf(b, 4), BitOf(b, 5), BitOf(b, 6), BitOf(b, 7), BitOf(c, 0), BitOf(c, 1))
    ensures Sextet3(c) == SixBits(BitOf(c, 2), BitOf(c, 3), BitOf(c, 4), BitOf(c, 5), BitOf(c, 6), BitOf(c, 7))
  {
  }

  /** The first three bytes, or zeros. */
  function ByteAt(data: seq<bv8>, k: nat): bv8 {
    if k < |data| then data[k] else 0
  }

  lemma DataBits(data: seq<bv8>, i: nat, k: nat, j: nat)
    requires i == 8 * k + j && j < 8
    ensures DataBit(data, i) == BitOf(ByteAt(data, k), j)
  {
  }

  lemma FirstGroups(data: seq<bv8>)
    ensures var a, b, c := ByteAt(data, 0), ByteAt(data, 1), ByteAt(data, 2);
            && BitGroup(data, 0) == Sextet0(a) && BitGroup(data, 1) == Sextet1(a, b)
            && BitGroup(data, 2) == Sextet2(b, c) && BitGroup(data, 3) == Sextet3(c)
  {
    var a, b, c := ByteAt(data, 0), ByteAt(data, 1), ByteAt(data, 2);
    SextetsAreBits(a, b, c);
    hide BitOf, SixBits, Sextet0, Sextet1, Sextet2, Sextet3, ByteAt;
    forall j | 0 <= j < 8
      ensures DataBit(data, j) == BitOf(a, j) && DataBit(data, 8 + j) == BitOf(b, j)
      ensures DataBit(data, 16 + j) == BitOf(c, j)
    {
      DataBits(data, j, 0, j);
      DataBits(data, 8 + j, 1, j);
      DataBits(data, 16 + j, 2, j);
    }
    hide DataBit;
  }

  lemma LaterBit(data: seq<bv8>, i: nat)
    requires |data| >= 3
    ensures DataBit(data, i + 24) == DataBit(data[3..], i)
  {
    hide BitOf;
  }

  lemma LaterGroup(data: seq<bv8>, k: nat)
    requires |data| >= 3
    ensures BitGroup(data, k + 4) == BitGroup(data[3..], k)
  {
    hide DataBit, SixBits;
    LaterBit(data, 6 * k);
    LaterBit(data, 6 * k + 1);
    LaterBit(data, 6 * k + 2);
    LaterBit(data, 6 * k + 3);
    LaterBit(data, 6 * k + 4);
    LaterBit(data, 6 * k + 5);
  }

  /** The letters in front of the padding. */
  function LetterCount(n: nat): nat {
    (8 * n + 5) / 6
  }

  lemma TableLetter(k: bv8)
    requires k < 64
    ensures |TABLE| == 64 && LetterOf(k) == TABLE[k as int]
  {
    AlphabetIsTable();
    hide Alphabet, TABLE;
  }

  /** The letters of the first three bytes. */
  lemma FirstLetters(data: seq<bv8>)
    ensures |TABLE| == 64
    ensures var t := Four(ByteAt(data, 0), ByteAt(data, 1), ByteAt(data, 2));
            forall k | 0 <= k < 4 :: t[k] == TABLE[BitGroup(data, k) as int]
  {
    FirstGroups(data);
    hide BitGroup, Sextet0, Sextet1, Sextet2, Sextet3, LetterOf, TABLE, ByteAt;
    TableLetter(0);
    forall k | 0 <= k < 4
      ensures LetterOf(BitGroup(data, k)) == TABLE[BitGroup(data, k) as int]
    {
      TableLetter(BitGroup(data, k));
    }
  }

  lemma EncodeShort(data: seq<bv8>)
    requires 0 < |data| < 3
    ensures var t := Four(ByteAt(data, 0), ByteAt(data, 1), ByteAt(data, 2));
            Encode(data) == t[..|data| + 1] + if |data| == 1 then "==" else "="
  {
    hide Four;
  }

  /**
    Section 4 of RFC 4648: the letters stand for the bits of the data, six at a time from the most
    significant on, the last ones filled up with zeros; padding completes the last group of four.
   */
  lemma {:induction false} LettersAreBits(data: seq<bv8>)
    ensures |TABLE| == 64 && |Encode(data)| == (|data| + 2) / 3 * 4
    ensures forall k :: 0 <= k < |Encode(data)| ==> Encode(data)[k] == LetterAt(data, k)
    decreases |data|
  {
    EncodedLength(data);
    if data == [] {
      AlphabetIsTable();
    } else if |data| < 3 {
      ShortIsBits(data);
    } else {
      LettersAreBits(data[3..]);
      forall k | 0 <= k < |Encode(data)|
        ensures Encode(data)[k] == LetterAt(data, k)
      {
        GroupIsBits(data, k);
      }
    }
  }

  /** The letter or pad that stands at a place. */
  function LetterAt(data: seq<bv8>, k: nat): char
    requires |TABLE| == 64
  {
    if k < LetterCount(|data|) then TABLE[BitGroup(data, k) as int] else '='
  }

  lemma ShortIsBits(data: seq<bv8>)
    requires 0 < |data| < 3
    ensures |TABLE| == 64 && |Encode(data)| == 4
    ensures forall k :: 0 <= k < |Encode(data)| ==> Encode(data)[k] == LetterAt(data, k)
  {
    hide Encode, Four, BitGroup, TABLE, ByteAt;
    FirstLetters(data);
    EncodeShort(data);
  }

  lemma GroupIsBits(data: seq<bv8>, k: nat)
    requires |data| >= 3 && |TABLE| == 64 && k < |Encode(data)|
    requires forall j :: 0 <= j < |Encode(data[3..])| ==> Encode(data[3..])[j] == LetterAt(data[3..], j)
    ensures Encode(data)[k] == LetterAt(data, k)
  {
    hide Encode, Four, BitGroup, TABLE;
    assert data == [data[0], data[1], data[2]] + data[3..];
    EncodeGroup(data, data[0], data[1], data[2], data[3..]);
    if k < 4 {
      FirstLetters(data);
    } else {
      LaterGroup(data, k - 4);
      assert Encode(data)[k] == Encode(data[3..])[k - 4];
    }
  }

  // -------------------------------------------------------- what the decoder accepts

  /** What stands in front of the first pad. */
  function BeforePad(s: string): string {
    if s == "" || s[0] == '=' then "" else [s[0]] + BeforePad(s[1..])
  }

  lemma LetterIff(c: char)
    ensures Digit(c).Some? <==> c in TABLE
    ensures Digit(c).Some? ==> |TABLE| == 64 && TABLE[Digit(c).value as int] == c
  {
    AlphabetIsTable();
    var k := Find(c, 0);
    hide Find, TABLE;
    if k.None? {
      assert forall i | 0 <= i < 64 :: Alphabet()[i] != c;
    } else {
      LetterOfDigit(c);
      ThereAndBack(k.value);
    }
  }

  /** The sextets of letters. */
  function SextetsOf(s: string): (ds: seq<bv8>)
    requires forall c | c in s :: Digit(c).Some?
    ensures Sextets(ds) && |ds| == |s|
  {
    if s == "" then [] else [Digit(s[0]).value] + SextetsOf(s[1..])
  }

  /** A text is accepted exactly when everything in front of its first pad is a letter of the table. */
  lemma {:induction false} AcceptedIff(pending: seq<bv8>, s: string)
    requires |pending| < 4 && Sextets(pending)
    ensures Decode(pending, s).ok <==> forall c | c in BeforePad(s) :: c in TABLE
    decreases |s|
  {
    hide TABLE, Digit, Three, Tail;
    if s != "" && s[0] != '=' {
      LetterIff(s[0]);
      assert BeforePad(s) == [s[0]] + BeforePad(s[1..]);
      if Digit(s[0]).Some? {
        var read := pending + [Digit(s[0]).value];
        AcceptedIff(if |read| < 4 then read else [], s[1..]);
      } else {
        assert s[0] in BeforePad(s);
      }
    }
  }

  /** A bit of a sextet, the most significant first. */
  predicate SextetBit(d: bv8, j: nat)
    requires j < 6
  {
    BitOf(d, j + 2)
  }

  predicate SextetsBit(ds: seq<bv8>, i: nat)
    requires i / 6 < |ds|
  {
    SextetBit(ds[i / 6], i % 6)
  }

  lemma BytesAreBits(p: bv8, q: bv8, r: bv8, s: bv8)
    requires p < 64 && q < 64 && r < 64 && s < 64
    ensures BitOf(Byte0(p, q), 0) == BitOf(p, 2) && BitOf(Byte0(p, q), 1) == BitOf(p, 3)
    ensures BitOf(Byte0(p, q), 2) == BitOf(p, 4) && BitOf(Byte0(p, q), 3) == BitOf(p, 5)
    ensures BitOf(Byte0(p, q), 4) == BitOf(p, 6) && BitOf(Byte0(p, q), 5) == BitOf(p, 7)
    ensures BitOf(Byte0(p, q), 6) == BitOf(q, 2) && BitOf(Byte0(p, q), 7) == BitOf(q, 3)
    ensures BitOf(Byte1(q, r), 0) == BitOf(q, 4) && BitOf(Byte1(q, r), 1) == BitOf(q, 5)
    ensures BitOf(Byte1(q, r), 2) == BitOf(q, 6) && BitOf(Byte1(q, r), 3) == BitOf(q, 7)
    ensures BitOf(Byte1(q, r), 4) == BitOf(r, 2) && BitOf(Byte1(q, r), 5) == BitOf(r, 3)
    ensures BitOf(Byte1(q, r), 6) == BitOf(r, 4) && BitOf(Byte1(q, r), 7) == BitOf(r, 5)
    ensures BitOf(Byte2(r, s), 0) == BitOf(r, 6) && BitOf(Byte2(r, s), 1) == BitOf(r, 7)
    ensures BitOf(Byte2(r, s), 2) == BitOf(s, 2) && BitOf(Byte2(r, s), 3) == BitOf(s, 3)
    ensures BitOf(Byte2(r, s), 4) == BitOf(s, 4) && BitOf(Byte2(r, s), 5) == BitOf(s, 5)
    ensures BitOf(Byte2(r, s), 6) == BitOf(s, 6) && BitOf(Byte2(r, s), 7) == BitOf(s, 7)
  {
  }

  /** The bytes of four sextets have their bits, in order. */
  lemma ThreeIsBits(ds: seq<bv8>, i: nat)
    requires |ds| == 4 && Sextets(ds) && i < 24
    ensures BitOf(Three(ds[0], ds[1], ds[2], ds[3])[i / 8], i % 8) == SextetsBit(ds, i)
  {
    hide BitOf, Byte0, Byte1, Byte2;
    BytesAreBits(ds[0], ds[1], ds[2], ds[3]);
    assert i / 8 == 0 || i / 8 == 1 || i / 8 == 2;
  }

  /** The bytes that whole sextets give, each bit in its place; what is left over is dropped. */
  predicate BytesOf(bytes: seq<bv8>, ds: seq<bv8>) {
    && |bytes| == 6 * |ds| / 8
    && forall i: nat | i < 8 * |bytes| :: BitOf(bytes[i / 8], i % 8) == SextetsBit(ds, i)
  }

  lemma TailIsBits(pending: seq<bv8>)
    requires |pending| < 4 && Sextets(pending)
    ensures BytesOf(Tail(pending), pending)
  {
    var ds := pending + seq(4 - |pending|, _ => 0);
    assert Sextets(ds);
    var t := Three(ds[0], ds[1], ds[2], ds[3]);
    assert Tail(pending) == if |pending| < 2 then [] else t[..|pending| - 1];
    hide BitOf, Three, Tail;
    forall i: nat | i < 8 * |Tail(pending)|
      ensures BitOf(Tail(pending)[i / 8], i % 8) == SextetsBit(pending, i)
    {
      ThreeIsBits(ds, i);
      assert ds[i / 6] == pending[i / 6];
    }
  }

  lemma GroupBytes(read: seq<bv8>, bytes: seq<bv8>, ds: seq<bv8>)
    requires |read| == 4 && Sextets(read) && BytesOf(bytes, ds)
    ensures BytesOf(Three(read[0], read[1], read[2], read[3]) + bytes, read + ds)
  {
    var t := Three(read[0], read[1], read[2], read[3]);
    hide BitOf, Three;
    forall i: nat | i < 8 * |t + bytes|
      ensures BitOf((t + bytes)[i / 8], i % 8) == SextetsBit(read + ds, i)
    {
      if i < 24 {
        ThreeIsBits(read, i);
        assert (read + ds)[i / 6] == read[i / 6] && (t + bytes)[i / 8] == t[i / 8];
      } else {
        var j: nat := i - 24;
        assert j / 8 == i / 8 - 3 && j % 8 == i % 8 && j / 6 == i / 6 - 4 && j % 6 == i % 6;
        assert (t + bytes)[i / 8] == bytes[j / 8] && (read + ds)[i / 6] == ds[j / 6];
        assert BitOf(bytes[j / 8], j % 8) == SextetsBit(ds, j);
      }
    }
  }

  lemma {:induction false} DecodedIsBits(pending: seq<bv8>, s: string)
    requires |pending| < 4 && Sextets(pending) && forall c | c in BeforePad(s) :: Digit(c).Some?
    ensures BytesOf(Decode(pending, s).bytes, pending + SextetsOf(BeforePad(s)))
    decreases |s|
  {
    hide Digit, Three, Tail, BytesOf;
    if s == "" || s[0] == '=' {
      TailIsBits(pending);
      assert pending + [] == pending;
    } else {
      var rest, d := BeforePad(s[1..]), Digit(s[0]);
      assert BeforePad(s) == [s[0]] + rest && s[0] in BeforePad(s) && BeforePad(s)[1..] == rest;
      assert forall c | c in rest :: c in BeforePad(s);
      var read := pending + [d.value];
      assert pending + SextetsOf(BeforePad(s)) == read + SextetsOf(rest);
      if |read| < 4 {
        DecodedIsBits(read, s[1..]);
      } else {
        DecodedIsBits([], s[1..]);
        assert [] + SextetsOf(rest) == SextetsOf(rest);
        GroupBytes(read, Decode([], s[1..]).bytes, SextetsOf(rest));
      }
    }
  }

  lemma {:induction false} SextetsArePlaces(s: string)
    requires forall c | c in s :: Digit(c).Some?
    ensures |TABLE| == 64 && forall k | 0 <= k < |s| :: TABLE[SextetsOf(s)[k] as int] == s[k]
    decreases |s|
  {
    AlphabetIsTable();
    hide TABLE, Digit;
    if s != "" {
      LetterIff(s[0]);
      assert forall c | c in s[1..] :: c in s;
      SextetsArePlaces(s[1..]);
      assert s == [s[0]] + s[1..] && SextetsOf(s) == [Digit(s[0]).value] + SextetsOf(s[1..]);
    }
  }

  /**
    A text is decoded exactly when all in front of its first pad are letters, whatever the padding. Each
    letter then gives the six bits of its place in the table; bits that fill no byte are dropped.
   */
  lemma DecodesBits(s: string)
    ensures Decode([], s).ok <==> forall c | c in BeforePad(s) :: c in TABLE
    ensures Decode([], s).ok ==>
              exists ds: seq<bv8> | |ds| == |BeforePad(s)| && Sextets(ds) ::
                && BytesOf(Decode([], s).bytes, ds)
                && |TABLE| == 64 && forall k | 0 <= k < |ds| :: TABLE[ds[k] as int] == BeforePad(s)[k]
  {
    AcceptedIff([], s);
    hide TABLE, Digit, Decode, BytesOf;
    var t := BeforePad(s);
    if Decode([], s).ok {
      forall c | c in t
        ensures Digit(c).Some?
      {
        LetterIff(c);
      }
      DecodedIsBits([], s);
      SextetsArePlaces(t);
      assert [] + SextetsOf(t) == SextetsOf(t);
    }
  }
}
