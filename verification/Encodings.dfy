/** The text encodings the service's formats are built from: base64 without padding
    (sections 4 and 5 of RFC 4648), decimal numbers and splitting at a separator. */
module Encodings {
  import opened Wrappers

  type byte = x: int | 0 <= x < 256

  type Bytes = seq<byte>

  // ---------------------------------------------------------------- alphabet

  /** Table 1 of RFC 4648; table 2 when `url` is set. */
  function Digit64(url: bool, v: int): (c: char)
    requires 0 <= v < 64
  {
    if v < 26 then 'A' + v as char
    else if v < 52 then 'a' + (v - 26) as char
    else if v < 62 then '0' + (v - 52) as char
    else if v == 62 then (if url then '-' else '+')
    else (if url then '_' else '/')
  }

  function Value64(url: bool, c: char): (r: Option<int>)
    ensures r.Some? ==> 0 <= r.value < 64 && Digit64(url, r.value) == c
  {
    if 'A' <= c <= 'Z' then Some(c as int - 'A' as int)
    else if 'a' <= c <= 'z' then Some(c as int - 'a' as int + 26)
    else if '0' <= c <= '9' then Some(c as int - '0' as int + 52)
    else if c == (if url then '-' else '+') then Some(62)
    else if c == (if url then '_' else '/') then Some(63)
    else None
  }

  lemma ValueOfDigit(url: bool, v: int)
    requires 0 <= v < 64
    ensures Value64(url, Digit64(url, v)) == Some(v)
  {
  }

  /** Characters that can occur in encoded text. */
  ghost predicate Alphabet(url: bool, s: string) {
    forall i :: 0 <= i < |s| ==> Value64(url, s[i]).Some?
  }

  // ---------------------------------------------------------------- base64

  ghost predicate AreSextets(v: seq<int>) {
    forall i :: 0 <= i < |v| ==> 0 <= v[i] < 64
  }

  /** Three bytes regrouped as four sextets. */
  function Quad(a: byte, b: byte, c: byte): (v: seq<int>)
    ensures |v| == 4 && AreSextets(v)
  {
    [a / 4, a % 4 * 16 + b / 16, b % 16 * 4 + c / 64, c % 64]
  }

  /** Four sextets regrouped as three bytes. */
  function Triple(v: seq<int>): (b: Bytes)
    requires |v| == 4 && AreSextets(v)
    ensures |b| == 3
  {
    [v[0] * 4 + v[1] / 16, v[1] % 16 * 16 + v[2] / 4, v[2] % 4 * 64 + v[3]]
  }

  lemma TripleOfQuad(a: byte, b: byte, c: byte)
    ensures Triple(Quad(a, b, c)) == [a, b, c]
  {
  }

  lemma QuadOfTriple(s: int, t: int, u: int, v: int)
    requires AreSextets([s, t, u, v])
    ensures var b := Triple([s, t, u, v]); Quad(b[0], b[1], b[2]) == [s, t, u, v]
  {
    assert 0 <= s < 64 && 0 <= t < 64 && 0 <= u < 64 && 0 <= v < 64 by {
      assert [s, t, u, v][0] == s && [s, t, u, v][1] == t && [s, t, u, v][2] == u && [s, t, u, v][3] == v;
    }
    QuadOfTripleArithmetic(s, t, u, v);
  }

  lemma QuadOfTripleArithmetic(s: int, t: int, u: int, v: int)
    requires 0 <= s < 64 && 0 <= t < 64 && 0 <= u < 64 && 0 <= v < 64
    ensures (s * 4 + t / 16) / 4 == s
    ensures (s * 4 + t / 16) % 4 * 16 + (t % 16 * 16 + u / 4) / 16 == t
    ensures (t % 16 * 16 + u / 4) % 16 * 4 + (u % 4 * 64 + v) / 64 == u
    ensures (u % 4 * 64 + v) % 64 == v
  {
  }

  /** A last group of one or two bytes is filled up with zero bits and cut to two or three sextets. */
  function ToSextets(b: Bytes): (v: seq<int>)
    ensures AreSextets(v) && |v| == (|b| * 4 + 2) / 3
  {
    if |b| == 0 then []
    else if |b| == 1 then Quad(b[0], 0, 0)[..2]
    else if |b| == 2 then Quad(b[0], b[1], 0)[..3]
    else Quad(b[0], b[1], b[2]) + ToSextets(b[3..])
  }

  /** A single left-over sextet is an error. Left-over low bits of the last sextet are dropped,
      as the non-strict decoder does. */
  function Octets(v: seq<int>): (r: Option<Bytes>)
    requires AreSextets(v)
  {
    if |v| == 0 then Some([])
    else if |v| == 1 then None
    else if |v| == 2 then Some(Triple(v + [0, 0])[..1])
    else if |v| == 3 then Some(Triple(v + [0])[..2])
    else
      var rest := Octets(v[4..]);
      if rest.None? then None else Some(Triple(v[..4]) + rest.value)
  }

  function Encode64(url: bool, b: Bytes): (s: string)
    ensures |s| == (|b| * 4 + 2) / 3
  {
    var v := ToSextets(b);
    seq(|v|, i requires 0 <= i < |v| => Digit64(url, v[i]))
  }

  /** The decoder ignores carriage returns and line feeds wherever they stand. */
  function DropNewlines(s: string): string {
    if |s| == 0 then ""
    else (if s[0] == '\r' || s[0] == '\n' then "" else [s[0]]) + DropNewlines(s[1..])
  }

  function Sextets(url: bool, s: string): (r: Option<seq<int>>)
    ensures r.Some? ==> AreSextets(r.value) && |r.value| == |s|
    ensures r.Some? ==> forall i :: 0 <= i < |s| ==> Value64(url, s[i]) == Some(r.value[i])
  {
    if |s| == 0 then Some([])
    else
      var v, rest := Value64(url, s[0]), Sextets(url, s[1..]);
      if v.Some? && rest.Some? then Some([v.value] + rest.value) else None
  }

  function Decode64(url: bool, s: string): Option<Bytes> {
    var v := Sextets(url, DropNewlines(s));
    if v.Some? then Octets(v.value) else None
  }

  /** The low bits of the last sextet that no byte uses are zero. */
  predicate EndsClean(v: seq<int>) {
    if |v| >= 4 then EndsClean(v[4..])
    else (|v| == 2 ==> v[1] % 16 == 0) && (|v| == 3 ==> v[2] % 4 == 0)
  }

  /** Text an encoder can have written: no line breaks and no bits set past the last byte. */
  predicate Canonical64(url: bool, s: string) {
    '\r' !in s && '\n' !in s && Sextets(url, s).Some? && EndsClean(Sextets(url, s).value)
  }

  lemma {:induction false} SextetsOfDigits(url: bool, s: string, v: seq<int>)
    requires |s| == |v| && AreSextets(v) && forall i :: 0 <= i < |v| ==> s[i] == Digit64(url, v[i])
    ensures Sextets(url, s) == Some(v) && DropNewlines(s) == s
    ensures '\r' !in s && '\n' !in s && '$' !in s && Alphabet(url, s)
  {
    if |s| > 0 {
      ValueOfDigit(url, v[0]);
      SextetsOfDigits(url, s[1..], v[1..]);
      assert v == [v[0]] + v[1..] && s == [s[0]] + s[1..];
    }
  }

  lemma OctetsOfOneByte(a: byte)
    ensures Octets(ToSextets([a])) == Some([a])
  {
    TripleOfQuad(a, 0, 0);
    assert ToSextets([a]) + [0, 0] == Quad(a, 0, 0) && [a] == [a, 0, 0][..1];
  }

  lemma OctetsOfTwoBytes(a: byte, b: byte)
    ensures Octets(ToSextets([a, b])) == Some([a, b])
  {
    TripleOfQuad(a, b, 0);
    assert ToSextets([a, b]) + [0] == Quad(a, b, 0) && [a, b] == [a, b, 0][..2];
  }

  lemma {:induction false} OctetsOfSextets(b: Bytes)
    ensures Octets(ToSextets(b)) == Some(b)
  {
    var v := ToSextets(b);
    if |b| == 1 {
      OctetsOfOneByte(b[0]);
      assert b == [b[0]];
    } else if |b| == 2 {
      OctetsOfTwoBytes(b[0], b[1]);
      assert b == [b[0], b[1]];
    } else if |b| >= 3 {
      TripleOfQuad(b[0], b[1], b[2]);
      OctetsOfSextets(b[3..]);
      assert v[..4] == Quad(b[0], b[1], b[2]) && v[4..] == ToSextets(b[3..]);
      assert b == [b[0], b[1], b[2]] + b[3..];
    }
  }

  /** Decoding undoes encoding, for both alphabets and every byte string. */
  lemma RoundTrip64(url: bool, b: Bytes)
    ensures Decode64(url, Encode64(url, b)) == Some(b)
    ensures Alphabet(url, Encode64(url, b)) && '$' !in Encode64(url, b)
  {
    SextetsOfDigits(url, Encode64(url, b), ToSextets(b));
    OctetsOfSextets(b);
  }

  lemma {:induction false} SextetsEndClean(b: Bytes)
    ensures EndsClean(ToSextets(b))
  {
    if |b| >= 3 {
      SextetsEndClean(b[3..]);
      assert ToSextets(b)[4..] == ToSextets(b[3..]);
    }
  }

  lemma TwoSextetsArithmetic(s: int, t: int, b: int)
    requires 0 <= s < 64 && 0 <= t < 64 && t % 16 == 0 && b == s * 4 + t / 16
    ensures b / 4 == s && b % 4 * 16 == t && 0 <= b < 256
  {
  }

  lemma OctetsOfTwo(v: seq<int>)
    requires AreSextets(v) && |v| == 2
    ensures v[0] * 4 + v[1] / 16 < 256 && Octets(v) == Some([v[0] * 4 + v[1] / 16])
  {
    var w := v + [0, 0];
    assert w[0] == v[0] && w[1] == v[1];
    var b := Triple(w);
    assert b[0] == v[0] * 4 + v[1] / 16;
    assert b[..1] == [b[0]];
    assert Octets(v) == Some(b[..1]);
  }

  lemma SextetsOfOne(b: byte)
    ensures ToSextets([b]) == [b / 4, b % 4 * 16]
  {
  }

  lemma SextetsOfTwo(v: seq<int>)
    requires AreSextets(v) && |v| == 2 && EndsClean(v)
    ensures ToSextets(Octets(v).value) == v
  {
    var s, t := v[0], v[1];
    assert t % 16 == 0;
    var b: byte := s * 4 + t / 16;
    assert Octets(v) == Some([b]) by {
      OctetsOfTwo(v);
    }
    assert b / 4 == s && b % 4 * 16 == t by {
      TwoSextetsArithmetic(s, t, b);
    }
    assert ToSextets([b]) == [s, t] by {
      SextetsOfOne(b);
    }
  }

  lemma ThreeSextetsArithmetic(s: int, t: int, u: int, a: int, b: int)
    requires 0 <= s < 64 && 0 <= t < 64 && 0 <= u < 64 && u % 4 == 0
    requires a == s * 4 + t / 16 && b == t % 16 * 16 + u / 4
    ensures a / 4 == s && a % 4 * 16 + b / 16 == t && b % 16 * 4 == u && 0 <= a < 256 && 0 <= b < 256
  {
  }

  lemma OctetsOfThree(v: seq<int>)
    requires AreSextets(v) && |v| == 3
    ensures v[0] * 4 + v[1] / 16 < 256 && v[1] % 16 * 16 + v[2] / 4 < 256
    ensures Octets(v) == Some([v[0] * 4 + v[1] / 16, v[1] % 16 * 16 + v[2] / 4])
  {
    var w := v + [0];
    assert w[0] == v[0] && w[1] == v[1] && w[2] == v[2];
    var b := Triple(w);
    assert b[0] == v[0] * 4 + v[1] / 16 && b[1] == v[1] % 16 * 16 + v[2] / 4;
    assert b[..2] == [b[0], b[1]];
    assert Octets(v) == Some(b[..2]);
  }

  lemma SextetsOfPair(a: byte, b: byte)
    ensures ToSextets([a, b]) == [a / 4, a % 4 * 16 + b / 16, b % 16 * 4]
  {
  }

  lemma SextetsOfThree(v: seq<int>)
    requires AreSextets(v) && |v| == 3 && EndsClean(v)
    ensures ToSextets(Octets(v).value) == v
  {
    assert v == [v[0], v[1], v[2]];
    ThreeSextetsBack(v[0], v[1], v[2]);
    OctetsOfThree(v);
  }

  lemma ThreeSextetsBack(s: int, t: int, u: int)
    requires 0 <= s < 64 && 0 <= t < 64 && 0 <= u < 64 && u % 4 == 0
    ensures s * 4 + t / 16 < 256 && t % 16 * 16 + u / 4 < 256
    ensures ToSextets([s * 4 + t / 16, t % 16 * 16 + u / 4]) == [s, t, u]
  {
    var a, b := s * 4 + t / 16, t % 16 * 16 + u / 4;
    ThreeSextetsArithmetic(s, t, u, a, b);
    SextetsOfPair(a, b);
  }

  lemma SextetsOfGroup(v: seq<int>, rest: Bytes)
    requires AreSextets(v) && |v| >= 4 && ToSextets(rest) == v[4..]
    ensures ToSextets(Triple(v[..4]) + rest) == v
  {
    var b := Triple(v[..4]);
    QuadOfTriple(v[0], v[1], v[2], v[3]);
    assert v[..4] == [v[0], v[1], v[2], v[3]];
    assert (b + rest)[3..] == rest && v == v[..4] + v[4..];
  }

  lemma {:induction false} SextetsOfOctets(v: seq<int>)
    requires AreSextets(v) && Octets(v).Some? && EndsClean(v)
    ensures ToSextets(Octets(v).value) == v
  {
    if |v| >= 4 {
      SextetsOfOctets(v[4..]);
      SextetsOfGroup(v, Octets(v[4..]).value);
    } else if |v| == 3 {
      SextetsOfThree(v);
    } else if |v| == 2 {
      SextetsOfTwo(v);
    }
  }

  lemma EncodedIsCanonical(url: bool, b: Bytes)
    ensures Canonical64(url, Encode64(url, b))
  {
    SextetsOfDigits(url, Encode64(url, b), ToSextets(b));
    SextetsEndClean(b);
  }

  lemma {:induction false} DropNothing(s: string)
    requires '\r' !in s && '\n' !in s
    ensures DropNewlines(s) == s
  {
    if |s| > 0 {
      assert s == [s[0]] + s[1..];
      DropNothing(s[1..]);
    }
  }

  lemma CanonicalIsEncoded(url: bool, s: string, b: Bytes)
    requires Decode64(url, s) == Some(b) && Canonical64(url, s)
    ensures s == Encode64(url, b)
  {
    DropNothing(s);
    SextetsOfOctets(Sextets(url, s).value);
  }

  /** Text is the encoding of `b` exactly when it decodes to `b` and is canonical. */
  lemma EncodedExactly(url: bool, s: string, b: Bytes)
    ensures s == Encode64(url, b) <==> Decode64(url, s) == Some(b) && Canonical64(url, s)
  {
    RoundTrip64(url, b);
    EncodedIsCanonical(url, b);
    if Decode64(url, s) == Some(b) && Canonical64(url, s) {
      CanonicalIsEncoded(url, s, b);
    }
  }

  lemma {:induction false} SextetsSome(url: bool, s: string)
    ensures Sextets(url, s).Some? <==> Alphabet(url, s)
  {
    if |s| > 0 {
      SextetsSome(url, s[1..]);
      assert s == [s[0]] + s[1..];
    }
  }

  lemma {:induction false} OctetsSome(v: seq<int>)
    requires AreSextets(v)
    ensures Octets(v).Some? <==> |v| % 4 != 1
    ensures Octets(v).Some? ==> |Octets(v).value| == |v| * 3 / 4
  {
    if |v| >= 4 {
      OctetsSome(v[4..]);
    }
  }

  /** The decoder accepts a text if and only if, line breaks apart, all its characters are of the alphabet and their
      number does not leave one over at the end: it is lenient about unused bits. */
  lemma DecodesExactly(url: bool, s: string, t: string)
    requires t == DropNewlines(s)
    ensures Decode64(url, s).Some? <==> Alphabet(url, t) && |t| % 4 != 1
    ensures Decode64(url, s).Some? ==> |Decode64(url, s).value| == |t| * 3 / 4
  {
    SextetsSome(url, t);
    if Sextets(url, t).Some? {
      OctetsSome(Sextets(url, t).value);
    }
  }

  lemma {:induction false} DropBoth(a: string, b: string)
    ensures DropNewlines(a + b) == DropNewlines(a) + DropNewlines(b)
  {
    if |a| == 0 {
      assert a + b == b;
    } else {
      assert (a + b)[0] == a[0] && (a + b)[1..] == a[1..] + b;
      DropBoth(a[1..], b);
    }
  }

  /** A carriage return or line feed anywhere makes no difference. */
  lemma LineBreaksIgnored(url: bool, a: string, c: char, b: string)
    requires c == '\r' || c == '\n'
    ensures Decode64(url, a + [c] + b) == Decode64(url, a + b)
  {
    DropBoth(a + [c], b);
    DropBoth(a, [c]);
    DropBoth(a, b);
    assert [c][1..] == "" && DropNewlines([c]) == "" + DropNewlines("");
    assert DropNewlines(a) + DropNewlines([c]) == DropNewlines(a);
  }

  // ---------------------------------------------------------------- decimal

  predicate IsDigit(c: char) {
    '0' <= c <= '9'
  }

  ghost predicate Digits(s: string) {
    forall i :: 0 <= i < |s| ==> IsDigit(s[i])
  }

  /** What `%d` prints for a number that is not negative. */
  function Decimal(n: nat): (s: string)
    ensures |s| > 0 && Digits(s)
  {
    if n < 10 then ['0' + n as char] else Decimal(n / 10) + ['0' + (n % 10) as char]
  }

  function DigitsValue(s: string): nat
    requires Digits(s)
  {
    if |s| == 0 then 0 else DigitsValue(s[..|s| - 1]) * 10 + (s[|s| - 1] as int - '0' as int)
  }

  lemma {:induction false} DecimalRoundTrip(n: nat)
    ensures DigitsValue(Decimal(n)) == n
  {
    if n >= 10 {
      DecimalRoundTrip(n / 10);
      assert Decimal(n)[..|Decimal(n)| - 1] == Decimal(n / 10);
    }
  }

  /** Length of the longest prefix made of digits. */
  function DigitRun(s: string): (n: nat)
    ensures n <= |s| && Digits(s[..n]) && (n < |s| ==> !IsDigit(s[n]))
  {
    if |s| == 0 || !IsDigit(s[0]) then 0 else
      var n := DigitRun(s[1..]);
      assert s[..n + 1] == [s[0]] + s[1..][..n];
      n + 1
  }

  lemma {:induction false} DigitRunIs(s: string, n: nat)
    requires n <= |s| && Digits(s[..n]) && (n < |s| ==> !IsDigit(s[n]))
    ensures DigitRun(s) == n
  {
    if n > 0 {
      assert IsDigit(s[..n][0]);
      assert s[..n][1..] == s[1..][..n - 1];
      DigitRunIs(s[1..], n - 1);
    }
  }

  /** Blanks a number scanner skips; a line feed is not one of them. */
  predicate IsBlank(c: char) {
    c == ' ' || c == '\t' || c == '\r' || c == 11 as char || c == 12 as char ||
    c == 0x85 as char || c == 0xA0 as char
  }

  function SkipBlanks(s: string): string {
    if |s| > 0 && IsBlank(s[0]) then SkipBlanks(s[1..]) else s
  }

  /** `%d` into a uint32: the number and the text after it. No digits, or a number of more
      than 32 bits, is an error. */
  function ScanUint32(text: string): Option<(nat, string)> {
    var s := SkipBlanks(text);
    var n := DigitRun(s);
    if n == 0 || DigitsValue(s[..n]) >= 0x1_0000_0000 then None
    else Some((DigitsValue(s[..n]), s[n..]))
  }

  lemma ScanDecimal(n: nat, rest: string)
    requires n < 0x1_0000_0000 && (|rest| > 0 ==> !IsDigit(rest[0]))
    ensures ScanUint32(Decimal(n) + rest) == Some((n, rest))
  {
    var s := Decimal(n) + rest;
    var d := |Decimal(n)|;
    assert IsDigit(s[0]) && s[..d] == Decimal(n) && s[d..] == rest;
    DigitRunIs(s, d);
    DecimalRoundTrip(n);
  }

  /** The text is blanks, then a number of at most 32 bits, then text that does not go on with a digit. */
  ghost predicate Reads(text: string, blanks: string, digits: string, rest: string, n: nat) {
    text == blanks + (digits + rest) &&
    (forall i :: 0 <= i < |blanks| ==>
      blanks[i] in {' ', '\t', '\r', 11 as char, 12 as char, 0x85 as char, 0xA0 as char}) &&
    |digits| > 0 && Digits(digits) && (|rest| > 0 ==> !('0' <= rest[0] <= '9')) &&
    DigitsValue(digits) == n && n < 0x1_0000_0000
  }

  lemma {:induction false} SkipsBlanks(blanks: string, s: string)
    requires forall i :: 0 <= i < |blanks| ==> IsBlank(blanks[i])
    requires |s| > 0 ==> !IsBlank(s[0])
    ensures SkipBlanks(blanks + s) == s
  {
    if |blanks| == 0 {
      assert blanks + s == s;
    } else {
      assert (blanks + s)[1..] == blanks[1..] + s;
      SkipsBlanks(blanks[1..], s);
    }
  }

  lemma {:induction false} BlanksSkipped(text: string) returns (blanks: string)
    ensures text == blanks + SkipBlanks(text) && forall i :: 0 <= i < |blanks| ==> IsBlank(blanks[i])
  {
    if |text| > 0 && IsBlank(text[0]) {
      var more := BlanksSkipped(text[1..]);
      blanks := [text[0]] + more;
    } else {
      blanks := "";
    }
  }

  lemma ReadsIsScanned(text: string, blanks: string, digits: string, rest: string, n: nat)
    requires Reads(text, blanks, digits, rest, n)
    ensures ScanUint32(text) == Some((n, rest))
  {
    var s := digits + rest;
    assert IsDigit(digits[0]) && s[0] == digits[0];
    SkipsBlanks(blanks, s);
    assert s[..|digits|] == digits && s[|digits|..] == rest;
    DigitRunIs(s, |digits|);
  }

  lemma ScannedIsRead(text: string, rest: string, n: nat) returns (blanks: string, digits: string)
    requires ScanUint32(text) == Some((n, rest))
    ensures Reads(text, blanks, digits, rest, n)
  {
    blanks := BlanksSkipped(text);
    var s := SkipBlanks(text);
    digits := s[..DigitRun(s)];
    assert s == digits + rest;
  }

  /** Every text: a number is read from it if and only if it is blanks, that number in at most 32 bits, and the
      text that is left. */
  lemma ScanExactly(text: string, rest: string, n: nat)
    ensures ScanUint32(text) == Some((n, rest)) <==> exists blanks, digits :: Reads(text, blanks, digits, rest, n)
  {
    if ScanUint32(text) == Some((n, rest)) {
      var blanks, digits := ScannedIsRead(text, rest, n);
    }
    forall blanks, digits | Reads(text, blanks, digits, rest, n)
      ensures ScanUint32(text) == Some((n, rest))
    {
      ReadsIsScanned(text, blanks, digits, rest, n);
    }
  }

  // ---------------------------------------------------------------- splitting

  function IndexOf(s: string, c: char): (i: nat)
    ensures i <= |s| && c !in s[..i] && (i < |s| ==> s[i] == c)
  {
    if |s| == 0 || s[0] == c then 0 else
      var i := IndexOf(s[1..], c);
      assert s[..i + 1] == [s[0]] + s[1..][..i];
      i + 1
  }

  lemma {:induction false} IndexOfIs(s: string, c: char, i: nat)
    requires i <= |s| && c !in s[..i] && (i < |s| ==> s[i] == c)
    ensures IndexOf(s, c) == i
  {
    if i > 0 {
      assert s[..i][0] == s[0] && s[..i][1..] == s[1..][..i - 1];
      IndexOfIs(s[1..], c, i - 1);
    }
  }

  /** `strings.Split` at a single character. */
  function Split(s: string, c: char): (parts: seq<string>)
    ensures |parts| >= 1
  {
    var i := IndexOf(s, c);
    if i == |s| then [s] else [s[..i]] + Split(s[i + 1..], c)
  }

  function Join(parts: seq<string>, c: char): string
    requires |parts| >= 1
  {
    if |parts| == 1 then parts[0] else parts[0] + [c] + Join(parts[1..], c)
  }

  /** Splitting recovers the parts that were joined, as long as none contains the separator. */
  lemma {:induction false} SplitJoin(parts: seq<string>, c: char)
    requires |parts| >= 1 && forall i :: 0 <= i < |parts| ==> c !in parts[i]
    ensures Split(Join(parts, c), c) == parts
  {
    var s := Join(parts, c);
    if |parts| == 1 {
      assert s[..|s|] == s;
      IndexOfIs(s, c, |s|);
    } else {
      var i := |parts[0]|;
      assert s[..i] == parts[0] && s[i] == c && s[i + 1..] == Join(parts[1..], c);
      IndexOfIs(s, c, i);
      SplitJoin(parts[1..], c);
    }
  }

  lemma {:induction false} JoinSplit(s: string, c: char)
    ensures Join(Split(s, c), c) == s
    ensures forall i :: 0 <= i < |Split(s, c)| ==> c !in Split(s, c)[i]
  {
    var i := IndexOf(s, c);
    if i < |s| {
      var rest := Split(s[i + 1..], c);
      JoinSplit(s[i + 1..], c);
      assert Split(s, c) == [s[..i]] + rest;
      assert ([s[..i]] + rest)[1..] == rest;
      assert s == s[..i] + [c] + s[i + 1..];
    } else {
      assert s[..i] == s;
    }
  }
}
