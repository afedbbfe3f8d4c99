/** `bytesToFormattedHex`: lowercase hex, one "hh " chunk per byte.

    The source computes it in two steps, `hex.EncodeToString` followed by the
    regular-expression rewrite `(..)` -> `$1 `. `FormattedHex` is the per-byte
    definition; `EncodeToString` and `SpaceAfterPairs` model the two steps and
    `FormattedHexIsRewrittenEncoding` proves that the two views agree. */
module Hex {
  import opened GoValues

  const Alphabet: string := "0123456789abcdef"

  predicate IsLowerHexDigit(c: char) {
    ('0' <= c <= '9') || ('a' <= c <= 'f')
  }

  /** The lowercase hex digit of a nibble. */
  function HexDigit(v: nat): (c: ByteChar)
    requires v < 16
    ensures IsLowerHexDigit(c)
    ensures DigitValue(c) == Some(v)
  {
    Alphabet[v]
  }

  /** The value of a lowercase hex digit; anything else is rejected. */
  function DigitValue(c: char): (r: Option<nat>)
    ensures r.Some? <==> IsLowerHexDigit(c)
    ensures r.Some? ==> r.value < 16
  {
    if '0' <= c <= '9' then Some(c as int - '0' as int)
    else if 'a' <= c <= 'f' then Some(c as int - 'a' as int + 10)
    else None
  }

  /** The three characters `bytesToFormattedHex` emits for one byte. */
  function ByteChunk(x: Byte): (s: GoString)
    ensures |s| == 3
    ensures IsLowerHexDigit(s[0]) && IsLowerHexDigit(s[1]) && s[2] == ' '
  {
    [HexDigit(x / 16), HexDigit(x % 16), ' ']
  }

  /** `bytesToFormattedHex` (connection.go:76-79). */
  function FormattedHex(b: seq<Byte>): (s: GoString)
    ensures |s| == 3 * |b|
    ensures forall i :: 0 <= i < |b| ==> s[3 * i .. 3 * i + 3] == ByteChunk(b[i])
  {
    if |b| == 0 then [] else ByteChunk(b[0]) + FormattedHex(b[1..])
  }

  /** `hex.EncodeToString`: two lowercase digits per byte, high nibble first. */
  function EncodeToString(b: seq<Byte>): (s: GoString)
    ensures |s| == 2 * |b|
    ensures forall i :: 0 <= i < |b| ==>
              s[2 * i] == HexDigit(b[i] / 16) && s[2 * i + 1] == HexDigit(b[i] % 16)
  {
    if |b| == 0 then [] else [HexDigit(b[0] / 16), HexDigit(b[0] % 16)] + EncodeToString(b[1..])
  }

  /** Go's `regexp` `.` matches any character except a newline. */
  predicate DotMatches(c: char) {
    c != '\n'
  }

  /** `regexp.MustCompile("(..)").ReplaceAllString(text, "$1 ")`: scanning left
      to right, every two-character match gets a space appended, and a
      character where no match starts is copied unchanged. Characters here
      are bytes, while Go's `.` matches a whole UTF-8 rune; the two agree on
      ASCII text, which covers every hex string the source rewrites. */
  function SpaceAfterPairs(t: GoString): (s: GoString)
    ensures |t| <= |s|
  {
    if |t| >= 2 && DotMatches(t[0]) && DotMatches(t[1]) then
      t[..2] + [' '] + SpaceAfterPairs(t[2..])
    else if |t| == 0 then []
    else [t[0]] + SpaceAfterPairs(t[1..])
  }

  /** On newline-free text of even length the rewrite emits each pair of
      characters followed by one space, so it is 3/2 times as long. */
  lemma {:induction false} SpaceAfterPairsOfPairs(t: GoString)
    requires |t| % 2 == 0
    requires forall i :: 0 <= i < |t| ==> DotMatches(t[i])
    ensures |SpaceAfterPairs(t)| == 3 * (|t| / 2)
    ensures forall i :: 0 <= i < |t| / 2 ==>
              SpaceAfterPairs(t)[3 * i .. 3 * i + 3] == [t[2 * i], t[2 * i + 1], ' ']
  {
    if |t| > 0 {
      var rest := t[2..];
      SpaceAfterPairsOfPairs(rest);
      var s := SpaceAfterPairs(t);
      var sr := SpaceAfterPairs(rest);
      assert s == [t[0], t[1], ' '] + sr;
      forall i | 1 <= i < |t| / 2
        ensures s[3 * i .. 3 * i + 3] == [t[2 * i], t[2 * i + 1], ' ']
      {
        assert s[3 * i .. 3 * i + 3] == sr[3 * (i - 1) .. 3 * (i - 1) + 3];
        assert rest[2 * (i - 1)] == t[2 * i] && rest[2 * (i - 1) + 1] == t[2 * i + 1];
      }
    }
  }

  /** The two-step computation of the source equals the per-byte definition. */
  lemma {:induction false} FormattedHexIsRewrittenEncoding(b: seq<Byte>)
    ensures SpaceAfterPairs(EncodeToString(b)) == FormattedHex(b)
  {
    if |b| > 0 {
      var t := EncodeToString(b);
      assert t[2..] == EncodeToString(b[1..]);
      FormattedHexIsRewrittenEncoding(b[1..]);
    }
  }

  /** Reads back a formatted hex string: a sequence of "hh " chunks. */
  function ParseFormattedHex(s: GoString): (r: Option<seq<Byte>>)
    ensures r.Some? ==> 3 * |r.value| == |s|
  {
    if |s| == 0 then Some([])
    else if |s| < 3 || s[2] != ' ' then None
    else
      match (DigitValue(s[0]), DigitValue(s[1]), ParseFormattedHex(s[3..]))
      case (Some(hi), Some(lo), Some(rest)) => Some([hi * 16 + lo] + rest)
      case _ => None
  }

  /** A byte is the combination of its two nibbles. */
  lemma NibblesCombine(x: Byte)
    ensures DigitValue(ByteChunk(x)[0]) == Some(x / 16)
    ensures DigitValue(ByteChunk(x)[1]) == Some(x % 16)
    ensures (x / 16) * 16 + x % 16 == x
  {
  }

  /** Reading one chunk off the front of a formatted string. */
  lemma ParseChunk(x: Byte, rest: GoString)
    ensures ParseFormattedHex(ByteChunk(x) + rest) ==
            match ParseFormattedHex(rest)
            case Some(r) => Some([x] + r)
            case None => None
  {
    var s := ByteChunk(x) + rest;
    NibblesCombine(x);
    assert s[0] == ByteChunk(x)[0] && s[1] == ByteChunk(x)[1] && s[2] == ' ';
    assert s[3..] == rest;
  }

  /** Decoding the pairs returns the input bytes. */
  lemma {:induction false} ParseFormattedHexRoundTrip(b: seq<Byte>)
    ensures ParseFormattedHex(FormattedHex(b)) == Some(b)
  {
    if |b| > 0 {
      ParseFormattedHexRoundTrip(b[1..]);
      ParseChunk(b[0], FormattedHex(b[1..]));
      assert [b[0]] + b[1..] == b;
    }
  }

  /** A digit the parser accepts is the digit of the nibble it yields. */
  lemma DigitValueSpelling(c: char)
    requires DigitValue(c).Some?
    ensures HexDigit(DigitValue(c).value) == c
  {
  }

  /** Two nibbles make the byte whose chunk spells them. */
  lemma CombineNibbles(hi: nat, lo: nat)
    requires hi < 16 && lo < 16
    ensures 0 <= hi * 16 + lo < 256
    ensures ByteChunk(hi * 16 + lo) == [HexDigit(hi), HexDigit(lo), ' ']
  {
    DivModOf(hi * 16 + lo, 16, hi, lo);
  }

  /** One accepted chunk off the front of an accepted string. */
  lemma ParseStep(s: GoString) returns (x: Byte)
    requires |s| > 0 && ParseFormattedHex(s).Some?
    ensures ParseFormattedHex(s[3..]).Some?
    ensures s == ByteChunk(x) + s[3..]
    ensures ParseFormattedHex(s).value == [x] + ParseFormattedHex(s[3..]).value
  {
    var hi := DigitValue(s[0]).value;
    var lo := DigitValue(s[1]).value;
    CombineNibbles(hi, lo);
    DigitValueSpelling(s[0]);
    DigitValueSpelling(s[1]);
    x := hi * 16 + lo;
    assert ByteChunk(x) == s[..3];
    assert s == s[..3] + s[3..];
  }

  lemma FormattedHexCons(x: Byte, rest: seq<Byte>)
    ensures FormattedHex([x] + rest) == ByteChunk(x) + FormattedHex(rest)
  {
    assert ([x] + rest)[1..] == rest;
  }

  /** Conversely, every string the parser accepts is the formatting of what it
      returns: the format has exactly one spelling per byte sequence. */
  lemma {:induction false} ParseFormattedHexCanonical(s: GoString)
    requires ParseFormattedHex(s).Some?
    ensures FormattedHex(ParseFormattedHex(s).value) == s
  {
    if |s| > 0 {
      var x := ParseStep(s);
      ParseFormattedHexCanonical(s[3..]);
      FormattedHexCons(x, ParseFormattedHex(s[3..]).value);
    }
  }

  /** The empty slice formats to the empty string; any other slice ends in a
      space. */
  lemma FormattedHexEnds(b: seq<Byte>)
    ensures b == [] <==> FormattedHex(b) == []
    ensures b != [] ==> FormattedHex(b)[|FormattedHex(b)| - 1] == ' '
  {
    if b != [] {
      var i := |b| - 1;
      assert FormattedHex(b)[3 * i .. 3 * i + 3] == ByteChunk(b[i]);
    }
  }

  /** The format distinguishes byte sequences. */
  lemma FormattedHexInjective(a: seq<Byte>, b: seq<Byte>)
    ensures FormattedHex(a) == FormattedHex(b) ==> a == b
  {
    if FormattedHex(a) == FormattedHex(b) {
      ParseFormattedHexRoundTrip(a);
      ParseFormattedHexRoundTrip(b);
    }
  }
}
