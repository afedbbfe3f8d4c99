/** Values shared by the relay client model: Go bytes and strings, errors and
    the Option/Result wrappers that stand in for Go's `(value, err)` returns. */
module GoValues {

  /** One Go `byte`. */
  type Byte = x: int | 0 <= x < 256

  /** One byte of a Go `string`: Go strings are byte sequences, so every
      character of the model has a code below 256. */
  type ByteChar = c: char | c as int < 256 witness '0'

  /** A Go `string`, one character per byte. */
  type GoString = seq<ByteChar>

  /** An opaque Go `error` value, identified by its message. */
  datatype Error = Error(message: string)

  datatype Option<+T> = None | Some(value: T)

  datatype Result<+T> = Ok(value: T) | Err(error: Error)

  /** Go's `string(buf)` conversion: byte for byte. */
  function StringOfBytes(b: seq<Byte>): (s: GoString)
    ensures |s| == |b|
    ensures forall i :: 0 <= i < |b| ==> s[i] as int == b[i]
  {
    seq(|b|, i requires 0 <= i < |b| => b[i] as char)
  }

  /** Go's `[]byte(s)` conversion: byte for byte. */
  function BytesOfString(s: GoString): (b: seq<Byte>)
    ensures |b| == |s|
    ensures forall i :: 0 <= i < |s| ==> b[i] == s[i] as int
  {
    seq(|s|, i requires 0 <= i < |s| => s[i] as int)
  }

  /** The two conversions are mutually inverse, so neither loses a byte. */
  lemma BytesOfStringOfBytes(b: seq<Byte>)
    ensures BytesOfString(StringOfBytes(b)) == b
  {
  }

  lemma StringOfBytesOfString(s: GoString)
    ensures StringOfBytes(BytesOfString(s)) == s
  {
  }

  function Max0(n: int): (m: nat)
    ensures m == n || (n < 0 && m == 0)
  {
    if n < 0 then 0 else n
  }

  lemma MulAtLeast(d: int, p: int)
    requires d >= 1 && p > 0
    ensures d * p >= p
  {
    assert d * p == (d - 1) * p + p;
    assert (d - 1) * p >= 0;
  }

  /** Quotient and remainder are the unique ones with `0 <= r < p`. */
  lemma DivModOf(k: int, p: int, q: int, r: int)
    requires p > 0 && 0 <= r < p && k == q * p + r
    ensures k / p == q && k % p == r
  {
    var q', r' := k / p, k % p;
    assert k == q' * p + r';
    var d := q - q';
    assert d * p == r' - r by {
      assert q * p - q' * p == (q - q') * p;
    }
    if d > 0 {
      MulAtLeast(d, p);
    } else if d < 0 {
      MulAtLeast(-d, p);
    }
  }
}
