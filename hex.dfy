/** Bytes, SHA-256 digests, and the lower-case hexadecimal rendering that
    Node's `Hmac.digest("hex")` produces: two digits per byte, high nibble
    first, letters `a` to `f`. */
module Hex {

  type Byte = b: int | 0 <= b < 256

  /** The 32-byte output of HMAC-SHA256. */
  type Digest = d: seq<Byte> | |d| == 32 witness seq(32, _ => 0)

  predicate IsLowerHexChar(c: char) {
    '0' <= c <= '9' || 'a' <= c <= 'f'
  }

  /** The hexadecimal digit of a nibble. */
  function Digit(n: int): (c: char)
    requires 0 <= n < 16
    ensures IsLowerHexChar(c)
    ensures n < 10 <==> '0' <= c <= '9'
  {
    if n < 10 then ('0' as int + n) as char else ('a' as int + n - 10) as char
  }

  /** Distinct nibbles have distinct digits. */
  lemma DigitInjective(m: int, n: int)
    requires 0 <= m < 16 && 0 <= n < 16
    requires Digit(m) == Digit(n)
    ensures m == n
  {
  }

  /** `digest("hex")` of a byte string. */
  function Encode(bytes: seq<Byte>): (s: string)
    ensures |s| == 2 * |bytes|
    ensures forall i :: 0 <= i < |s| ==> IsLowerHexChar(s[i])
  {
    if bytes == [] then []
    else [Digit(bytes[0] / 16), Digit(bytes[0] % 16)] + Encode(bytes[1..])
  }

  /** Byte `k` of the input is rendered at positions `2k` and `2k+1`. */
  lemma {:induction false} EncodeAt(bytes: seq<Byte>, k: int)
    requires 0 <= k < |bytes|
    ensures Encode(bytes)[2 * k] == Digit(bytes[k] / 16)
    ensures Encode(bytes)[2 * k + 1] == Digit(bytes[k] % 16)
  {
    if k > 0 {
      EncodeAt(bytes[1..], k - 1);
    }
  }

  /** Different byte strings have different renderings, so comparing hex
      strings compares the bytes. */
  lemma EncodeInjective(a: seq<Byte>, b: seq<Byte>)
    requires Encode(a) == Encode(b)
    ensures a == b
  {
    assert |a| == |b|;
    forall k | 0 <= k < |a|
      ensures a[k] == b[k]
    {
      EncodeAt(a, k);
      EncodeAt(b, k);
      DigitInjective(a[k] / 16, b[k] / 16);
      DigitInjective(a[k] % 16, b[k] % 16);
    }
  }
}
