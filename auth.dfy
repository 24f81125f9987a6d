/** The three helpers of the webhook route: `encodeData`, `verifySignature`
    and `verifyTimestamp`. The JSON serialiser and HMAC-SHA256 are library
    code and stay opaque: they are fields of `Externals`, total functions
    and therefore deterministic. The clock is the parameter `now`. */
module Auth {
  import opened Wrappers
  import opened Hex

  /** The parsed request body. The handler reads only `created_at`; the other
      members matter only through the encoding that is signed. */
  datatype Body = Body(createdAt: int, otherMembers: seq<(string, string)>)

  /** The library calls the helpers make. */
  datatype Externals = Externals(
    /** `Buffer.from(JSON.stringify(data), "utf-8")` */
    jsonUtf8: Body -> seq<Byte>,
    /** `createHmac("sha256", secret).update(data).digest()` */
    hmacSha256: (string, seq<Byte>) -> Digest)

  /** `encodeData`: the bytes that are signed. */
  function EncodeData(ext: Externals, body: Body): seq<Byte> {
    ext.jsonUtf8(body)
  }

  /** The hex digest `verifySignature` computes before comparing. */
  function ComputedSignature(ext: Externals, secret: string, encodedData: seq<Byte>): (s: string)
    ensures |s| == 64
    ensures forall i :: 0 <= i < |s| ==> IsLowerHexChar(s[i])
  {
    Encode(ext.hmacSha256(secret, encodedData))
  }

  /** `verifySignature`. The received signature is `undefined` when the
      request had no `x-signature` header, and `===` between a string and
      `undefined` is false. */
  function VerifySignature(ext: Externals, encodedData: seq<Byte>, received: Option<string>, secret: string): (r: bool)
    ensures r ==> received.Some? && |received.value| == 64
    ensures r ==> forall i :: 0 <= i < |received.value| ==> IsLowerHexChar(received.value[i])
  {
    received == Some(ComputedSignature(ext, secret, encodedData))
  }

  /** The window as the source writes it: five minutes in milliseconds. */
  const FiveMinutes: int := 5 * 60 * 1000

  /** `verifyTimestamp`, with `Math.round(Date.now() / 1000)` as the integer
      parameter `now` (seconds). The window is compared with a difference of
      seconds, so it is 300000 seconds, and only an upper bound on the age is
      checked. */
  function VerifyTimestamp(timestamp: int, now: int): (ok: bool)
    ensures ok <==> timestamp >= now - 300000
  {
    now - timestamp <= FiveMinutes
  }

  // ---------------------------------------------------------------------
  // The freshness check

  /** The oldest accepted timestamp is exactly 300000 seconds old. */
  lemma FreshnessBoundary(now: int)
    ensures VerifyTimestamp(now - 300000, now)
    ensures !VerifyTimestamp(now - 300001, now)
  {
  }

  /** A timestamp from the future always passes. */
  lemma FutureTimestampAccepted(timestamp: int, now: int)
    requires timestamp >= now
    ensures VerifyTimestamp(timestamp, now)
  {
  }

  /** A later timestamp passes whenever an earlier one does. */
  lemma FreshnessMonotone(timestamp: int, later: int, now: int)
    requires VerifyTimestamp(timestamp, now)
    requires later >= timestamp
    ensures VerifyTimestamp(later, now)
  {
  }

  /** The check does not enforce five minutes: a timestamp more than three
      days old still passes. */
  lemma WindowIsNotFiveMinutes(now: int)
    ensures VerifyTimestamp(now - 5 * 60 - 1, now)
    ensures VerifyTimestamp(now - 3 * 24 * 60 * 60, now)
  {
  }

  // ---------------------------------------------------------------------
  // The signature comparison

  /** A signature made with the same secret over the same bytes is accepted. */
  lemma SignatureRoundTrip(ext: Externals, encodedData: seq<Byte>, secret: string)
    ensures VerifySignature(ext, encodedData, Some(ComputedSignature(ext, secret, encodedData)), secret)
  {
  }

  /** The comparison is exact: it accepts precisely the strings that agree
      with the computed digest in length and in every character. */
  lemma SignatureComparisonIsExact(ext: Externals, encodedData: seq<Byte>, received: string, secret: string)
    ensures VerifySignature(ext, encodedData, Some(received), secret) <==>
            |received| == 64 &&
            forall i :: 0 <= i < 64 ==> received[i] == ComputedSignature(ext, secret, encodedData)[i]
  {
    var computed := ComputedSignature(ext, secret, encodedData);
    if |received| == 64 && forall i :: 0 <= i < 64 ==> received[i] == computed[i] {
      assert received == computed;
    }
  }

  /** One differing character is enough for a rejection. */
  lemma SignatureMismatchRejected(ext: Externals, encodedData: seq<Byte>, received: string, secret: string, i: int)
    requires 0 <= i < |received| && i < 64
    requires received[i] != ComputedSignature(ext, secret, encodedData)[i]
    ensures !VerifySignature(ext, encodedData, Some(received), secret)
  {
  }

  /** The comparison is case-sensitive and the computed digest is lower case,
      so a signature holding any character outside `0-9a-f` (an upper-case
      `A` to `F`, say) is rejected whatever its other characters are. */
  lemma NonLowerHexSignatureRejected(ext: Externals, encodedData: seq<Byte>, received: string, secret: string, i: int)
    requires 0 <= i < |received| && !IsLowerHexChar(received[i])
    ensures !VerifySignature(ext, encodedData, Some(received), secret)
  {
  }

  /** A signature of any length other than 64 is rejected, the empty one
      included. */
  lemma WrongLengthRejected(ext: Externals, encodedData: seq<Byte>, received: string, secret: string)
    requires |received| != 64
    ensures !VerifySignature(ext, encodedData, Some(received), secret)
  {
  }

  /** Comparing the hex strings is comparing the digests: a hex-rendered
      digest is accepted exactly when it is the one HMAC-SHA256 computes. */
  lemma SignatureComparesDigests(ext: Externals, encodedData: seq<Byte>, secret: string, digest: Digest)
    ensures VerifySignature(ext, encodedData, Some(Encode(digest)), secret) <==>
            ext.hmacSha256(secret, encodedData) == digest
  {
    if VerifySignature(ext, encodedData, Some(Encode(digest)), secret) {
      EncodeInjective(ext.hmacSha256(secret, encodedData), digest);
    }
  }

  /** A request without the header is never accepted. */
  lemma MissingSignatureRejected(ext: Externals, encodedData: seq<Byte>, secret: string)
    ensures !VerifySignature(ext, encodedData, None, secret)
  {
  }
}
