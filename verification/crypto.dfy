/** The hashing and fingerprint helpers of the certificate service.

    The SHA-256 digest, the HMAC and the ULID generator are not modelled
    here: they are collaborators supplied to the handlers (see `Context`).
    What the service itself decides is how the public fingerprint is cut out
    of a digest, and that is what this module states. */
module Crypto {

  /** Number of hexadecimal characters in a SHA-256 digest. */
  const DigestLength: nat := 64

  /** Number of characters of a digest kept in a public fingerprint. */
  const FingerprintLength: nat := 8

  predicate IsLowerHex(c: char) {
    '0' <= c <= '9' || 'a' <= c <= 'f'
  }

  predicate IsUpperHex(c: char) {
    '0' <= c <= '9' || 'A' <= c <= 'F'
  }

  /** What `digest('hex')` of a SHA-256 hash or HMAC yields: 64 lower-case
      hexadecimal characters. */
  predicate IsHexDigest(s: string) {
    |s| == DigestLength && forall i :: 0 <= i < |s| ==> IsLowerHex(s[i])
  }

  type Digest = s: string | IsHexDigest(s)
    witness seq(64, _ => '0')

  /** A well-formed public fingerprint: 8 upper-case hexadecimal characters. */
  predicate IsFingerprint(s: string) {
    |s| == FingerprintLength && forall i :: 0 <= i < |s| ==> IsUpperHex(s[i])
  }

  /** `toUpperCase` on one character, restricted to ASCII letters. */
  function UpperChar(c: char): char {
    if 'a' <= c <= 'z' then (c as int - 32) as char else c
  }

  /** `toLowerCase` on one character, restricted to ASCII letters. */
  function LowerChar(c: char): char {
    if 'A' <= c <= 'Z' then (c as int + 32) as char else c
  }

  function ToUpper(s: string): (r: string)
    ensures |r| == |s|
    ensures forall i :: 0 <= i < |s| ==> r[i] == UpperChar(s[i])
  {
    seq(|s|, i requires 0 <= i < |s| => UpperChar(s[i]))
  }

  function ToLower(s: string): (r: string)
    ensures |r| == |s|
    ensures forall i :: 0 <= i < |s| ==> r[i] == LowerChar(s[i])
  {
    seq(|s|, i requires 0 <= i < |s| => LowerChar(s[i]))
  }

  /** `s.substring(0, n)`: JavaScript clamps the end index to the length. */
  function Prefix(s: string, n: nat): (r: string)
    ensures |r| == if n < |s| then n else |s|
    ensures r <= s
  {
    if n < |s| then s[..n] else s
  }

  /** The public fingerprint printed on a certificate: the first 8
      characters of a digest, upper-cased. Shorter inputs are kept whole. */
  function GenerateFingerprint(hash: string): (fp: string)
    ensures |fp| == if |hash| < FingerprintLength then |hash| else FingerprintLength
    ensures forall i :: 0 <= i < |fp| ==> fp[i] == UpperChar(hash[i])
  {
    ToUpper(Prefix(hash, FingerprintLength))
  }

  /** The fingerprint of any hex digest is exactly 8 characters of 0-9A-F. */
  lemma DigestFingerprintWellFormed(hash: string)
    requires IsHexDigest(hash)
    ensures IsFingerprint(GenerateFingerprint(hash))
  {
    var fp := GenerateFingerprint(hash);
    forall i | 0 <= i < |fp|
      ensures IsUpperHex(fp[i])
    {
      assert IsLowerHex(hash[i]);
    }
  }

  /** Nothing of the digest beyond its first 8 characters matters. */
  lemma FingerprintDependsOnlyOnPrefix(h1: string, h2: string)
    requires Prefix(h1, FingerprintLength) == Prefix(h2, FingerprintLength)
    ensures GenerateFingerprint(h1) == GenerateFingerprint(h2)
  {
  }

  /** For hex digests the converse holds as well: two digests share a
      fingerprint exactly when they share their first 8 characters, since
      upper-casing is one-to-one on `0-9a-f`. */
  lemma FingerprintsAgreeIffPrefixesAgree(h1: string, h2: string)
    requires IsHexDigest(h1) && IsHexDigest(h2)
    ensures GenerateFingerprint(h1) == GenerateFingerprint(h2)
            <==> h1[..FingerprintLength] == h2[..FingerprintLength]
  {
    var f1, f2 := GenerateFingerprint(h1), GenerateFingerprint(h2);
    if f1 == f2 {
      forall i | 0 <= i < FingerprintLength
        ensures h1[i] == h2[i]
      {
        assert UpperChar(h1[i]) == f1[i] == f2[i] == UpperChar(h2[i]);
        assert IsLowerHex(h1[i]) && IsLowerHex(h2[i]);
      }
    }
  }

  /** Applying the fingerprint to its own output changes nothing. */
  lemma FingerprintIdempotent(hash: string)
    ensures GenerateFingerprint(GenerateFingerprint(hash)) == GenerateFingerprint(hash)
  {
  }

  /** Lower-casing the fingerprint of a hex digest gives back the digest's
      first 8 characters: upper-casing only maps `a-f` to `A-F`. */
  lemma FingerprintLowerRoundTrip(hash: string)
    requires IsHexDigest(hash)
    ensures ToLower(GenerateFingerprint(hash)) == hash[..FingerprintLength]
  {
    var fp := GenerateFingerprint(hash);
    forall i | 0 <= i < FingerprintLength
      ensures ToLower(fp)[i] == hash[i]
    {
      assert IsLowerHex(hash[i]);
    }
  }

  /** A hex digest differs from every string that carries a character
      outside `0-9a-f`, such as a raw client address with its `.` or `:`
      separators: the keyed hash that is logged is never the address itself. */
  lemma DigestDiffersFromNonHex(d: string, raw: string, k: nat)
    requires IsHexDigest(d)
    requires k < |raw| && !IsLowerHex(raw[k])
    ensures d != raw
  {
    if k < |d| {
      assert IsLowerHex(d[k]);
    }
  }
}
