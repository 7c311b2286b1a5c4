/** The blob-store adapter: where a certificate PDF is put and how a
    time-limited download link for it is requested.

    The S3 client, its credentials and the request signature are not
    modelled; presigning is a collaborator (`Services.presign`) that turns
    the request built here into a URL. */
module BlobStore {
  import opened Common

  /** The bucket's contents: object key to stored bytes. */
  type Bucket = map<string, Bytes>

  const KeyPrefix := "certificates/"
  const KeySuffix := ".pdf"

  /** Expiry of a download link when the caller gives none, in seconds. */
  const DefaultTtlSeconds: nat := 120

  /** The object key a certificate's PDF is stored under: derived from the
      certificate ID alone. */
  function StorageKey(certificateId: string): (key: string)
    ensures StartsWith(key, KeyPrefix)
    ensures |key| == |KeyPrefix| + |certificateId| + |KeySuffix|
    ensures key[|KeyPrefix|..|key| - |KeySuffix|] == certificateId
    ensures key[|key| - |KeySuffix|..] == KeySuffix
  {
    KeyPrefix + certificateId + KeySuffix
  }

  /** Reads a certificate ID back out of an object key, if the key has the
      shape `StorageKey` produces. */
  function CertificateIdOfKey(key: string): Option<string> {
    if |KeyPrefix| + |KeySuffix| <= |key|
       && StartsWith(key, KeyPrefix)
       && key[|key| - |KeySuffix|..] == KeySuffix
    then Some(key[|KeyPrefix|..|key| - |KeySuffix|])
    else None
  }

  /** The certificate ID can always be read back from its object key. */
  lemma StorageKeyRoundTrip(certificateId: string)
    ensures CertificateIdOfKey(StorageKey(certificateId)) == Some(certificateId)
  {
  }

  /** Distinct certificates never share an object key. */
  lemma StorageKeyInjective(a: string, b: string)
    ensures StorageKey(a) == StorageKey(b) <==> a == b
  {
    if StorageKey(a) == StorageKey(b) {
      StorageKeyRoundTrip(a);
      StorageKeyRoundTrip(b);
    }
  }

  /** `uploadCertificatePDF`: puts the buffer under the certificate's key,
      replacing whatever was there, and returns that key. */
  function Upload(bucket: Bucket, certificateId: string, buffer: Bytes): (r: (Bucket, string))
    ensures r.1 == StorageKey(certificateId)
    ensures r.0.Keys == bucket.Keys + {r.1}
    ensures r.0[r.1] == buffer
    ensures forall k :: k in bucket && k != r.1 ==> r.0[k] == bucket[k]
  {
    var key := StorageKey(certificateId);
    (bucket[key := buffer], key)
  }

  /** The key `Upload` returns does not depend on the buffer or on what the
      bucket already holds. */
  lemma UploadKeyIgnoresContents(b1: Bucket, b2: Bucket, certificateId: string, x: Bytes, y: Bytes)
    ensures Upload(b1, certificateId, x).1 == Upload(b2, certificateId, y).1
  {
  }

  /** A presigned GET request: the object key, the response headers the
      link forces, and its lifetime in seconds. */
  datatype SignedGet = SignedGet(
    key: string,
    responseContentDisposition: string,
    responseCacheControl: string,
    expiresIn: nat)

  /** The file name offered to the browser for a certificate PDF. */
  function DownloadFilename(fingerprint: string): (name: string)
    ensures fingerprint != "" ==> name == "certificate-" + fingerprint + ".pdf"
    ensures fingerprint == "" ==> name == "certificate.pdf"
  {
    if fingerprint != "" then "certificate-" + fingerprint + ".pdf" else "certificate.pdf"
  }

  /** Reads the fingerprint back out of a download file name. */
  function FingerprintOfFilename(name: string): Option<string> {
    if |name| >= 16 && name[..12] == "certificate-" && name[|name| - 4..] == ".pdf"
    then Some(name[12..|name| - 4])
    else None
  }

  /** The file name determines the fingerprint it was made from. */
  lemma DownloadFilenameRoundTrip(fingerprint: string)
    ensures FingerprintOfFilename(DownloadFilename(fingerprint))
            == if fingerprint == "" then None else Some(fingerprint)
  {
    var name := DownloadFilename(fingerprint);
    if fingerprint != "" {
      assert name[..12] == "certificate-";
      assert name[|name| - 4..] == ".pdf";
      assert name[12..|name| - 4] == fingerprint;
    } else {
      assert |name| < 16;
    }
  }

  /** `Content-Disposition` forcing a download under the given file name. */
  function AttachmentDisposition(filename: string): string {
    "attachment; filename=\"" + filename + "\""
  }

  /** The request `generateSignedDownloadUrl` presigns. `ttl` and
      `fingerprint` are the optional parameters, absent when omitted. */
  function DownloadRequest(key: string, ttl: Option<nat>, fingerprint: Option<string>): (g: SignedGet)
    ensures g.key == key
    ensures g.expiresIn == if ttl.Some? then ttl.value else DefaultTtlSeconds
    ensures g.responseCacheControl == "no-store"
    ensures Truthy(fingerprint) ==>
              g.responseContentDisposition
              == "attachment; filename=\"" + ("certificate-" + fingerprint.value + ".pdf") + "\""
    ensures !Truthy(fingerprint) ==>
              g.responseContentDisposition == "attachment; filename=\"" + "certificate.pdf" + "\""
  {
    SignedGet(key,
              AttachmentDisposition(DownloadFilename(fingerprint.GetOr(""))),
              "no-store",
              ttl.GetOr(DefaultTtlSeconds))
  }

  /** `generateSignedDownloadUrl`: the URL the signer returns for the
      request above. */
  function GenerateSignedDownloadUrl(presign: SignedGet -> string, key: string,
                                     ttl: Option<nat>, fingerprint: Option<string>): string
  {
    presign(DownloadRequest(key, ttl, fingerprint))
  }
}
