/** The two unauthenticated routes: verifying a certificate and obtaining a
    short-lived download link, each leaving an audit entry. */
module PublicRoutes {
  import opened Common
  import opened Crypto
  import opened Records
  import opened BlobStore
  import opened Context
  import opened Http

  /** Expiry of the download link the download route mints, in seconds. */
  const DownloadTtlSeconds: nat := 120

  /** `req.ip || x-forwarded-for || 'unknown'`. */
  function ClientIp(meta: RequestMeta): string {
    Or(meta.ip, Or(meta.forwardedFor, "unknown"))
  }

  /** `user-agent || 'unknown'`. */
  function UserAgent(meta: RequestMeta): string {
    Or(meta.userAgent, "unknown")
  }

  /** `IP_HASH_PEPPER || ''`. */
  function Pepper(cfg: Config): string {
    Or(cfg.ipHashPepper, "")
  }

  /** `logEvent`: appends one audit entry carrying keyed hashes of the
      client address and user agent, never the raw values. */
  function LogEvent(s: Store, id: string, result: LogResult, route: Route, meta: RequestMeta,
                    cfg: Config, svc: Services, now: nat): (r: Store)
    ensures r.certs == s.certs
    ensures |r.log| == |s.log| + 1 && r.log[..|s.log|] == s.log
    ensures var e := r.log[|s.log|];
            && e.certificateId == id && e.ts == now && e.result == result && e.route == route
            && e.ipHmac == svc.hmac(ClientIp(meta), Pepper(cfg))
            && e.uaHmac == svc.hmac(UserAgent(meta), Pepper(cfg))
            && IsHexDigest(e.ipHmac) && IsHexDigest(e.uaHmac)
  {
    LogVerification(s, VerificationLog(id, now, svc.hmac(ClientIp(meta), Pepper(cfg)),
                                       svc.hmac(UserAgent(meta), Pepper(cfg)), result, route))
  }

  /** The log result that mirrors a record's status. */
  function ResultOf(status: Status): LogResult {
    match status
    case Valid => LogValid
    case Revoked => LogRevoked
  }

  /** The public view of a record as read at lookup; absent or empty
      revocation fields become `null`. */
  function ViewOf(c: Certificate, now: nat): (v: VerifyView)
    ensures v.certificateId == c.certificateId && v.status == c.status && v.issuedAt == c.issuedAt
    ensures v.publicFingerprint == c.publicFingerprint && v.dataPublic == c.dataPublic
    ensures v.revokedReason == if Truthy(c.revokedReason) then c.revokedReason else None
    ensures v.revokedAt == c.revokedAt && v.verifiedAt == now
  {
    VerifyView(c.certificateId, c.status, c.issuedAt,
               if Truthy(c.revokedReason) then c.revokedReason else None,
               c.revokedAt, c.publicFingerprint, c.dataPublic, now)
  }

  /** `GET /certificates/:id`. Unknown ID: one `not_found` entry and 404.
      Known ID: the counter goes up by one and one entry with the status
      read at lookup is appended, whatever that status is. */
  function VerifyCertificate(w: World, id: string, meta: RequestMeta, cfg: Config,
                             svc: Services, o: Oracle): (r: (World, Response))
    ensures r.0.bucket == w.bucket && r.0.lots == w.lots && r.0.expertises == w.expertises
    ensures r.1.status in {Ok, NotFound, InternalError}
    ensures r.0.store.certs.Keys == w.store.certs.Keys
    ensures OthersUnchanged(w.store.certs, r.0.store.certs, id)
    ensures r.0.store.log == w.store.log
            || (|r.0.store.log| == |w.store.log| + 1 && r.0.store.log[..|w.store.log|] == w.store.log)
    ensures r.1.status == NotFound <==> ReadCertificate !in o.failing && AppendLog !in o.failing && id !in w.store.certs
    ensures r.1.status == NotFound ==>
              && r.1.body == ErrorBody("not_found")
              && r.0.store.certs == w.store.certs
              && |r.0.store.log| == |w.store.log| + 1 && r.0.store.log[..|w.store.log|] == w.store.log
              && var e := r.0.store.log[|w.store.log|];
                 e.certificateId == id && e.result == LogNotFound && e.route == VerifyRoute
    ensures r.1.status == Ok <==>
              ReadCertificate !in o.failing && IncrementCounter !in o.failing && AppendLog !in o.failing
              && id in w.store.certs
    ensures r.1.status == Ok ==>
              && var c, d := w.store.certs[id], r.0.store.certs[id];
                 && d.verificationCount == c.verificationCount + 1 && d.lastVerifiedAt == Some(o.now)
                 && SameIssuedFields(c, d) && SameRevocationFields(c, d)
                 && r.1.body == ViewBody(ViewOf(c, o.now))
                 && |r.0.store.log| == |w.store.log| + 1
                 && var e := r.0.store.log[|w.store.log|];
                    e.certificateId == id && e.result == ResultOf(c.status) && e.route == VerifyRoute
    ensures r.0.store.certs == w.store.certs
            || (id in w.store.certs
                && r.0.store.certs == w.store.certs[id := w.store.certs[id].(
                     verificationCount := w.store.certs[id].verificationCount + 1,
                     lastVerifiedAt := Some(o.now))])
    ensures r.1.status == InternalError ==> r.0.store.log == w.store.log
  {
    if ReadCertificate in o.failing then (w, ServerError)
    else
      match GetCertificateById(w.store, id)
      case None =>
        if AppendLog in o.failing then (w, ServerError)
        else
          (w.(store := LogEvent(w.store, id, LogNotFound, VerifyRoute, meta, cfg, svc, o.now)),
           Error(NotFound, "not_found"))
      case Some(certificate) =>
        if IncrementCounter in o.failing then (w, ServerError)
        else
          match IncrementVerificationCount(w.store, id, o.now)
          case None => (w, ServerError)
          case Some(counted) =>
            if AppendLog in o.failing then (w.(store := counted), ServerError)
            else
              (w.(store := LogEvent(counted, id, ResultOf(certificate.status), VerifyRoute, meta, cfg, svc, o.now)),
               Response(Ok, ViewBody(ViewOf(certificate, o.now))))
  }

  /** The reason a revoked certificate's download is refused with. */
  function RefusalReason(c: Certificate): string {
    Or(c.revokedReason, "Certificate has been revoked")
  }

  /** `POST /certificates/:id/download`. Unknown ID: 404 and no entry.
      Not valid: one `revoked` entry and 403 with the stored reason, no
      link. Valid: a link for the stored key, 120 seconds, named after the
      fingerprint, and one `valid` entry. No record field ever changes. */
  function DownloadCertificate(w: World, id: string, meta: RequestMeta, cfg: Config,
                               svc: Services, o: Oracle): (r: (World, Response))
    ensures r.0.bucket == w.bucket && r.0.lots == w.lots && r.0.expertises == w.expertises
    ensures r.0.store.certs == w.store.certs
    ensures r.1.status in {Ok, NotFound, Forbidden, InternalError}
    ensures r.1.status in {NotFound, InternalError} ==> r.0 == w
    ensures r.1.status == NotFound <==> ReadCertificate !in o.failing && id !in w.store.certs
    ensures r.1.status == Forbidden <==>
              && ReadCertificate !in o.failing && AppendLog !in o.failing
              && id in w.store.certs && w.store.certs[id].status != Valid
    ensures r.1.status == Forbidden ==>
              && r.1.body == RevokedBody(RefusalReason(w.store.certs[id]))
              && |r.0.store.log| == |w.store.log| + 1 && r.0.store.log[..|w.store.log|] == w.store.log
              && var e := r.0.store.log[|w.store.log|];
                 e.certificateId == id && e.result == LogRevoked && e.route == DownloadRoute
    ensures r.1.status == Ok <==>
              && ReadCertificate !in o.failing && SignUrl !in o.failing && AppendLog !in o.failing
              && id in w.store.certs && w.store.certs[id].status == Valid
    ensures r.1.status == Ok ==>
              && var c := w.store.certs[id];
                 && r.1.body == LinkBody(
                      svc.presign(DownloadRequest(c.pdf.r2Key, Some(DownloadTtlSeconds), Some(c.publicFingerprint))),
                      DownloadTtlSeconds,
                      "certificate-" + c.publicFingerprint + ".pdf")
                 && |r.0.store.log| == |w.store.log| + 1 && r.0.store.log[..|w.store.log|] == w.store.log
                 && var e := r.0.store.log[|w.store.log|];
                    e.certificateId == id && e.result == LogValid && e.route == DownloadRoute
  {
    if ReadCertificate in o.failing then (w, ServerError)
    else
      match GetCertificateById(w.store, id)
      case None => (w, Error(NotFound, "Certificate not found"))
      case Some(certificate) =>
        if certificate.status != Valid then
          if AppendLog in o.failing then (w, ServerError)
          else
            (w.(store := LogEvent(w.store, id, LogRevoked, DownloadRoute, meta, cfg, svc, o.now)),
             Response(Forbidden, RevokedBody(RefusalReason(certificate))))
        else if SignUrl in o.failing then (w, ServerError)
        else
          var url := GenerateSignedDownloadUrl(svc.presign, certificate.pdf.r2Key,
                                               Some(DownloadTtlSeconds), Some(certificate.publicFingerprint));
          if AppendLog in o.failing then (w, ServerError)
          else
            (w.(store := LogEvent(w.store, id, LogValid, DownloadRoute, meta, cfg, svc, o.now)),
             Response(Ok, LinkBody(url, DownloadTtlSeconds, "certificate-" + certificate.publicFingerprint + ".pdf")))
  }

  /** A raw client address, which always carries a `.` or `:` separator,
      is never what the audit log stores for it. */
  lemma LoggedAddressIsNotRaw(s: Store, id: string, result: LogResult, route: Route, meta: RequestMeta,
                              cfg: Config, svc: Services, now: nat, k: nat)
    requires k < |ClientIp(meta)| && ClientIp(meta)[k] in {'.', ':'}
    ensures LogEvent(s, id, result, route, meta, cfg, svc, now).log[|s.log|].ipHmac != ClientIp(meta)
  {
    var e := LogEvent(s, id, result, route, meta, cfg, svc, now).log[|s.log|];
    DigestDiffersFromNonHex(e.ipHmac, ClientIp(meta), k);
  }
}
