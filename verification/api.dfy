/** The service as one state machine: every request is dispatched to its
    handler (admin requests behind the authentication middleware), and the
    lemmas here state what holds of every reachable world. */
module Api {
  import opened Common
  import opened Crypto
  import opened Records
  import opened BlobStore
  import opened Context
  import opened Http
  import opened Auth
  import opened AdminRoutes
  import opened PublicRoutes

  datatype Request =
    | Issue(authorization: Option<string>, lotId: Field, expertiseId: Field)
    | Revoke(authorization: Option<string>, id: string, reason: Field)
    | Verify(id: string, meta: RequestMeta)
    | Download(id: string, meta: RequestMeta)

  /** The routers: the admin routes behind `authMiddleware`, the public ones
      without it. A rejected token answers 401 before the handler runs. */
  function Handle(w: World, req: Request, cfg: Config, svc: Services, o: Oracle): (r: (World, Response))
    ensures (req.Issue? || req.Revoke?) && Authenticate(req.authorization, svc.verifyIdToken).Reject? ==>
              r.0 == w && r.1.status == Unauthorized
    ensures r.1.status == Unauthorized ==> req.Issue? || req.Revoke?
  {
    match req
    case Issue(authorization, lotId, expertiseId) =>
      match Authenticate(authorization, svc.verifyIdToken) {
        case Reject(response) => (w, response)
        case Proceed(uid) => IssueCertificate(w, uid, lotId, expertiseId, cfg, svc, o)
      }
    case Revoke(authorization, id, reason) =>
      match Authenticate(authorization, svc.verifyIdToken) {
        case Reject(response) => (w, response)
        case Proceed(uid) => RevokeCertificate(w, uid, id, reason, o)
      }
    case Verify(id, meta) => VerifyCertificate(w, id, meta, cfg, svc, o)
    case Download(id, meta) => DownloadCertificate(w, id, meta, cfg, svc, o)
  }

  /** What every stored record satisfies: it sits under its own ID, its PDF
      is stored under the ID's key and hashes to the recorded `sha256` with
      the recorded size, its fingerprint is 8 upper-case hex characters,
      revocation data is present exactly when it is revoked, and it has a
      last-verified time exactly when it has been verified. */
  ghost predicate RecordConsistent(w: World, sha256: Bytes -> Digest, id: string)
    requires id in w.store.certs
  {
    var c := w.store.certs[id];
    && c.certificateId == id
    && c.pdf.r2Key == StorageKey(id)
    && c.pdf.r2Key in w.bucket
    && c.pdf.sha256 == sha256(w.bucket[c.pdf.r2Key])
    && c.pdf.size == |w.bucket[c.pdf.r2Key]|
    && IsFingerprint(c.publicFingerprint)
    && c.version == CurrentVersion
    && (c.status == Revoked <==> c.revokedAt.Some?)
    && (c.status == Valid ==> c.revokedReason.None?)
    && (c.status == Revoked ==> Truthy(c.revokedReason))
    && (c.verificationCount == 0 <==> c.lastVerifiedAt.None?)
  }

  ghost predicate Consistent(w: World, sha256: Bytes -> Digest) {
    forall id :: id in w.store.certs ==> RecordConsistent(w, sha256, id)
  }

  /** The certificate ID generator never repeats an ID already in use. */
  predicate FreshFor(w: World, req: Request, o: Oracle) {
    req.Issue? ==> o.newId !in w.store.certs
  }

  /** How a record may change: issuance fields never, revocation never
      undone, the counter never lowered. */
  predicate RecordEvolves(c: Certificate, d: Certificate) {
    && SameIssuedFields(c, d)
    && (c.status == Revoked ==> d.status == Revoked)
    && c.verificationCount <= d.verificationCount
  }

  /** How the world may change: no record is deleted, each record evolves
      as above, the log only grows at its end, and the source collections
      are never written. */
  ghost predicate Evolves(w: World, w': World) {
    && w.store.log <= w'.store.log
    && w.store.certs.Keys <= w'.store.certs.Keys
    && (forall id :: id in w.store.certs ==> RecordEvolves(w.store.certs[id], w'.store.certs[id]))
    && w'.lots == w.lots && w'.expertises == w.expertises
  }

  lemma EvolvesTransitive(w1: World, w2: World, w3: World)
    requires Evolves(w1, w2) && Evolves(w2, w3)
    ensures Evolves(w1, w3)
  {
    forall id | id in w1.store.certs
      ensures RecordEvolves(w1.store.certs[id], w3.store.certs[id])
    {
      assert RecordEvolves(w1.store.certs[id], w2.store.certs[id]);
      assert RecordEvolves(w2.store.certs[id], w3.store.certs[id]);
    }
  }

  /** A world with the same records whose bucket only gained or replaced
      the object of a certificate not on record stays consistent. */
  lemma UploadKeepsConsistency(w: World, w': World, sha256: Bytes -> Digest, newId: string)
    requires Consistent(w, sha256)
    requires newId !in w.store.certs
    requires w'.store.certs == w.store.certs
    requires forall k :: k in w.bucket && k != StorageKey(newId) ==> k in w'.bucket && w'.bucket[k] == w.bucket[k]
    ensures Consistent(w', sha256)
  {
    forall id | id in w'.store.certs
      ensures RecordConsistent(w', sha256, id)
    {
      assert RecordConsistent(w, sha256, id);
      StorageKeyInjective(id, newId);
    }
  }

  lemma IssuePreservesConsistency(w: World, callerId: string, lotId: Field, expertiseId: Field,
                                  cfg: Config, svc: Services, o: Oracle)
    requires Consistent(w, svc.sha256)
    requires o.newId !in w.store.certs
    ensures Consistent(IssueCertificate(w, callerId, lotId, expertiseId, cfg, svc, o).0, svc.sha256)
  {
    var r := IssueCertificate(w, callerId, lotId, expertiseId, cfg, svc, o);
    var w' := r.0;
    if r.1.status == Created {
      var draft := IssueDraft(w, lotId, expertiseId, cfg, o);
      DigestFingerprintWellFormed(svc.sha256(svc.render(draft, o.draftStamp)));
      forall id | id in w'.store.certs
        ensures RecordConsistent(w', svc.sha256, id)
      {
        if id != o.newId {
          assert RecordConsistent(w, svc.sha256, id);
          StorageKeyInjective(id, o.newId);
        }
      }
    } else {
      UploadKeepsConsistency(w, w', svc.sha256, o.newId);
    }
  }

  lemma RevokePreservesConsistency(w: World, callerId: string, id: string, reason: Field, sha256: Bytes -> Digest, o: Oracle)
    requires Consistent(w, sha256)
    ensures Consistent(RevokeCertificate(w, callerId, id, reason, o).0, sha256)
  {
    var w' := RevokeCertificate(w, callerId, id, reason, o).0;
    forall k | k in w'.store.certs
      ensures RecordConsistent(w', sha256, k)
    {
      assert RecordConsistent(w, sha256, k);
    }
  }

  lemma VerifyPreservesConsistency(w: World, id: string, meta: RequestMeta, cfg: Config, svc: Services, o: Oracle)
    requires Consistent(w, svc.sha256)
    ensures Consistent(VerifyCertificate(w, id, meta, cfg, svc, o).0, svc.sha256)
  {
    var w' := VerifyCertificate(w, id, meta, cfg, svc, o).0;
    forall k | k in w'.store.certs
      ensures RecordConsistent(w', svc.sha256, k)
    {
      assert RecordConsistent(w, svc.sha256, k);
    }
  }

  lemma DownloadPreservesConsistency(w: World, id: string, meta: RequestMeta, cfg: Config, svc: Services, o: Oracle)
    requires Consistent(w, svc.sha256)
    ensures Consistent(DownloadCertificate(w, id, meta, cfg, svc, o).0, svc.sha256)
  {
    var w' := DownloadCertificate(w, id, meta, cfg, svc, o).0;
    forall k | k in w'.store.certs
      ensures RecordConsistent(w', svc.sha256, k)
    {
      assert RecordConsistent(w, svc.sha256, k);
    }
  }

  /** Every request keeps the world consistent: in particular no record
      ever points at a PDF that was not stored, whatever call fails. */
  lemma HandlePreservesConsistency(w: World, req: Request, cfg: Config, svc: Services, o: Oracle)
    requires Consistent(w, svc.sha256)
    requires FreshFor(w, req, o)
    ensures Consistent(Handle(w, req, cfg, svc, o).0, svc.sha256)
  {
    match req
    case Issue(authorization, lotId, expertiseId) =>
      match Authenticate(authorization, svc.verifyIdToken) {
        case Reject(_) =>
        case Proceed(uid) => IssuePreservesConsistency(w, uid, lotId, expertiseId, cfg, svc, o);
      }
    case Revoke(authorization, id, reason) =>
      match Authenticate(authorization, svc.verifyIdToken) {
        case Reject(_) =>
        case Proceed(uid) => RevokePreservesConsistency(w, uid, id, reason, svc.sha256, o);
      }
    case Verify(id, meta) => VerifyPreservesConsistency(w, id, meta, cfg, svc, o);
    case Download(id, meta) => DownloadPreservesConsistency(w, id, meta, cfg, svc, o);
  }

  lemma IssueEvolves(w: World, callerId: string, lotId: Field, expertiseId: Field,
                     cfg: Config, svc: Services, o: Oracle)
    requires o.newId !in w.store.certs
    ensures var w' := IssueCertificate(w, callerId, lotId, expertiseId, cfg, svc, o).0;
            && Evolves(w, w') && w'.store.log == w.store.log
            && OthersUnchanged(w.store.certs, w'.store.certs, o.newId)
  {
    var w' := IssueCertificate(w, callerId, lotId, expertiseId, cfg, svc, o).0;
    forall id | id in w.store.certs
      ensures id in w'.store.certs && RecordEvolves(w.store.certs[id], w'.store.certs[id])
    {
    }
  }

  lemma RevokeEvolves(w: World, callerId: string, id: string, reason: Field, o: Oracle)
    ensures var w' := RevokeCertificate(w, callerId, id, reason, o).0;
            && Evolves(w, w') && w'.store.log == w.store.log
            && OthersUnchanged(w.store.certs, w'.store.certs, id)
  {
    var w' := RevokeCertificate(w, callerId, id, reason, o).0;
    forall k | k in w.store.certs
      ensures k in w'.store.certs && RecordEvolves(w.store.certs[k], w'.store.certs[k])
    {
    }
  }

  lemma VerifyEvolves(w: World, id: string, meta: RequestMeta, cfg: Config, svc: Services, o: Oracle)
    ensures var w' := VerifyCertificate(w, id, meta, cfg, svc, o).0;
            && Evolves(w, w') && |w'.store.log| <= |w.store.log| + 1
            && OthersUnchanged(w.store.certs, w'.store.certs, id)
  {
    var w' := VerifyCertificate(w, id, meta, cfg, svc, o).0;
    forall k | k in w.store.certs
      ensures k in w'.store.certs && RecordEvolves(w.store.certs[k], w'.store.certs[k])
    {
    }
  }

  lemma DownloadEvolves(w: World, id: string, meta: RequestMeta, cfg: Config, svc: Services, o: Oracle)
    ensures var w' := DownloadCertificate(w, id, meta, cfg, svc, o).0;
            && Evolves(w, w') && |w'.store.log| <= |w.store.log| + 1
            && w'.store.certs == w.store.certs
  {
  }

  /** Every request evolves the world as `Evolves` allows and appends at
      most one log entry. */
  lemma HandleEvolves(w: World, req: Request, cfg: Config, svc: Services, o: Oracle)
    requires FreshFor(w, req, o)
    ensures Evolves(w, Handle(w, req, cfg, svc, o).0)
    ensures |Handle(w, req, cfg, svc, o).0.store.log| <= |w.store.log| + 1
  {
    match req
    case Issue(authorization, lotId, expertiseId) =>
      match Authenticate(authorization, svc.verifyIdToken) {
        case Reject(_) =>
        case Proceed(uid) => IssueEvolves(w, uid, lotId, expertiseId, cfg, svc, o);
      }
    case Revoke(authorization, id, reason) =>
      match Authenticate(authorization, svc.verifyIdToken) {
        case Reject(_) =>
        case Proceed(uid) => RevokeEvolves(w, uid, id, reason, o);
      }
    case Verify(id, meta) => VerifyEvolves(w, id, meta, cfg, svc, o);
    case Download(id, meta) => DownloadEvolves(w, id, meta, cfg, svc, o);
  }

  /** One request of a run, with the per-request inputs it saw. */
  datatype Step = Step(req: Request, o: Oracle)

  /** The world after serving `steps` one after another. */
  function Run(w: World, steps: seq<Step>, cfg: Config, svc: Services): World
    decreases |steps|
  {
    if |steps| == 0 then w
    else Run(Handle(w, steps[0].req, cfg, svc, steps[0].o).0, steps[1..], cfg, svc)
  }

  /** Every issuance along the run draws an ID not yet in use. */
  ghost predicate FreshAlong(w: World, steps: seq<Step>, cfg: Config, svc: Services)
    decreases |steps|
  {
    |steps| == 0
    || (FreshFor(w, steps[0].req, steps[0].o)
        && FreshAlong(Handle(w, steps[0].req, cfg, svc, steps[0].o).0, steps[1..], cfg, svc))
  }

  /** Over any run from a consistent world: the world stays consistent, no
      record is deleted, no issuance field is rewritten, no revocation is
      undone, no counter goes down, and the log only grows at its end. */
  lemma {:induction false} RunInvariants(w: World, steps: seq<Step>, cfg: Config, svc: Services)
    requires Consistent(w, svc.sha256)
    requires FreshAlong(w, steps, cfg, svc)
    ensures Consistent(Run(w, steps, cfg, svc), svc.sha256)
    ensures Evolves(w, Run(w, steps, cfg, svc))
    ensures |Run(w, steps, cfg, svc).store.log| <= |w.store.log| + |steps|
    decreases |steps|
  {
    if |steps| > 0 {
      var w1 := Handle(w, steps[0].req, cfg, svc, steps[0].o).0;
      HandlePreservesConsistency(w, steps[0].req, cfg, svc, steps[0].o);
      HandleEvolves(w, steps[0].req, cfg, svc, steps[0].o);
      RunInvariants(w1, steps[1..], cfg, svc);
      EvolvesTransitive(w, w1, Run(w1, steps[1..], cfg, svc));
    }
  }

  /** A successful issuance answers with an 8-character upper-case hex
      fingerprint and a verification URL ending in `/` and the new ID. */
  lemma IssuedResponseShape(w: World, authorization: Option<string>, lotId: Field, expertiseId: Field,
                            cfg: Config, svc: Services, o: Oracle)
    requires Handle(w, Issue(authorization, lotId, expertiseId), cfg, svc, o).1.status == Created
    ensures var body := Handle(w, Issue(authorization, lotId, expertiseId), cfg, svc, o).1.body;
            && body.IssuedBody?
            && body.certificateId == o.newId
            && IsFingerprint(body.publicFingerprint)
            && body.qrCodeData == body.verifyUrl
            && |body.verifyUrl| > |o.newId|
            && body.verifyUrl[|body.verifyUrl| - |o.newId| - 1..] == "/" + o.newId
  {
    var uid := Authenticate(authorization, svc.verifyIdToken).userId;
    var draft := IssueDraft(w, lotId, expertiseId, cfg, o);
    DigestFingerprintWellFormed(svc.sha256(svc.render(draft, o.draftStamp)));
    var url := VerifyUrl(cfg, o.newId);
    assert url[|url| - |o.newId| - 1..] == [url[|url| - |o.newId| - 1]] + url[|url| - |o.newId|..];
  }

  /** For a consistent world the file name the download route answers with
      is the one the signed link forces through `Content-Disposition`. */
  lemma DownloadNamesAgree(w: World, id: string, meta: RequestMeta, cfg: Config, svc: Services, o: Oracle)
    requires Consistent(w, svc.sha256)
    requires DownloadCertificate(w, id, meta, cfg, svc, o).1.status == Ok
    ensures var c := w.store.certs[id];
            && DownloadCertificate(w, id, meta, cfg, svc, o).1.body.filename
               == DownloadFilename(c.publicFingerprint)
            && DownloadRequest(c.pdf.r2Key, Some(DownloadTtlSeconds), Some(c.publicFingerprint)).responseContentDisposition
               == AttachmentDisposition(DownloadCertificate(w, id, meta, cfg, svc, o).1.body.filename)
  {
    assert RecordConsistent(w, svc.sha256, id);
  }

  /** Revoking by the issuer and then verifying shows the certificate as
      revoked with the given reason; a download afterwards is refused with
      that reason and mints no link. */
  lemma RevokeThenVerifyAndDownload(w: World, authorization: Option<string>, id: string, reason: string,
                                    meta: RequestMeta, cfg: Config, svc: Services,
                                    o1: Oracle, o2: Oracle, o3: Oracle)
    requires Authenticate(authorization, svc.verifyIdToken).Proceed?
    requires id in w.store.certs
    requires w.store.certs[id].issuerId == Authenticate(authorization, svc.verifyIdToken).userId
    requires reason != ""
    requires o1.failing == {} && o2.failing == {} && o3.failing == {}
    ensures var s1 := Handle(w, Revoke(authorization, id, Text(reason)), cfg, svc, o1);
            var s2 := Handle(s1.0, Verify(id, meta), cfg, svc, o2);
            var s3 := Handle(s2.0, Download(id, meta), cfg, svc, o3);
            && s1.1.status == Ok
            && s2.1.status == Ok
            && s2.1.body.ViewBody?
            && s2.1.body.view.status == Revoked
            && s2.1.body.view.revokedReason == Some(reason)
            && s3.1 == Response(Forbidden, RevokedBody(reason))
  {
  }

  /** A revocation attempt by anyone but the issuer is refused with 403 and
      changes nothing. */
  lemma RevokeByOtherRefused(w: World, authorization: Option<string>, id: string, reason: string,
                             cfg: Config, svc: Services, o: Oracle)
    requires Authenticate(authorization, svc.verifyIdToken).Proceed?
    requires id in w.store.certs
    requires w.store.certs[id].issuerId != Authenticate(authorization, svc.verifyIdToken).userId
    requires reason != "" && ReadCertificate !in o.failing
    ensures Handle(w, Revoke(authorization, id, Text(reason)), cfg, svc, o) == (w, Error(Forbidden, "Forbidden"))
  {
  }
}
