/** The two authenticated admin routes: issuing a certificate for a lot and
    revoking one. Both run after `Auth.Authenticate` has produced the
    caller's uid; `Api` composes the two. */
module AdminRoutes {
  import opened Common
  import opened Crypto
  import opened Records
  import opened BlobStore
  import opened Context
  import opened Http

  /** The laboratory name printed on, and recorded with, every certificate. */
  const Laboratory := "Antiquiscore™ Lab"

  /** The only record version the issuance path writes. */
  const CurrentVersion := 1

  /** `${PUBLIC_VERIFY_BASE_URL}/${id}`: an unset variable prints as
      `undefined` inside a template literal. */
  function VerifyUrl(cfg: Config, certificateId: string): (url: string)
    ensures |url| > |certificateId|
    ensures url[|url| - |certificateId|..] == certificateId
    ensures url[|url| - |certificateId| - 1] == '/'
    ensures url[..|url| - |certificateId| - 1] == cfg.verifyBaseUrl.GetOr("undefined")
  {
    cfg.verifyBaseUrl.GetOr("undefined") + "/" + certificateId
  }

  /** `normalized_score || score_100 || 0`: a score of 0 counts as absent
      and falls through to the next source. */
  function Score(lot: Lot, expertise: Option<Expertise>): (score: int)
    ensures score != 0 <==>
              (expertise.Some? && NumTruthy(expertise.value.normalizedScore)) || NumTruthy(lot.score100)
    ensures expertise.Some? && NumTruthy(expertise.value.normalizedScore) ==>
              score == expertise.value.normalizedScore.value
    ensures score != 0 && !(expertise.Some? && NumTruthy(expertise.value.normalizedScore)) ==>
              score == lot.score100.value
  {
    if expertise.Some? && NumTruthy(expertise.value.normalizedScore) then expertise.value.normalizedScore.value
    else if NumTruthy(lot.score100) then lot.score100.value
    else 0
  }

  /** The first-pass payload: lot fields with their defaults, the expertise
      summary, and an empty fingerprint. Every displayed text field is
      non-empty, and a present non-empty source field is taken verbatim. */
  function DraftPayload(certificateId: string, lot: Lot, expertise: Option<Expertise>,
                        now: nat, verifyUrl: string): (p: Payload)
    ensures p.certificateId == certificateId && p.publicFingerprint == ""
    ensures p.issuedAt == now && p.verifyUrl == verifyUrl && p.laboratory == Laboratory
    ensures p.lot.title != "" && p.lot.typology != "" && p.lot.period != ""
    ensures p.lot.materials != "" && p.expertise.classification != ""
    ensures Truthy(lot.title) ==> p.lot.title == lot.title.value
    ensures !Truthy(lot.title) ==> p.lot.title == "Untitled"
    ensures Truthy(lot.typology) ==> p.lot.typology == lot.typology.value
    ensures Truthy(lot.period) ==> p.lot.period == lot.period.value
    ensures Truthy(lot.materials) ==> p.lot.materials == lot.materials.value
    ensures !Truthy(lot.typology) ==> p.lot.typology == "Unknown"
    ensures !Truthy(lot.period) ==> p.lot.period == "Unknown"
    ensures !Truthy(lot.materials) ==> p.lot.materials == "Unknown"
    ensures p.lot.dimensions == lot.dimensionsCm
    ensures p.expertise.score == Score(lot, expertise)
    ensures expertise.Some? && Truthy(expertise.value.classification) ==>
              p.expertise.classification == expertise.value.classification.value
    ensures !(expertise.Some? && Truthy(expertise.value.classification)) ==>
              p.expertise.classification == "Non classé"
    ensures expertise.Some? && Truthy(expertise.value.expertSummary) ==>
              p.expertise.summary == expertise.value.expertSummary.value
    ensures !(expertise.Some? && Truthy(expertise.value.expertSummary)) ==>
              p.expertise.summary == Or(lot.description, "")
  {
    var classification := if expertise.Some? then expertise.value.classification else None;
    var summary := if expertise.Some? then expertise.value.expertSummary else None;
    Payload(
      certificateId,
      "",
      LotSummary(
        Or(lot.title, "Untitled"),
        Or(lot.typology, "Unknown"),
        Or(lot.period, "Unknown"),
        Or(lot.materials, "Unknown"),
        lot.dimensionsCm),
      ExpertiseSummary(
        Score(lot, expertise),
        Or(classification, "Non classé"),
        Or(summary, Or(lot.description, ""))),
      Laboratory,
      now,
      verifyUrl)
  }

  /** The public data block recorded from the final payload: what the PDF
      shows of the lot and the expertise, minus the free-text summary. */
  function DataPublicOf(p: Payload): (d: DataPublic)
    ensures d.title == p.lot.title && d.typology == p.lot.typology
    ensures d.period == p.lot.period && d.materials == p.lot.materials
    ensures d.dimensions == p.lot.dimensions
    ensures d.score == p.expertise.score && d.classification == p.expertise.classification
    ensures d.laboratory == p.laboratory
  {
    DataPublic(p.lot.title, p.lot.typology, p.lot.period, p.lot.materials,
               p.lot.dimensions, p.expertise.score, p.expertise.classification, p.laboratory)
  }

  /** Printing the fingerprint into the payload leaves the recorded public
      data as the first pass saw it. */
  lemma DataPublicIgnoresFingerprint(p: Payload, fingerprint: string)
    ensures DataPublicOf(p.(publicFingerprint := fingerprint)) == DataPublicOf(p)
  {
  }

  /** Whether an issuance request gets past validation, both reads and the
      lot-existence check. */
  predicate IssueRequestAccepted(w: World, lotId: Field, expertiseId: Field, o: Oracle) {
    && FieldTruthy(lotId) && FieldTruthy(expertiseId)
    && lotId.Text? && expertiseId.Text?
    && ReadLot !in o.failing && ReadExpertise !in o.failing
    && lotId.text in w.lots
  }

  /** The payload of the first render pass for an accepted request. */
  function IssueDraft(w: World, lotId: Field, expertiseId: Field, cfg: Config, o: Oracle): Payload
    requires IssueRequestAccepted(w, lotId, expertiseId, o)
  {
    var expertise := if expertiseId.text in w.expertises then Some(w.expertises[expertiseId.text]) else None;
    DraftPayload(o.newId, w.lots[lotId.text], expertise, o.now, VerifyUrl(cfg, o.newId))
  }

  /** The state a successful issuance leaves: the second-pass PDF stored
      under the ID's key, and a fresh `valid` record whose fingerprint comes
      from the FIRST pass's hash and whose `sha256` is the SECOND pass's. */
  ghost predicate IssuedTwoPass(w: World, w': World, callerId: string, lotId: Field, expertiseId: Field,
                                cfg: Config, svc: Services, o: Oracle)
    requires IssueRequestAccepted(w, lotId, expertiseId, o)
  {
    var draft := IssueDraft(w, lotId, expertiseId, cfg, o);
    var fingerprint := GenerateFingerprint(svc.sha256(svc.render(draft, o.draftStamp)));
    var final := draft.(publicFingerprint := fingerprint);
    var buffer := svc.render(final, o.finalStamp);
    var key := StorageKey(o.newId);
    && w'.bucket == w.bucket[key := buffer]
    && w'.lots == w.lots && w'.expertises == w.expertises
    && w'.store.log == w.store.log
    && o.newId in w'.store.certs
    && OthersUnchanged(w.store.certs, w'.store.certs, o.newId)
    && w'.store.certs.Keys == w.store.certs.Keys + {o.newId}
    && var c := w'.store.certs[o.newId];
       && c.certificateId == o.newId
       && c.publicFingerprint == fingerprint
       && c.pdf == PdfInfo(key, svc.sha256(buffer), |buffer|)
       && c.status == Valid && c.version == CurrentVersion && c.verificationCount == 0
       && c.revokedAt.None? && c.revokedReason.None? && c.lastVerifiedAt.None?
       && c.issuedAt == o.now
       && c.issuerId == callerId
       && c.lotId == lotId.text && c.expertiseId == Some(expertiseId.text)
       && c.dataPublic == DataPublicOf(final)
  }

  /** `POST /certificates`. Validation, then the two reads, then the lot
      check, then: render with an empty fingerprint, hash, cut the
      fingerprint, render again with it, hash again, upload, and only then
      write the record. A throwing call answers 500 and keeps whatever the
      calls before it did. */
  function IssueCertificate(w: World, callerId: string, lotId: Field, expertiseId: Field,
                            cfg: Config, svc: Services, o: Oracle): (r: (World, Response))
    ensures r.1.status in {Created, BadRequest, NotFound, InternalError}
    ensures r.1.status == BadRequest <==> !FieldTruthy(lotId) || !FieldTruthy(expertiseId)
    ensures r.1.status == NotFound <==>
              && FieldTruthy(lotId) && FieldTruthy(expertiseId)
              && lotId.Text? && expertiseId.Text?
              && ReadLot !in o.failing && ReadExpertise !in o.failing
              && lotId.text !in w.lots
    ensures r.1.status in {BadRequest, NotFound} ==> r.0 == w
    ensures r.1.status == Created <==>
              IssueRequestAccepted(w, lotId, expertiseId, o)
              && {RenderDraft, RenderFinal, PutBlob, WriteCertificate} !! o.failing
    ensures r.1.status != Created ==>
              && r.0.store == w.store && r.0.lots == w.lots && r.0.expertises == w.expertises
              && (r.0.bucket == w.bucket || StorageKey(o.newId) in r.0.bucket)
              && r.0.bucket.Keys <= w.bucket.Keys + {StorageKey(o.newId)}
              && OtherBlobsUnchanged(w.bucket, r.0.bucket, StorageKey(o.newId))
    ensures r.1.status == Created ==>
              && IssueRequestAccepted(w, lotId, expertiseId, o)
              && IssuedTwoPass(w, r.0, callerId, lotId, expertiseId, cfg, svc, o)
              && var c := r.0.store.certs[o.newId];
                 r.1.body == IssuedBody(o.newId, c.publicFingerprint, VerifyUrl(cfg, o.newId),
                                        VerifyUrl(cfg, o.newId), o.now)
  {
    if !FieldTruthy(lotId) || !FieldTruthy(expertiseId) then
      (w, Error(BadRequest, "lot_id and expertise_id required"))
    else if ReadLot in o.failing || !lotId.Text? then
      (w, ServerError)
    else if ReadExpertise in o.failing || !expertiseId.Text? then
      (w, ServerError)
    else if lotId.text !in w.lots then
      (w, Error(NotFound, "Lot not found"))
    else
      var draft := IssueDraft(w, lotId, expertiseId, cfg, o);
      if RenderDraft in o.failing then (w, ServerError)
      else
        var fingerprint := GenerateFingerprint(svc.sha256(svc.render(draft, o.draftStamp)));
        var final := draft.(publicFingerprint := fingerprint);
        if RenderFinal in o.failing then (w, ServerError)
        else
          var buffer := svc.render(final, o.finalStamp);
          var finalHash := svc.sha256(buffer);
          if PutBlob in o.failing then (w, ServerError)
          else
            var (bucket, key) := Upload(w.bucket, o.newId, buffer);
            var uploaded := w.(bucket := bucket);
            if WriteCertificate in o.failing then (uploaded, ServerError)
            else
              var certificate := Certificate(
                o.newId, fingerprint, CurrentVersion, Valid, o.now, None, None,
                lotId.text, callerId, Some(expertiseId.text), DataPublicOf(final),
                PdfInfo(key, finalHash, |buffer|), 0, None);
              (uploaded.(store := CreateCertificate(w.store, certificate)),
               Response(Created, IssuedBody(o.newId, fingerprint, final.verifyUrl, final.verifyUrl, o.now)))
  }

  /** Every key other than `key` is present in both buckets and unchanged. */
  predicate OtherBlobsUnchanged(b: Bucket, b': Bucket, key: string) {
    forall k :: k in b && k != key ==> k in b' && b'[k] == b[k]
  }

  /** `!reason || typeof reason !== 'string'` rejects the request. */
  predicate ReasonAccepted(reason: Field) {
    reason.Text? && reason.text != ""
  }

  /** `POST /certificates/:id/revoke`. Checks run in a fixed order: reason,
      existence, issuer; any failed check leaves the world untouched.
      Nothing guards an already revoked certificate: revoking it again
      overwrites `revokedAt` and `revokedReason`. */
  function RevokeCertificate(w: World, callerId: string, id: string, reason: Field, o: Oracle)
    : (r: (World, Response))
    ensures r.1.status in {Ok, BadRequest, NotFound, Forbidden, InternalError}
    ensures r.1.status != Ok ==> r.0 == w
    ensures r.1.status == BadRequest <==> !ReasonAccepted(reason)
    ensures r.1.status == NotFound <==>
              ReasonAccepted(reason) && ReadCertificate !in o.failing && id !in w.store.certs
    ensures r.1.status == Forbidden <==>
              && ReasonAccepted(reason) && ReadCertificate !in o.failing
              && id in w.store.certs && w.store.certs[id].issuerId != callerId
    ensures r.1.status == Ok <==>
              && ReasonAccepted(reason) && ReadCertificate !in o.failing && UpdateStatus !in o.failing
              && id in w.store.certs && w.store.certs[id].issuerId == callerId
    ensures r.1.status == Ok ==>
              && r.1.body == RevocationBody(id, o.now)
              && r.0.lots == w.lots && r.0.expertises == w.expertises && r.0.bucket == w.bucket
              && r.0.store.log == w.store.log
              && r.0.store.certs.Keys == w.store.certs.Keys
              && OthersUnchanged(w.store.certs, r.0.store.certs, id)
              && var c, d := w.store.certs[id], r.0.store.certs[id];
                 && d.status == Revoked && d.revokedAt == Some(o.now) && d.revokedReason == Some(reason.text)
                 && SameIssuedFields(c, d) && SameCounterFields(c, d)
  {
    if !ReasonAccepted(reason) then
      (w, Error(BadRequest, "Revocation reason required"))
    else if ReadCertificate in o.failing then
      (w, ServerError)
    else
      match GetCertificateById(w.store, id)
      case None => (w, Error(NotFound, "Certificate not found"))
      case Some(certificate) =>
        if certificate.issuerId != callerId then
          (w, Error(Forbidden, "Forbidden"))
        else if UpdateStatus in o.failing then
          (w, ServerError)
        else
          match UpdateCertificateStatus(w.store, id, Revoked, Some(reason.text), o.now)
          case None => (w, ServerError)
          case Some(store) => (w.(store := store), Response(Ok, RevocationBody(id, o.now)))
  }

  /** The stored fingerprint comes from the first pass and the stored hash
      from the second, so the fingerprint matches the stored PDF's own hash
      exactly when the two passes' hashes happen to share their first 8
      characters. */
  lemma IssuedFingerprintVersusStoredHash(w: World, callerId: string, lotId: Field, expertiseId: Field,
                                          cfg: Config, svc: Services, o: Oracle)
    requires IssueCertificate(w, callerId, lotId, expertiseId, cfg, svc, o).1.status == Created
    ensures IssueRequestAccepted(w, lotId, expertiseId, o)
    ensures var c := IssueCertificate(w, callerId, lotId, expertiseId, cfg, svc, o).0.store.certs[o.newId];
            var draft := IssueDraft(w, lotId, expertiseId, cfg, o);
            var draftHash := svc.sha256(svc.render(draft, o.draftStamp));
            c.publicFingerprint == GenerateFingerprint(c.pdf.sha256)
            <==> draftHash[..FingerprintLength] == c.pdf.sha256[..FingerprintLength]
  {
    var c := IssueCertificate(w, callerId, lotId, expertiseId, cfg, svc, o).0.store.certs[o.newId];
    var draft := IssueDraft(w, lotId, expertiseId, cfg, o);
    var draftHash := svc.sha256(svc.render(draft, o.draftStamp));
    assert c.publicFingerprint == GenerateFingerprint(draftHash);
    FingerprintsAgreeIffPrefixesAgree(draftHash, c.pdf.sha256);
  }

  /** Nothing guards an already revoked certificate: its issuer can revoke
      it again, which overwrites the revocation time and reason. */
  lemma RevokingTwiceOverwrites(w: World, callerId: string, id: string, reason: string, o: Oracle)
    requires id in w.store.certs && w.store.certs[id].status == Revoked
    requires w.store.certs[id].issuerId == callerId
    requires reason != "" && ReadCertificate !in o.failing && UpdateStatus !in o.failing
    ensures var r := RevokeCertificate(w, callerId, id, Text(reason), o);
            && r.1.status == Ok
            && r.0.store.certs[id].revokedAt == Some(o.now)
            && r.0.store.certs[id].revokedReason == Some(reason)
  {
  }
}
