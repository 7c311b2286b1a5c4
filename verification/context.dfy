/** Everything a request handler reads besides its own arguments: the
    persistent world, the collaborators the service calls but does not
    implement, the process configuration, and the per-request inputs that
    come from the clock, the ID generator and the failure behaviour of the
    backing services. */
module Context {
  import opened Common
  import opened Crypto
  import opened Records
  import opened BlobStore

  /** The public payload handed to the PDF renderer. */
  datatype LotSummary = LotSummary(
    title: string,
    typology: string,
    period: string,
    materials: string,
    dimensions: Option<string>)

  datatype ExpertiseSummary = ExpertiseSummary(score: int, classification: string, summary: string)

  datatype Payload = Payload(
    certificateId: string,
    publicFingerprint: string,
    lot: LotSummary,
    expertise: ExpertiseSummary,
    laboratory: string,
    issuedAt: nat,
    verifyUrl: string)

  /** A document of the externally owned `lots` collection; every field may
      be absent. `dimensionsCm` is `None` when the document's `dimensions_cm`
      is absent or falsy, and otherwise the JSON text of that value. */
  datatype Lot = Lot(
    title: Option<string>,
    typology: Option<string>,
    period: Option<string>,
    materials: Option<string>,
    dimensionsCm: Option<string>,
    score100: Option<int>,
    description: Option<string>)

  /** A document of the externally owned `expertises` collection. */
  datatype Expertise = Expertise(
    normalizedScore: Option<int>,
    classification: Option<string>,
    expertSummary: Option<string>)

  /** The persistent state: the certificate repository, the PDF bucket and
      the two read-only source collections. */
  datatype World = World(
    store: Store,
    bucket: Bucket,
    lots: map<string, Lot>,
    expertises: map<string, Expertise>)

  /** Collaborators. `render` takes, besides the payload, whatever the
      drawing library stamps into the file on its own (creation and
      modification dates), so two renders of one payload need not agree.
      `verifyIdToken` yields the caller's uid, or `None` when it rejects. */
  datatype Services = Services(
    render: (Payload, nat) -> Bytes,
    sha256: Bytes -> Digest,
    hmac: (string, string) -> Digest,
    presign: SignedGet -> string,
    verifyIdToken: string -> Option<string>)

  /** Environment variables the handlers read; `None` when unset. */
  datatype Config = Config(verifyBaseUrl: Option<string>, ipHashPepper: Option<string>)

  /** The calls into backing services that can throw. */
  datatype Call =
    | ReadLot | ReadExpertise
    | RenderDraft | RenderFinal
    | PutBlob | WriteCertificate
    | ReadCertificate | UpdateStatus | IncrementCounter
    | AppendLog | SignUrl

  /** Per-request inputs: the clock, the freshly generated certificate ID,
      the renderer's own stamps for the two passes, and which calls throw. */
  datatype Oracle = Oracle(
    now: nat,
    newId: string,
    draftStamp: nat,
    finalStamp: nat,
    failing: set<Call>)

  /** Request headers the audit log reads. */
  datatype RequestMeta = RequestMeta(
    ip: Option<string>,
    forwardedFor: Option<string>,
    userAgent: Option<string>)
}
