# Certificate lifecycle service — a Dafny model

This project models the core of an HTTP service that issues, revokes,
verifies and serves tamper-evident PDF certificates for antique lots.
An authenticated issuer asks for a certificate for a lot. The service then:

- renders the PDF twice: the first pass has an empty fingerprint, and the
  second prints the fingerprint cut from the first pass's SHA-256;
- stores the second PDF in an object store under `certificates/<id>.pdf`;
- writes a record to a document store.

Anyone can verify a certificate by ID. That raises a counter and appends a
privacy-preserving audit entry, which keeps keyed hashes of the IP and user
agent, never the raw values. Anyone can also ask for a 120-second signed
download link, which the service refuses once the certificate has been
revoked. Only the issuing user can revoke.

The model is functional. A `Context.World` holds four parts:

- the certificate records (a map) and the append-only audit log (a sequence);
- the object-store bucket (a map from key to bytes);
- the lot and expertise collections, which are only ever read.

Each handler takes a world to a new world and an HTTP response. The
collaborators the code calls but does not define live in one
`Context.Services` value, so the model knows them only through their
signatures:

- PDF rendering;
- SHA-256 and HMAC, both giving 64-character lower-case hex digests;
- URL presigning;
- ID-token verification.

Everything that varies from one request to the next is a `Context.Oracle`:

- the clock;
- the generated ULID;
- one render stamp per pass, because the PDF library stamps creation dates,
  so two renders of the same payload need not be byte-identical;
- the set of backing calls that throw.

A handler stops at the first throwing call, in source order, and answers
500. Anything the earlier calls did stays done.

JavaScript semantics are written out where they matter:

- truthiness (`x || default`, `!x`), which counts `0` and `''` as absent;
- request-body fields that may be missing, a string, or another JSON value
  (`Common.Field`);
- an unset base URL printing as `undefined` in a template literal;
- `substring` clamping its end;
- `split(...)[1]`.

Modules:

- `Common`: options, bytes, JavaScript truthiness and the `||` fallback.
- `Crypto`: hex digests and fingerprints (`cryptoService.ts`).
- `BlobStore`: object keys, upload and signed download requests (`r2.ts`).
- `Records`: record types and document-store operations, including the
  ordered queries (`firestore.ts`).
- `Context`: the world, the collaborators and the per-request oracle.
- `Http`: statuses and response bodies.
- `Auth`: the bearer-token middleware (`middleware/auth.ts`).
- `AdminRoutes`: issuance and revocation (`routes/admin.ts`).
- `PublicRoutes`: verification and download (`routes/public.ts`).
- `Api`: request dispatch, the world invariant, and lemmas over whole runs.

The main results:

- **Consistency.** `Api.Consistent` holds of every world reachable by any
  sequence of requests, whatever calls fail. Every record sits under its own
  ID. Its PDF exists under the ID's key and hashes to the recorded `sha256`
  with the recorded size. Its fingerprint is 8 upper-case hex characters.
  Revocation data is present exactly when the record is revoked.
- **Evolution (`Api.Evolves`).** No record is deleted. Issuance fields are
  never rewritten. A revocation is never undone. Counters never go down.
  The log only grows at its end, by at most one entry per request.
- **Per-handler contracts.** Each handler's contract states:
  - the exact condition for each status code, both ways;
  - which fields change;
  - that refusals leave the world as it was.

Three facts about the code shape the model:

- **Fingerprint versus stored hash.** The fingerprint is cut from the first
  render's hash, while `pdf.sha256` is the second render's hash. The two
  agree only when those hashes share their first 8 characters
  (`AdminRoutes.IssuedFingerprintVersusStoredHash`).
- **Render determinism.** Rendering is not assumed byte-deterministic,
  because the PDF library stamps creation dates.
- **Status update back to `valid`.** Through `updateCertificateStatus`
  this keeps `revoked_at` and `revoked_reason`. No route calls it that way.

## Model

| member | source | states |
|---|---|---|
| Crypto.GenerateFingerprint | src/services/cryptoService.ts:14-16 | The fingerprint has length min(8, input length), and each character is the upper-cased input character at the same position |
| Crypto.DigestFingerprintWellFormed | src/services/cryptoService.ts:7-16 | The fingerprint of any SHA-256 hex digest is exactly 8 characters from 0-9A-F |
| Crypto.FingerprintDependsOnlyOnPrefix | src/services/cryptoService.ts:14-16 | Two hashes with the same first 8 characters have the same fingerprint |
| Crypto.FingerprintsAgreeIffPrefixesAgree | src/services/cryptoService.ts:14-16 | Two hex digests share a fingerprint if and only if they share their first 8 characters |
| Crypto.FingerprintIdempotent | src/services/cryptoService.ts:14-16 | Fingerprinting a fingerprint gives it back unchanged |
| Crypto.FingerprintLowerRoundTrip | src/services/cryptoService.ts:14-16 | Lower-casing a digest's fingerprint recovers the digest's first 8 characters |
| Crypto.DigestDiffersFromNonHex | src/services/cryptoService.ts:29-34 | An HMAC hex digest never equals a string that contains a non-hex character, such as a raw IP address |
| BlobStore.StorageKey | src/services/r2.ts:26 | The object key is `certificates/`, then the certificate ID, then `.pdf` |
| BlobStore.StorageKeyRoundTrip | src/services/r2.ts:26 | The certificate ID can be read back from its object key |
| BlobStore.StorageKeyInjective | src/services/r2.ts:26 | Two certificate IDs share an object key if and only if they are equal |
| BlobStore.Upload | src/services/r2.ts:22-38 | After upload the returned key is the certificate's key and holds exactly the buffer; every other object is unchanged; the key set only gains that key |
| BlobStore.UploadKeyIgnoresContents | src/services/r2.ts:26-37 | The returned key depends only on the certificate ID, not on the buffer or the bucket |
| BlobStore.DownloadFilename | src/services/r2.ts:52-54 | The file name is `certificate-<fp>.pdf` for a non-empty fingerprint and `certificate.pdf` otherwise |
| BlobStore.DownloadFilenameRoundTrip | src/services/r2.ts:52-54 | A non-empty fingerprint can be read back from its file name, and the empty one gives the fixed name |
| BlobStore.DownloadRequest | src/services/r2.ts:47-65 | The signed request targets the given key, lasts the given TTL (default 120 s), forces `no-store`, and forces an attachment named after the fingerprint if it is truthy, `certificate.pdf` otherwise |
| Records.CreateCertificate | src/services/firestore.ts:61-63 | The record is stored under its own ID, replacing any earlier one; other records and the log are unchanged |
| Records.GetCertificateById | src/services/firestore.ts:68-76 | Returns null exactly when no record exists under the ID, and otherwise the stored record |
| Records.UpdateCertificateStatus | src/services/firestore.ts:81-98 | Fails exactly for a missing record. Revoking sets the status and `revokedAt := now`; it sets the reason only when that reason is non-empty. Setting valid changes only the status. Issuance fields, counters and other records are unchanged |
| Records.IncrementVerificationCount | src/services/firestore.ts:103-108 | Fails exactly for a missing record; otherwise the counter goes up by one and the last-verified time is now; nothing else changes |
| Records.LogVerification | src/services/firestore.ts:113-115 | The log grows by exactly the given entry at its end; records are unchanged |
| Records.InsertionPoint | src/services/firestore.ts:123 | In a newest-first sequence, every record before the point is at least as recent as the new one, and every record after it is older |
| Records.InsertKeepsNewestFirst | src/services/firestore.ts:123 | Inserting at such a point keeps the sequence newest-first |
| Records.InsertKeepsDistinct | src/services/firestore.ts:120-126 | Inserting an ID not yet listed keeps the listed IDs free of repeats |
| Records.InsertStep | src/services/firestore.ts:120-126 | Inserting a visited matching record into a partial answer gives a partial answer over the remaining keys |
| Records.SkipStep | src/services/firestore.ts:120-126 | Skipping a visited non-matching record keeps the partial answer |
| Records.Query | src/services/firestore.ts:120-139 | Every record the filter accepts appears exactly once, paired with its ID, and nothing else appears; the result is ordered by issue time, newest first |
| Records.GetCertificatesByLot | src/services/firestore.ts:120-127 | Exactly the records of the lot, each once, newest first |
| Records.GetCertificatesByIssuer | src/services/firestore.ts:132-139 | Exactly the records of the issuer, each once, newest first |
| Auth.TakeUntil | src/middleware/auth.ts:12 | The result is a prefix of the input |
| Auth.TakeUntilIsFirstSegment | src/middleware/auth.ts:12 | The result is the first field of `split(sep)`: no separator starts inside it, and a separator or the end follows it |
| Auth.FirstSegmentUnique | src/middleware/auth.ts:12 | Only one string has that first-field property, so the characterisation is exact |
| Auth.BearerToken | src/middleware/auth.ts:12 | The token is the first field of the text after `Bearer `, split on `Bearer ` |
| Auth.PlainBearerHeader | src/middleware/auth.ts:12 | For `Bearer <token>` where the token has no inner `Bearer `, the token comes back whole |
| Auth.Authenticate | src/middleware/auth.ts:4-23 | A missing header, or one without the `Bearer ` prefix, gets 401 "Missing or invalid token". A token the verifier rejects gets 401 "Invalid token". Otherwise the request proceeds with the verified uid |
| AdminRoutes.VerifyUrl | src/routes/admin.ts:59 | The verify URL is the configured base URL (the text `undefined` when unset), then `/`, then the certificate ID |
| AdminRoutes.Score | src/routes/admin.ts:53 | The score is non-zero if and only if the expertise score or the lot score is truthy; the expertise score wins, then the lot score |
| AdminRoutes.DraftPayload | src/routes/admin.ts:42-60 | Each lot field is taken verbatim when truthy and defaults to Untitled or Unknown otherwise; classification defaults to Non classé; the summary is the expert summary if truthy, else the lot description if truthy, else empty; dimensions are passed through; the fingerprint is empty; the laboratory name, issue time and verify URL are set |
| AdminRoutes.DataPublicOf | src/routes/admin.ts:81-90 | The recorded public data carries the payload's title, typology, period, materials, dimensions, score, classification and laboratory name |
| AdminRoutes.DataPublicIgnoresFingerprint | src/routes/admin.ts:66-90 | Printing the fingerprint into the payload does not change the recorded public data |
| AdminRoutes.IssueCertificate | src/routes/admin.ts:15-117 | 400 if and only if an ID is falsy. 404 if and only if the lot is missing. 201 if and only if the request is accepted and no later call fails. After any non-201 the records are untouched, and only an orphan PDF under the new key may remain. On 201 the second-pass PDF is stored, and a fresh valid record holds the first-pass fingerprint and the second-pass hash and size |
| AdminRoutes.IssuedFingerprintVersusStoredHash | src/routes/admin.ts:62-68 | The issued fingerprint equals the fingerprint of the stored hash if and only if the two render passes' hashes share their first 8 characters |
| AdminRoutes.RevokeCertificate | src/routes/admin.ts:120-152 | The checks run in order (400 bad reason, 404 missing, 403 not issuer), each stated as an if-and-only-if. Every refusal leaves the world unchanged. On 200 the record is revoked at now with the given reason, and every other field and record is unchanged |
| AdminRoutes.RevokingTwiceOverwrites | src/routes/admin.ts:126-141 | The issuer can revoke an already revoked certificate again, which overwrites its revocation time and reason |
| PublicRoutes.LogEvent | src/routes/public.ts:14-32 | Appends exactly one entry: the ID, the result, the route, the time, and HMACs of `ip ‖ x-forwarded-for ‖ unknown` and `user-agent ‖ unknown` under the pepper (default empty) |
| PublicRoutes.LoggedAddressIsNotRaw | src/routes/public.ts:21-27 | A client address containing `.` or `:` (every IP literal does) is never what the log stores in its IP field |
| PublicRoutes.ViewOf | src/routes/public.ts:49-58 | The public view copies the record's fields; an empty revocation reason becomes null |
| PublicRoutes.VerifyCertificate | src/routes/public.ts:35-63 | 404 and one not_found entry if and only if the ID is unknown. 200 if and only if the ID is known and no call fails; then the counter goes up by one, the last-verified time is now, and one entry records the status read at lookup. Only that record's counter fields may change |
| PublicRoutes.DownloadCertificate | src/routes/public.ts:66-102 | Records never change. 404 means no log entry. 403 if and only if the record is not valid; then one revoked entry is logged and the reason (or the default) is returned with no link. 200 if and only if the record is valid; then the link signs the record's key for 120 s under `certificate-<fp>.pdf`, and one valid entry is logged |
| Api.Handle | src/middleware/auth.ts:8-22 | A 401 happens only on admin routes, and it leaves the world unchanged |
| Api.EvolvesTransitive | src/services/firestore.ts:81-115 | The allowed-evolution relation composes |
| Api.UploadKeepsConsistency | src/routes/admin.ts:70 | Storing a PDF under the key of an ID not on record keeps every existing record consistent |
| Api.IssuePreservesConsistency | src/routes/admin.ts:62-104 | Issuance with a fresh ID keeps the world consistent, whichever call fails |
| Api.RevokePreservesConsistency | src/routes/admin.ts:120-152 | Revocation keeps the world consistent |
| Api.VerifyPreservesConsistency | src/routes/public.ts:35-63 | Verification keeps the world consistent |
| Api.DownloadPreservesConsistency | src/routes/public.ts:66-102 | Download keeps the world consistent |
| Api.HandlePreservesConsistency | src/server.ts:36-37 | Every request, dispatched to any of the four handlers (the admin ones behind the middleware), keeps the world consistent |
| Api.IssueEvolves | src/routes/admin.ts:15-117 | Issuance with a fresh ID evolves the world as allowed, leaves every record other than the new one unchanged, and leaves the log as it was |
| Api.RevokeEvolves | src/routes/admin.ts:120-152 | Revocation rewrites no issuance field, never un-revokes, never lowers a counter, leaves every other record unchanged, and leaves the log as it was |
| Api.VerifyEvolves | src/routes/public.ts:35-63 | Verification evolves the world as allowed, leaves every record other than the verified one unchanged, and appends at most one log entry |
| Api.DownloadEvolves | src/routes/public.ts:66-102 | Download changes no record and appends at most one log entry |
| Api.HandleEvolves | src/services/firestore.ts:61-115 | Every request deletes no record, never rewrites issuance fields, never undoes a revocation, never lowers a counter, and appends at most one log entry |
| Api.RunInvariants | src/routes/admin.ts:15-152 | Over any sequence of requests from a consistent world with fresh IDs, the world stays consistent, evolves as allowed, and gains at most one log entry per request |
| Api.IssuedResponseShape | src/routes/admin.ts:106-112 | A 201 answer carries the new ID, an 8-character upper-hex fingerprint, and a QR payload equal to the verify URL, which ends in `/<id>` |
| Api.DownloadNamesAgree | src/routes/public.ts:93-97 | The file name in the JSON answer is the one the signed link forces through Content-Disposition |
| Api.RevokeThenVerifyAndDownload | src/routes/public.ts:77-83 | After the issuer revokes, verify shows revoked with the reason, and download answers 403 with that reason |
| Api.RevokeByOtherRefused | src/routes/admin.ts:137-139 | A revocation by anyone but the issuer gets 403 and changes nothing |

## Left out

- PDF rendering (`services/pdf.ts`) is an opaque `render` collaborator of the payload and a per-pass stamp. Layout, fonts and the QR image are not modelled.
- SHA-256, HMAC-SHA-256, ULID generation and `generatePepper` are collaborators or oracle values. Only their output shapes are modelled: 64 lower-case hex characters, and a fresh ID.
- The S3 client set-up, its environment variables, the signing algorithm and `deleteCertificatePDF` are not modelled. No route calls `deleteCertificatePDF`.
- BlobStore.GenerateSignedDownloadUrl: carries no contract of its own. It hands `DownloadRequest` to the signer, and `DownloadRequest` holds the contract.
- Firestore initialisation, the wire format, and the split between server and client clocks are not modelled. One `now` per request stands for both `new Date()` and `Timestamp.now()`.
- `server.ts`, the `noStore` middleware, CORS, the `/health` endpoint and logging to the console are not modelled: they are transport, not lifecycle logic.
- Concurrency between requests is not modelled: requests are served one after another.
- The record's `metadata` block and the middleware's `userEmail` are not modelled: they are written but never read by the core. The optional `tests_performed` and `country` fields of the record interface are not modelled either: no route writes or reads them.
- Crypto.ToUpper: maps only ASCII letters. JavaScript's full Unicode case mapping is not modelled, and it changes nothing for hex digests.
- Document IDs containing `/`, which address sub-collections in the store, are not modelled. Lot fields of non-string JSON types are not modelled either.
- Records.Query: does not pin the order among records issued at the same instant. The store breaks such ties by document ID; the model does not model string order on IDs.
- Api.HandlePreservesConsistency: requires a fresh certificate ID for each issuance. A repeated ULID would overwrite an existing record, which the code does not guard against.
- AdminRoutes.Score: scores are integers in the model, so fractional values and NaN cannot be represented. NaN is falsy and would fall through like 0. Only the zero versus non-zero distinction drives a branch; the value itself is only carried into the payload.
- A lot's `dimensions_cm` enters the model already reduced: `None` when absent or falsy, otherwise its JSON text. `JSON.stringify` itself is not modelled.
- AdminRoutes.IssueCertificate: the document store's refusal of `undefined` field values is folded into the `WriteCertificate` failure rather than derived from the record. The store client is created with its default settings, which reject `undefined`, and the record holds `dimensions: undefined` whenever the lot has no truthy `dimensions_cm`. It can also hold `undefined` in `metadata` when the request carries no IP or user agent. So in practice every such issuance ends in 500, with an orphan PDF left in the bucket. The model's 201 for those inputs describes the write the code evidently intends.
