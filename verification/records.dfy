/** The certificate repository: certificate records keyed by ID and the
    append-only verification log, with the field-level operations the
    handlers use. Timestamps are clock readings passed in as `now`. */
module Records {
  import opened Common

  datatype Status = Valid | Revoked

  /** The denormalised public description frozen at issuance. */
  datatype DataPublic = DataPublic(
    title: string,
    typology: string,
    period: string,
    materials: string,
    dimensions: Option<string>,
    score: int,
    classification: string,
    laboratory: string)

  /** Where the PDF is stored, its SHA-256 and its length in bytes. */
  datatype PdfInfo = PdfInfo(r2Key: string, sha256: string, size: nat)

  datatype Certificate = Certificate(
    certificateId: string,
    publicFingerprint: string,
    version: int,
    status: Status,
    issuedAt: nat,
    revokedAt: Option<nat>,
    revokedReason: Option<string>,
    lotId: string,
    issuerId: string,
    expertiseId: Option<string>,
    dataPublic: DataPublic,
    pdf: PdfInfo,
    verificationCount: nat,
    lastVerifiedAt: Option<nat>)

  datatype LogResult = LogValid | LogRevoked | LogNotFound

  datatype Route = VerifyRoute | DownloadRoute

  /** One audit entry; client IP and user agent are kept only as keyed hashes. */
  datatype VerificationLog = VerificationLog(
    certificateId: string,
    ts: nat,
    ipHmac: string,
    uaHmac: string,
    result: LogResult,
    route: Route)

  /** The document store as the service sees it. */
  datatype Store = Store(certs: map<string, Certificate>, log: seq<VerificationLog>)

  /** The fields set once at issuance and never written again. */
  predicate SameIssuedFields(c: Certificate, d: Certificate) {
    && d.certificateId == c.certificateId
    && d.publicFingerprint == c.publicFingerprint
    && d.version == c.version
    && d.issuedAt == c.issuedAt
    && d.lotId == c.lotId
    && d.issuerId == c.issuerId
    && d.expertiseId == c.expertiseId
    && d.dataPublic == c.dataPublic
    && d.pdf == c.pdf
  }

  /** The fields only the status update writes. */
  predicate SameRevocationFields(c: Certificate, d: Certificate) {
    d.status == c.status && d.revokedAt == c.revokedAt && d.revokedReason == c.revokedReason
  }

  /** The fields only the verification counter writes. */
  predicate SameCounterFields(c: Certificate, d: Certificate) {
    d.verificationCount == c.verificationCount && d.lastVerifiedAt == c.lastVerifiedAt
  }

  /** Every record other than `id` is present in both maps and unchanged. */
  predicate OthersUnchanged(m: map<string, Certificate>, m': map<string, Certificate>, id: string) {
    forall k :: k in m && k != id ==> k in m' && m'[k] == m[k]
  }

  /** `createCertificate`: a `set` on the document named by the record's own
      ID, replacing any earlier record there. */
  function CreateCertificate(s: Store, c: Certificate): (r: Store)
    ensures r.log == s.log
    ensures r.certs.Keys == s.certs.Keys + {c.certificateId}
    ensures r.certs[c.certificateId] == c
    ensures OthersUnchanged(s.certs, r.certs, c.certificateId)
  {
    s.(certs := s.certs[c.certificateId := c])
  }

  /** `getCertificateById`: `None` exactly when no document exists. */
  function GetCertificateById(s: Store, id: string): (r: Option<Certificate>)
    ensures r.None? <==> id !in s.certs
    ensures r.Some? ==> r.value == s.certs[id]
  {
    if id in s.certs then Some(s.certs[id]) else None
  }

  /** `updateCertificateStatus`: a field-level `update`, which fails
      (`None`) when the document does not exist. Moving to `Revoked` also
      stamps `revokedAt` and, for a non-empty reason only, `revokedReason`;
      moving to `Valid` touches nothing but `status`. */
  function UpdateCertificateStatus(s: Store, id: string, status: Status,
                                   reason: Option<string>, now: nat): (r: Option<Store>)
    ensures r.None? <==> id !in s.certs
    ensures r.Some? ==>
              && r.value.log == s.log
              && r.value.certs.Keys == s.certs.Keys
              && OthersUnchanged(s.certs, r.value.certs, id)
    ensures r.Some? ==>
              var c, d := s.certs[id], r.value.certs[id];
              && d.status == status
              && SameIssuedFields(c, d)
              && SameCounterFields(c, d)
              && (status == Revoked ==> d.revokedAt == Some(now))
              && (status == Revoked && Truthy(reason) ==> d.revokedReason == reason)
              && (status == Revoked && !Truthy(reason) ==> d.revokedReason == c.revokedReason)
              && (status == Valid ==> d.revokedAt == c.revokedAt && d.revokedReason == c.revokedReason)
  {
    if id !in s.certs then None
    else
      var c := s.certs[id];
      var d :=
        if status == Revoked then
          c.(status := Revoked,
             revokedAt := Some(now),
             revokedReason := if Truthy(reason) then reason else c.revokedReason)
        else
          c.(status := status);
      Some(s.(certs := s.certs[id := d]))
  }

  /** `incrementVerificationCount`: an atomic `+1` on the counter together
      with the time of the lookup; fails when the document does not exist. */
  function IncrementVerificationCount(s: Store, id: string, now: nat): (r: Option<Store>)
    ensures r.None? <==> id !in s.certs
    ensures r.Some? ==>
              && r.value.log == s.log
              && r.value.certs.Keys == s.certs.Keys
              && OthersUnchanged(s.certs, r.value.certs, id)
    ensures r.Some? ==>
              var c, d := s.certs[id], r.value.certs[id];
              && d.verificationCount == c.verificationCount + 1
              && d.lastVerifiedAt == Some(now)
              && SameIssuedFields(c, d)
              && SameRevocationFields(c, d)
  {
    if id !in s.certs then None
    else
      var c := s.certs[id];
      Some(s.(certs := s.certs[id := c.(verificationCount := c.verificationCount + 1,
                                        lastVerifiedAt := Some(now))]))
  }

  /** `logVerification`: adds one entry at the end of the log. */
  function LogVerification(s: Store, entry: VerificationLog): (r: Store)
    ensures r.certs == s.certs
    ensures |r.log| == |s.log| + 1
    ensures r.log[..|s.log|] == s.log
    ensures r.log[|s.log|] == entry
  {
    s.(log := s.log + [entry])
  }

  /** Ordered by `issued_at`, newest first. */
  predicate NewestFirst(cs: seq<Certificate>) {
    forall i, j :: 0 <= i < j < |cs| ==> cs[i].issuedAt >= cs[j].issuedAt
  }

  /** Where a record issued at `t` goes in a newest-first sequence: after
      every record at least as recent, before every older one. */
  function InsertionPoint(cs: seq<Certificate>, t: nat): (p: nat)
    requires NewestFirst(cs)
    ensures p <= |cs|
    ensures forall i :: 0 <= i < p ==> cs[i].issuedAt >= t
    ensures forall i :: p <= i < |cs| ==> cs[i].issuedAt < t
  {
    if |cs| == 0 || cs[0].issuedAt < t then 0
    else 1 + InsertionPoint(cs[1..], t)
  }

  /** A partial query answer: the IDs are distinct and name exactly the
      records `matches` accepts among those not in `rest` (the keys still
      to visit), and they come with those records newest first. */
  ghost predicate PartialAnswer(certs: map<string, Certificate>, matches: Certificate -> bool,
                                rest: set<string>, ids: seq<string>, rs: seq<Certificate>)
  {
    && rest <= certs.Keys
    && |ids| == |rs|
    && (forall i :: 0 <= i < |ids| ==> ids[i] in certs && rs[i] == certs[ids[i]])
    && (forall i, j :: 0 <= i < j < |ids| ==> ids[i] != ids[j])
    && (forall id :: id in ids <==> id in certs && id !in rest && matches(certs[id]))
    && NewestFirst(rs)
  }

  /** A complete query answer: every matching record exactly once, newest first. */
  ghost predicate QueryAnswer(certs: map<string, Certificate>, matches: Certificate -> bool,
                              ids: seq<string>, rs: seq<Certificate>)
  {
    PartialAnswer(certs, matches, {}, ids, rs)
  }

  /** Inserting one record at its insertion point keeps the order. */
  lemma InsertKeepsNewestFirst(rs: seq<Certificate>, c: Certificate, p: nat)
    requires NewestFirst(rs)
    requires p <= |rs|
    requires forall i :: 0 <= i < p ==> rs[i].issuedAt >= c.issuedAt
    requires forall i :: p <= i < |rs| ==> rs[i].issuedAt < c.issuedAt
    ensures NewestFirst(rs[..p] + [c] + rs[p..])
  {
    var out := rs[..p] + [c] + rs[p..];
    forall i, j | 0 <= i < j < |out|
      ensures out[i].issuedAt >= out[j].issuedAt
    {
      if j < p {
        assert out[i] == rs[i] && out[j] == rs[j];
      } else if j == p {
        assert out[i] == rs[i];
      } else if i < p {
        assert out[i] == rs[i] && out[j] == rs[j - 1];
      } else if i == p {
        assert out[j] == rs[j - 1];
      } else {
        assert out[i] == rs[i - 1] && out[j] == rs[j - 1];
      }
    }
  }

  /** Visiting a key whose record does not match leaves the answer as it is. */
  lemma SkipStep(certs: map<string, Certificate>, matches: Certificate -> bool,
                 rest: set<string>, ids: seq<string>, rs: seq<Certificate>, k: string)
    requires PartialAnswer(certs, matches, rest, ids, rs)
    requires k in rest && !matches(certs[k])
    ensures PartialAnswer(certs, matches, rest - {k}, ids, rs)
  {
  }

  /** Where each element of `xs[..p] + [x] + xs[p..]` comes from. */
  lemma InsertAt<T>(xs: seq<T>, x: T, p: nat)
    requires p <= |xs|
    ensures var ys := xs[..p] + [x] + xs[p..];
            && |ys| == |xs| + 1 && ys[p] == x
            && (forall i :: 0 <= i < p ==> ys[i] == xs[i])
            && (forall i :: p < i < |ys| ==> ys[i] == xs[i - 1])
            && (forall y :: y in ys <==> y in xs || y == x)
  {
    var ys := xs[..p] + [x] + xs[p..];
    assert xs == xs[..p] + xs[p..];
    forall i | p < i < |ys|
      ensures ys[i] == xs[i - 1]
    {
    }
  }

  /** Inserting a new element into a sequence without repeats keeps it
      without repeats. */
  lemma InsertKeepsDistinct<T>(xs: seq<T>, x: T, p: nat)
    requires p <= |xs| && x !in xs
    requires forall i, j :: 0 <= i < j < |xs| ==> xs[i] != xs[j]
    ensures var ys := xs[..p] + [x] + xs[p..];
            forall i, j :: 0 <= i < j < |ys| ==> ys[i] != ys[j]
  {
    var ys := xs[..p] + [x] + xs[p..];
    InsertAt(xs, x, p);
    forall i, j | 0 <= i < j < |ys|
      ensures ys[i] != ys[j]
    {
      var a := if i < p then i else i - 1;
      var b := if j < p then j else j - 1;
      if i != p && j != p {
        assert ys[i] == xs[a] && ys[j] == xs[b];
      } else if i == p {
        assert ys[j] == xs[b];
      } else {
        assert ys[i] == xs[a];
      }
    }
  }

  /** Visiting a key whose record matches inserts it at its insertion point. */
  lemma InsertStep(certs: map<string, Certificate>, matches: Certificate -> bool,
                   rest: set<string>, ids: seq<string>, rs: seq<Certificate>, k: string)
    requires PartialAnswer(certs, matches, rest, ids, rs)
    requires k in rest && matches(certs[k])
    ensures var p := InsertionPoint(rs, certs[k].issuedAt);
            PartialAnswer(certs, matches, rest - {k},
                          ids[..p] + [k] + ids[p..], rs[..p] + [certs[k]] + rs[p..])
  {
    var c := certs[k];
    var p := InsertionPoint(rs, c.issuedAt);
    InsertKeepsNewestFirst(rs, c, p);
    var ids', rs' := ids[..p] + [k] + ids[p..], rs[..p] + [c] + rs[p..];
    assert k !in ids;
    InsertAt(ids, k, p);
    InsertAt(rs, c, p);
    InsertKeepsDistinct(ids, k, p);
    forall i | 0 <= i < |ids'|
      ensures ids'[i] in certs && rs'[i] == certs[ids'[i]]
    {
      if i < p {
        assert ids'[i] == ids[i] && rs'[i] == rs[i];
      } else if i > p {
        assert ids'[i] == ids[i - 1] && rs'[i] == rs[i - 1];
      }
    }
  }

  /** The filtered, ordered listing both `getCertificatesBy…` queries run:
      every matching record once, newest first. The order among records
      issued at the same instant is left to the store. */
  method Query(certs: map<string, Certificate>, matches: Certificate -> bool)
    returns (ids: seq<string>, rs: seq<Certificate>)
    ensures QueryAnswer(certs, matches, ids, rs)
  {
    var rest := certs.Keys;
    ids, rs := [], [];
    while rest != {}
      invariant PartialAnswer(certs, matches, rest, ids, rs)
      decreases rest
    {
      var k :| k in rest;
      if matches(certs[k]) {
        InsertStep(certs, matches, rest, ids, rs, k);
        var p := InsertionPoint(rs, certs[k].issuedAt);
        ids := ids[..p] + [k] + ids[p..];
        rs := rs[..p] + [certs[k]] + rs[p..];
      } else {
        SkipStep(certs, matches, rest, ids, rs, k);
      }
      rest := rest - {k};
    }
  }

  /** `getCertificatesByLot`: the records of one lot, newest first. */
  method GetCertificatesByLot(s: Store, lotId: string) returns (ids: seq<string>, rs: seq<Certificate>)
    ensures QueryAnswer(s.certs, (c: Certificate) => c.lotId == lotId, ids, rs)
    ensures forall c :: c in rs ==> c.lotId == lotId
  {
    ids, rs := Query(s.certs, (c: Certificate) => c.lotId == lotId);
  }

  /** `getCertificatesByIssuer`: the records one issuer created, newest first. */
  method GetCertificatesByIssuer(s: Store, issuerId: string) returns (ids: seq<string>, rs: seq<Certificate>)
    ensures QueryAnswer(s.certs, (c: Certificate) => c.issuerId == issuerId, ids, rs)
    ensures forall c :: c in rs ==> c.issuerId == issuerId
  {
    ids, rs := Query(s.certs, (c: Certificate) => c.issuerId == issuerId);
  }
}
