/** HTTP responses: a status and one of the body shapes the handlers send. */
module Http {
  import opened Common
  import opened Records

  datatype HttpStatus = Ok | Created | BadRequest | Unauthorized | Forbidden | NotFound | InternalError {
    function Code(): nat {
      match this
      case Ok => 200
      case Created => 201
      case BadRequest => 400
      case Unauthorized => 401
      case Forbidden => 403
      case NotFound => 404
      case InternalError => 500
    }
  }

  /** The public view of a certificate returned by the verify route. */
  datatype VerifyView = VerifyView(
    certificateId: string,
    status: Status,
    issuedAt: nat,
    revokedReason: Option<string>,
    revokedAt: Option<nat>,
    publicFingerprint: string,
    dataPublic: DataPublic,
    verifiedAt: nat)

  datatype Body =
    | ErrorBody(error: string)
      /** `{ error: 'revoked', reason }` */
    | RevokedBody(reason: string)
    | IssuedBody(certificateId: string, publicFingerprint: string, verifyUrl: string,
                 qrCodeData: string, issuedAt: nat)
      /** `{ success: true, certificate_id, revoked_at }` */
    | RevocationBody(certificateId: string, revokedAt: nat)
    | ViewBody(view: VerifyView)
    | LinkBody(url: string, expiresIn: nat, filename: string)

  datatype Response = Response(status: HttpStatus, body: Body)

  function Error(status: HttpStatus, message: string): Response {
    Response(status, ErrorBody(message))
  }

  /** What every handler answers when a backing call throws. */
  const ServerError := Error(InternalError, "Internal server error")
}
