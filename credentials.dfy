/**
 * The credential gate `verify_token`: the bearer credential is accepted only
 * when it is exactly the configured token; a mismatch is answered with
 * status 401 and changes no state.
 */
module Credentials {

  const UNAUTHORIZED_STATUS: int := 401

  datatype Verdict = Authorized | Unauthorized(status: int)

  function VerifyToken(credential: string, validToken: string): (v: Verdict)
    ensures v.Authorized? <==> credential == validToken
    ensures v.Unauthorized? ==> v.status == UNAUTHORIZED_STATUS
  {
    if credential != validToken then Unauthorized(UNAUTHORIZED_STATUS) else Authorized
  }
}
