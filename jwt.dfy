/**
 * The token verifier, seen from its callers. Signature checking and expiry
 * are done by a JSON Web Token library that is not part of this model; the
 * model receives its verdict for a token as an abstract oracle.
 */
module Jwt {
  import opened Wrappers

  /** The claims of a decoded token; every claim may be missing. */
  datatype Claims = Claims(userId: Option<nat>, adminId: Option<nat>, role: Option<string>)

  /** What the verifier says about a token: its claims, or why it refused it. */
  datatype TokenVerdict =
    | Verified(claims: Claims)
    | Expired   // the library's TokenExpiredError
    | Rejected  // every other verification failure (bad signature, malformed token, ...)

  /** `decoded.role || 'user'`: a missing or empty role claim means the ordinary role. */
  function RoleOrDefault(role: Option<string>): (r: string)
    ensures r != ""
    ensures r == "user" || Some(r) == role
    ensures role.Some? && role.value != "" ==> r == role.value
  {
    if role.Some? && role.value != "" then role.value else "user"
  }
}
