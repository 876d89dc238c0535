/**
 * The access guard shared by the CMS endpoints and the JSON responses they
 * return. Whether the site runs in development mode and whether the CMS is
 * enabled in the site configuration are parameters.
 */
module CmsGuard {
  import opened Common
  import opened CmsJson

  const DevOnlyMessage := "CMS API is only available in development mode"
  const DisabledMessage := "CMS is not enabled"

  datatype GuardError = GuardError(error: string, status: int)

  /**
   * `validateCmsAccess`: outside development mode access is refused
   * whatever the configuration says; in development mode it is refused
   * while the CMS is disabled; otherwise it is allowed.
   */
  function ValidateCmsAccess(dev: bool, enabled: bool): (r: Option<GuardError>)
    ensures !dev ==> r == Some(GuardError(DevOnlyMessage, 403))
    ensures dev && !enabled ==> r == Some(GuardError(DisabledMessage, 403))
    ensures r.None? <==> dev && enabled
  {
    if !dev then Some(GuardError(DevOnlyMessage, 403))
    else if !enabled then Some(GuardError(DisabledMessage, 403))
    else None
  }

  /** A JSON response: its status and the value serialised as its body. */
  datatype Response = Response(status: int, body: Value)

  /** `jsonErrorResponse`: the body is the object `{ error }`. */
  function JsonErrorResponse(error: string, status: int): Response {
    Response(status, Obj([("error", Str(error))]))
  }

  /** `jsonResponse`, whose status defaults to 200. */
  function JsonResponse(data: Value, status: int := 200): Response {
    Response(status, data)
  }

  /** An error response carries its status and exactly one property, the message. */
  lemma ErrorResponseShape(error: string, status: int)
    ensures JsonErrorResponse(error, status).status == status
    ensures JsonErrorResponse(error, status).body.Obj?
    ensures Keys(JsonErrorResponse(error, status).body.entries) == ["error"]
    ensures Lookup(JsonErrorResponse(error, status).body.entries, "error") == Some(Str(error))
  {
  }

  /** Without a status, a JSON response succeeds with 200. */
  lemma JsonResponseDefault(data: Value)
    ensures JsonResponse(data).status == 200 && JsonResponse(data).body == data
  {
  }

  /** The success body `{ success: true }`. */
  const SuccessBody := Obj([("success", Bool(true))])

  /**
   * The path checks of the CMS library (`isPathSafe`,
   * `hasValidMarkdownExtension`), whose definitions are not part of this
   * model.
   */
  datatype PathChecks = PathChecks(isPathSafe: string -> bool, hasValidMarkdownExtension: string -> bool)
}
