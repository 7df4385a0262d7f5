/** `check_permissions`: the gate between a verified payload and a
    permission-scoped handler. */
module Permissions {
  import opened Wrappers
  import opened AuthErrors
  import opened Jwt

  /** `True` when `permission` is in the payload's `permissions` list; a
      payload without that claim is a bad request (`abort(400)`), which is
      not an `AuthError`; a missing permission is `unauthorized`. */
  function CheckPermissions(permission: string, payload: Payload): (r: Result<bool, Fault>)
    ensures payload.permissions.None? <==> r == Err(Aborted(400))
    ensures r == Err(Rejected(PermissionNotFound)) <==>
      payload.permissions.Some? && permission !in payload.permissions.value
    ensures r.Ok? <==> payload.permissions.Some? && permission in payload.permissions.value
    ensures r.Ok? ==> r.value
  {
    if payload.permissions.None? then Err(Aborted(400))
    else if permission !in payload.permissions.value then Err(Rejected(PermissionNotFound))
    else Ok(true)
  }
}
