/** `IsAuthorOrReadOnly`: anyone may read; writing needs a signed-in user, and writing to one
    recipe needs its author. */
module Permissions {
  import opened Wrappers
  import opened UsersModels

  datatype HttpMethod = Get | Head | Options | Post | Put | Patch | Delete

  /** `SAFE_METHODS`. */
  predicate IsSafe(m: HttpMethod) {
    m == Get || m == Head || m == Options
  }

  /** `has_permission`: safe methods always; the others for a signed-in requester. */
  function HasPermission(m: HttpMethod, requester: Option<UserId>): (r: bool)
    ensures IsSafe(m) ==> r
    ensures !IsSafe(m) ==> (r <==> requester.Some?)
  {
    if IsSafe(m) then true else requester.Some?
  }

  /** `has_object_permission`: safe methods always; the others only for the object's author
      (an anonymous requester equals no user). */
  function HasObjectPermission(m: HttpMethod, requester: Option<UserId>, author: UserId): (r: bool)
    ensures IsSafe(m) ==> r
    ensures !IsSafe(m) ==> (r <==> requester == Some(author))
  {
    if IsSafe(m) then true else requester == Some(author)
  }

  /** Whoever passes the object check also passes the view check, so for one recipe the
      combined check is exactly: a safe method, or the author asking. */
  lemma ObjectCheckDecides(m: HttpMethod, requester: Option<UserId>, author: UserId)
    ensures HasObjectPermission(m, requester, author) ==> HasPermission(m, requester)
    ensures HasPermission(m, requester) && HasObjectPermission(m, requester, author) <==>
      IsSafe(m) || requester == Some(author)
  {
  }
}
