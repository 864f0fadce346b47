/** The outcome of a request, as far as the model distinguishes it: the status code. */
module Responses {
  import opened Toggles

  datatype Status =
    | Ok            // 200
    | Created       // 201
    | NoContent     // 204
    | BadRequest    // 400
    | NotAuthenticated  // an anonymous request to a view that needs a user
    | Forbidden     // 403
    | NotFound      // 404

  /** The answer to a toggle request: 201 for an add, 204 for a removal, 400 when the row
      already is, or is not, there. */
  function ToggleStatus(o: Outcome): (s: Status)
    ensures s == Created <==> o == Added
    ensures s == NoContent <==> o == Removed
    ensures s == BadRequest <==> !Succeeded(o)
  {
    match o
    case Added => Created
    case Removed => NoContent
    case AlreadyPresent => BadRequest
    case Absent => BadRequest
  }
}
