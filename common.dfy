/** Result and error types shared by every route of the API. */
module Common {

  datatype Option<+T> = None | Some(value: T)

  /** The error responses the API sends, each with the HTTP status it is sent with. */
  datatype Failure =
    | MissingFields   // 400: a required body field is absent or empty
    | EmailTaken      // 400: the e-mail address is already registered
    | InvalidRole     // 400: the role is neither "user" nor "admin"
    | AlreadyMember   // 400: the user is already in the group
    | NotMember       // 400: the user is not in the group
    | Forbidden       // 403: the requester may not perform the action
    | NotFound        // 404: the addressed document does not exist
  {
    function Code(): (c: nat)
      ensures c == 400 || c == 403 || c == 404
      ensures c == 403 <==> Forbidden?
      ensures c == 404 <==> NotFound?
    {
      if Forbidden? then 403 else if NotFound? then 404 else 400
    }
  }

  /** What a route answers: a value on success, or the error response. */
  datatype Result<+T> = Ok(value: T) | Err(failure: Failure)
}
