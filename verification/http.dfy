/**
 * The request vocabulary the views and the permission classes share: HTTP
 * methods, the requesting user, response statuses, and what a permission
 * check ends in.
 */
module Http {
  import opened Wrappers
  import opened UsersModels
  import opened Store

  datatype Method = GET | HEAD | OPTIONS | POST | PUT | PATCH | DELETE

  /** `SAFE_METHODS`. */
  predicate IsSafe(m: Method)
  {
    m == GET || m == HEAD || m == OPTIONS
  }

  /** `request.user`: the anonymous user, or an authenticated row of the user table. */
  datatype Requester = Anonymous | Authenticated(user: User)

  predicate IsAuthenticated(req: Requester)
  {
    req.Authenticated?
  }

  datatype Status = Ok200 | Created201 | BadRequest400 | Unauthorized401 | Forbidden403 | NotFound404 | ServerError500

  /** What a single permission hook returns: true, false, or an uncaught exception. */
  datatype Verdict = Grant | Deny | Raise

  function FromBool(b: bool): Verdict
  {
    if b then Grant else Deny
  }

  /** How a view's permission checks end. */
  datatype Access = Permitted | NotAuthenticated | Forbidden | Crashed

  /**
   * A refused check: an anonymous request is answered 401, an authenticated
   * one 403 (the behaviour when an authentication class is configured).
   */
  function Refusal(req: Requester): (a: Access)
    ensures a == NotAuthenticated <==> req.Anonymous?
    ensures a == Forbidden <==> req.Authenticated?
  {
    if req.Anonymous? then NotAuthenticated else Forbidden
  }

  function AccessStatus(a: Access): Status
  {
    match a
    case Permitted => Ok200
    case NotAuthenticated => Unauthorized401
    case Forbidden => Forbidden403
    case Crashed => ServerError500
  }

  /** The status and the tables after a request that writes. */
  datatype Reply = Reply(status: Status, db: Tables)

  /** A signup request: the status, where a confirmation code was mailed, and the tables after it. */
  datatype SignupReply = SignupReply(status: Status, sentTo: Option<string>, db: Tables)

  /** How a token request ends; `Token` stands for the access token issued for that user. */
  datatype TokenReply = Token(user: UserId) | InvalidRequest | UserNotFound | WrongCode

  function TokenStatus(r: TokenReply): Status
  {
    match r
    case Token(_) => Ok200
    case InvalidRequest => BadRequest400
    case UserNotFound => NotFound404
    case WrongCode => BadRequest400
  }

  /** A permission check that passes, or the refusal for this requester. */
  function Gate(passes: bool, req: Requester): (a: Access)
    ensures a == Permitted <==> passes
    ensures a != Crashed
  {
    if passes then Permitted else Refusal(req)
  }

  /** An object-level verdict as an access outcome; an exception is a 500. */
  function FromVerdict(v: Verdict, req: Requester): (a: Access)
    ensures a == Permitted <==> v == Grant
    ensures a == Crashed <==> v == Raise
  {
    match v
    case Grant => Permitted
    case Deny => Refusal(req)
    case Raise => Crashed
  }
}
