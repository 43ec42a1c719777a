/** `protectRoute` and `isAdmin`: the decision to let a request through,
    given what token verification and the user lookup report. Signing and
    verifying tokens are outside the model: verification is a parameter
    that maps a token to its outcome. */
module AuthMiddleware {
  import opened Wrappers
  import opened Common

  /** What `jwt.verify` does with a token: returns the payload (`userId`
      absent or falsy is `None`; a payload that is a bare string has no
      `userId` either), or throws an error whose `name` is given. */
  datatype VerifyOutcome =
    | Payload(userId: Option<string>)
    | Thrown(name: string)

  /** The error names the `catch` block answers with 401. */
  const InvalidTokenName := "JsonWebTokenError"
  const ExpiredTokenName := "TokenExpiredError"

  /** Either the request continues (`next()` is called once, with `req.user`
      set) or it is answered here with a status and message. */
  datatype Decision = Next(user: User) | Reject(status: int, message: string)

  const NoToken := "Not authenticated, token required"
  const BadToken := "Not authenticated, token invalid"
  const ExpiredToken := "Not authenticated, token expired"
  const NoUser := "Not authenticated, user not found"
  const InternalError := "Internal Server Error"
  const AdminsOnly := "Access denied: Admins only"

  /** `protectRoute`: the `jwt` cookie must be present and non-empty, verify
      to a payload with a `userId`, and name a stored user; the user is
      loaded afresh on every request. A `userId` that is not an ObjectId
      makes the lookup throw a CastError, which is a 500. */
  function ProtectRoute(cookie: Option<string>, verify: string -> VerifyOutcome, users: map<ObjectId, User>): (d: Decision)
    ensures cookie.None? || cookie.value == "" ==> d == Reject(StatusUnauthorized, NoToken)
    ensures d.Next? <==>
      && cookie.Some? && cookie.value != ""
      && verify(cookie.value).Payload? && verify(cookie.value).userId.Some?
      && CastObjectId(verify(cookie.value).userId.value).Some?
      && CastObjectId(verify(cookie.value).userId.value).value in users
    ensures d.Next? ==> d.user == users[CastObjectId(verify(cookie.value).userId.value).value]
    ensures d.Reject? ==> d.status == StatusUnauthorized || d.status == StatusServerError
    ensures d == Reject(StatusServerError, InternalError) <==>
      && cookie.Some? && cookie.value != ""
      && (|| (verify(cookie.value).Thrown?
              && verify(cookie.value).name != InvalidTokenName
              && verify(cookie.value).name != ExpiredTokenName)
          || (verify(cookie.value).Payload? && verify(cookie.value).userId.Some?
              && CastObjectId(verify(cookie.value).userId.value).None?))
  {
    if cookie.None? || cookie.value == "" then Reject(StatusUnauthorized, NoToken)
    else
      match verify(cookie.value)
      case Thrown(name) =>
        if name == InvalidTokenName then Reject(StatusUnauthorized, BadToken)
        else if name == ExpiredTokenName then Reject(StatusUnauthorized, ExpiredToken)
        else Reject(StatusServerError, InternalError)
      case Payload(userId) =>
        if userId.None? then Reject(StatusUnauthorized, BadToken)
        else
          match CastObjectId(userId.value)
          case None => Reject(StatusServerError, InternalError)
          case Some(id) =>
            if id !in users then Reject(StatusUnauthorized, NoUser)
            else Next(users[id])
  }

  /** `isAdmin`: continues exactly for a loaded user whose role is "admin". */
  function IsAdminGate(user: Option<User>): (d: Decision)
    ensures d.Next? <==> user.Some? && user.value.role == "admin"
    ensures d.Next? ==> d.user == user.value
    ensures d.Reject? ==> d == Reject(StatusForbidden, AdminsOnly)
  {
    if user.None? || user.value.role != "admin" then Reject(StatusForbidden, AdminsOnly)
    else Next(user.value)
  }

  /** The `req.user` a handler behind `protectRoute` sees. */
  function Requester(d: Decision): Option<User> {
    if d.Next? then Some(d.user) else None
  }

  /** An invalid token and an expired one are both refused with 401, and
      the two are told apart by their messages. */
  lemma {:induction false} TokenErrorsDiffer(cookie: string, verify: string -> VerifyOutcome, users: map<ObjectId, User>)
    requires cookie != ""
    ensures verify(cookie) == Thrown(InvalidTokenName) ==>
      ProtectRoute(Some(cookie), verify, users) == Reject(StatusUnauthorized, BadToken)
    ensures verify(cookie) == Thrown(ExpiredTokenName) ==>
      ProtectRoute(Some(cookie), verify, users) == Reject(StatusUnauthorized, ExpiredToken)
    ensures BadToken != ExpiredToken
  {
  }

  /** Because the user is re-read on every request, promoting a user takes
      effect on their next request with the same token: the admin gate
      behind `protectRoute` now lets them through. */
  lemma {:induction false} PromotionTakesEffect(cookie: string, verify: string -> VerifyOutcome, users: map<ObjectId, User>, id: ObjectId)
    requires cookie != "" && verify(cookie).Payload? && verify(cookie).userId.Some?
    requires CastObjectId(verify(cookie).userId.value) == Some(id)
    requires id in users && users[id].role != "admin"
    ensures IsAdminGate(Requester(ProtectRoute(Some(cookie), verify, users))).Reject?
    ensures var promoted := users[id := users[id].(role := "admin")];
      var d := ProtectRoute(Some(cookie), verify, promoted);
      d.Next? && IsAdminGate(Requester(d)).Next?
  {
  }
}
