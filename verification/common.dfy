/** Definitions every server handler shares: document ids, the
    authenticated user, the HTTP status codes the handlers answer with, and
    the owner-or-admin rule. */
module Common {
  import opened Wrappers
  import JsText
  import JsNumber

  /** A MongoDB ObjectId in canonical text form: 24 lower-case hex digits. */
  type ObjectId = string

  predicate IsObjectId(s: string) {
    |s| == 24 && forall i :: 0 <= i < |s| ==> JsNumber.IsDigit(s[i]) || 'a' <= s[i] <= 'f'
  }

  /** How `findById` reads an id it is given: 24 hex digits of either case
      name that id; any other text makes the query throw a CastError. */
  function CastObjectId(s: string): (r: Option<ObjectId>)
    ensures r.Some? <==> |s| == 24 && forall i :: 0 <= i < |s| ==> JsNumber.IsHexDigit(s[i])
    ensures r.Some? ==> IsObjectId(r.value)
  {
    if |s| == 24 && forall i :: 0 <= i < |s| ==> JsNumber.IsHexDigit(s[i]) then
      Some(JsText.Lower(s))
    else None
  }

  /** A canonical id casts to itself. */
  lemma {:induction false} CastCanonical(id: ObjectId)
    requires IsObjectId(id)
    ensures CastObjectId(id) == Some(id)
  {
    assert JsText.Lower(id) == id;
  }

  /** A date, kept as the text it was given in; the empty text is falsy and
      is never a valid date. */
  type DateValue = string

  /** A signed-in user as `protectRoute` loads it (the password is not
      selected, so it is not part of the record). */
  datatype User = User(id: ObjectId, email: string, fullName: string, role: string)

  predicate IsAdmin(u: User) {
    u.role == "admin"
  }

  /** The rule update and delete apply once the record exists: an admin, or
      the record's owner. */
  predicate MayModify(u: User, owner: ObjectId) {
    IsAdmin(u) || owner == u.id
  }

  const StatusOk := 200
  const StatusCreated := 201
  const StatusBadRequest := 400
  const StatusUnauthorized := 401
  const StatusForbidden := 403
  const StatusNotFound := 404
  const StatusServerError := 500

  /** `value || current` for a string field of a request body. */
  function OrText(value: Option<string>, current: string): (r: string)
    ensures value.Some? && value.value != "" ==> r == value.value
    ensures value.None? || value.value == "" ==> r == current
  {
    if value.Some? && value.value != "" then value.value else current
  }

  /** `value || current` for a number field of a request body: 0 and NaN keep
      the current value. */
  function OrNumber(value: Option<JsNumber.Num>, current: int): (r: int)
    ensures value.Some? && JsNumber.Truthy(value.value) ==> r == value.value.n
    ensures value.None? || !JsNumber.Truthy(value.value) ==> r == current
  {
    if value.Some? && JsNumber.Truthy(value.value) then value.value.n else current
  }
}
