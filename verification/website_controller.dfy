/** The four engagement handlers, each a function from the requester
    (`req.user`, absent when unauthenticated), the request and the
    collection to the status code and the collection afterwards. */
module WebsiteController {
  import opened Wrappers
  import opened Common
  import opened JsNumber
  import opened WebsiteModel

  /** The fields a request body may carry; `None` is a missing or null field. */
  datatype WebsiteBody = WebsiteBody(
    software: Option<string>,
    startDate: Option<DateValue>,
    endDate: Option<DateValue>,
    state: Option<Num>,
    district: Option<Num>)

  datatype Reply = Reply(status: int, db: Websites)

  datatype ListReply = ListReply(status: int, items: Websites)

  predicate TextGiven(v: Option<string>) {
    v.Some? && v.value != ""
  }

  predicate NumberGiven(v: Option<Num>) {
    v.Some? && Truthy(v.value)
  }

  /** The create guard: all five fields truthy, so a state or district of 0
      is refused although the schema would store it. */
  predicate Complete(b: WebsiteBody) {
    TextGiven(b.software) && TextGiven(b.startDate) && TextGiven(b.endDate)
    && NumberGiven(b.state) && NumberGiven(b.district)
  }

  /** `createWebsite`. `newId` is the id the driver generates and `now` the
      clock reading for the timestamps; an id already taken is a duplicate
      key error. */
  function CreateWebsite(user: Option<User>, body: WebsiteBody, db: Websites, newId: ObjectId, now: int): (out: Reply)
    ensures user.None? ==> out == Reply(StatusUnauthorized, db)
    ensures user.Some? && !Complete(body) ==> out == Reply(StatusBadRequest, db)
    ensures out.status == StatusCreated <==> user.Some? && Complete(body) && newId !in db
    ensures out.status != StatusCreated ==> out.db == db
    ensures out.status == StatusCreated ==>
      newId in out.db && out.db == db[newId := out.db[newId]]
      && out.db[newId].owner == user.value.id
      && out.db[newId].software == body.software.value
      && out.db[newId].startDate == body.startDate.value
      && out.db[newId].endDate == body.endDate.value
      && out.db[newId].state == body.state.value.n && out.db[newId].state != 0
      && out.db[newId].district == body.district.value.n && out.db[newId].district != 0
  {
    if user.None? then Reply(StatusUnauthorized, db)
    else if !Complete(body) then Reply(StatusBadRequest, db)
    else if newId in db then Reply(StatusServerError, db)
    else
      var w := Website(user.value.id, body.software.value, body.startDate.value, body.endDate.value,
                       body.state.value.n, body.district.value.n, now, now);
      Reply(StatusCreated, db[newId := w])
  }

  /** `getWebsites`: an admin sees the whole collection, anyone else exactly
      the records they own. */
  function GetWebsites(user: Option<User>, db: Websites): (out: ListReply)
    ensures user.None? ==> out.status == StatusUnauthorized && out.items == map[]
    ensures user.Some? ==> out.status == StatusOk
    ensures user.Some? && IsAdmin(user.value) ==> out.items == db
    ensures user.Some? && !IsAdmin(user.value) ==>
      (forall id :: id in out.items <==> id in db && db[id].owner == user.value.id)
      && (forall id :: id in out.items ==> out.items[id] == db[id])
  {
    if user.None? then ListReply(StatusUnauthorized, map[])
    else if IsAdmin(user.value) then ListReply(StatusOk, db)
    else ListReply(StatusOk, map id | id in db && db[id].owner == user.value.id :: db[id])
  }

  /** The merge of `updateWebsite`: `body.x || current.x` for each of the five
      fields; the owner and the timestamps are not touched. */
  function MergeWebsite(w: Website, b: WebsiteBody): (m: Website)
    ensures m.owner == w.owner && m.createdAt == w.createdAt && m.updatedAt == w.updatedAt
    ensures m.software == if TextGiven(b.software) then b.software.value else w.software
    ensures m.startDate == if TextGiven(b.startDate) then b.startDate.value else w.startDate
    ensures m.endDate == if TextGiven(b.endDate) then b.endDate.value else w.endDate
    ensures m.state == if NumberGiven(b.state) then b.state.value.n else w.state
    ensures m.district == if NumberGiven(b.district) then b.district.value.n else w.district
  {
    w.(software := OrText(b.software, w.software),
       startDate := OrText(b.startDate, w.startDate),
       endDate := OrText(b.endDate, w.endDate),
       state := OrNumber(b.state, w.state),
       district := OrNumber(b.district, w.district))
  }

  /** Saving a merged document: nothing is written, and `updatedAt` keeps
      its value, when the merge changed no field. */
  function SaveMerged(w: Website, b: WebsiteBody, now: int): Website {
    var m := MergeWebsite(w, b);
    if m == w then w else m.(updatedAt := now)
  }

  /** Outcome of the lookup and permission checks shared by update and
      delete: the id that may be changed, or the status that ends the request. */
  datatype Access = Granted(id: ObjectId) | Denied(status: int)

  /** Not authenticated, then an id that is not an ObjectId (the query
      throws), then a missing record, then neither admin nor owner. */
  function CheckAccess(user: Option<User>, idText: string, db: Websites): (a: Access)
    ensures a.Granted? ==> a.id in db && user.Some? && MayModify(user.value, db[a.id].owner)
    ensures a.Granted? ==> CastObjectId(idText) == Some(a.id)
    ensures a == Denied(StatusUnauthorized) <==> user.None?
    ensures a == Denied(StatusNotFound) <==>
      user.Some? && CastObjectId(idText).Some? && CastObjectId(idText).value !in db
    ensures a == Denied(StatusForbidden) <==>
      user.Some? && CastObjectId(idText).Some? && CastObjectId(idText).value in db
      && !MayModify(user.value, db[CastObjectId(idText).value].owner)
    ensures a == Denied(StatusServerError) <==> user.Some? && CastObjectId(idText).None?
  {
    if user.None? then Denied(StatusUnauthorized)
    else
      var id := CastObjectId(idText);
      if id.None? then Denied(StatusServerError)
      else if id.value !in db then Denied(StatusNotFound)
      else if !MayModify(user.value, db[id.value].owner) then Denied(StatusForbidden)
      else Granted(id.value)
  }

  /** `updateWebsite`: a refused request leaves the collection as it was; a
      granted one rewrites only the addressed record, through the merge. */
  function UpdateWebsite(user: Option<User>, idText: string, body: WebsiteBody, db: Websites, now: int): (out: Reply)
    ensures CheckAccess(user, idText, db).Denied? ==>
      out == Reply(CheckAccess(user, idText, db).status, db)
    ensures CheckAccess(user, idText, db).Granted? ==>
      var id := CheckAccess(user, idText, db).id;
      out.status == StatusOk && out.db.Keys == db.Keys
      && out.db[id] == SaveMerged(db[id], body, now)
      && (forall k :: k in db && k != id ==> out.db[k] == db[k])
  {
    match CheckAccess(user, idText, db)
    case Denied(status) => Reply(status, db)
    case Granted(id) => Reply(StatusOk, db[id := SaveMerged(db[id], body, now)])
  }

  /** `deleteWebsite`: removes exactly the addressed record when granted. */
  function DeleteWebsite(user: Option<User>, idText: string, db: Websites): (out: Reply)
    ensures CheckAccess(user, idText, db).Denied? ==>
      out == Reply(CheckAccess(user, idText, db).status, db)
    ensures CheckAccess(user, idText, db).Granted? ==>
      var id := CheckAccess(user, idText, db).id;
      out.status == StatusOk && out.db.Keys == db.Keys - {id}
      && (forall k :: k in out.db ==> out.db[k] == db[k])
  {
    match CheckAccess(user, idText, db)
    case Denied(status) => Reply(status, db)
    case Granted(id) => Reply(StatusOk, db - {id})
  }

  /** A missing record is reported as 404 whoever asks, admin or not: the
      existence check comes before the permission check. */
  lemma {:induction false} MissingIsNotFound(u: User, id: ObjectId, body: WebsiteBody, db: Websites, now: int)
    requires IsObjectId(id) && id !in db
    ensures UpdateWebsite(Some(u), id, body, db, now) == Reply(StatusNotFound, db)
    ensures DeleteWebsite(Some(u), id, db) == Reply(StatusNotFound, db)
  {
    CastCanonical(id);
  }

  /** Someone who is neither admin nor owner gets 403 and changes nothing. */
  lemma {:induction false} StrangerIsForbidden(u: User, id: ObjectId, body: WebsiteBody, db: Websites, now: int)
    requires IsObjectId(id) && id in db && !IsAdmin(u) && db[id].owner != u.id
    ensures UpdateWebsite(Some(u), id, body, db, now) == Reply(StatusForbidden, db)
    ensures DeleteWebsite(Some(u), id, db) == Reply(StatusForbidden, db)
  {
    CastCanonical(id);
  }

  /** Falsy body values never overwrite: an empty string, 0 or NaN keeps the
      stored value, and a body of nothing but falsy values changes nothing. */
  lemma {:induction false} FalsyKeeps(w: Website, b: WebsiteBody)
    requires !TextGiven(b.software) && !TextGiven(b.startDate) && !TextGiven(b.endDate)
    requires !NumberGiven(b.state) && !NumberGiven(b.district)
    ensures MergeWebsite(w, b) == w
  {
  }

  /** Merging the same body twice gives what merging it once gives. */
  lemma {:induction false} MergeIdempotent(w: Website, b: WebsiteBody)
    ensures MergeWebsite(MergeWebsite(w, b), b) == MergeWebsite(w, b)
  {
  }

  /** Repeating an update request changes nothing more, even at a later
      time: the second merge is a no-op, so not even `updatedAt` moves. */
  lemma {:induction false} UpdateIdempotent(u: User, idText: string, body: WebsiteBody, db: Websites, now: int, later: int)
    ensures var once := UpdateWebsite(Some(u), idText, body, db, now);
      UpdateWebsite(Some(u), idText, body, once.db, later) == once
  {
    var once := UpdateWebsite(Some(u), idText, body, db, now);
    match CheckAccess(Some(u), idText, db)
    case Denied(_) =>
    case Granted(id) =>
      var w := SaveMerged(db[id], body, now);
      MergeIdempotent(db[id], body);
      assert MergeWebsite(w, body) == w;
      assert once.db[id := w] == once.db;
  }

  /** Every handler keeps the collection schema-valid (a new id from the
      driver is a well-formed ObjectId). */
  lemma {:induction false} HandlersKeepValid(user: Option<User>, idText: string, body: WebsiteBody, db: Websites, newId: ObjectId, now: int)
    requires ValidStore(db) && IsObjectId(newId)
    requires user.Some? ==> IsObjectId(user.value.id)
    ensures ValidStore(CreateWebsite(user, body, db, newId, now).db)
    ensures ValidStore(UpdateWebsite(user, idText, body, db, now).db)
    ensures ValidStore(DeleteWebsite(user, idText, db).db)
  {
  }

  /** The listing of one user after they create an engagement shows it to
      them and to every admin, and not to any other non-admin. */
  lemma {:induction false} CreatedIsVisibleToOwnerOnly(u: User, body: WebsiteBody, db: Websites, newId: ObjectId, now: int, v: User)
    requires CreateWebsite(Some(u), body, db, newId, now).status == StatusCreated
    ensures var db' := CreateWebsite(Some(u), body, db, newId, now).db;
      newId in GetWebsites(Some(u), db').items
      && (IsAdmin(v) || v.id == u.id <==> newId in GetWebsites(Some(v), db').items)
  {
  }
}
