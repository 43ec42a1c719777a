/** The inquiry handlers: create, list, update (with the owner back-fill),
    delete, and the software-name suggestions. */
module InquiryController {
  import opened Wrappers
  import opened JsText
  import opened Common
  import opened InquiryModel

  /** The fields a request body may carry; `None` is a missing or null field. */
  datatype InquiryBody = InquiryBody(
    inquirerName: Option<string>,
    contactPerson: Option<string>,
    contactPersonEmail: Option<string>,
    phoneNumber: Option<string>,
    address: Option<string>,
    date: Option<DateValue>,
    software: Option<string>,
    status: Option<string>,
    activities: Option<seq<string>>,
    comments: Option<string>)

  /** The collection, by `_id`. */
  type Inquiries = map<ObjectId, Inquiry>

  datatype Reply = Reply(status: int, db: Inquiries)

  datatype ListReply = ListReply(status: int, items: Inquiries)

  datatype SuggestReply = SuggestReply(status: int, names: set<string>)

  predicate TextGiven(v: Option<string>) {
    v.Some? && v.value != ""
  }

  /** The create guard: the nine fields are truthy. An array is truthy even
      when empty, so `activities: []` passes; `comments` is optional. */
  predicate Complete(b: InquiryBody) {
    && TextGiven(b.inquirerName) && TextGiven(b.contactPerson) && TextGiven(b.contactPersonEmail)
    && TextGiven(b.phoneNumber) && TextGiven(b.address) && TextGiven(b.date)
    && TextGiven(b.software) && TextGiven(b.status) && b.activities.Some?
  }

  /** The document `createInquiry` asks the model to create. */
  function CreateFields(u: User, b: InquiryBody): InquiryFields
    requires Complete(b)
  {
    InquiryFields(Some(u.id), b.inquirerName.value, b.contactPerson.value, b.contactPersonEmail.value,
                  b.phoneNumber.value, b.address.value, b.date, b.software.value, b.status,
                  b.activities.value, b.comments)
  }

  /** `createInquiry`: 401 without a user, 400 unless the guard passes, 500
      when validation or the id fails, else 201 with a record owned by the
      requester. */
  function CreateInquiry(user: Option<User>, body: InquiryBody, db: Inquiries, newId: ObjectId, today: DateValue): (out: Reply)
    ensures user.None? ==> out == Reply(StatusUnauthorized, db)
    ensures user.Some? && !Complete(body) ==> out == Reply(StatusBadRequest, db)
    ensures out.status == StatusCreated <==>
      user.Some? && Complete(body) && BuildInquiry(CreateFields(user.value, body), today).Some? && newId !in db
    ensures out.status != StatusCreated ==> out.db == db
    ensures out.status == StatusCreated ==>
      newId in out.db && out.db == db[newId := out.db[newId]]
      && out.db[newId].owner == Some(user.value.id) && Valid(out.db[newId])
      && StatusText(out.db[newId].status) == body.status.value
    ensures out.status == StatusCreated ==> out.db[newId] == Cast(CreateFields(user.value, body), today)
  {
    if user.None? then Reply(StatusUnauthorized, db)
    else if !Complete(body) then Reply(StatusBadRequest, db)
    else StoreCreated(user.value, body, db, newId, today)
  }

  /** The part of `createInquiry` after the guard: `Inquiry.create` either
      fails (500, nothing stored) or stores the cast record under a fresh id. */
  function StoreCreated(u: User, body: InquiryBody, db: Inquiries, newId: ObjectId, today: DateValue): (out: Reply)
    requires Complete(body)
    ensures out.status == StatusCreated <==> BuildInquiry(CreateFields(u, body), today).Some? && newId !in db
    ensures out.status != StatusCreated ==> out == Reply(StatusServerError, db)
    ensures out.status == StatusCreated ==>
      newId in out.db && out.db == db[newId := out.db[newId]]
      && out.db[newId].owner == Some(u.id) && Valid(out.db[newId])
      && StatusText(out.db[newId].status) == body.status.value
    ensures out.status == StatusCreated ==> out.db[newId] == Cast(CreateFields(u, body), today)
  {
    match BuildInquiry(CreateFields(u, body), today)
    case None => Reply(StatusServerError, db)
    case Some(q) =>
      if newId in db then Reply(StatusServerError, db)
      else
        CreatedRecord(u, body, today);
        Reply(StatusCreated, db[newId := q])
  }

  /** The record a successful create stores. */
  lemma {:induction false} CreatedRecord(u: User, b: InquiryBody, today: DateValue)
    ensures Complete(b) && BuildInquiry(CreateFields(u, b), today).Some? ==>
      var q := BuildInquiry(CreateFields(u, b), today).value;
      q == Cast(CreateFields(u, b), today)
      && q.owner == Some(u.id) && Valid(q) && StatusText(q.status) == b.status.value
  {
    if Complete(b) && BuildInquiry(CreateFields(u, b), today).Some? {
      var f := CreateFields(u, b);
      assert f.status == b.status && f.owner == Some(u.id);
      assert Accepts(f);
    }
  }

  /** What a successful create stores, field by field from the body: the
      setters' trimming and lower-casing, the requester as owner, and the
      given date, activities and comment. */
  lemma {:induction false} CreatedFromBody(u: User, body: InquiryBody, db: Inquiries, newId: ObjectId, today: DateValue)
    ensures var out := CreateInquiry(Some(u), body, db, newId, today);
      out.status == StatusCreated ==>
        var q := out.db[newId];
        && q.owner == Some(u.id)
        && q.inquirerName == Trim(body.inquirerName.value)
        && q.contactPerson == Trim(body.contactPerson.value)
        && q.contactPersonEmail == Lower(Trim(body.contactPersonEmail.value))
        && q.phoneNumber == Trim(body.phoneNumber.value)
        && q.address == Trim(body.address.value)
        && q.date == body.date.value
        && q.software == Trim(body.software.value)
        && StatusText(q.status) == body.status.value
        && q.activities == TrimAll(body.activities.value)
        && q.comments == TrimOptional(body.comments)
  {
    var out := CreateInquiry(Some(u), body, db, newId, today);
    if out.status == StatusCreated {
      var f := CreateFields(u, body);
      assert out.db[newId] == Cast(f, today);
      assert f.date == body.date && f.comments == body.comments;
    }
  }

  /** The query `getInquiries` builds: the status must match when the
      `status` query parameter is truthy; the owner must be the requester
      unless the requester is an admin. */
  predicate Matches(u: User, statusQuery: Option<string>, q: Inquiry) {
    && (TextGiven(statusQuery) ==> StatusText(q.status) == statusQuery.value)
    && (!IsAdmin(u) ==> q.owner == Some(u.id))
  }

  function GetInquiries(user: Option<User>, statusQuery: Option<string>, db: Inquiries): (out: ListReply)
    ensures user.None? ==> out.status == StatusUnauthorized && out.items == map[]
    ensures user.Some? ==> out.status == StatusOk
    ensures user.Some? ==> forall id :: id in out.items ==> id in db && out.items[id] == db[id]
    ensures user.Some? ==> forall id :: id in db ==>
      (id in out.items <==>
         (!TextGiven(statusQuery) || StatusText(db[id].status) == statusQuery.value)
         && (IsAdmin(user.value) || db[id].owner == Some(user.value.id)))
  {
    if user.None? then ListReply(StatusUnauthorized, map[])
    else ListReply(StatusOk, map id | id in db && Matches(user.value, statusQuery, db[id]) :: db[id])
  }

  datatype Access = Granted(id: ObjectId) | Denied(status: int)

  /** The checks of update and delete, in the order the handlers make them:
      not authenticated; an id that is not an ObjectId (the query throws);
      no such record; then, for a non-admin, an ownerless record makes
      `inquiry.user.toString()` throw (500) and another owner's record is
      forbidden. */
  function CheckAccess(user: Option<User>, idText: string, db: Inquiries): (a: Access)
    ensures a.Granted? ==> user.Some? && CastObjectId(idText) == Some(a.id) && a.id in db
    ensures a.Granted? ==> IsAdmin(user.value) || db[a.id].owner == Some(user.value.id)
    ensures a == Denied(StatusUnauthorized) <==> user.None?
    ensures a == Denied(StatusNotFound) <==>
      user.Some? && CastObjectId(idText).Some? && CastObjectId(idText).value !in db
    ensures a == Denied(StatusForbidden) <==>
      user.Some? && CastObjectId(idText).Some? && CastObjectId(idText).value in db
      && !IsAdmin(user.value) && db[CastObjectId(idText).value].owner.Some?
      && db[CastObjectId(idText).value].owner != Some(user.value.id)
    ensures a == Denied(StatusServerError) <==>
      user.Some? && (CastObjectId(idText).None?
        || (CastObjectId(idText).value in db && !IsAdmin(user.value)
            && db[CastObjectId(idText).value].owner.None?))
  {
    if user.None? then Denied(StatusUnauthorized)
    else
      var id := CastObjectId(idText);
      if id.None? then Denied(StatusServerError)
      else if id.value !in db then Denied(StatusNotFound)
      else if IsAdmin(user.value) then Granted(id.value)
      else if db[id.value].owner.None? then Denied(StatusServerError)
      else if db[id.value].owner != Some(user.value.id) then Denied(StatusForbidden)
      else Granted(id.value)
  }

  /** The `??` merge: a body field replaces the stored one unless it is
      null or absent, so "" and [] do replace. A stored document without an
      owner gets the requester as owner. */
  function MergeInquiry(q: Inquiry, b: InquiryBody, requester: ObjectId): (f: InquiryFields)
    ensures f.inquirerName == b.inquirerName.GetOr(q.inquirerName)
    ensures f.contactPerson == b.contactPerson.GetOr(q.contactPerson)
    ensures f.contactPersonEmail == b.contactPersonEmail.GetOr(q.contactPersonEmail)
    ensures f.phoneNumber == b.phoneNumber.GetOr(q.phoneNumber)
    ensures f.address == b.address.GetOr(q.address)
    ensures f.software == b.software.GetOr(q.software)
    ensures f.comments == if b.comments.Some? then b.comments else q.comments
    ensures f.activities == b.activities.GetOr(q.activities)
    ensures f.status == Some(b.status.GetOr(StatusText(q.status)))
    ensures f.owner == if q.owner.None? then Some(requester) else q.owner
    ensures f.date == Some(b.date.GetOr(q.date))
  {
    InquiryFields(
      if q.owner.None? then Some(requester) else q.owner,
      b.inquirerName.GetOr(q.inquirerName),
      b.contactPerson.GetOr(q.contactPerson),
      b.contactPersonEmail.GetOr(q.contactPersonEmail),
      b.phoneNumber.GetOr(q.phoneNumber),
      b.address.GetOr(q.address),
      Some(b.date.GetOr(q.date)),
      b.software.GetOr(q.software),
      Some(b.status.GetOr(StatusText(q.status))),
      b.activities.GetOr(q.activities),
      if b.comments.Some? then b.comments else q.comments)
  }

  /** `updateInquiry`: refused requests and failed validation leave the
      collection as it was; otherwise only the addressed record changes. */
  function UpdateInquiry(user: Option<User>, idText: string, body: InquiryBody, db: Inquiries, today: DateValue): (out: Reply)
    ensures CheckAccess(user, idText, db).Denied? ==>
      out == Reply(CheckAccess(user, idText, db).status, db)
    ensures CheckAccess(user, idText, db).Granted? ==>
      var id := CheckAccess(user, idText, db).id;
      var built := BuildInquiry(MergeInquiry(db[id], body, user.value.id), today);
      (built.None? ==> out == Reply(StatusServerError, db))
      && (built.Some? ==> (out.status == StatusOk && out.db == db[id := built.value] && Valid(out.db[id])))
  {
    match CheckAccess(user, idText, db)
    case Denied(status) => Reply(status, db)
    case Granted(id) =>
      match BuildInquiry(MergeInquiry(db[id], body, user.value.id), today)
      case None => Reply(StatusServerError, db)
      case Some(q) => Reply(StatusOk, db[id := q])
  }

  /** `deleteInquiry`: removes exactly the addressed record when granted. */
  function DeleteInquiry(user: Option<User>, idText: string, db: Inquiries): (out: Reply)
    ensures CheckAccess(user, idText, db).Denied? ==>
      out == Reply(CheckAccess(user, idText, db).status, db)
    ensures CheckAccess(user, idText, db).Granted? ==>
      var id := CheckAccess(user, idText, db).id;
      out.status == StatusOk && out.db.Keys == db.Keys - {id}
      && (forall k :: k in out.db ==> out.db[k] == db[k])
  {
    match CheckAccess(user, idText, db)
    case Denied(status) => Reply(status, db)
    case Granted(id) => Reply(StatusOk, db - {id})
  }

  /** `getSoftwareSuggestions`: the distinct software names across every
      inquiry, whoever owns it. */
  function GetSoftwareSuggestions(user: Option<User>, db: Inquiries): (out: SuggestReply)
    ensures user.None? ==> out.status == StatusUnauthorized && out.names == {}
    ensures user.Some? ==> out.status == StatusOk
    ensures user.Some? ==> forall name :: name in out.names <==> exists id :: id in db && db[id].software == name
  {
    if user.None? then SuggestReply(StatusUnauthorized, {})
    else SuggestReply(StatusOk, set id | id in db :: db[id].software)
  }

  /** The suggestions ignore ownership: every software name any user can
      list, even one another user cannot see, is suggested to everyone. */
  lemma {:induction false} SuggestionsCoverEveryListing(u: User, v: User, statusQuery: Option<string>, db: Inquiries)
    ensures forall id :: id in GetInquiries(Some(u), statusQuery, db).items ==>
      db[id].software in GetSoftwareSuggestions(Some(v), db).names
  {
  }

  /** A missing record is 404 for every requester, admin or not. */
  lemma {:induction false} MissingIsNotFound(u: User, id: ObjectId, body: InquiryBody, db: Inquiries, today: DateValue)
    requires IsObjectId(id) && id !in db
    ensures UpdateInquiry(Some(u), id, body, db, today) == Reply(StatusNotFound, db)
    ensures DeleteInquiry(Some(u), id, db) == Reply(StatusNotFound, db)
  {
    CastCanonical(id);
  }

  /** Only an admin reaches the owner back-fill: a successful update of an
      ownerless record was made by an admin, who becomes its owner. */
  lemma {:induction false} BackFillOnlyByAdmin(u: User, idText: string, body: InquiryBody, db: Inquiries, today: DateValue)
    requires CastObjectId(idText).Some? && CastObjectId(idText).value in db
    requires db[CastObjectId(idText).value].owner.None?
    ensures var out := UpdateInquiry(Some(u), idText, body, db, today);
      out.status == StatusOk ==>
        IsAdmin(u) && out.db[CastObjectId(idText).value].owner == Some(u.id)
    ensures !IsAdmin(u) ==> UpdateInquiry(Some(u), idText, body, db, today) == Reply(StatusServerError, db)
  {
  }

  /** Merging an empty text over a required field empties it, which the
      validator then refuses: the update fails with 500 and nothing is saved. */
  lemma {:induction false} EmptyRequiredTextFails(u: User, idText: string, body: InquiryBody, db: Inquiries, today: DateValue)
    requires CheckAccess(Some(u), idText, db).Granted?
    requires body.inquirerName == Some("")
    ensures UpdateInquiry(Some(u), idText, body, db, today) == Reply(StatusServerError, db)
  {
  }

  /** An empty `comments` or `activities` does replace the stored value. */
  lemma {:induction false} EmptyOptionalOverwrites(q: Inquiry, b: InquiryBody, requester: ObjectId)
    requires b.comments == Some("") && b.activities == Some([])
    ensures MergeInquiry(q, b, requester).comments == Some("")
    ensures MergeInquiry(q, b, requester).activities == []
  {
  }

  lemma {:induction false} TextStable(given: Option<string>, stored: string)
    ensures Trim(given.GetOr(Trim(given.GetOr(stored)))) == Trim(given.GetOr(stored))
  {
    TrimIdempotent(given.GetOr(stored));
    if given.Some? { TrimIdempotent(given.value); }
  }

  lemma {:induction false} EmailStable(given: Option<string>, stored: string)
    ensures Lower(Trim(given.GetOr(Lower(Trim(given.GetOr(stored)))))) == Lower(Trim(given.GetOr(stored)))
  {
    LowerTrimIdempotent(given.GetOr(stored));
    if given.Some? { LowerTrimIdempotent(given.value); }
  }

  lemma {:induction false} ListStable(given: Option<seq<string>>, stored: seq<string>)
    ensures TrimAll(given.GetOr(TrimAll(given.GetOr(stored)))) == TrimAll(given.GetOr(stored))
  {
    var xs := given.GetOr(stored);
    TrimAllOfTrimmed(TrimAll(xs));
    if given.Some? {
      TrimAllOfTrimmed(TrimAll(given.value));
    }
  }

  lemma {:induction false} CommentStable(given: Option<string>, stored: Option<string>)
    ensures var c := if given.Some? then given else stored;
      TrimOptional(if given.Some? then given else TrimOptional(c)) == TrimOptional(c)
  {
    var c := if given.Some? then given else stored;
    if c.Some? { TrimIdempotent(c.value); }
  }

  /** The trimmed texts survive a second merge of the same body. */
  lemma {:induction false} RemergeTexts(q: Inquiry, b: InquiryBody, requester: ObjectId, today: DateValue)
    ensures var r := Cast(MergeInquiry(q, b, requester), today);
      var c := Cast(MergeInquiry(r, b, requester), today);
      && c.inquirerName == r.inquirerName && c.contactPerson == r.contactPerson
      && c.phoneNumber == r.phoneNumber && c.address == r.address && c.software == r.software
  {
    TextStable(b.inquirerName, q.inquirerName);
    TextStable(b.contactPerson, q.contactPerson);
    TextStable(b.phoneNumber, q.phoneNumber);
    TextStable(b.address, q.address);
    TextStable(b.software, q.software);
  }

  /** So do the e-mail, the lists, the status, the owner and the date. */
  lemma {:induction false} RemergeOthers(q: Inquiry, b: InquiryBody, requester: ObjectId, today: DateValue)
    requires b.status.Some? ==> ParseStatus(b.status.value).Some?
    ensures var r := Cast(MergeInquiry(q, b, requester), today);
      var c := Cast(MergeInquiry(r, b, requester), today);
      && c.contactPersonEmail == r.contactPersonEmail
      && c.activities == r.activities && c.comments == r.comments
      && c.status == r.status && c.owner == r.owner && c.date == r.date
  {
    RemergeLists(q, b, requester, today);
    RemergeStatus(q, b, requester, today);
    RemergeOwnerDate(q, b, requester, today);
  }

  lemma {:induction false} RemergeStatus(q: Inquiry, b: InquiryBody, requester: ObjectId, today: DateValue)
    requires b.status.Some? ==> ParseStatus(b.status.value).Some?
    ensures var r := Cast(MergeInquiry(q, b, requester), today);
      Cast(MergeInquiry(r, b, requester), today).status == r.status
  {
    var r := Cast(MergeInquiry(q, b, requester), today);
    StatusRoundTrip(q.status);
    StatusRoundTrip(r.status);
    if b.status.Some? {
      assert StatusText(r.status) == b.status.value;
    } else {
      assert r.status == q.status;
    }
  }

  lemma {:induction false} RemergeOwnerDate(q: Inquiry, b: InquiryBody, requester: ObjectId, today: DateValue)
    ensures var r := Cast(MergeInquiry(q, b, requester), today);
      var c := Cast(MergeInquiry(r, b, requester), today);
      c.owner == r.owner && c.date == r.date
  {
    var m := MergeInquiry(q, b, requester);
    var r := Cast(m, today);
    var m2 := MergeInquiry(r, b, requester);
    assert r.owner == m.owner && m.owner.Some?;
    assert m2.owner == r.owner;
    assert r.date == b.date.GetOr(q.date);
    assert m2.date == Some(b.date.GetOr(r.date));
  }

  lemma {:induction false} RemergeLists(q: Inquiry, b: InquiryBody, requester: ObjectId, today: DateValue)
    ensures var r := Cast(MergeInquiry(q, b, requester), today);
      var c := Cast(MergeInquiry(r, b, requester), today);
      && c.contactPersonEmail == r.contactPersonEmail
      && c.activities == r.activities && c.comments == r.comments
  {
    EmailStable(b.contactPersonEmail, q.contactPersonEmail);
    ListStable(b.activities, q.activities);
    CommentStable(b.comments, q.comments);
  }

  /** The setters applied to the re-merged fields give the record back,
      unless the body carries a status the enum refuses. */
  lemma {:induction false} RemergeCast(q: Inquiry, b: InquiryBody, requester: ObjectId, today: DateValue)
    requires b.status.Some? ==> ParseStatus(b.status.value).Some?
    ensures var r := Cast(MergeInquiry(q, b, requester), today);
      Cast(MergeInquiry(r, b, requester), today) == r
  {
    RemergeTexts(q, b, requester, today);
    RemergeOthers(q, b, requester, today);
  }

  /** Re-merging a body into the record it produced, then normalising, gives
      that record back. */
  lemma {:induction false} RemergeIsStable(q: Inquiry, b: InquiryBody, requester: ObjectId, today: DateValue)
    ensures BuildInquiry(MergeInquiry(q, b, requester), today).Some? ==>
      var r := BuildInquiry(MergeInquiry(q, b, requester), today).value;
      BuildInquiry(MergeInquiry(r, b, requester), today) == Some(r)
  {
    if BuildInquiry(MergeInquiry(q, b, requester), today).Some? {
      var r := BuildInquiry(MergeInquiry(q, b, requester), today).value;
      var f := MergeInquiry(r, b, requester);
      assert Accepts(MergeInquiry(q, b, requester));
      RemergeCast(q, b, requester, today);
      StatusRoundTrip(r.status);
      assert Accepts(f);
    }
  }

  /** Writing back a record that keeps its owner (or gains the requester as
      owner) keeps the requester's access to it. */
  lemma {:induction false} AccessStable(u: User, idText: string, db: Inquiries, id: ObjectId, r: Inquiry)
    requires CheckAccess(Some(u), idText, db) == Granted(id)
    requires r.owner == if db[id].owner.None? then Some(u.id) else db[id].owner
    ensures CheckAccess(Some(u), idText, db[id := r]) == Granted(id)
  {
  }

  lemma {:induction false} RewriteSame(db: Inquiries, id: ObjectId, r: Inquiry)
    requires id in db && db[id] == r
    ensures db[id := r] == db
  {
  }

  /** Sending the same update twice leaves the collection as sending it
      once did. */
  lemma {:induction false} UpdateIdempotent(u: User, idText: string, body: InquiryBody, db: Inquiries, today: DateValue)
    ensures var once := UpdateInquiry(Some(u), idText, body, db, today);
      UpdateInquiry(Some(u), idText, body, once.db, today) == once
  {
    var once := UpdateInquiry(Some(u), idText, body, db, today);
    match CheckAccess(Some(u), idText, db)
    case Denied(_) =>
      assert once.db == db;
    case Granted(id) =>
      match BuildInquiry(MergeInquiry(db[id], body, u.id), today)
      case None =>
        assert once.db == db;
      case Some(r) =>
        var db' := db[id := r];
        assert once == Reply(StatusOk, db');
        AccessStable(u, idText, db, id, r);
        RemergeIsStable(db[id], body, u.id, today);
        assert BuildInquiry(MergeInquiry(db'[id], body, u.id), today) == Some(r);
        RewriteSame(db', id, r);
  }
}
