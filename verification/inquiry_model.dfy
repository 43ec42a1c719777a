/** The `Inquiry` collection: a sales lead with its contact details, a
    status from a fixed enumeration and free-text activities. */
module InquiryModel {
  import opened Wrappers
  import opened JsText
  import opened Common

  datatype Status = InTalks | Confirmed | Canceled

  function StatusText(s: Status): string {
    match s
    case InTalks => "in-talks"
    case Confirmed => "confirmed"
    case Canceled => "canceled"
  }

  /** The enum validator: exactly the three spellings are accepted. */
  function ParseStatus(t: string): (r: Option<Status>)
    ensures r.Some? <==> t == "in-talks" || t == "confirmed" || t == "canceled"
    ensures r.Some? ==> StatusText(r.value) == t
  {
    if t == "in-talks" then Some(InTalks)
    else if t == "confirmed" then Some(Confirmed)
    else if t == "canceled" then Some(Canceled)
    else None
  }

  lemma {:induction false} StatusRoundTrip(s: Status)
    ensures ParseStatus(StatusText(s)) == Some(s)
  {
  }

  /** The schema default for `status`. */
  const DefaultStatus := InTalks

  /** A stored inquiry. `owner` is `None` only on legacy documents written
      without one; `date` "" stands for a null date; `comments` `None` for
      an absent or null comment. */
  datatype Inquiry = Inquiry(
    owner: Option<ObjectId>,
    inquirerName: string,
    contactPerson: string,
    contactPersonEmail: string,
    phoneNumber: string,
    address: string,
    date: DateValue,
    software: string,
    status: Status,
    activities: seq<string>,
    comments: Option<string>)

  /** The values a document is assigned before the schema's setters,
      defaults and validators run: text as sent, status as text. */
  datatype InquiryFields = InquiryFields(
    owner: Option<ObjectId>,
    inquirerName: string,
    contactPerson: string,
    contactPersonEmail: string,
    phoneNumber: string,
    address: string,
    date: Option<DateValue>,
    software: string,
    status: Option<string>,
    activities: seq<string>,
    comments: Option<string>)

  /** The `lowercase` and `trim` setters of the e-mail field. */
  function NormalizeEmail(s: string): (r: string)
    ensures Trimmed(r) && Lower(r) == r
    ensures WhitespaceFramed(r, Lower(s))
  {
    LowerTrimIdempotent(s);
    TrimIsFramed(s);
    LowerFramed(Trim(s), s);
    Lower(Trim(s))
  }

  /** The `trim` setter of each `activities` element. */
  function TrimAll(xs: seq<string>): (r: seq<string>)
    ensures |r| == |xs| && forall i :: 0 <= i < |r| ==> r[i] == Trim(xs[i])
  {
    seq(|xs|, i requires 0 <= i < |xs| => Trim(xs[i]))
  }

  function TrimOptional(o: Option<string>): Option<string> {
    match o
    case None => None
    case Some(s) => Some(Trim(s))
  }

  /** The form every stored text takes after the setters. */
  predicate Normalized(q: Inquiry) {
    && Trimmed(q.inquirerName) && Trimmed(q.contactPerson) && Trimmed(q.phoneNumber)
    && Trimmed(q.address) && Trimmed(q.software)
    && Trimmed(q.contactPersonEmail) && Lower(q.contactPersonEmail) == q.contactPersonEmail
    && (forall i :: 0 <= i < |q.activities| ==> Trimmed(q.activities[i]))
    && (q.comments.Some? ==> Trimmed(q.comments.value))
  }

  /** The schema's requirements: an owner, and the five required texts plus
      the e-mail non-empty once trimmed. */
  predicate Valid(q: Inquiry) {
    && q.owner.Some? && IsObjectId(q.owner.value)
    && q.inquirerName != "" && q.contactPerson != "" && q.contactPersonEmail != ""
    && q.phoneNumber != "" && q.address != "" && q.software != ""
    && Normalized(q)
  }

  /** The document the setters and defaults make of `f`: texts trimmed,
      the e-mail also lower-cased, a missing date set to `today` and a
      missing status set to the default. A status outside the enumeration is
      refused by `Accepts`; `Cast` then keeps the default in its place. */
  function Cast(f: InquiryFields, today: DateValue): (q: Inquiry)
    ensures Normalized(q)
    ensures q.owner == f.owner && q.date == f.date.GetOr(today)
    ensures q.inquirerName == Trim(f.inquirerName) && q.contactPerson == Trim(f.contactPerson)
    ensures q.phoneNumber == Trim(f.phoneNumber) && q.address == Trim(f.address)
    ensures q.software == Trim(f.software)
    ensures q.contactPersonEmail == Lower(Trim(f.contactPersonEmail))
    ensures q.activities == TrimAll(f.activities) && q.comments == TrimOptional(f.comments)
    ensures f.status.None? ==> q.status == DefaultStatus
    ensures f.status.Some? && ParseStatus(f.status.value).Some? ==> StatusText(q.status) == f.status.value
  {
    var status := if f.status.None? then DefaultStatus else ParseStatus(f.status.value).GetOr(DefaultStatus);
    Inquiry(f.owner, Trim(f.inquirerName), Trim(f.contactPerson), NormalizeEmail(f.contactPersonEmail),
            Trim(f.phoneNumber), Trim(f.address), f.date.GetOr(today), Trim(f.software),
            status, TrimAll(f.activities), TrimOptional(f.comments))
  }

  /** The validators: an owner, a status in the enumeration (or none, so
      the default applies), and every required text non-empty once trimmed. */
  predicate Accepts(f: InquiryFields) {
    && f.owner.Some? && IsObjectId(f.owner.value)
    && Trim(f.inquirerName) != "" && Trim(f.contactPerson) != "" && Trim(f.contactPersonEmail) != ""
    && Trim(f.phoneNumber) != "" && Trim(f.address) != "" && Trim(f.software) != ""
    && (f.status.None? || ParseStatus(f.status.value).Some?)
  }

  /** Casting and validating a document; `None` is a ValidationError. What
      is stored is valid, and it is stored exactly when the validators pass. */
  function BuildInquiry(f: InquiryFields, today: DateValue): (r: Option<Inquiry>)
    ensures r.Some? <==> Accepts(f)
    ensures r.Some? ==> r.value == Cast(f, today) && Valid(r.value)
  {
    if Accepts(f) then
      var q := Cast(f, today);
      assert q.contactPersonEmail == "" ==> Trim(f.contactPersonEmail) == "";
      Some(q)
    else None
  }

  /** The status default applies only when no status is given. */
  lemma {:induction false} StatusDefault(f: InquiryFields, today: DateValue)
    ensures Accepts(f) && f.status.None? ==> BuildInquiry(f, today).value.status == InTalks
    ensures Accepts(f) && f.status.Some? ==> StatusText(BuildInquiry(f, today).value.status) == f.status.value
  {
  }

  /** The fields of a stored document, as they are assigned back to it. */
  function FieldsOf(q: Inquiry): InquiryFields {
    InquiryFields(q.owner, q.inquirerName, q.contactPerson, q.contactPersonEmail, q.phoneNumber,
                  q.address, Some(q.date), q.software, Some(StatusText(q.status)), q.activities, q.comments)
  }

  lemma {:induction false} TrimAllOfTrimmed(xs: seq<string>)
    requires forall i :: 0 <= i < |xs| ==> Trimmed(xs[i])
    ensures TrimAll(xs) == xs
  {
    forall i | 0 <= i < |xs| ensures Trim(xs[i]) == xs[i] {
      TrimOfTrimmed(xs[i]);
    }
  }

  /** Re-assigning a valid document's own values leaves it as it is: the
      setters are idempotent on normalised text. */
  lemma {:induction false} RebuildValid(q: Inquiry, today: DateValue)
    requires Valid(q)
    ensures BuildInquiry(FieldsOf(q), today) == Some(q)
  {
    TrimOfTrimmed(q.inquirerName);
    TrimOfTrimmed(q.contactPerson);
    TrimOfTrimmed(q.contactPersonEmail);
    TrimOfTrimmed(q.phoneNumber);
    TrimOfTrimmed(q.address);
    TrimOfTrimmed(q.software);
    TrimAllOfTrimmed(q.activities);
    if q.comments.Some? {
      TrimOfTrimmed(q.comments.value);
    }
    StatusRoundTrip(q.status);
  }

  /** A required text made only of spaces passes a truthiness check but
      fails validation once trimmed. */
  lemma {:induction false} BlankNameIsRefused(f: InquiryFields, today: DateValue)
    requires f.inquirerName == "   "
    ensures BuildInquiry(f, today).None?
  {
    TrimEmptyIff(f.inquirerName);
  }
}
