/** The AddData page: the form state and how each input changes it, the
    fetches that follow a change of state or district, and what a submit
    sends and leaves behind. */
module AddData {
  import opened Wrappers
  import opened JsNumber
  import opened Common
  import ListStore
  import WebsiteController
  import WebsiteModel

  /** The form, as the text each control holds. */
  datatype Form = Form(software: string, startDate: string, endDate: string,
                       state: string, district: string, palika: string)

  /** The `name` attribute of the input that changed. */
  datatype Field = Software | StartDate | EndDate | StateField | DistrictField | Palika

  const EmptyForm := Form("", "", "", "", "", "")

  function Get(f: Form, name: Field): string {
    match name
    case Software => f.software
    case StartDate => f.startDate
    case EndDate => f.endDate
    case StateField => f.state
    case DistrictField => f.district
    case Palika => f.palika
  }

  function Set(f: Form, name: Field, v: string): (r: Form)
    ensures Get(r, name) == v
    ensures forall n :: n != name ==> Get(r, n) == Get(f, n)
  {
    match name
    case Software => f.(software := v)
    case StartDate => f.(startDate := v)
    case EndDate => f.(endDate := v)
    case StateField => f.(state := v)
    case DistrictField => f.(district := v)
    case Palika => f.(palika := v)
  }

  /** `handleChange`: the named field takes the new value; a new state also
      empties the district, through a second update applied after the
      first. The palika is left as it was. */
  function HandleChange(f: Form, name: Field, v: string): (r: Form)
    ensures name != StateField ==> Get(r, name) == v
    ensures name == StateField ==> r.state == v && r.district == ""
    ensures forall n :: n != name && !(name == StateField && n == DistrictField) ==> Get(r, n) == Get(f, n)
  {
    var r := Set(f, name, v);
    if name == StateField then Set(r, DistrictField, "") else r
  }

  /** A data request issued by one of the page's effects. */
  datatype Request = FetchStates | FetchDistricts(stateId: string) | FetchPalikas(districtId: string)

  /** The effects that run when the form goes from `before` to `after`: an
      effect runs when its dependency changed, and fetches only when the
      new value is not empty. */
  function Effects(before: Form, after: Form): (r: seq<Request>)
    ensures FetchStates !in r
    ensures forall q :: q in r && q.FetchDistricts? ==> q.stateId == after.state && after.state != "" && after.state != before.state
    ensures forall q :: q in r && q.FetchPalikas? ==> q.districtId == after.district && after.district != "" && after.district != before.district
    ensures after.state != before.state && after.state != "" ==> FetchDistricts(after.state) in r
    ensures after.district != before.district && after.district != "" ==> FetchPalikas(after.district) in r
  {
    (if after.state != before.state && after.state != "" then [FetchDistricts(after.state)] else [])
    + (if after.district != before.district && after.district != "" then [FetchPalikas(after.district)] else [])
  }

  /** The effects of the first render: the states are loaded, and the
      empty state and district fetch nothing. */
  function MountEffects(f: Form): (r: seq<Request>)
    ensures FetchStates in r
    ensures f == EmptyForm ==> r == [FetchStates]
  {
    [FetchStates]
    + (if f.state != "" then [FetchDistricts(f.state)] else [])
    + (if f.district != "" then [FetchPalikas(f.district)] else [])
  }

  /** Choosing a new state loads that state's districts and never loads
      palikas: the district it would need has just been emptied. */
  lemma {:induction false} StateChangeFetchesDistrictsOnly(f: Form, v: string)
    requires v != "" && v != f.state
    ensures Effects(f, HandleChange(f, StateField, v)) == [FetchDistricts(v)]
  {
  }

  /** The body `handleSubmit` posts: the form with the state and district
      run through `Number`; the palika travels along and the server
      ignores it. */
  datatype Payload = Payload(software: string, startDate: string, endDate: string,
                             state: Num, district: Num, palika: string)

  function SubmitPayload(f: Form): (r: Payload)
    ensures r.software == f.software && r.startDate == f.startDate && r.endDate == f.endDate && r.palika == f.palika
    ensures r.state == ToNumber(f.state) && r.district == ToNumber(f.district)
  {
    Payload(f.software, f.startDate, f.endDate, ToNumber(f.state), ToNumber(f.district), f.palika)
  }

  /** The payload as the create handler reads it: the five fields it
      destructures, all present. */
  function AsBody(p: Payload): (b: WebsiteController.WebsiteBody)
    ensures b.software == Some(p.software) && b.state == Some(p.state) && b.district == Some(p.district)
    ensures b.startDate == Some(p.startDate) && b.endDate == Some(p.endDate)
  {
    WebsiteController.WebsiteBody(Some(p.software), Some(p.startDate), Some(p.endDate), Some(p.state), Some(p.district))
  }

  /** What a submit leaves behind: the form, the path navigated to (`None`
      when the page stays), and the website list. */
  datatype Submitted<T> = Submitted(form: Form, location: Option<string>, list: ListStore.ListState<T>)

  /** `handleSubmit` as written, once the store's `createWebsite` has
      returned. The store reports a failure in a toast and returns
      normally, so the page's own `catch` never runs: the form is reset and
      the page goes home whatever the server said. */
  function HandleSubmitAsWritten<T>(f: Form, list: ListStore.ListState<T>, resp: ListStore.Response<ListStore.Doc<T>>): (r: Submitted<T>)
    ensures r.form == EmptyForm && r.location == Some("/")
    ensures resp.Failure? ==> r.list == list
    ensures resp.Success? ==> r.list.items == [resp.value] + list.items
  {
    Submitted(EmptyForm, Some("/"), ListStore.Create(list, resp))
  }

  /** `handleSubmit` as its `catch` clause means it: a failed creation keeps
      the user on the page with what they typed; a successful one resets
      the form and goes home. */
  function HandleSubmit<T>(f: Form, list: ListStore.ListState<T>, resp: ListStore.Response<ListStore.Doc<T>>): (r: Submitted<T>)
    ensures resp.Failure? ==> r == Submitted(f, None, list)
    ensures resp.Success? ==> r.form == EmptyForm && r.location == Some("/")
    ensures resp.Success? ==> r.list.items == [resp.value] + list.items
  {
    if resp.Failure? then Submitted(f, None, list)
    else Submitted(EmptyForm, Some("/"), ListStore.Create(list, resp))
  }

  /** The two agree on success; on a failed creation the page as written
      throws the typed form away and leaves, while nothing was stored. */
  lemma {:induction false} FailedSubmitLosesForm<T>(f: Form, list: ListStore.ListState<T>, resp: ListStore.Response<ListStore.Doc<T>>)
    ensures resp.Success? ==> HandleSubmitAsWritten(f, list, resp) == HandleSubmit(f, list, resp)
    ensures resp.Failure? && f != EmptyForm ==>
      && HandleSubmitAsWritten(f, list, resp).form != f
      && HandleSubmitAsWritten(f, list, resp).list == list
      && HandleSubmit(f, list, resp).form == f
  {
  }

  /** A body built from a form whose state is still empty sends state 0,
      which the create handler refuses with 400. The page's `required`
      select keeps the browser from submitting such a form, so this is a
      body that reaches the server without that form validation (sent by
      another client, say); the handler itself does not rely on it. */
  lemma {:induction false} NoStateIsRefused(f: Form, user: User, db: WebsiteModel.Websites, newId: ObjectId, now: int)
    requires f.state == ""
    ensures WebsiteController.CreateWebsite(Some(user), AsBody(SubmitPayload(f)), db, newId, now).status == StatusBadRequest
  {
    EmptyText();
  }

  /** A complete form whose state and district are option values (ids
      rendered as text) creates a website with exactly those ids. */
  lemma {:induction false} FilledFormIsStored(f: Form, user: User, db: WebsiteModel.Websites, newId: ObjectId, now: int, state: int, district: int)
    requires f.software != "" && f.startDate != "" && f.endDate != ""
    requires f.state == IntToString(state) && f.district == IntToString(district)
    requires state != 0 && district != 0 && newId !in db
    ensures var out := WebsiteController.CreateWebsite(Some(user), AsBody(SubmitPayload(f)), db, newId, now);
      && out.status == StatusCreated
      && out.db[newId].state == state && out.db[newId].district == district
      && out.db[newId].software == f.software && out.db[newId].owner == user.id
  {
    ToNumberRoundTrip(state);
    ToNumberRoundTrip(district);
  }
}
