/** The pure logic of the Dashboard page: resolving state and district
    names, the search and dropdown filters over the loaded websites, the
    district list that depends on the chosen state, and which rows show
    the edit and delete buttons. The page is only mounted for a signed-in
    user, so the viewer is always present. */
module Dashboard {
  import opened Wrappers
  import opened JsText
  import opened JsNumber
  import opened Seqs
  import opened Common
  import opened Geo
  import DataController

  /** The `user` field of a website as the list endpoint returns it:
      populated with the owner's document for an admin, the raw id for
      anyone else, or null when the owner no longer exists. */
  datatype OwnerRef = Populated(id: ObjectId) | Raw(id: ObjectId) | Missing

  datatype Site = Site(id: ObjectId, user: OwnerRef, software: string,
                       startDate: DateValue, endDate: DateValue, state: int, district: int)

  /** What a name lookup yields: a name, or the id itself when there is
      none. */
  datatype Label = Text(text: string) | Number(n: int)

  /** The three filter inputs, as the text the controls hold. */
  datatype Filters = Filters(search: string, stateFilter: string, districtFilter: string)

  const NoFilters := Filters("", "", "")

  /** `Array.prototype.findIndex`: the first position whose element passes. */
  function FindIndex<T>(s: seq<T>, p: T -> bool): (r: Option<nat>)
    ensures r.Some? ==> r.value < |s| && p(s[r.value])
    ensures r.Some? ==> forall j :: 0 <= j < r.value ==> !p(s[j])
    ensures r.None? <==> forall i :: 0 <= i < |s| ==> !p(s[i])
  {
    if s == [] then None
    else if p(s[0]) then Some(0)
    else match FindIndex(s[1..], p)
      case None =>
        assert forall i :: 1 <= i < |s| ==> s[i] == s[1..][i - 1];
        None
      case Some(k) =>
        assert forall j :: 1 <= j < k + 1 ==> s[j] == s[1..][j - 1];
        Some(k + 1)
  }

  function StateIs(id: int): State -> bool {
    (s: State) => s.stateId == id
  }

  function DistrictIs(id: int): District -> bool {
    (d: District) => d.districtId == id
  }

  /** `getStateName`: the name of the first state with that id, or the id
      itself when there is no such state or its name is empty. */
  function StateName(states: seq<State>, id: int): (r: Label)
    ensures r.Number? ==> r.n == id
    ensures r.Text? ==> r.text != "" && exists i :: 0 <= i < |states| && states[i].stateId == id && states[i].stateName == r.text
    ensures (forall i :: 0 <= i < |states| ==> states[i].stateId != id) ==> r == Number(id)
    ensures forall i ::
      (0 <= i < |states| && states[i].stateId == id && (forall j :: 0 <= j < i ==> states[j].stateId != id)) ==>
      r == (if states[i].stateName != "" then Text(states[i].stateName) else Number(id))
  {
    match FindIndex(states, StateIs(id))
    case Some(i) => if states[i].stateName != "" then Text(states[i].stateName) else Number(id)
    case None => Number(id)
  }

  /** `getDistrictName`, likewise over all districts. */
  function DistrictName(districts: seq<District>, id: int): (r: Label)
    ensures r.Number? ==> r.n == id
    ensures r.Text? ==> r.text != "" && exists i :: 0 <= i < |districts| && districts[i].districtId == id && districts[i].districtName == r.text
    ensures (forall i :: 0 <= i < |districts| ==> districts[i].districtId != id) ==> r == Number(id)
    ensures forall i ::
      (0 <= i < |districts| && districts[i].districtId == id && (forall j :: 0 <= j < i ==> districts[j].districtId != id)) ==>
      r == (if districts[i].districtName != "" then Text(districts[i].districtName) else Number(id))
  {
    match FindIndex(districts, DistrictIs(id))
    case Some(i) => if districts[i].districtName != "" then Text(districts[i].districtName) else Number(id)
    case None => Number(id)
  }

  /** With unique StateIds the lookup finds the one state that has the id. */
  lemma {:induction false} StateNameOfListed(states: seq<State>, i: nat)
    requires i < |states| && UniqueBy(states, StateKey) && states[i].stateName != ""
    ensures StateName(states, states[i].stateId) == Text(states[i].stateName)
  {
    var k := FindIndex(states, StateIs(states[i].stateId));
    assert StateIs(states[i].stateId)(states[i]);
  }

  /** Likewise, with unique DistrictIds every listed district resolves to
      its own name. */
  lemma {:induction false} DistrictNameOfListed(districts: seq<District>, i: nat)
    requires i < |districts| && UniqueBy(districts, DistrictKey) && districts[i].districtName != ""
    ensures DistrictName(districts, districts[i].districtId) == Text(districts[i].districtName)
  {
    var k := FindIndex(districts, DistrictIs(districts[i].districtId));
    assert DistrictIs(districts[i].districtId)(districts[i]);
  }

  /** Whether both of a site's ids resolve to names. */
  predicate Resolves(site: Site, states: seq<State>, districts: seq<District>) {
    StateName(states, site.state).Text? && DistrictName(districts, site.district).Text?
  }

  /** The text a label shows: the name, or the id written in decimal. */
  function LabelText(l: Label): (r: string)
    ensures l.Text? ==> r == l.text
    ensures l.Number? ==> ParseInt(r) == Int(l.n)
  {
    ParseIntRoundTrip(if l.Number? then l.n else 0);
    if l.Text? then l.text else IntToString(l.n)
  }

  /** `matchesSearch`: the lower-cased query occurs in the lower-cased
      software, state name or district name. */
  predicate MatchesSearch(site: Site, search: string, states: seq<State>, districts: seq<District>) {
    var q := Lower(search);
    || Includes(Lower(site.software), q)
    || Includes(Lower(LabelText(StateName(states, site.state))), q)
    || Includes(Lower(LabelText(DistrictName(districts, site.district))), q)
  }

  /** `matchesState` / `matchesDistrict`: an empty filter passes everything;
      otherwise the id must equal the `parseInt` of the filter text. */
  predicate MatchesId(filter: string, id: int) {
    filter == "" || Is(ParseInt(filter), id)
  }

  predicate Passes(site: Site, f: Filters, states: seq<State>, districts: seq<District>) {
    && MatchesSearch(site, f.search, states, districts)
    && MatchesId(f.stateFilter, site.state)
    && MatchesId(f.districtFilter, site.district)
  }

  function PassesFn(f: Filters, states: seq<State>, districts: seq<District>): Site -> bool {
    site => Passes(site, f, states, districts)
  }

  /** `filteredWebsites` as the page intends it: an id without a name is
      searched as its decimal text. */
  function FilteredWebsites(sites: seq<Site>, f: Filters, states: seq<State>, districts: seq<District>): (r: seq<Site>)
    ensures |r| <= |sites|
    ensures f.stateFilter != "" ==> forall i :: 0 <= i < |r| ==> Is(ParseInt(f.stateFilter), r[i].state)
    ensures f.districtFilter != "" ==> forall i :: 0 <= i < |r| ==> Is(ParseInt(f.districtFilter), r[i].district)
  {
    var r := Filter(sites, PassesFn(f, states, districts));
    assert forall i :: 0 <= i < |r| ==> Passes(r[i], f, states, districts);
    r
  }

  /** `filteredWebsites` as written: a lookup without a name yields the id,
      a number, and calling `toLowerCase` on it throws, so the page fails
      to render (`None`) as soon as one site's state or district is not in
      the loaded lists. Otherwise it agrees with the intended filter. */
  function FilteredWebsitesAsWritten(sites: seq<Site>, f: Filters, states: seq<State>, districts: seq<District>): (r: Option<seq<Site>>)
    ensures r.Some? <==> forall i :: 0 <= i < |sites| ==> Resolves(sites[i], states, districts)
    ensures r.Some? ==> r.value == FilteredWebsites(sites, f, states, districts)
  {
    if forall i :: 0 <= i < |sites| ==> Resolves(sites[i], states, districts) then
      Some(Filter(sites, PassesFn(f, states, districts)))
    else None
  }

  /** The list is filtered on every render, also while the state and
      district lists are still loading: one website and no states yet is
      enough for the page as written to throw, where the intended filter
      lists the website under its state's number. */
  lemma {:induction false} UnloadedStatesThrow(site: Site, districts: seq<District>)
    requires site.state == 3
    ensures FilteredWebsitesAsWritten([site], NoFilters, [], districts).None?
    ensures FilteredWebsites([site], NoFilters, [], districts) == [site]
  {
    NoFiltersListAll([site], [], districts);
  }

  /** The filter keeps sites in their order and keeps exactly those that
      pass. */
  lemma {:induction false} FilteredIsSubsequence(sites: seq<Site>, f: Filters, states: seq<State>, districts: seq<District>, site: Site)
    ensures IsSubsequence(FilteredWebsites(sites, f, states, districts), sites)
    ensures site in FilteredWebsites(sites, f, states, districts) <==> site in sites && Passes(site, f, states, districts)
  {
    FilterIsSubsequence(sites, PassesFn(f, states, districts));
    FilterMembers(sites, PassesFn(f, states, districts), site);
  }

  /** With nothing typed and nothing chosen, every site is listed. */
  lemma {:induction false} NoFiltersListAll(sites: seq<Site>, states: seq<State>, districts: seq<District>)
    ensures FilteredWebsites(sites, NoFilters, states, districts) == sites
  {
    forall i | 0 <= i < |sites| ensures Passes(sites[i], NoFilters, states, districts) {
      IncludesEmpty(Lower(sites[i].software));
    }
    FilterAll(sites, PassesFn(NoFilters, states, districts));
  }

  lemma {:induction false} LowerOfUpper(s: string)
    ensures Lower(Upper(s)) == Lower(s)
  {
  }

  /** The search ignores letter case: an upper-cased or lower-cased query
      selects the same sites. */
  lemma {:induction false} SearchIgnoresCase(sites: seq<Site>, f: Filters, states: seq<State>, districts: seq<District>)
    ensures FilteredWebsites(sites, f.(search := Upper(f.search)), states, districts)
         == FilteredWebsites(sites, f, states, districts)
    ensures FilteredWebsites(sites, f.(search := Lower(f.search)), states, districts)
         == FilteredWebsites(sites, f, states, districts)
  {
    LowerOfUpper(f.search);
    LowerIdempotent(f.search);
    FilterSame(sites, PassesFn(f.(search := Upper(f.search)), states, districts), PassesFn(f, states, districts));
    FilterSame(sites, PassesFn(f.(search := Lower(f.search)), states, districts), PassesFn(f, states, districts));
  }

  /** The value of a state option is the StateId rendered as text; choosing
      it lists exactly the matching sites that lie in that state. */
  lemma {:induction false} ChosenStateSelects(sites: seq<Site>, f: Filters, states: seq<State>, districts: seq<District>, id: int, site: Site)
    requires f.stateFilter == IntToString(id)
    ensures site in FilteredWebsites(sites, f, states, districts) <==>
      && site in sites && site.state == id
      && MatchesSearch(site, f.search, states, districts)
      && MatchesId(f.districtFilter, site.district)
  {
    ParseIntRoundTrip(id);
    assert IntToString(id) != "";
    FilterMembers(sites, PassesFn(f, states, districts), site);
  }

  /** `canModify`: an admin, or the owner under either shape of the `user`
      field. The auth store's `isAdmin()` is read as the role check. */
  function CanModify(viewer: User, site: Site): (r: bool)
    ensures r <==> IsAdmin(viewer) || (!site.user.Missing? && site.user.id == viewer.id)
    ensures site.user.Missing? ==> (r <==> IsAdmin(viewer))
  {
    || viewer.role == "admin"
    || (site.user.Populated? && site.user.id == viewer.id)
    || (site.user.Raw? && site.user.id == viewer.id)
  }

  /** The buttons appear exactly when the server's update and delete would
      pass their ownership check for that record. */
  lemma {:induction false} CanModifyAgreesWithServer(viewer: User, site: Site)
    requires !site.user.Missing?
    ensures CanModify(viewer, site) <==> MayModify(viewer, site.user.id)
  {
  }

  /** The district list under the state dropdown: all districts of the
      chosen state, and none while no state is chosen. */
  function DependentDistricts(stateFilter: string, allDistricts: seq<District>): (r: seq<District>)
    ensures stateFilter == "" ==> r == []
    ensures forall i :: 0 <= i < |r| ==> Is(ParseInt(stateFilter), r[i].stateId)
    ensures IsSubsequence(r, allDistricts)
    ensures stateFilter != "" && ParseInt(stateFilter).Int? ==>
      forall d :: d in r <==> d in allDistricts && d.stateId == ParseInt(stateFilter).n
  {
    if stateFilter == "" then []
    else match ParseInt(stateFilter)
      case NaN => []
      case Int(n) =>
        FilterIsSubsequence(allDistricts, DataController.InState(n));
        var r := Filter(allDistricts, DataController.InState(n));
        assert forall d :: d in r <==> d in allDistricts && d.stateId == n by {
          forall d ensures d in r <==> d in allDistricts && d.stateId == n {
            FilterMembers(allDistricts, DataController.InState(n), d);
          }
        }
        r
  }

  /** The options of the district dropdown: every district while no state
      is chosen; once one is, the `districts` list the state filter's effect
      has settled on, which is the dependent list above. */
  function DistrictOptions(stateFilter: string, allDistricts: seq<District>): (r: seq<District>)
    ensures stateFilter == "" ==> r == allDistricts
    ensures IsSubsequence(r, allDistricts)
    ensures stateFilter != "" && ParseInt(stateFilter).Int? ==>
      forall d :: d in r <==> d in allDistricts && d.stateId == ParseInt(stateFilter).n
    ensures stateFilter != "" && ParseInt(stateFilter).NaN? ==> r == []
  {
    if stateFilter != "" then DependentDistricts(stateFilter, allDistricts)
    else SubsequenceOfItself(allDistricts); allDistricts
  }

  /** Once a state is chosen, the dropdown offers exactly the districts the
      server's lookup for that state returns, up to order. */
  lemma {:induction false} OptionsMatchServer(stateFilter: string, store: seq<District>, d: District)
    requires stateFilter != "" && ParseInt(stateFilter).Int?
    requires UniqueBy(store, DistrictKey)
    ensures d in DistrictOptions(stateFilter, store) <==> d in DataController.GetDistrictsByStateId(stateFilter, store).items
  {
    DependentMatchesServer(stateFilter, store);
    assert DataController.GetAllDistricts(store).items == store;
    var options := DependentDistricts(stateFilter, store);
    var sorted := SortByKey(options, DistrictKey);
    assert d in sorted <==> d in options by {
      assert d in sorted <==> d in multiset(sorted);
      assert d in options <==> d in multiset(options);
    }
  }

  /** Filtering the full list on the client gives the districts the server
      returns for that state: once sorted by DistrictId, the same sequence. */
  lemma {:induction false} DependentMatchesServer(stateFilter: string, store: seq<District>)
    requires stateFilter != "" && ParseInt(stateFilter).Int?
    requires UniqueBy(store, DistrictKey)
    ensures SortByKey(DependentDistricts(stateFilter, DataController.GetAllDistricts(store).items), DistrictKey)
         == DataController.GetDistrictsByStateId(stateFilter, store).items
  {
    var n := ParseInt(stateFilter).n;
    var sorted := SortByKey(DependentDistricts(stateFilter, store), DistrictKey);
    DataController.DistrictLookupIsSortedFilter(stateFilter, store, sorted);
  }

  /** The state dropdown's `onChange`: the new state, and the district
      filter cleared. */
  function SelectState(f: Filters, value: string): (r: Filters)
    ensures r.stateFilter == value && r.districtFilter == "" && r.search == f.search
  {
    Filters(f.search, value, "")
  }

  function SelectDistrict(f: Filters, value: string): (r: Filters)
    ensures r.districtFilter == value && r.stateFilter == f.stateFilter && r.search == f.search
  {
    f.(districtFilter := value)
  }

  /** `clearFilters`. */
  function ClearFilters(f: Filters): (r: Filters)
    ensures r.search == "" && r.stateFilter == "" && r.districtFilter == ""
  {
    NoFilters
  }

  /** After a state change no district filter applies: a site of the newly
      chosen state that matches the search is listed, whatever its
      district and whatever district was chosen before. */
  lemma {:induction false} StateChangeDropsDistrict(sites: seq<Site>, f: Filters, value: string, states: seq<State>, districts: seq<District>, site: Site)
    requires site in sites && MatchesId(value, site.state) && MatchesSearch(site, f.search, states, districts)
    ensures site in FilteredWebsites(sites, SelectState(f, value), states, districts)
  {
    FilterMembers(sites, PassesFn(SelectState(f, value), states, districts), site);
  }

  /** Clearing the filters lists every site again. */
  lemma {:induction false} ClearedListsAll(sites: seq<Site>, f: Filters, states: seq<State>, districts: seq<District>)
    ensures FilteredWebsites(sites, ClearFilters(f), states, districts) == sites
  {
    NoFiltersListAll(sites, states, districts);
  }
}
