/** The State and District reference records: the province/district
    hierarchy behind the location dropdowns. A collection is a sequence in
    insertion order, and each keeps a unique index on its numeric id. */
module Geo {
  import opened Wrappers
  import opened Seqs
  import JsNumber

  datatype State = State(stateId: int, stateName: string, stateNameNep: string, stateCode: Option<string>)

  /** `stateId` is the foreign key to a State; nothing checks that such a
      state exists. */
  datatype District = District(districtId: int, districtName: string, districtNameNep: string,
                               stateId: int, districtCode: Option<string>)

  function StateKey(s: State): int { s.stateId }
  function DistrictKey(d: District): int { d.districtId }

  /** A document as it arrives in a bulk-insert body. `None` is a field that
      is absent or null; a number field that does not cast is `Some(NaN)`. */
  datatype StateInput = StateInput(stateId: Option<JsNumber.Num>, stateName: Option<string>,
                                   stateNameNep: Option<string>, stateCode: Option<string>)
  datatype DistrictInput = DistrictInput(districtId: Option<JsNumber.Num>, districtName: Option<string>,
                                         districtNameNep: Option<string>, stateId: Option<JsNumber.Num>,
                                         districtCode: Option<string>)

  /** The `required` validator on a String path: present and not empty. */
  predicate RequiredText(v: Option<string>) {
    v.Some? && v.value != ""
  }

  /** The `required` validator on a Number path, after the cast: present
      and a number. */
  predicate RequiredNumber(v: Option<JsNumber.Num>) {
    v.Some? && v.value.Int?
  }

  predicate ValidState(s: State) {
    s.stateName != "" && s.stateNameNep != ""
  }

  predicate ValidDistrict(d: District) {
    d.districtName != "" && d.districtNameNep != ""
  }

  /** A stored collection: every record valid, ids unique. */
  predicate ValidStates(ss: seq<State>) {
    UniqueBy(ss, StateKey) && forall i :: 0 <= i < |ss| ==> ValidState(ss[i])
  }

  predicate ValidDistricts(ds: seq<District>) {
    UniqueBy(ds, DistrictKey) && forall i :: 0 <= i < |ds| ==> ValidDistrict(ds[i])
  }

  /** Casting and validating one State document; the code defaults to null. */
  function CastState(x: StateInput): (r: Option<State>)
    ensures r.Some? <==> RequiredNumber(x.stateId) && RequiredText(x.stateName) && RequiredText(x.stateNameNep)
    ensures r.Some? ==> ValidState(r.value)
    ensures r.Some? ==> && r.value.stateId == x.stateId.value.n
                        && r.value.stateName == x.stateName.value
                        && r.value.stateNameNep == x.stateNameNep.value
                        && r.value.stateCode == x.stateCode
  {
    if RequiredNumber(x.stateId) && RequiredText(x.stateName) && RequiredText(x.stateNameNep) then
      Some(State(x.stateId.value.n, x.stateName.value, x.stateNameNep.value, x.stateCode))
    else None
  }

  function CastDistrict(x: DistrictInput): (r: Option<District>)
    ensures r.Some? <==> && RequiredNumber(x.districtId) && RequiredText(x.districtName)
                         && RequiredText(x.districtNameNep) && RequiredNumber(x.stateId)
    ensures r.Some? ==> ValidDistrict(r.value)
    ensures r.Some? ==> && r.value.districtId == x.districtId.value.n
                        && r.value.districtName == x.districtName.value
                        && r.value.districtNameNep == x.districtNameNep.value
                        && r.value.stateId == x.stateId.value.n
                        && r.value.districtCode == x.districtCode
  {
    if && RequiredNumber(x.districtId) && RequiredText(x.districtName)
       && RequiredText(x.districtNameNep) && RequiredNumber(x.stateId)
    then
      Some(District(x.districtId.value.n, x.districtName.value, x.districtNameNep.value,
                    x.stateId.value.n, x.districtCode))
    else None
  }

  /** A State document without a code is stored with a null code, and one
      without a name is refused. */
  lemma {:induction false} StateDefaults(id: int, name: string, nameNep: string)
    requires name != "" && nameNep != ""
    ensures CastState(StateInput(Some(JsNumber.Int(id)), Some(name), Some(nameNep), None))
            == Some(State(id, name, nameNep, None))
    ensures CastState(StateInput(Some(JsNumber.Int(id)), None, Some(nameNep), None)).None?
    ensures CastState(StateInput(Some(JsNumber.Int(id)), Some(""), Some(nameNep), None)).None?
  {
  }

  /** A district may name a state that does not exist: district validity
      takes no state collection at all, so any StateId is accepted,
      including one no stored state has. */
  lemma {:induction false} DanglingStateIdIsValid(d: District)
    requires ValidDistrict(d)
    ensures ValidDistricts([d])
  {
  }
}
