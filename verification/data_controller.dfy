/** The reference-data handlers: bulk inserts of states and districts and
    the sorted, filtered lookups behind the dependent dropdowns. The routes
    carry no authentication. */
module DataController {
  import opened Wrappers
  import opened Seqs
  import opened JsNumber
  import opened Common
  import opened Geo

  /** A request body: an array of documents, or anything else. */
  datatype Payload<I> = Array(items: seq<I>) | NotArray

  /** The status, the collection afterwards, and the records inserted by
      this request (reported in the body on 201). */
  datatype BulkReply<T> = BulkReply(status: int, store: seq<T>, inserted: seq<T>)

  datatype ListReply<T> = ListReply(status: int, items: seq<T>)

  predicate HasKey<T>(s: seq<T>, key: T -> int, k: int) {
    exists i :: 0 <= i < |s| && key(s[i]) == k
  }

  /** Casting every document of the array: `None` as soon as one fails. */
  function CastAll<I, T>(items: seq<I>, cast: I -> Option<T>): (r: Option<seq<T>>)
    ensures r.Some? <==> forall i :: 0 <= i < |items| ==> cast(items[i]).Some?
    ensures r.Some? ==> |r.value| == |items|
    ensures r.Some? ==> forall i :: 0 <= i < |items| ==> r.value[i] == cast(items[i]).value
  {
    if items == [] then Some([])
    else match (cast(items[0]), CastAll(items[1..], cast))
      case (Some(x), Some(rest)) =>
        assert forall i :: 1 <= i < |items| ==> items[1..][i - 1] == items[i];
        Some([x] + rest)
      case (None, _) => None
      case (_, None) =>
        assert exists i :: 0 <= i < |items[1..]| && cast(items[1..][i]).None?;
        None
  }

  /** Appending one record whose key is not yet taken keeps the index
      unique, and appending one whose key is taken breaks it. */
  lemma {:induction false} AppendUnique<T>(s: seq<T>, x: T, key: T -> int)
    requires UniqueBy(s, key)
    ensures UniqueBy(s + [x], key) <==> !HasKey(s, key, key(x))
  {
    if HasKey(s, key, key(x)) {
      var i :| 0 <= i < |s| && key(s[i]) == key(x);
      assert key((s + [x])[i]) == key((s + [x])[|s|]);
    }
  }

  /** A prefix of a uniquely keyed sequence is uniquely keyed. */
  lemma {:induction false} PrefixUnique<T>(s: seq<T>, t: seq<T>, key: T -> int)
    requires UniqueBy(s + t, key)
    ensures UniqueBy(s, key)
  {
    assert forall i :: 0 <= i < |s| ==> (s + t)[i] == s[i];
  }

  /** An ordered insert as the database performs it: documents go in one
      by one, and the first whose key is already taken aborts the rest.
      The documents before it stay inserted. `count` is how many went in. */
  function InsertOrdered<T>(store: seq<T>, docs: seq<T>, key: T -> int): (r: (seq<T>, nat))
    requires UniqueBy(store, key)
    ensures r.1 <= |docs|
    ensures r.0 == store + docs[..r.1]
    ensures UniqueBy(r.0, key)
    ensures r.1 == |docs| <==> UniqueBy(store + docs, key)
    ensures r.1 < |docs| ==> HasKey(r.0, key, key(docs[r.1]))
    decreases |docs|
  {
    if docs == [] then
      assert store + docs == store;
      (store, 0)
    else if HasKey(store, key, key(docs[0])) then
      assert !UniqueBy(store + docs, key) by {
        AppendUnique(store, docs[0], key);
        assert store + docs == (store + [docs[0]]) + docs[1..];
        if UniqueBy(store + docs, key) {
          PrefixUnique(store + [docs[0]], docs[1..], key);
        }
      }
      assert docs[..0] == [];
      (store, 0)
    else
      AppendUnique(store, docs[0], key);
      var rest := InsertOrdered(store + [docs[0]], docs[1..], key);
      assert store + docs == (store + [docs[0]]) + docs[1..];
      assert docs[..rest.1 + 1] == [docs[0]] + docs[1..][..rest.1];
      (rest.0, rest.1 + 1)
  }

  /** `Model.insertMany(data)` behind the array guard: the documents are
      all cast and validated first, and one invalid document fails the
      whole request with nothing inserted; otherwise they are inserted in
      order, a duplicate id stops the insert with 500, and the documents
      before it remain. */
  function BulkInsert<I, T(==)>(body: Payload<I>, store: seq<T>, cast: I -> Option<T>, key: T -> int): (r: BulkReply<T>)
    requires UniqueBy(store, key)
    ensures body.NotArray? ==> r == BulkReply(StatusBadRequest, store, [])
    ensures r.status in {StatusCreated, StatusBadRequest, StatusServerError}
    ensures r.store == store + r.inserted
    ensures UniqueBy(r.store, key)
    ensures r.status == StatusCreated <==>
      && body.Array?
      && CastAll(body.items, cast).Some?
      && UniqueBy(store + CastAll(body.items, cast).value, key)
    ensures r.status == StatusCreated ==> r.inserted == CastAll(body.items, cast).value
    ensures body.Array? && CastAll(body.items, cast).None? ==> r == BulkReply(StatusServerError, store, [])
    ensures body.Array? && CastAll(body.items, cast).Some? ==>
      IsPrefixOf(r.inserted, CastAll(body.items, cast).value)
  {
    if body.NotArray? then BulkReply(StatusBadRequest, store, [])
    else match CastAll(body.items, cast)
      case None => BulkReply(StatusServerError, store, [])
      case Some(docs) =>
        var (after, n) := InsertOrdered(store, docs, key);
        assert docs[..|docs|] == docs;
        BulkReply(if n == |docs| then StatusCreated else StatusServerError, after, docs[..n])
  }

  predicate IsPrefixOf<T(==)>(a: seq<T>, b: seq<T>) {
    |a| <= |b| && a == b[..|a|]
  }

  /** `createState`. */
  function CreateStates(body: Payload<StateInput>, store: seq<State>): (r: BulkReply<State>)
    requires ValidStates(store)
    ensures ValidStates(r.store)
    ensures body.NotArray? ==> r.status == StatusBadRequest && r.store == store
    ensures r.store == store + r.inserted && UniqueBy(r.store, StateKey)
    ensures r.status == StatusCreated <==>
      && body.Array?
      && CastAll(body.items, CastState).Some?
      && UniqueBy(store + CastAll(body.items, CastState).value, StateKey)
    ensures r.status == StatusCreated ==> r.inserted == CastAll(body.items, CastState).value
    ensures body.Array? && CastAll(body.items, CastState).None? ==> r == BulkReply(StatusServerError, store, [])
    ensures body.Array? && CastAll(body.items, CastState).Some? ==>
      IsPrefixOf(r.inserted, CastAll(body.items, CastState).value)
  {
    var r := BulkInsert(body, store, CastState, StateKey);
    assert forall i :: 0 <= i < |r.inserted| ==> ValidState(r.inserted[i]) by {
      if body.Array? && CastAll(body.items, CastState).Some? {
        var docs := CastAll(body.items, CastState).value;
        assert forall i :: 0 <= i < |docs| ==> ValidState(docs[i]);
      }
    }
    r
  }

  /** `createDistrict`. */
  function CreateDistricts(body: Payload<DistrictInput>, store: seq<District>): (r: BulkReply<District>)
    requires ValidDistricts(store)
    ensures ValidDistricts(r.store)
    ensures body.NotArray? ==> r.status == StatusBadRequest && r.store == store
    ensures r.store == store + r.inserted && UniqueBy(r.store, DistrictKey)
    ensures r.status == StatusCreated <==>
      && body.Array?
      && CastAll(body.items, CastDistrict).Some?
      && UniqueBy(store + CastAll(body.items, CastDistrict).value, DistrictKey)
    ensures r.status == StatusCreated ==> r.inserted == CastAll(body.items, CastDistrict).value
    ensures body.Array? && CastAll(body.items, CastDistrict).None? ==> r == BulkReply(StatusServerError, store, [])
    ensures body.Array? && CastAll(body.items, CastDistrict).Some? ==>
      IsPrefixOf(r.inserted, CastAll(body.items, CastDistrict).value)
  {
    var r := BulkInsert(body, store, CastDistrict, DistrictKey);
    assert forall i :: 0 <= i < |r.inserted| ==> ValidDistrict(r.inserted[i]) by {
      if body.Array? && CastAll(body.items, CastDistrict).Some? {
        var docs := CastAll(body.items, CastDistrict).value;
        assert forall i :: 0 <= i < |docs| ==> ValidDistrict(docs[i]);
      }
    }
    r
  }

  /** `getStates`: every state, ascending by StateId. */
  function GetStates(store: seq<State>): (r: ListReply<State>)
    ensures r.status == StatusOk
    ensures SortedBy(r.items, StateKey)
    ensures multiset(r.items) == multiset(store)
  {
    ListReply(StatusOk, SortByKey(store, StateKey))
  }

  /** `getAllDistricts`: every stored district, in no promised order. */
  function GetAllDistricts(store: seq<District>): (r: ListReply<District>)
    ensures r.status == StatusOk
    ensures multiset(r.items) == multiset(store)
  {
    ListReply(StatusOk, store)
  }

  function InState(n: int): District -> bool {
    (d: District) => d.stateId == n
  }

  /** `getDistrictsByStateId`: the route parameter goes through `parseInt`;
      a NaN is refused by the query's number cast, which is a 500.
      Otherwise the districts of that state, ascending by DistrictId. */
  function GetDistrictsByStateId(param: string, store: seq<District>): (r: ListReply<District>)
    ensures r.status == StatusOk <==> ParseInt(param).Int?
    ensures r.status != StatusOk ==> r == ListReply(StatusServerError, [])
    ensures r.status == StatusOk ==> SortedBy(r.items, DistrictKey)
    ensures r.status == StatusOk ==>
      multiset(r.items) == multiset(Filter(store, InState(ParseInt(param).n)))
  {
    match ParseInt(param)
    case NaN => ListReply(StatusServerError, [])
    case Int(n) => ListReply(StatusOk, SortByKey(Filter(store, InState(n)), DistrictKey))
  }

  /** A lookup returns exactly the districts of the parsed state. */
  lemma {:induction false} DistrictLookupMembers(param: string, store: seq<District>, d: District)
    requires ParseInt(param).Int?
    ensures d in GetDistrictsByStateId(param, store).items <==> d in store && d.stateId == ParseInt(param).n
  {
    var n := ParseInt(param).n;
    var r := GetDistrictsByStateId(param, store).items;
    FilterMembers(store, InState(n), d);
    assert d in r <==> d in multiset(r);
  }

  /** For every parameter that parses, the lookup is the full list filtered
      by StateId and sorted: with unique DistrictIds, any ascending
      ordering of that filtered list is the very sequence returned. */
  lemma {:induction false} DistrictLookupIsSortedFilter(param: string, store: seq<District>, other: seq<District>)
    requires ParseInt(param).Int? && UniqueBy(store, DistrictKey)
    requires SortedBy(other, DistrictKey)
    requires multiset(other) == multiset(Filter(GetAllDistricts(store).items, InState(ParseInt(param).n)))
    ensures GetDistrictsByStateId(param, store).items == other
  {
    var n := ParseInt(param).n;
    var r := GetDistrictsByStateId(param, store).items;
    var f := Filter(store, InState(n));
    FilterIsSubsequenceMultiset(store, InState(n));
    UniqueBySubMultiset(store, r, DistrictKey);
    SortedUniqueIsDetermined(r, other, DistrictKey);
  }

  lemma {:induction false} FilterIsSubsequenceMultiset<T>(s: seq<T>, p: T -> bool)
    ensures multiset(Filter(s, p)) <= multiset(s)
  {
    if s != [] {
      FilterIsSubsequenceMultiset(s[1..], p);
      assert s == [s[0]] + s[1..];
    }
  }

  /** With unique StateIds the state list is the only ascending ordering
      of the collection. */
  lemma {:induction false} StatesOrderIsDetermined(store: seq<State>, other: seq<State>)
    requires ValidStates(store)
    requires SortedBy(other, StateKey) && multiset(other) == multiset(store)
    ensures GetStates(store).items == other
  {
    var r := GetStates(store).items;
    UniqueBySubMultiset(store, r, StateKey);
    SortedUniqueIsDetermined(r, other, StateKey);
  }

  /** A repeated bulk insert of the same states is refused after the first
      document, since its id is already taken: inserts never upsert. */
  lemma {:induction false} RepeatedInsertFails(body: seq<StateInput>, store: seq<State>)
    requires ValidStates(store) && body != []
    requires CreateStates(Array(body), store).status == StatusCreated
    ensures var again := CreateStates(Array(body), CreateStates(Array(body), store).store);
      again.status == StatusServerError && again.inserted == []
  {
    var first := CreateStates(Array(body), store);
    var docs := CastAll(body, CastState).value;
    var again := BulkInsert(Array(body), first.store, CastState, StateKey);
    assert first.store == store + docs;
    assert key0: StateKey((first.store + docs)[|store|]) == StateKey((first.store + docs)[|first.store|]);
    assert !UniqueBy(first.store + docs, StateKey);
  }
}
