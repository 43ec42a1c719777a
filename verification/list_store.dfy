/** The client-side list stores for websites and for inquiries. The two
    stores share the same logic over different endpoints, so one generic
    module models both: the server's reply arrives as a parameter, and
    every action is one atomic step from the old state to the new. */
module ListStore {
  import opened Seqs

  /** A record as the client holds it: its `_id` and the rest. */
  datatype Doc<T> = Doc(id: string, data: T)

  /** What the request brought back: the response body, or an error (which
      is reported in a toast and otherwise swallowed). */
  datatype Response<R> = Success(value: R) | Failure

  datatype ListState<T> = ListState(items: seq<Doc<T>>, isLoading: bool)

  /** `fetchWebsites` / `fetchInquiries`, from the moment the request is
      answered: the `finally` clause always ends the loading state. */
  function Fetch<T>(st: ListState<T>, resp: Response<seq<Doc<T>>>): (r: ListState<T>)
    ensures !r.isLoading
    ensures resp.Success? ==> r.items == resp.value
    ensures resp.Failure? ==> r.items == st.items
  {
    ListState(if resp.Success? then resp.value else st.items, false)
  }

  /** The state while the fetch is in flight. */
  function StartFetch<T>(st: ListState<T>): (r: ListState<T>)
    ensures r.isLoading && r.items == st.items
  {
    st.(isLoading := true)
  }

  /** `createWebsite` / `createInquiry`: the server's record goes in front
      of the list as it was. */
  function Create<T>(st: ListState<T>, resp: Response<Doc<T>>): (r: ListState<T>)
    ensures r.isLoading == st.isLoading
    ensures resp.Failure? ==> r == st
    ensures resp.Success? ==> |r.items| == |st.items| + 1 && r.items[0] == resp.value && r.items[1..] == st.items
  {
    if resp.Failure? then st else st.(items := [resp.value] + st.items)
  }

  function Replace<T>(items: seq<Doc<T>>, id: string, doc: Doc<T>): (r: seq<Doc<T>>)
    ensures |r| == |items|
    ensures forall i :: 0 <= i < |r| ==> r[i] == if items[i].id == id then doc else items[i]
  {
    if items == [] then []
    else [if items[0].id == id then doc else items[0]] + Replace(items[1..], id, doc)
  }

  /** `updateWebsite` / `updateInquiry`: every element with that `_id` is
      replaced by the server's record, in place. */
  function Update<T>(st: ListState<T>, id: string, resp: Response<Doc<T>>): (r: ListState<T>)
    ensures r.isLoading == st.isLoading
    ensures resp.Failure? ==> r == st
    ensures resp.Success? ==> r.items == Replace(st.items, id, resp.value)
  {
    if resp.Failure? then st else st.(items := Replace(st.items, id, resp.value))
  }

  function OtherThan<T>(id: string): Doc<T> -> bool {
    (d: Doc<T>) => d.id != id
  }

  /** `deleteWebsite` / `deleteInquiry`: every element with that `_id` is
      dropped; the others keep their order. */
  function Delete<T>(st: ListState<T>, id: string, resp: Response<()>): (r: ListState<T>)
    ensures r.isLoading == st.isLoading
    ensures resp.Failure? ==> r == st
    ensures resp.Success? ==> forall i :: 0 <= i < |r.items| ==> r.items[i].id != id
  {
    if resp.Failure? then st else st.(items := Filter(st.items, OtherThan(id)))
  }

  /** After a delete the list is the old one with the elements of that id
      taken out and nothing reordered: every other element stays, as many
      times as it was there. */
  lemma {:induction false} DeleteKeepsOthers<T>(st: ListState<T>, id: string, d: Doc<T>)
    ensures d in Delete(st, id, Success(())).items <==> d in st.items && d.id != id
    ensures multiset(Delete(st, id, Success(())).items)[d] == if d.id != id then multiset(st.items)[d] else 0
    ensures IsSubsequence(Delete(st, id, Success(())).items, st.items)
  {
    FilterMembers(st.items, OtherThan(id), d);
    FilterCount(st.items, OtherThan(id), d);
    FilterIsSubsequence(st.items, OtherThan(id));
  }

  /** An update touches exactly the positions of that id, and keeps every
      other element where it was. */
  lemma {:induction false} UpdateKeepsOthers<T>(st: ListState<T>, id: string, doc: Doc<T>, i: int)
    requires 0 <= i < |st.items|
    ensures st.items[i].id != id ==> Update(st, id, Success(doc)).items[i] == st.items[i]
    ensures st.items[i].id == id ==> Update(st, id, Success(doc)).items[i] == doc
  {
  }

  /** Applying the same successful update twice is the same as once, as
      long as the server's record keeps its id. */
  lemma {:induction false} UpdateIdempotent<T>(items: seq<Doc<T>>, id: string, doc: Doc<T>)
    requires doc.id == id
    ensures Replace(Replace(items, id, doc), id, doc) == Replace(items, id, doc)
  {
    if items != [] {
      UpdateIdempotent(items[1..], id, doc);
      assert Replace(items, id, doc)[1..] == Replace(items[1..], id, doc);
    }
  }

  /** Deleting what was just created gives back the list before it, when
      no element there shared the new record's id. */
  lemma {:induction false} DeleteUndoesCreate<T>(st: ListState<T>, doc: Doc<T>)
    requires forall i :: 0 <= i < |st.items| ==> st.items[i].id != doc.id
    ensures Delete(Create(st, Success(doc)), doc.id, Success(())) == st
  {
    var items := [doc] + st.items;
    assert items[1..] == st.items;
    FilterAll(st.items, OtherThan(doc.id));
  }

  /** Deleting after an update is deleting: the replaced elements carry the
      deleted id and go either way. */
  lemma {:induction false} DeleteAfterUpdate<T>(items: seq<Doc<T>>, id: string, doc: Doc<T>)
    requires doc.id == id
    ensures Filter(Replace(items, id, doc), OtherThan(id)) == Filter(items, OtherThan(id))
  {
    if items != [] {
      DeleteAfterUpdate(items[1..], id, doc);
      assert Replace(items, id, doc)[1..] == Replace(items[1..], id, doc);
    }
  }
}
