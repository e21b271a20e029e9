/** The QC tab of the home page: it queries the QC requests with the status
    chosen in its select, attaches to every request the crop and the user it
    refers to, and decides, with two refs, when to query again. */
module QcListing {
  import opened JsValues
  import QcSubmit

  /** What the store holds for the tab: the `qc_requests` collection in the
      order a query returns it, the `crops` and `users` collections by key,
      and whether queries reach the store at all. */
  datatype Store = Store(
    qcRequests: seq<Doc>,
    crops: map<string, Doc>,
    users: map<string, Doc>,
    available: bool)

  /** Whether a request passes `where("status", "==", status)`. */
  predicate HasStatus(request: Doc, status: string)
  {
    Get(request, "status") == JStr(status)
  }

  /** The query of `fetchQCs`: filtered by status when the selected status
      is truthy, the whole collection otherwise. */
  function Matching(requests: seq<Doc>, status: string): (r: seq<Doc>)
    ensures status == "" ==> r == requests
    ensures status != "" ==> forall d :: d in r <==> d in requests && HasStatus(d, status)
    ensures |r| <= |requests|
  {
    if status == "" || requests == [] then requests
    else (if HasStatus(requests[0], status) then [requests[0]] else []) + Matching(requests[1..], status)
  }

  /** The query keeps the collection's order: filtering a concatenation is
      concatenating the filtered parts. */
  lemma {:induction false} MatchingConcat(a: seq<Doc>, b: seq<Doc>, status: string)
    ensures Matching(a + b, status) == Matching(a, status) + Matching(b, status)
  {
    if a == [] {
      assert a + b == b;
    } else if status != "" {
      assert (a + b)[1..] == a[1..] + b;
      MatchingConcat(a[1..], b, status);
    }
  }

  /** A request's multiplicity in the result: every matching copy, no other. */
  lemma {:induction false} MatchingCounts(requests: seq<Doc>, status: string, d: Doc)
    requires status != ""
    ensures multiset(Matching(requests, status))[d] == if HasStatus(d, status) then multiset(requests)[d] else 0
  {
    if requests != [] {
      MatchingCounts(requests[1..], status, d);
      assert requests == [requests[0]] + requests[1..];
    }
  }

  /** One foreign-key lookup of the loop: when `row[key]` is truthy, the
      document it names in `table` is copied into `row[field]`, or `null`
      when there is none; a falsy key leaves the row as it is. A truthy key
      that is not a string makes `doc()` throw, which aborts the fetch
      (`None`). */
  function AttachRelation(row: Doc, key: string, field: string, table: map<string, Doc>): (r: Option<Doc>)
    ensures !Truthy(Get(row, key)) ==> r == Some(row)
    ensures Truthy(Get(row, key)) && !Get(row, key).JStr? ==> r.None?
    ensures Truthy(Get(row, key)) && Get(row, key).JStr? ==>
      && r.Some?
      && r.value.Keys == row.Keys + {field}
      && (Get(row, key).s in table ==> r.value[field] == JObj(table[Get(row, key).s]))
      && (Get(row, key).s !in table ==> r.value[field] == JNull)
      && (forall k :: k in row && k != field ==> r.value[k] == row[k])
  {
    var id := Get(row, key);
    if !Truthy(id) then Some(row)
    else if !id.JStr? then None
    else if id.s in table then Some(row[field := JObj(table[id.s])])
    else Some(row[field := JNull])
  }

  /** A key whose lookup does not throw: falsy, or a string. */
  predicate UsableKey(v: Json)
  {
    !Truthy(v) || v.JStr?
  }

  /** The body of the loop for one request: its crop, then its user. It
      throws exactly when one of the two keys is truthy and not a string. */
  function EnrichRow(row: Doc, crops: map<string, Doc>, users: map<string, Doc>): (r: Option<Doc>)
    ensures r.Some? <==> UsableKey(Get(row, "cropId")) && UsableKey(Get(row, "userId"))
  {
    match AttachRelation(row, "cropId", "crop", crops)
    case None => None
    case Some(withCrop) =>
      assert Get(withCrop, "userId") == Get(row, "userId");
      AttachRelation(withCrop, "userId", "user", users)
  }

  /** The enriched request keeps every field of the stored one except `crop`
      and `user`; `crop` is present exactly when `cropId` is truthy and holds
      the crop or `null`, and likewise `user`. */
  lemma EnrichRowFields(row: Doc, crops: map<string, Doc>, users: map<string, Doc>)
    ensures var r := EnrichRow(row, crops, users);
      r.Some? ==>
        && (forall k :: k in row && k != "crop" && k != "user" ==> k in r.value && r.value[k] == row[k])
        && ("crop" in r.value <==> "crop" in row || Truthy(Get(row, "cropId")))
        && (Truthy(Get(row, "cropId")) ==>
              r.value["crop"] == if Get(row, "cropId").s in crops then JObj(crops[Get(row, "cropId").s]) else JNull)
        && ("user" in r.value <==> "user" in row || Truthy(Get(row, "userId")))
        && (Truthy(Get(row, "userId")) ==>
              r.value["user"] == if Get(row, "userId").s in users then JObj(users[Get(row, "userId").s]) else JNull)
  {
    var c := AttachRelation(row, "cropId", "crop", crops);
    if c.Some? {
      assert Get(c.value, "userId") == Get(row, "userId");
    }
  }

  /** The `for` loop of `fetchQCs`: one enriched request per stored request,
      in the same order; a lookup that throws aborts the whole loop. */
  method EnrichAll(requests: seq<Doc>, crops: map<string, Doc>, users: map<string, Doc>)
    returns (results: Option<seq<Doc>>)
    ensures results.None? <==> exists i :: 0 <= i < |requests| && EnrichRow(requests[i], crops, users).None?
    ensures results.Some? ==>
      && |results.value| == |requests|
      && forall i :: 0 <= i < |requests| ==> Some(results.value[i]) == EnrichRow(requests[i], crops, users)
  {
    var rows: seq<Doc> := [];
    var i := 0;
    while i < |requests|
      invariant 0 <= i <= |requests|
      invariant |rows| == i
      invariant forall j :: 0 <= j < i ==> Some(rows[j]) == EnrichRow(requests[j], crops, users)
    {
      var row := EnrichRow(requests[i], crops, users);
      if row.None? {
        return None;
      }
      rows := rows + [row.value];
      i := i + 1;
    }
    return Some(rows);
  }

  /** The rows `fetchQCs` leaves, given the rows before it ran, the store and
      the selected status: unchanged when the query fails, empty when it
      finds nothing, unchanged when a lookup throws, and otherwise the
      enriched matching requests in the order of the query. */
  predicate Fetched(before: seq<Doc>, after: seq<Doc>, store: Store, status: string)
  {
    var matched := Matching(store.qcRequests, status);
    if !store.available then after == before
    else if matched == [] then after == []
    else if exists i :: 0 <= i < |matched| && EnrichRow(matched[i], store.crops, store.users).None? then
      after == before
    else
      |after| == |matched|
      && forall i :: 0 <= i < |matched| ==> Some(after[i]) == EnrichRow(matched[i], store.crops, store.users)
  }

  /** A fetch leaves one set of rows only: the store and the status decide it. */
  lemma FetchedDetermined(before: seq<Doc>, a: seq<Doc>, b: seq<Doc>, store: Store, status: string)
    requires Fetched(before, a, store, status) && Fetched(before, b, store, status)
    ensures a == b
  {
    var matched := Matching(store.qcRequests, status);
    if store.available && matched != []
       && !(exists i :: 0 <= i < |matched| && EnrichRow(matched[i], store.crops, store.users).None?) {
      forall i | 0 <= i < |a| ensures a[i] == b[i] {
        assert Some(a[i]) == EnrichRow(matched[i], store.crops, store.users) == Some(b[i]);
      }
    }
  }

  /** The `qc_requests` documents as a query returns them: the documents
      stored under `order`, in that order. */
  function Listed(requests: map<string, Doc>, order: seq<string>): (docs: seq<Doc>)
    requires forall k :: k in order ==> k in requests
    ensures |docs| == |order|
    ensures forall i :: 0 <= i < |order| ==> docs[i] == requests[order[i]]
  {
    seq(|order|, i requires 0 <= i < |order| => requests[order[i]])
  }

  /** Once the QC form has completed a request, a query for "pending" no
      longer returns it, and a query for "completed" does. */
  lemma CompletedRequestNotPending(requests: map<string, Doc>, order: seq<string>, key: string)
    requires key in requests && forall k :: k in order ==> k in requests
    ensures var after := requests[key := QcSubmit.MarkCompleted(requests[key])];
      forall i :: 0 <= i < |order| && order[i] == key ==>
        && Listed(after, order)[i] !in Matching(Listed(after, order), "pending")
        && Listed(after, order)[i] in Matching(Listed(after, order), "completed")
  {
  }

  /** The tab's state: the rows it shows, the status its select holds, and
      the two refs. `fetches` counts the queries made, so that the contracts
      can say when one happens. */
  class QcTab {
    var rows: seq<Doc>
    var status: string
    var loadReference: bool
    var statusReference: string
    ghost var fetches: nat

    /** The first render: no rows, the select on "pending", both refs fresh. */
    constructor ()
      ensures rows == [] && status == "pending"
      ensures loadReference && statusReference == "pending"
      ensures fetches == 0
    {
      rows := [];
      status := "pending";
      loadReference := true;
      statusReference := "pending";
      fetches := 0;
    }

    /** Once mounted, the status ref follows the select. */
    ghost predicate Valid()
      reads this
    {
      !loadReference ==> statusReference == status
    }

    /** `fetchQCs` with the status the select holds. */
    method FetchQCs(store: Store)
      modifies this
      ensures fetches == old(fetches) + 1
      ensures status == old(status) && loadReference == old(loadReference)
      ensures statusReference == old(statusReference)
      ensures Fetched(old(rows), rows, store, status)
    {
      fetches := fetches + 1;
      if !store.available {
        return;
      }
      var matched := Matching(store.qcRequests, status);
      if matched == [] {
        rows := [];
        return;
      }
      var results := EnrichAll(matched, store.crops, store.users);
      if results.Some? {
        rows := results.value;
      }
    }

    /** The effect without dependencies: it fetches on the first mount only. */
    method MountEffect(store: Store)
      modifies this
      ensures !loadReference && status == old(status) && statusReference == old(statusReference)
      ensures fetches == old(fetches) + (if old(loadReference) then 1 else 0)
      ensures old(loadReference) ==> Fetched(old(rows), rows, store, status)
      ensures !old(loadReference) ==> rows == old(rows)
    {
      if loadReference {
        loadReference := false;
        FetchQCs(store);
      }
    }

    /** The effect on `[status]`: after the mount, it fetches when the status
        differs from the last one fetched for and records it. */
    method StatusEffect(store: Store)
      modifies this
      ensures status == old(status) && loadReference == old(loadReference)
      ensures !loadReference ==> statusReference == status
      ensures loadReference ==> statusReference == old(statusReference)
      ensures fetches == old(fetches) + (if !loadReference && old(statusReference) != status then 1 else 0)
      ensures !loadReference && old(statusReference) != status ==> Fetched(old(rows), rows, store, status)
      ensures !(!loadReference && old(statusReference) != status) ==> rows == old(rows)
    {
      if !loadReference && statusReference != status {
        statusReference := status;
        FetchQCs(store);
      }
    }

    /** Mounting runs both effects in order: exactly one fetch on a fresh
        tab, and none when the effects run again on a mounted one. */
    method Mount(store: Store)
      modifies this
      ensures Valid()
      ensures status == old(status) && !loadReference
      ensures old(loadReference) && old(statusReference) == old(status) ==>
        fetches == old(fetches) + 1 && Fetched(old(rows), rows, store, status)
      ensures !old(loadReference) && old(Valid()) ==> fetches == old(fetches) && rows == old(rows)
    {
      MountEffect(store);
      StatusEffect(store);
    }

    /** The user picks status `s`: React runs the `[status]` effect only when
        the value changed, and once mounted that fetches exactly then. */
    method SelectStatus(s: string, store: Store)
      requires Valid() && !loadReference
      modifies this
      ensures Valid() && !loadReference && status == s && statusReference == s
      ensures fetches == old(fetches) + (if s != old(status) then 1 else 0)
      ensures s != old(status) ==> Fetched(old(rows), rows, store, s)
      ensures s == old(status) ==> rows == old(rows)
    {
      if s != status {
        status := s;
        StatusEffect(store);
      }
    }

    /** `refetch`, passed to the grid and called after a QC is submitted. */
    method Refetch(store: Store)
      modifies this
      ensures fetches == old(fetches) + 1
      ensures Fetched(old(rows), rows, store, status)
      ensures status == old(status) && loadReference == old(loadReference)
      ensures statusReference == old(statusReference)
    {
      FetchQCs(store);
    }
  }
}
