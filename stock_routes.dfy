/**
 * The stock API: add a document for the caller, list the caller's documents,
 * update the sales figures of one document, and filter the caller's documents
 * by year and week. The collection is a store keyed by document id that also
 * remembers the collection's natural (insertion) order. The caller's identity
 * is a parameter; results are `Response` values instead of HTTP statuses.
 */
module StockRoutes {
  import opened Wrappers
  import opened StockSchema
  import Sorting

  /** A document identifier, as it appears in a request path. */
  type StockId = string

  /** A stored document with its identifier, as queries return it. */
  datatype Doc = Doc(id: StockId, stock: Stock)

  /**
   * The JSON body of an add request. A client may also send `userId` and
   * `quantitySold`; the route never reads them.
   */
  datatype AddBody = AddBody(
    userId: Option<UserId>,
    itemName: Option<string>,
    quantityReceived: Option<int>,
    quantitySold: Option<int>,
    unitPrice: Option<int>,
    sellingPrice: Option<int>,
    week: Option<int>,
    year: Option<int>,
    createdAt: Option<string>,
    updatedAt: Option<string>)

  /** The query of a filter request; an absent or empty parameter is None. */
  datatype FilterQuery = FilterQuery(week: Option<int>, year: int, startWeek: Option<int>, endWeek: Option<int>)

  /** 201, 200 with the updated document, 404, 400 and 500. */
  datatype Response = Created | Ok(stock: Stock) | NotFound | BadRequest | ServerError

  /** The values an add request hands to the model: the owner is the caller and `quantitySold` is not passed. */
  function FieldsFromBody(caller: UserId, body: AddBody): StockFields {
    StockFields(Some(caller), body.itemName, body.quantityReceived, None, body.unitPrice,
                body.sellingPrice, body.week, body.year, body.createdAt, body.updatedAt)
  }

  /**
   * A document added by `caller` belongs to `caller`, has sold nothing yet and
   * holds the submitted values.
   */
  lemma AddedDocument(caller: UserId, body: AddBody)
    requires Validate(FieldsFromBody(caller, body)).Saved?
    ensures var s := Validate(FieldsFromBody(caller, body)).stock;
            && s.userId == caller && s.quantitySold == 0
            && Some(s.itemName) == body.itemName && Some(s.quantityReceived) == body.quantityReceived
            && Some(s.unitPrice) == body.unitPrice && s.sellingPrice == body.sellingPrice
            && Some(s.week) == body.week && Some(s.year) == body.year
            && Some(s.createdAt) == body.createdAt && Some(s.updatedAt) == body.updatedAt
  {
  }

  /** The `userId` and `quantitySold` of the body make no difference to what is stored. */
  lemma AddIgnoresBodyOwner(caller: UserId, body: AddBody, owner: Option<UserId>, sold: Option<int>)
    ensures Validate(FieldsFromBody(caller, body.(userId := owner, quantitySold := sold)))
         == Validate(FieldsFromBody(caller, body))
  {
  }

  /** The documents named by `order`, in that order. */
  function DocsAlong(order: seq<StockId>, docs: map<StockId, Stock>): (r: seq<Doc>)
    requires forall id :: id in order ==> id in docs
    ensures |r| == |order|
    ensures forall i :: 0 <= i < |order| ==> r[i] == Doc(order[i], docs[order[i]])
  {
    if order == [] then [] else [Doc(order[0], docs[order[0]])] + DocsAlong(order[1..], docs)
  }

  /** Storing a document under a new id and appending the id appends the document to the collection. */
  lemma DocsAlongAppend(order: seq<StockId>, docs: map<StockId, Stock>, id: StockId, s: Stock)
    requires forall x :: x in order ==> x in docs
    requires id !in order
    ensures DocsAlong(order + [id], docs[id := s]) == DocsAlong(order, docs) + [Doc(id, s)]
  {
    var a := DocsAlong(order + [id], docs[id := s]);
    var b := DocsAlong(order, docs) + [Doc(id, s)];
    assert forall i :: 0 <= i < |order| ==> (order + [id])[i] == order[i] && order[i] != id;
    assert |a| == |b|;
    assert forall i :: 0 <= i < |a| ==> a[i] == b[i];
  }

  /** `GET /`: the caller's documents, in the collection's order. */
  function List(coll: seq<Doc>, caller: UserId): (r: seq<Doc>)
    ensures forall d :: d in r <==> d in coll && d.stock.userId == caller
  {
    if coll == [] then []
    else (if coll[0].stock.userId == caller then [coll[0]] else []) + List(coll[1..], caller)
  }

  /** Listing a concatenation lists each part. */
  lemma {:induction false} ListAppend(a: seq<Doc>, b: seq<Doc>, caller: UserId)
    ensures List(a + b, caller) == List(a, caller) + List(b, caller)
  {
    if a != [] {
      assert (a + b)[1..] == a[1..] + b;
      ListAppend(a[1..], b, caller);
    } else {
      assert a + b == b;
    }
  }

  /**
   * Adding then listing: the caller's list after an add is the list before,
   * followed by the new document, whose stored values are the submitted ones.
   */
  lemma AddThenList(coll: seq<Doc>, caller: UserId, body: AddBody, id: StockId)
    requires Validate(FieldsFromBody(caller, body)).Saved?
    ensures var s := Validate(FieldsFromBody(caller, body)).stock;
            List(coll + [Doc(id, s)], caller) == List(coll, caller) + [Doc(id, s)]
  {
    var s := Validate(FieldsFromBody(caller, body)).stock;
    ListAppend(coll, [Doc(id, s)], caller);
    assert [Doc(id, s)][1..] == [];
  }

  /**
   * The week condition of a filter: a range given by both bounds wins over an
   * exact week, an exact week alone must match, and otherwise any week does.
   */
  predicate WeekMatches(q: FilterQuery, week: int) {
    if q.startWeek.Some? && q.endWeek.Some? then q.startWeek.value <= week <= q.endWeek.value
    else if q.week.Some? then week == q.week.value
    else true
  }

  /** The filter's query: the caller's documents of the given year meeting the week condition. */
  predicate Matches(d: Doc, caller: UserId, q: FilterQuery) {
    d.stock.userId == caller && d.stock.year == q.year && WeekMatches(q, d.stock.week)
  }

  /** The documents matching the filter's query, in the collection's order. */
  function Select(coll: seq<Doc>, caller: UserId, q: FilterQuery): (r: seq<Doc>)
    ensures forall d :: d in r <==> d in coll && Matches(d, caller, q)
  {
    if coll == [] then []
    else (if Matches(coll[0], caller, q) then [coll[0]] else []) + Select(coll[1..], caller, q)
  }

  function WeekKey(d: Doc): int {
    d.stock.week
  }

  /**
   * `GET /filter`: the matching documents, ascending by week; documents of the
   * same week stay in collection order.
   */
  function Filter(coll: seq<Doc>, caller: UserId, q: FilterQuery): (r: seq<Doc>)
    ensures Sorting.SortedBy(r, WeekKey)
    ensures multiset(r) == multiset(Select(coll, caller, q))
    ensures forall d :: d in r <==> d in coll && Matches(d, caller, q)
    ensures forall w :: Sorting.WithKey(r, WeekKey, w) == Sorting.WithKey(Select(coll, caller, q), WeekKey, w)
  {
    var r := Sorting.SortBy(Select(coll, caller, q), WeekKey);
    Sorting.SortByPermutes(Select(coll, caller, q), WeekKey);
    assert forall d :: d in r <==> d in multiset(r);
    forall w ensures Sorting.WithKey(r, WeekKey, w) == Sorting.WithKey(Select(coll, caller, q), WeekKey, w) {
      Sorting.SortByStable(Select(coll, caller, q), WeekKey, w);
    }
    r
  }

  /** Two queries that match the same documents select the same sequence. */
  lemma {:induction false} SelectSameMatches(coll: seq<Doc>, caller: UserId, q: FilterQuery, q': FilterQuery)
    requires forall d :: d in coll ==> (Matches(d, caller, q) <==> Matches(d, caller, q'))
    ensures Select(coll, caller, q) == Select(coll, caller, q')
  {
    if coll != [] {
      assert coll[0] in coll;
      assert forall d :: d in coll[1..] ==> d in coll;
      SelectSameMatches(coll[1..], caller, q, q');
    }
  }

  /** With both range bounds given, the exact week is ignored. */
  lemma RangeOverridesWeek(coll: seq<Doc>, caller: UserId, q: FilterQuery)
    requires q.startWeek.Some? && q.endWeek.Some?
    ensures Filter(coll, caller, q) == Filter(coll, caller, q.(week := None))
  {
    SelectSameMatches(coll, caller, q, q.(week := None));
  }

  /** A filter never returns more of the caller's documents than the list does. */
  lemma {:induction false} SelectWithinList(coll: seq<Doc>, caller: UserId, q: FilterQuery)
    ensures multiset(Select(coll, caller, q)) <= multiset(List(coll, caller))
  {
    if coll != [] {
      SelectWithinList(coll[1..], caller, q);
    }
  }

  /**
   * The sales update applied to a document: `quantitySold` is set, each price
   * is replaced only when supplied, `updatedAt` is stamped, nothing else moves.
   */
  function ApplySale(s: Stock, quantitySold: int, unitPrice: Option<int>, sellingPrice: Option<int>,
                     now: string): (t: Stock)
    ensures t.quantitySold == quantitySold && t.updatedAt == now
    ensures t.unitPrice == unitPrice.GetOr(s.unitPrice)
    ensures t.sellingPrice == (if sellingPrice.Some? then sellingPrice else s.sellingPrice)
    ensures t.userId == s.userId && t.itemName == s.itemName && t.quantityReceived == s.quantityReceived
    ensures t.week == s.week && t.year == s.year && t.createdAt == s.createdAt
  {
    s.(quantitySold := quantitySold, unitPrice := unitPrice.GetOr(s.unitPrice),
       sellingPrice := if sellingPrice.Some? then sellingPrice else s.sellingPrice, updatedAt := now)
  }

  /**
   * The outcome of `PUT /update-sales/:id`. The document is looked up by id
   * alone; an unknown id is NotFound, selling more than was received is
   * BadRequest, a document that fails validation on save is a server error.
   */
  function SaleOutcome(docs: map<StockId, Stock>, id: StockId, quantitySold: int, unitPrice: Option<int>,
                       sellingPrice: Option<int>, now: string): (r: Response)
    ensures id !in docs ==> r == NotFound
    ensures id in docs && quantitySold > docs[id].quantityReceived ==> r == BadRequest
    ensures r.Ok? ==> id in docs && r.stock == ApplySale(docs[id], quantitySold, unitPrice, sellingPrice, now)
    ensures r.Ok? ==> r.stock.quantitySold <= r.stock.quantityReceived
    ensures r != Created
  {
    if id !in docs then NotFound
    else if quantitySold > docs[id].quantityReceived then BadRequest
    else
      var t := ApplySale(docs[id], quantitySold, unitPrice, sellingPrice, now);
      if Validate(FieldsOf(t)).ValidationError? then ServerError else Ok(t)
  }

  /** Ownership is not checked: any caller can update any existing document within its received quantity. */
  lemma UpdateIgnoresOwner(docs: map<StockId, Stock>, id: StockId, quantitySold: int, unitPrice: Option<int>,
                           sellingPrice: Option<int>, now: string)
    requires id in docs && WellFormed(docs[id]) && now != ""
    requires quantitySold <= docs[id].quantityReceived
    ensures SaleOutcome(docs, id, quantitySold, unitPrice, sellingPrice, now).Ok?
  {
    StoredRoundTrip(ApplySale(docs[id], quantitySold, unitPrice, sellingPrice, now));
  }

  /** The persistent collection of stock documents. */
  class StockStore {
    var docs: map<StockId, Stock>
    var order: seq<StockId>

    /** Ids in `order` are distinct and are exactly the stored ones; every stored document is well-formed. */
    ghost predicate Valid()
      reads this
    {
      && (forall i, j :: 0 <= i < j < |order| ==> order[i] != order[j])
      && (forall id :: id in order <==> id in docs)
      && (forall id :: id in docs ==> WellFormed(docs[id]))
    }

    constructor ()
      ensures Valid() && docs == map[] && order == []
    {
      docs := map[];
      order := [];
    }

    /** The stored documents in the collection's natural order. */
    function Collection(): seq<Doc>
      reads this
      requires Valid()
    {
      DocsAlong(order, docs)
    }

    /**
     * `POST /add`: stores a new document owned by `caller` under the generated
     * id `id`. A validation failure or an id already in use is a server error
     * and changes nothing.
     */
    method Add(caller: UserId, body: AddBody, id: StockId) returns (r: Response)
      requires Valid()
      modifies this
      ensures Valid()
      ensures r == Created || r == ServerError
      ensures r == Created <==> Validate(FieldsFromBody(caller, body)).Saved? && id !in old(docs)
      ensures r == Created ==> docs == old(docs)[id := Validate(FieldsFromBody(caller, body)).stock]
      ensures r == Created ==> order == old(order) + [id]
      ensures r == Created ==> Collection() == old(Collection()) + [Doc(id, Validate(FieldsFromBody(caller, body)).stock)]
      ensures r == ServerError ==> docs == old(docs) && order == old(order)
    {
      var newStock := Validate(FieldsFromBody(caller, body));
      if newStock.ValidationError? || id in docs {
        return ServerError;
      }
      DocsAlongAppend(order, docs, id, newStock.stock);
      docs := docs[id := newStock.stock];
      order := order + [id];
      r := Created;
    }

    /**
     * `PUT /update-sales/:id`: refuses to oversell; otherwise sets
     * `quantitySold`, the supplied prices and `updatedAt`, and saves.
     * The caller's identity plays no part.
     */
    method UpdateSales(caller: UserId, id: StockId, quantitySold: int, unitPrice: Option<int>,
                       sellingPrice: Option<int>, now: string) returns (r: Response)
      requires Valid()
      modifies this
      ensures Valid()
      ensures r == SaleOutcome(old(docs), id, quantitySold, unitPrice, sellingPrice, now)
      ensures r.Ok? ==> docs == old(docs)[id := r.stock]
      ensures !r.Ok? ==> docs == old(docs)
      ensures order == old(order)
    {
      if id !in docs {
        return NotFound;
      }
      var stock := docs[id];
      if quantitySold > stock.quantityReceived {
        return BadRequest;
      }
      stock := stock.(quantitySold := quantitySold);
      if unitPrice.Some? {
        stock := stock.(unitPrice := unitPrice.value);
      }
      if sellingPrice.Some? {
        stock := stock.(sellingPrice := sellingPrice);
      }
      stock := stock.(updatedAt := now);
      if Validate(FieldsOf(stock)).ValidationError? {
        return ServerError;
      }
      docs := docs[id := stock];
      r := Ok(stock);
    }
  }
}
