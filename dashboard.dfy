/**
 * The stock dashboard: the rows on display, edit mode, the editable copies
 * keyed by row id, and an optional draft row, with the handlers that move
 * between them. Network calls are parameters (the rows a fetch received,
 * whether every update succeeded, the time service's answer); a save's result
 * is the set of update requests it would send.
 */
module Dashboard {
  import opened Wrappers
  import opened JsValues
  import Sorting
  import StockRoutes

  /** A table row: the JSON object of a document, or a draft. */
  type Row = Object

  /** A fetched row and the instant, in milliseconds, that its `createdAt` denotes. */
  datatype Fetched = Fetched(row: Row, created: int)

  /** Milliseconds in a day. */
  const DayMs := 86400000

  /** The property key a row is filed under: `String(row._id)`. */
  function IdKey(r: Row): string {
    ToStr(Get(r, "_id"))
  }

  // ---------------------------------------------------------------- fetch

  function NewestFirstKey(f: Fetched): int {
    -f.created
  }

  /** The order `fetchStocks` displays: newest `createdAt` first, ties kept in the order received. */
  function NewestFirst(fs: seq<Fetched>): (r: seq<Fetched>)
    ensures multiset(r) == multiset(fs)
    ensures forall i, j :: 0 <= i < j < |r| ==> r[i].created >= r[j].created
    ensures forall c :: Sorting.WithKey(r, NewestFirstKey, c) == Sorting.WithKey(fs, NewestFirstKey, c)
  {
    var r := Sorting.SortBy(fs, NewestFirstKey);
    Sorting.SortByPermutes(fs, NewestFirstKey);
    assert forall i, j :: 0 <= i < j < |r| ==> NewestFirstKey(r[i]) <= NewestFirstKey(r[j]);
    forall c ensures Sorting.WithKey(r, NewestFirstKey, c) == Sorting.WithKey(fs, NewestFirstKey, c) {
      Sorting.SortByStable(fs, NewestFirstKey, c);
    }
    r
  }

  function Rows(fs: seq<Fetched>): (rs: seq<Row>)
    ensures |rs| == |fs| && forall i :: 0 <= i < |fs| ==> rs[i] == fs[i].row
  {
    seq(|fs|, i requires 0 <= i < |fs| => fs[i].row)
  }

  /** The JSON object the list route sends for a stored document; an absent `sellingPrice` is left out. */
  function RowOf(d: StockRoutes.Doc): Row {
    var s := d.stock;
    var row := map[
      "_id" := Str(d.id), "userId" := Str(s.userId), "itemName" := Str(s.itemName),
      "quantityReceived" := Num(s.quantityReceived), "quantitySold" := Num(s.quantitySold),
      "unitPrice" := Num(s.unitPrice), "week" := Num(s.week), "year" := Num(s.year),
      "createdAt" := Str(s.createdAt), "updatedAt" := Str(s.updatedAt)];
    if s.sellingPrice.Some? then row["sellingPrice" := Num(s.sellingPrice.value)] else row
  }

  // ---------------------------------------------------------------- edit mode

  /**
   * The map `handleEditClick` builds with its reduce: each row filed under its
   * id, a later row overriding an earlier one with the same id.
   */
  function Snapshot(rows: seq<Row>): (m: map<string, Row>)
    ensures forall k :: k in m <==> exists i :: 0 <= i < |rows| && IdKey(rows[i]) == k
    ensures forall k :: k in m ==> IdKey(m[k]) == k && m[k] in rows
  {
    if rows == [] then map[]
    else
      var last := rows[|rows| - 1];
      var m := Snapshot(rows[..|rows| - 1])[IdKey(last) := last];
      assert forall i :: 0 <= i < |rows| - 1 ==> rows[..|rows| - 1][i] == rows[i];
      m
  }

  /** A row is the snapshot's copy for its id unless a later row has the same id. */
  lemma {:induction false} SnapshotLastWins(rows: seq<Row>, i: int)
    requires 0 <= i < |rows|
    requires forall j :: i < j < |rows| ==> IdKey(rows[j]) != IdKey(rows[i])
    ensures IdKey(rows[i]) in Snapshot(rows) && Snapshot(rows)[IdKey(rows[i])] == rows[i]
  {
    if i < |rows| - 1 {
      var prefix := rows[..|rows| - 1];
      assert forall j :: i < j < |prefix| ==> prefix[j] == rows[j];
      SnapshotLastWins(prefix, i);
    }
  }

  /** Row ids are pairwise distinct as property keys. */
  ghost predicate DistinctIds(rows: seq<Row>) {
    forall i, j :: 0 <= i < j < |rows| ==> IdKey(rows[i]) != IdKey(rows[j])
  }

  /** With distinct ids, the snapshot holds exactly one copy, equal to it, of every displayed row. */
  lemma SnapshotOfDistinct(rows: seq<Row>, i: int)
    requires DistinctIds(rows) && 0 <= i < |rows|
    ensures IdKey(rows[i]) in Snapshot(rows) && Snapshot(rows)[IdKey(rows[i])] == rows[i]
  {
    SnapshotLastWins(rows, i);
  }

  // ---------------------------------------------------------------- field edits

  /** A key whose edits are stored as numbers: it includes "quantity" or "price", case-sensitively. */
  predicate IsNumericKey(key: string) {
    Includes(key, "quantity") || Includes(key, "price")
  }

  /** `parseFloat(value) || 0` */
  function NumberOrZero(value: string): (v: Value)
    ensures v.Num?
    ensures ParseNumber(value) == NaN ==> v == Num(0)
    ensures ParseNumber(value) != NaN ==> v == ParseNumber(value)
  {
    match ParseNumber(value)
    case Num(n) => Num(n)
    case _ => Num(0)
  }

  /** The value a field edit on an existing row stores under `key`. */
  function EditedValue(key: string, value: string): Value {
    if IsNumericKey(key) then NumberOrZero(value) else Str(value)
  }

  /** `{...prev[id], [key]: ...}`: spreading an absent copy gives an empty object. */
  function EditedCopy(editable: map<string, Row>, id: string, key: string, value: string): (copy: Row)
    ensures Get(copy, key) == EditedValue(key, value)
    ensures forall k :: k != key ==> Get(copy, k) == (if id in editable then Get(editable[id], k) else Undefined)
  {
    (if id in editable then editable[id] else map[])[key := EditedValue(key, value)]
  }

  /** `{...prev, [key]: value}` on the draft: spreading no draft gives an empty object. */
  function EditedDraft(draft: Option<Row>, key: string, value: string): (d: Row)
    ensures Get(d, key) == Str(value)
    ensures forall k :: k != key ==> Get(d, k) == (if draft.Some? then Get(draft.value, k) else Undefined)
  {
    (if draft.Some? then draft.value else map[])[key := Str(value)]
  }

  /** Neither price key includes "quantity" or the lower-case "price". */
  lemma PriceKeysAreNotNumeric()
    ensures !IsNumericKey("unitPrice") && !IsNumericKey("sellingPrice")
  {
    assert 'q' !in "unitPrice" && 'p' !in "unitPrice";
    assert 'q' !in "sellingPrice" && 'p' !in "sellingPrice";
    NotIncludedWithoutFirstChar("unitPrice", "quantity");
    NotIncludedWithoutFirstChar("unitPrice", "price");
    NotIncludedWithoutFirstChar("sellingPrice", "quantity");
    NotIncludedWithoutFirstChar("sellingPrice", "price");
  }

  /** Edits of the name keep the raw text. */
  lemma ItemNameIsNotNumeric()
    ensures !IsNumericKey("itemName")
  {
    assert 'q' !in "itemName" && 'p' !in "itemName";
    NotIncludedWithoutFirstChar("itemName", "quantity");
    NotIncludedWithoutFirstChar("itemName", "price");
  }

  /** The match on "price" is case-sensitive, so edits of the two prices keep the raw text. */
  lemma PriceEditsKeepText(value: string)
    ensures EditedValue("unitPrice", value) == Str(value)
    ensures EditedValue("sellingPrice", value) == Str(value)
  {
    PriceKeysAreNotNumeric();
  }

  /** Edits of the two quantities are parsed, an unparseable text giving 0. */
  lemma QuantityEditsAreNumbers(value: string)
    ensures EditedValue("quantityReceived", value) == NumberOrZero(value)
    ensures EditedValue("quantitySold", value) == NumberOrZero(value)
  {
    assert "quantityReceived"[..|"quantity"|] == "quantity";
    assert "quantitySold"[..|"quantity"|] == "quantity";
  }

  // ---------------------------------------------------------------- save

  /** `rows[i]` is the first row whose `_id` is the string `id`. */
  predicate FirstWithId(rows: seq<Row>, id: string, i: int) {
    && 0 <= i < |rows| && Get(rows[i], "_id") == Str(id)
    && forall j :: 0 <= j < i ==> Get(rows[j], "_id") != Str(id)
  }

  /** `stocks.find(s => s._id === id)` */
  function FindRow(rows: seq<Row>, id: string): (r: Option<Row>)
    ensures r.Some? ==> r.value in rows && Get(r.value, "_id") == Str(id)
    ensures r.None? ==> forall i :: 0 <= i < |rows| ==> Get(rows[i], "_id") != Str(id)
  {
    if rows == [] then None
    else if StrictEq(Get(rows[0], "_id"), Str(id)) then Some(rows[0])
    else
      var r := FindRow(rows[1..], id);
      assert forall i :: 1 <= i < |rows| ==> rows[i] == rows[1..][i - 1];
      r
  }

  /** The row `find` returns is the first row with that id. */
  lemma {:induction false} FindRowFirst(rows: seq<Row>, id: string)
    ensures FindRow(rows, id).Some? ==> exists i :: FirstWithId(rows, id, i) && rows[i] == FindRow(rows, id).value
  {
    if rows != [] {
      if StrictEq(Get(rows[0], "_id"), Str(id)) {
        assert FirstWithId(rows, id, 0);
      } else {
        FindRowFirst(rows[1..], id);
        var r := FindRow(rows[1..], id);
        if r.Some? {
          var i :| FirstWithId(rows[1..], id, i) && rows[1..][i] == r.value;
          StrictEqIsIdentityExceptNaN(Get(rows[0], "_id"), Str(id));
          assert FirstWithId(rows, id, i + 1);
        }
      }
    }
  }

  /**
   * The comparison of a save: the name or a quantity differs under `!==`, or a
   * price differs under `!==` after `parseFloat`.
   */
  predicate HasChanged(original: Row, copy: Row) {
    || StrictNe(Get(original, "itemName"), Get(copy, "itemName"))
    || StrictNe(Get(original, "quantityReceived"), Get(copy, "quantityReceived"))
    || StrictNe(Get(original, "quantitySold"), Get(copy, "quantitySold"))
    || StrictNe(ParseFloat(Get(original, "unitPrice")), ParseFloat(Get(copy, "unitPrice")))
    || StrictNe(ParseFloat(Get(original, "sellingPrice")), ParseFloat(Get(copy, "sellingPrice")))
  }

  /** A copy is sent when a displayed row has its id and differs from it. */
  predicate IsChanged(stocks: seq<Row>, id: string, copy: Row) {
    FindRow(stocks, id).Some? && HasChanged(FindRow(stocks, id).value, copy)
  }

  /** The body sent for a changed copy: its fields, prices parsed, stamped with the save's time. */
  function Outgoing(copy: Row, now: string): (body: Row)
    ensures Get(body, "unitPrice") == ParseFloat(Get(copy, "unitPrice"))
    ensures Get(body, "sellingPrice") == ParseFloat(Get(copy, "sellingPrice"))
    ensures Get(body, "updatedAt") == Str(now)
    ensures forall k :: k != "unitPrice" && k != "sellingPrice" && k != "updatedAt" ==> Get(body, k) == Get(copy, k)
    ensures IdKey(body) == IdKey(copy)
  {
    copy["unitPrice" := ParseFloat(Get(copy, "unitPrice"))]
        ["sellingPrice" := ParseFloat(Get(copy, "sellingPrice"))]
        ["updatedAt" := Str(now)]
  }

  /** The id in the URL of an update request, `update-sales/${stock._id}`: the body's own `_id`. */
  function Target(body: Row): string {
    IdKey(body)
  }

  /** The `.filter` of a save: the copy ids whose copy differs from the displayed row they find. */
  function ChangedIds(editable: map<string, Row>, stocks: seq<Row>): (ids: set<string>)
    ensures forall id :: id in ids <==> id in editable && IsChanged(stocks, id, editable[id])
  {
    set id | id in editable && IsChanged(stocks, id, editable[id])
  }

  /**
   * The update requests of a save, by editable-copy id. A copy is selected when
   * its key finds a displayed row it differs from; each body is stamped with one
   * time and is sent to the copy's own `_id`, which need not be the key.
   */
  function ChangedRequests(editable: map<string, Row>, stocks: seq<Row>, now: string): (reqs: map<string, Row>)
    ensures reqs.Keys <= editable.Keys
    ensures forall id :: id in reqs ==> FindRow(stocks, id).Some?
    ensures forall id :: id in editable ==> (id in reqs <==> IsChanged(stocks, id, editable[id]))
    ensures forall id :: id in reqs ==> reqs[id] == Outgoing(editable[id], now)
    ensures forall id :: id in reqs ==> Get(reqs[id], "updatedAt") == Str(now)
    ensures forall id :: id in reqs ==> Target(reqs[id]) == IdKey(editable[id])
  {
    map id | id in ChangedIds(editable, stocks) :: Outgoing(editable[id], now)
  }

  /** A row every save comparison treats as equal to itself: no NaN among the compared values. */
  predicate Comparable(r: Row) {
    && Get(r, "itemName") != NaN && Get(r, "quantityReceived") != NaN && Get(r, "quantitySold") != NaN
    && ParseFloat(Get(r, "unitPrice")) != NaN && ParseFloat(Get(r, "sellingPrice")) != NaN
  }

  /** With distinct ids, looking a row's own id up finds that row or, for a non-string id, nothing. */
  lemma FindOwnRow(stocks: seq<Row>, i: int)
    requires DistinctIds(stocks) && 0 <= i < |stocks|
    ensures FindRow(stocks, IdKey(stocks[i])).Some? ==> FindRow(stocks, IdKey(stocks[i])).value == stocks[i]
    ensures Get(stocks[i], "_id").Str? ==> FindRow(stocks, IdKey(stocks[i])) == Some(stocks[i])
  {
    var r := FindRow(stocks, IdKey(stocks[i]));
    if r.Some? {
      var j :| 0 <= j < |stocks| && stocks[j] == r.value;
      assert IdKey(stocks[j]) == IdKey(stocks[i]);
    }
  }

  /** A comparable row compared with itself has not changed. */
  lemma SelfUnchanged(r: Row)
    requires Comparable(r)
    ensures !HasChanged(r, r)
  {
    var name, received, sold := Get(r, "itemName"), Get(r, "quantityReceived"), Get(r, "quantitySold");
    var unit, selling := ParseFloat(Get(r, "unitPrice")), ParseFloat(Get(r, "sellingPrice"));
    StrictEqIsIdentityExceptNaN(name, name);
    StrictEqIsIdentityExceptNaN(received, received);
    StrictEqIsIdentityExceptNaN(sold, sold);
    StrictEqIsIdentityExceptNaN(unit, unit);
    StrictEqIsIdentityExceptNaN(selling, selling);
  }

  /**
   * Saving right after entering edit mode sends nothing, provided ids are
   * distinct and no compared value is NaN.
   */
  lemma NoEditNoRequest(stocks: seq<Row>, now: string)
    requires DistinctIds(stocks)
    requires forall i :: 0 <= i < |stocks| ==> Comparable(stocks[i])
    ensures ChangedRequests(Snapshot(stocks), stocks, now) == map[]
  {
    var snap := Snapshot(stocks);
    var reqs := ChangedRequests(snap, stocks, now);
    forall id | id in snap
      ensures !IsChanged(stocks, id, snap[id])
    {
      var i :| 0 <= i < |stocks| && IdKey(stocks[i]) == id;
      SnapshotOfDistinct(stocks, i);
      FindOwnRow(stocks, i);
      SelfUnchanged(stocks[i]);
    }
    assert reqs.Keys == {};
  }

  /**
   * Because NaN !== NaN, a displayed row whose selling price does not parse
   * (for one, a document stored without it) is sent even when nobody edited it.
   */
  lemma UnparsedPriceAlwaysSent(stocks: seq<Row>, now: string, i: int)
    requires DistinctIds(stocks) && 0 <= i < |stocks| && Get(stocks[i], "_id").Str?
    requires ParseFloat(Get(stocks[i], "sellingPrice")) == NaN
    ensures IdKey(stocks[i]) in ChangedRequests(Snapshot(stocks), stocks, now)
  {
    SnapshotOfDistinct(stocks, i);
    FindOwnRow(stocks, i);
  }

  /** The compared values of a fetched row are the document's. */
  lemma RowOfCompared(d: StockRoutes.Doc)
    ensures Get(RowOf(d), "_id") == Str(d.id)
    ensures Get(RowOf(d), "itemName") == Str(d.stock.itemName)
    ensures Get(RowOf(d), "quantityReceived") == Num(d.stock.quantityReceived)
    ensures Get(RowOf(d), "quantitySold") == Num(d.stock.quantitySold)
    ensures Get(RowOf(d), "unitPrice") == Num(d.stock.unitPrice)
    ensures Get(RowOf(d), "sellingPrice") == if d.stock.sellingPrice.Some? then Num(d.stock.sellingPrice.value) else Undefined
  {
    assert "sellingPrice" != "_id" && "sellingPrice" != "userId" && "sellingPrice" != "itemName";
    assert "sellingPrice" != "quantityReceived" && "sellingPrice" != "quantitySold" && "sellingPrice" != "unitPrice";
    assert "sellingPrice" != "week" && "sellingPrice" != "year" && "sellingPrice" != "createdAt" && "sellingPrice" != "updatedAt";
  }

  /**
   * A fetched document is comparable exactly when it has a selling price; one
   * without reads as NaN in the save's comparison.
   */
  lemma FetchedRowComparable(d: StockRoutes.Doc)
    ensures d.stock.sellingPrice.Some? <==> Comparable(RowOf(d))
    ensures d.stock.sellingPrice.None? ==> ParseFloat(Get(RowOf(d), "sellingPrice")) == NaN
    ensures IdKey(RowOf(d)) == d.id
  {
    RowOfCompared(d);
  }

  /** Editing the name of a displayed row to a different text makes the next save send it. */
  lemma NameEditSent(stocks: seq<Row>, now: string, i: int, value: string)
    requires DistinctIds(stocks) && 0 <= i < |stocks| && Get(stocks[i], "_id").Str?
    requires Get(stocks[i], "itemName") != Str(value)
    ensures var id := IdKey(stocks[i]);
            var edited := Snapshot(stocks)[id := EditedCopy(Snapshot(stocks), id, "itemName", value)];
            id in ChangedRequests(edited, stocks, now)
  {
    var id := IdKey(stocks[i]);
    var copy := EditedCopy(Snapshot(stocks), id, "itemName", value);
    var edited := Snapshot(stocks)[id := copy];
    ItemNameIsNotNumeric();
    assert Get(copy, "itemName") == Str(value);
    FindOwnRow(stocks, i);
    StrictEqIsIdentityExceptNaN(Get(stocks[i], "itemName"), Str(value));
    assert HasChanged(stocks[i], copy);
    assert IsChanged(stocks, id, edited[id]);
  }

  /** Every request of a save goes to an id the server accepts. */
  predicate AllAccepted(reqs: map<string, Row>, accepted: set<string>) {
    forall id :: id in reqs ==> Target(reqs[id]) in accepted
  }

  /** A save that sends at least one request, all of them accepted, succeeds. */
  predicate SaveSucceeds(reqs: map<string, Row>, accepted: set<string>) {
    reqs != map[] && AllAccepted(reqs, accepted)
  }

  /** Every copy is filed under its own `_id`, as the snapshot files them. */
  predicate Filed(editable: map<string, Row>) {
    forall id :: id in editable ==> IdKey(editable[id]) == id
  }

  /**
   * An edit of any field but `_id` keeps the copy's id; on an id with no copy it
   * starts from an empty object, whose `_id` reads as "undefined".
   */
  lemma EditKeepsId(editable: map<string, Row>, id: string, key: string, value: string)
    requires key != "_id"
    ensures IdKey(EditedCopy(editable, id, key, value)) == if id in editable then IdKey(editable[id]) else "undefined"
  {
  }

  /** Edits of copies the snapshot took keep the copies filed under their own ids. */
  lemma EditKeepsFiled(editable: map<string, Row>, id: string, key: string, value: string)
    requires Filed(editable) && id in editable && key != "_id"
    ensures Filed(editable[id := EditedCopy(editable, id, key, value)])
  {
    EditKeepsId(editable, id, key, value);
  }

  /** While every copy is filed under its own id, each request goes to the id it was selected under. */
  lemma FiledRequestsTargetOwnId(editable: map<string, Row>, stocks: seq<Row>, now: string)
    requires Filed(editable)
    ensures var reqs := ChangedRequests(editable, stocks, now);
            forall id :: id in reqs ==> Target(reqs[id]) == id
  {
  }

  /**
   * Editing a displayed row while no snapshot was taken (`handleAddRow` enters
   * edit mode without one) builds a copy with no `_id`. The next save selects it
   * under the row's id, yet sends it to `update-sales/undefined`.
   */
  lemma EditWithoutSnapshotMisaddressed(r: Row, value: string, now: string)
    requires Get(r, "_id").Str? && Get(r, "_id") != Str("undefined")
    requires Get(r, "itemName").Str?
    ensures var id := IdKey(r);
            var reqs := ChangedRequests(map[id := EditedCopy(map[], id, "quantitySold", value)], [r], now);
            id in reqs && Target(reqs[id]) == "undefined" && Target(reqs[id]) != id
  {
    var id := IdKey(r);
    var copy := EditedCopy(map[], id, "quantitySold", value);
    assert Get(copy, "itemName") == Undefined;
    assert FindRow([r], id) == Some(r);
    assert HasChanged(r, copy);
    EditKeepsId(map[], id, "quantitySold", value);
  }

  // ---------------------------------------------------------------- new rows

  /** The draft `handleAddRow` opens: five empty fields. */
  function EmptyDraft(): Row {
    map["itemName" := Str(""), "quantityReceived" := Str(""), "quantitySold" := Str(""),
        "unitPrice" := Str(""), "sellingPrice" := Str("")]
  }

  /** The check of `handleSaveNewRow`: a draft exists and its four required fields are truthy. */
  predicate DraftComplete(draft: Option<Row>) {
    && draft.Some?
    && Truthy(Get(draft.value, "itemName")) && Truthy(Get(draft.value, "quantityReceived"))
    && Truthy(Get(draft.value, "unitPrice")) && Truthy(Get(draft.value, "sellingPrice"))
  }

  /** A freshly opened draft cannot be committed. */
  lemma EmptyDraftIncomplete()
    ensures !DraftComplete(Some(EmptyDraft()))
  {
  }

  /** `ceil(a / b)` for a positive divisor. */
  function CeilDiv(a: int, b: int): (q: int)
    requires b > 0
    ensures (q - 1) * b < a <= q * b
  {
    var f := (-a) / b;
    assert f * b <= -a < f * b + b;
    -f
  }

  /**
   * The week number of `handleSaveNewRow`: `ceil((days since 1 January +
   * weekday of 1 January + 1) / 7)`, in whole milliseconds.
   */
  function WeekOfYear(msIntoYear: int, yearStartWeekday: int): int {
    CeilDiv(msIntoYear + (yearStartWeekday + 1) * DayMs, 7 * DayMs)
  }

  /** Inside a year the week number lies in 1..54, one more than ISO's largest week. */
  lemma WeekInRange(msIntoYear: int, yearStartWeekday: int)
    requires 0 <= msIntoYear < 366 * DayMs && 0 <= yearStartWeekday <= 6
    ensures 1 <= WeekOfYear(msIntoYear, yearStartWeekday) <= 54
  {
  }

  /** The week number never decreases as time advances. */
  lemma WeekMonotone(ms1: int, ms2: int, yearStartWeekday: int)
    requires ms1 <= ms2
    ensures WeekOfYear(ms1, yearStartWeekday) <= WeekOfYear(ms2, yearStartWeekday)
  {
  }

  /** 15 March 2024 is day 74 of a year that began on a Monday: week 11 all day. */
  lemma WeekOfMarch15In2024(msIntoYear: int)
    requires 74 * DayMs <= msIntoYear < 75 * DayMs
    ensures WeekOfYear(msIntoYear, 1) == 11
  {
  }

  /** 31 December of a leap year that began on a Saturday is week 54. */
  lemma WeekCanReach54()
    ensures WeekOfYear(365 * DayMs, 6) == 54
  {
  }

  /**
   * The row `handleSaveNewRow` adds: a temporary id, then the draft's fields,
   * then the week, the year and both timestamps.
   */
  function TempRow(draft: Row, clock: int, year: int, week: int, now: string): (t: Row)
    ensures "_id" !in draft ==> Get(t, "_id") == Str("temp-" + ShowInt(clock))
    ensures "_id" !in draft ==> IdKey(t) == "temp-" + ShowInt(clock)
    ensures Get(t, "week") == Num(week) && Get(t, "year") == Num(year)
    ensures Get(t, "createdAt") == Str(now) && Get(t, "updatedAt") == Str(now)
    ensures forall k :: k in draft && k !in {"week", "year", "createdAt", "updatedAt"} ==> Get(t, k) == draft[k]
  {
    (map["_id" := Str("temp-" + ShowInt(clock))] + draft)
      ["week" := Num(week)]["year" := Num(year)]["createdAt" := Str(now)]["updatedAt" := Str(now)]
  }

  // ---------------------------------------------------------------- the page state

  /** The dashboard's four state cells. */
  class DashboardState {
    var stocks: seq<Row>
    var editMode: bool
    var editableStock: map<string, Row>
    var newRow: Option<Row>

    constructor ()
      ensures stocks == [] && !editMode && editableStock == map[] && newRow == None
    {
      stocks := [];
      editMode := false;
      editableStock := map[];
      newRow := None;
    }

    /** `fetchStocks`: a received list is shown newest first; a failed request changes nothing. */
    method FetchStocks(response: Option<seq<Fetched>>)
      modifies this
      ensures response.Some? ==> stocks == Rows(NewestFirst(response.value))
      ensures response.None? ==> stocks == old(stocks)
      ensures editMode == old(editMode) && editableStock == old(editableStock) && newRow == old(newRow)
    {
      if response.Some? {
        stocks := Rows(NewestFirst(response.value));
      }
    }

    /** `handleEditClick`: enters edit mode with a copy of every displayed row. */
    method HandleEditClick()
      modifies this
      ensures editMode && editableStock == Snapshot(stocks)
      ensures stocks == old(stocks) && newRow == old(newRow)
    {
      editMode := true;
      var rows := stocks;
      var acc: map<string, Row> := map[];
      var i := 0;
      while i < |rows|
        invariant 0 <= i <= |rows|
        invariant acc == Snapshot(rows[..i])
      {
        assert rows[..i + 1][..i] == rows[..i];
        acc := acc[IdKey(rows[i]) := rows[i]];
        i := i + 1;
      }
      assert rows[..|rows|] == rows;
      editableStock := acc;
    }

    /**
     * `handleInputChange`: the id "new" edits the draft with the raw text; any
     * other id edits that copy's `key` only, numeric keys parsed.
     */
    method HandleInputChange(id: string, key: string, value: string)
      modifies this
      ensures id == "new" ==> newRow == Some(EditedDraft(old(newRow), key, value)) && editableStock == old(editableStock)
      ensures id != "new" ==> editableStock == old(editableStock)[id := EditedCopy(old(editableStock), id, key, value)]
      ensures id != "new" ==> newRow == old(newRow)
      ensures stocks == old(stocks) && editMode == old(editMode)
    {
      if id == "new" {
        newRow := Some(EditedDraft(newRow, key, value));
      } else {
        editableStock := editableStock[id := EditedCopy(editableStock, id, key, value)];
      }
    }

    /**
     * `handleSaveClick` with the time `now`: returns the update requests it
     * sends. `accepted` holds the ids whose update request the server answers
     * with success. With no request it changes nothing; when every request's
     * target is accepted it leaves edit mode and clears the copies; otherwise
     * (`Promise.all` rejects) it changes nothing.
     */
    method HandleSaveClick(now: string, accepted: set<string>) returns (requests: map<string, Row>)
      modifies this
      ensures requests == ChangedRequests(old(editableStock), old(stocks), now)
      ensures if SaveSucceeds(requests, accepted) then !editMode && editableStock == map[]
              else editMode == old(editMode) && editableStock == old(editableStock)
      ensures stocks == old(stocks) && newRow == old(newRow)
    {
      var sent := ChangedRequests(editableStock, stocks, now);
      if SaveSucceeds(sent, accepted) {
        editMode := false;
        editableStock := map[];
      }
      requests := sent;
    }

    /** `handleCancelClick`: leaves edit mode and drops the copies; rows and draft stay. */
    method HandleCancelClick()
      modifies this
      ensures !editMode && editableStock == map[]
      ensures stocks == old(stocks) && newRow == old(newRow)
    {
      editMode := false;
      editableStock := map[];
    }

    /** `handleAddRow`: opens an empty draft and enters edit mode. */
    method HandleAddRow()
      modifies this
      ensures newRow == Some(EmptyDraft()) && editMode
      ensures stocks == old(stocks) && editableStock == old(editableStock)
    {
      newRow := Some(EmptyDraft());
      editMode := true;
    }

    /** The cancel icon of the draft row: drops the draft. */
    method DiscardNewRow()
      modifies this
      ensures newRow == None
      ensures stocks == old(stocks) && editMode == old(editMode) && editableStock == old(editableStock)
    {
      newRow := None;
    }

    /**
     * `handleSaveNewRow` at time `now` (`msIntoYear` after 1 January of `year`,
     * which fell on weekday `yearStartWeekday`; `clock` is `Date.now()`): an
     * incomplete draft changes nothing; otherwise a temporary row goes to the
     * top of the table and into the copies, and the draft is closed.
     */
    method HandleSaveNewRow(now: string, year: int, msIntoYear: int, yearStartWeekday: int, clock: int)
      modifies this
      ensures !DraftComplete(old(newRow)) ==>
                stocks == old(stocks) && editableStock == old(editableStock) && newRow == old(newRow)
      ensures DraftComplete(old(newRow)) ==>
                var t := TempRow(old(newRow).value, clock, year, WeekOfYear(msIntoYear, yearStartWeekday), now);
                && stocks == [t] + old(stocks)
                && editableStock == old(editableStock)[IdKey(t) := t]
                && newRow == None
      ensures editMode == old(editMode)
    {
      if !DraftComplete(newRow) {
        return;
      }
      var week := WeekOfYear(msIntoYear, yearStartWeekday);
      var tempStock := TempRow(newRow.value, clock, year, week, now);
      stocks := [tempStock] + stocks;
      editableStock := editableStock[IdKey(tempStock) := tempStock];
      newRow := None;
    }
  }
}
