# Stock inventory: schema, API and dashboard editing, modelled in Dafny

This project models the core of a small stock-inventory web application. Users
record, per item and per week, how much stock they received and sold. The
model covers three parts:

- **The stock document** (`stock_schema.dfy`, module `StockSchema`). A `Stock`
  datatype and the schema's save-time validation `Validate`. Required paths
  must be present: `userId`, `itemName`, `quantityReceived`, `unitPrice`,
  `week`, `year`, `createdAt` and `updatedAt`. A required string must also be
  non-empty. `quantitySold` defaults to 0 and `sellingPrice` is optional.
  Timestamps are opaque strings.
- **The stock API** (`stock_routes.dfy`, module `StockRoutes`). A class
  `StockStore` holds the collection as a map from id to document, plus the
  collection's natural (insertion) order. It has two methods:
  - `Add` stores a document owned by the caller.
  - `UpdateSales` refuses to oversell and otherwise changes only the sales
    fields.

  Listing and filtering are pure selections over the collection: `List` and
  `Filter`. The caller's identity is a parameter. Outcomes are a `Response`
  datatype (`Created`, `Ok`, `NotFound`, `BadRequest`, `ServerError`) in place
  of HTTP statuses.
- **The dashboard** (`dashboard.dfy`, module `Dashboard`). A class
  `DashboardState` holds the page's four state cells: the displayed rows, the
  edit-mode flag, the editable copies keyed by row id, and an optional draft
  row. Its methods are the page's handlers. The pure parts are functions with
  lemmas:
  - the descending sort of fetched rows;
  - the snapshot taken on entering edit mode;
  - the changed-set computation of a save;
  - the week-of-year formula.

  Rows are JavaScript objects, modelled as maps from property name to a
  JavaScript `Value`. Module `JsValues` (`js_values.dfy`) gives the JavaScript
  semantics these handlers rely on:
  - strict equality, where NaN equals nothing;
  - truthiness;
  - `parseFloat`;
  - `String(n)`;
  - `includes`.

  Module `Sorting` (`sorting.dfy`) is the stable sort that both the server and
  the client use. Module `Wrappers` (`wrappers.dfy`) gives `Option`.

Things outside the model are parameters:
- the time service's answer (the current time and the week-of-year inputs);
- `Date.now()`;
- the rows a fetch received;
- which ids the server accepts an update request for;
- the id the database generates for a new document.

A save's result is the set of update requests it would send, keyed by
editable-copy id. Each request goes to the `_id` carried by its own body,
which need not be the key it was selected under.

Three behaviours of the code worth noting:
- An add whose body fails validation is answered with a server error (500),
  not a validation error. The route's catch block turns every failure into a
  500.
- Committing a new row registers it only on the client. The next save can
  send it only as an update (`update-sales`), never as a create. The model
  keeps this as it is.
- Adding a row turns edit mode on without taking a snapshot. A field edit on a
  displayed row then builds a copy with no `_id`. The next save selects that
  copy under the row's id but sends it to `update-sales/undefined`, which the
  server cannot find. The model keeps this too
  (`Dashboard.EditWithoutSnapshotMisaddressed`).

## Model

| member | source | states |
|---|---|---|
| `StockSchema.Validate` | Final_MERN_Project/backend/models/Stock.js:3-14 | A document is saved exactly when every required path passes its check. The saved document holds the given values, with `quantitySold` defaulting to 0, and it is well-formed. Otherwise validation fails, naming exactly the failing paths. |
| `StockSchema.MissingPathRejected` | Final_MERN_Project/backend/models/Stock.js:4-13 | A document missing any of `userId`, `itemName`, `quantityReceived`, `unitPrice`, `week`, `year`, `createdAt` or `updatedAt` is rejected, and that path is reported. |
| `StockSchema.QuantitySoldDefaultsToZero` | Final_MERN_Project/backend/models/Stock.js:7 | A well-formed document given without `quantitySold` is stored with `quantitySold` = 0. |
| `StockSchema.SellingPriceOptional` | Final_MERN_Project/backend/models/Stock.js:9 | Leaving out `sellingPrice` keeps a well-formed document valid; it is stored without a selling price. |
| `StockSchema.TimestampsAreOpaque` | Final_MERN_Project/backend/models/Stock.js:12-13 | Any non-empty strings are accepted as `createdAt` and `updatedAt` and are stored as given. |
| `StockSchema.StoredRoundTrip` | Final_MERN_Project/backend/models/Stock.js:3-14 | Re-validating the values of a stored well-formed document gives back the same document. |
| `StockSchema.SchemaHasNoBounds` | Final_MERN_Project/backend/models/Stock.js:6-11 | The schema accepts a negative quantity, week 0 and more sold than received. |
| `StockRoutes.StockStore.Add` | Final_MERN_Project/backend/routes/stockRoutes.js:8-34 | Created exactly when the caller-owned values pass validation and the generated id is unused. Then the store gains that one document and the collection gains it at the end. Otherwise the result is a server error and nothing changes. The store invariant is kept. |
| `StockRoutes.AddedDocument` | Final_MERN_Project/backend/routes/stockRoutes.js:16-26 | An added document belongs to the caller and has `quantitySold` = 0. All its other values are the submitted ones. |
| `StockRoutes.AddIgnoresBodyOwner` | Final_MERN_Project/backend/routes/stockRoutes.js:10-26 | A `userId` or `quantitySold` in the request body makes no difference to what is stored. |
| `StockRoutes.List` | Final_MERN_Project/backend/routes/stockRoutes.js:39 | A document is listed exactly when it is in the collection and its `userId` is the caller's. |
| `StockRoutes.ListAppend` | Final_MERN_Project/backend/routes/stockRoutes.js:39 | Listing a concatenated collection lists each part in turn. |
| `StockRoutes.AddThenList` | Final_MERN_Project/backend/routes/stockRoutes.js:16-39 | After a successful add, the caller's list is the earlier list followed by the new document. |
| `StockRoutes.StockStore.UpdateSales` | Final_MERN_Project/backend/routes/stockRoutes.js:48-73 | The result is `SaleOutcome` of the old store. On success only that id's document is replaced, by the updated one. On every other outcome the store is unchanged. The order is unchanged and the store invariant is kept. |
| `StockRoutes.SaleOutcome` | Final_MERN_Project/backend/routes/stockRoutes.js:52-68 | An unknown id gives NotFound. Selling more than was received gives BadRequest. A success returns the sales update of the stored document, and it never has more sold than received. |
| `StockRoutes.ApplySale` | Final_MERN_Project/backend/routes/stockRoutes.js:61-66 | `quantitySold` becomes the input. Each price is replaced only when supplied. `updatedAt` becomes now. Owner, name, received quantity, week, year and `createdAt` are unchanged. |
| `StockRoutes.UpdateIgnoresOwner` | Final_MERN_Project/backend/routes/stockRoutes.js:52 | Any existing well-formed document is updated within its received quantity, whoever owns it. The lookup is by id alone. |
| `StockRoutes.Select` | Final_MERN_Project/backend/routes/stockRoutes.js:81-91 | A document is selected exactly when it is the caller's, of the given year and meets the week condition. With both range bounds the condition is the inclusive range; else with an exact week it is equality; else any week. |
| `StockRoutes.Filter` | Final_MERN_Project/backend/routes/stockRoutes.js:93 | The result is ascending by week. It is a permutation of the selection: exactly the matching documents. Documents of the same week keep their collection order. |
| `StockRoutes.RangeOverridesWeek` | Final_MERN_Project/backend/routes/stockRoutes.js:84-91 | With both `startWeek` and `endWeek` given, the filter's result is the same as without the exact week. |
| `StockRoutes.SelectWithinList` | Final_MERN_Project/backend/routes/stockRoutes.js:81 | Every filter selection is a sub-multiset of the caller's list. |
| `Sorting.SortBy` | Final_MERN_Project/backend/routes/stockRoutes.js:93 | The result is sorted ascending by the key and is as long as the input. |
| `Sorting.SortByPermutes` | Final_MERN_Project/backend/routes/stockRoutes.js:93 | The sorted result is a permutation of the input. |
| `Sorting.SortByStable` | Final_MERN_Project/frontend/src/pages/Dashboard.js:41 | The sort is stable: for every key value, the elements with that key keep their input order. |
| `JsValues.StrictEqIsIdentityExceptNaN` | Final_MERN_Project/frontend/src/pages/Dashboard.js:102-107 | `a === b` holds exactly when the values are equal and not NaN. |
| `JsValues.ParseFloat` | Final_MERN_Project/frontend/src/pages/Dashboard.js:113-114 | `parseFloat` always gives a number or NaN. A number is returned as it is, and undefined gives NaN. |
| `JsValues.LeadingSpaceIgnored` | Final_MERN_Project/frontend/src/pages/Dashboard.js:73 | A leading white-space or line-terminator character, in the full ECMAScript sense, does not change what `parseFloat` reads. |
| `JsValues.NoBreakSpaceThenDigit` | Final_MERN_Project/frontend/src/pages/Dashboard.js:73 | `parseFloat` of a no-break space followed by "5" is 5. |
| `JsValues.ParseShowRoundTrip` | Final_MERN_Project/frontend/src/pages/Dashboard.js:113-114 | Parsing the decimal text of any integer gives back that integer. |
| `JsValues.IncludesAt` | Final_MERN_Project/frontend/src/pages/Dashboard.js:73 | `s.includes(pat)` holds exactly when `pat` occurs in `s` at some index. |
| `Dashboard.NewestFirst` | Final_MERN_Project/frontend/src/pages/Dashboard.js:41 | Fetched rows are ordered by `createdAt` from newest to oldest, and no row is added or lost. Rows with the same `createdAt` keep the order they were received in. |
| `Dashboard.DashboardState.FetchStocks` | Final_MERN_Project/frontend/src/pages/Dashboard.js:28-47 | A received list replaces the displayed rows, newest first. A failed fetch changes nothing. The other cells are unchanged. |
| `Dashboard.Snapshot` | Final_MERN_Project/frontend/src/pages/Dashboard.js:57-60 | The copies' keys are exactly the ids of the displayed rows. Each copy is a displayed row filed under its own id. |
| `Dashboard.SnapshotLastWins` | Final_MERN_Project/frontend/src/pages/Dashboard.js:57-60 | A row whose id no later row repeats is the copy under its id. |
| `Dashboard.SnapshotOfDistinct` | Final_MERN_Project/frontend/src/pages/Dashboard.js:54-61 | With distinct ids, every displayed row is present under its id as an equal copy. |
| `Dashboard.DashboardState.HandleEditClick` | Final_MERN_Project/frontend/src/pages/Dashboard.js:54-62 | Edit mode is on and the copies are the snapshot of the displayed rows. Rows and draft are unchanged. |
| `Dashboard.EditedCopy` | Final_MERN_Project/frontend/src/pages/Dashboard.js:69-75 | A field edit sets only `key` of the copy, to the coerced value. Every other key keeps the copy's value, or is undefined when there was no copy. |
| `Dashboard.EditedDraft` | Final_MERN_Project/frontend/src/pages/Dashboard.js:66-67 | A draft edit sets only `key`, to the raw text. Every other key keeps the draft's value, or is undefined with no draft. |
| `Dashboard.NumberOrZero` | Final_MERN_Project/frontend/src/pages/Dashboard.js:73 | `parseFloat(value) \|\| 0` is always a number: the parsed one, or 0 when parsing gives NaN. |
| `Dashboard.ItemNameIsNotNumeric` | Final_MERN_Project/frontend/src/pages/Dashboard.js:73 | `itemName` contains neither "quantity" nor "price". |
| `Dashboard.PriceKeysAreNotNumeric` | Final_MERN_Project/frontend/src/pages/Dashboard.js:73 | `unitPrice` and `sellingPrice` contain neither "quantity" nor the lower-case "price". |
| `Dashboard.PriceEditsKeepText` | Final_MERN_Project/frontend/src/pages/Dashboard.js:73 | Edits of `unitPrice` and `sellingPrice` store the raw text, with no coercion. |
| `Dashboard.QuantityEditsAreNumbers` | Final_MERN_Project/frontend/src/pages/Dashboard.js:73 | Edits of `quantityReceived` and `quantitySold` store `parseFloat(value) \|\| 0`. |
| `Dashboard.DashboardState.HandleInputChange` | Final_MERN_Project/frontend/src/pages/Dashboard.js:65-77 | The id "new" changes only the draft and leaves the copies alone. Any other id changes only that id's copy. Rows and edit mode are unchanged. |
| `Dashboard.FindRow` | Final_MERN_Project/frontend/src/pages/Dashboard.js:98 | A found row is a displayed row whose `_id` is the id. No row found means no displayed row has that `_id`. |
| `Dashboard.FindRowFirst` | Final_MERN_Project/frontend/src/pages/Dashboard.js:98 | The row found is the first displayed row whose `_id` is the id. |
| `Dashboard.Outgoing` | Final_MERN_Project/frontend/src/pages/Dashboard.js:111-116 | A request body carries the copy's fields, with both prices parsed and `updatedAt` set to the save's time. |
| `Dashboard.ChangedRequests` | Final_MERN_Project/frontend/src/pages/Dashboard.js:96-128 | A copy is selected exactly when its key finds a displayed row that it differs from. Each body is the outgoing form of its copy with one common `updatedAt`. Each request goes to the copy's own `_id`, not to the key it was selected under. |
| `Dashboard.FindOwnRow` | Final_MERN_Project/frontend/src/pages/Dashboard.js:98-99 | With distinct ids, looking up a row's own id finds that row. |
| `Dashboard.SelfUnchanged` | Final_MERN_Project/frontend/src/pages/Dashboard.js:102-107 | A row with no NaN among the compared values does not count as changed against itself. |
| `Dashboard.NoEditNoRequest` | Final_MERN_Project/frontend/src/pages/Dashboard.js:96-123 | A save right after entering edit mode sends no request, given distinct ids and no NaN among the compared values. |
| `Dashboard.UnparsedPriceAlwaysSent` | Final_MERN_Project/frontend/src/pages/Dashboard.js:106-107 | Because NaN !== NaN, a row whose selling price does not parse is sent even if nobody edited it. |
| `Dashboard.FetchedRowComparable` | Final_MERN_Project/frontend/src/pages/Dashboard.js:106-107 | A row fetched from the store is comparable exactly when its document has a selling price. Without one, the price reads as NaN. |
| `Dashboard.EditKeepsId` | Final_MERN_Project/frontend/src/pages/Dashboard.js:69-75 | An edit of any field but `_id` keeps the copy's id. An edit on an id with no copy starts from an empty object, whose `_id` reads as "undefined". |
| `Dashboard.EditKeepsFiled` | Final_MERN_Project/frontend/src/pages/Dashboard.js:69-75 | Edits of copies that are filed under their own ids, as the snapshot files them, keep every copy filed under its own id. |
| `Dashboard.FiledRequestsTargetOwnId` | Final_MERN_Project/frontend/src/pages/Dashboard.js:96-128 | While every copy is filed under its own id, each request goes to the id it was selected under. |
| `Dashboard.EditWithoutSnapshotMisaddressed` | Final_MERN_Project/frontend/src/pages/Dashboard.js:69-128 | A field edit on a displayed row with no copy yet, as after adding a row, is selected by the next save under the row's id but sent to "undefined". |
| `Dashboard.NameEditSent` | Final_MERN_Project/frontend/src/pages/Dashboard.js:102-103 | Editing a displayed row's name to a different text makes the next save send that row. |
| `Dashboard.DashboardState.HandleSaveClick` | Final_MERN_Project/frontend/src/pages/Dashboard.js:82-144 | Returns the changed requests. If there are none, nothing changes. If the server accepts every request's target id, edit mode is off and the copies are empty. If it refuses any, nothing changes. Rows and draft are always unchanged. |
| `Dashboard.DashboardState.HandleCancelClick` | Final_MERN_Project/frontend/src/pages/Dashboard.js:149-152 | Edit mode is off and the copies are empty. Rows and draft are unchanged. |
| `Dashboard.DashboardState.HandleAddRow` | Final_MERN_Project/frontend/src/pages/Dashboard.js:155-164 | Opens the five-field empty draft and turns edit mode on. Rows and copies are unchanged. |
| `Dashboard.DashboardState.DiscardNewRow` | Final_MERN_Project/frontend/src/pages/Dashboard.js:269 | Drops the draft and leaves everything else unchanged. |
| `Dashboard.EmptyDraftIncomplete` | Final_MERN_Project/frontend/src/pages/Dashboard.js:155-172 | A freshly opened draft fails the commit check. |
| `Dashboard.DashboardState.HandleSaveNewRow` | Final_MERN_Project/frontend/src/pages/Dashboard.js:168-215 | If itemName, quantityReceived, unitPrice or sellingPrice is falsy, nothing changes. Otherwise exactly one temporary row is put in front of the rows and registered among the copies under its id, and the draft is closed. Edit mode is unchanged. |
| `Dashboard.TempRow` | Final_MERN_Project/frontend/src/pages/Dashboard.js:199-206 | The temporary row's id is "temp-" followed by the clock, and the copy is filed under that id. It carries the week, the year and the time in both timestamps, and every other draft field is kept. |
| `Dashboard.CeilDiv` | Final_MERN_Project/frontend/src/pages/Dashboard.js:188 | The result is the ceiling of `a / b`: the least `q` with `a <= q * b`. |
| `Dashboard.WeekInRange` | Final_MERN_Project/frontend/src/pages/Dashboard.js:188 | For any instant inside a year, the week number is between 1 and 54. |
| `Dashboard.WeekMonotone` | Final_MERN_Project/frontend/src/pages/Dashboard.js:194 | The week number never decreases as time advances. |
| `Dashboard.WeekOfMarch15In2024` | Final_MERN_Project/frontend/src/pages/Dashboard.js:188 | 15 March 2024, in a year that began on a Monday, is week 11 throughout the day. |
| `Dashboard.WeekCanReach54` | Final_MERN_Project/frontend/src/pages/Dashboard.js:194 | 31 December of a leap year that began on a Saturday is week 54, one more than any ISO week. |
| `Dashboard.DashboardState.constructor` | Final_MERN_Project/frontend/src/pages/Dashboard.js:8-11 | The page starts with no rows, edit mode off, no copies and no draft. |

## Left out

- Authentication: `authMiddleware` is not part of this model. The caller's id is a parameter, and the Unauthorized path is not modelled.
- Express routing, HTTP status codes and JSON responses: outcomes are `Response` values.
- `StockRoutes.StockStore.Add`: the shift of both timestamps by +5.5 hours and their conversion to ISO text are not modelled, because date parsing and formatting are outside the model. Timestamps are stored as given. An unparseable timestamp, which makes the source throw and answer 500, is stored as given in the model.
- `StockRoutes.StockStore.UpdateSales`: the database casts an id to an ObjectId first. An id that is not a valid ObjectId, such as a "temp-" id, makes the source answer 500; the abstract store answers NotFound. A body without `quantitySold`, and JSON `null` prices, are not modelled: they need JavaScript's `undefined`/`null` coercions inside the database layer.
- `StockRoutes.Filter`: query strings are taken as already parsed integers. `parseInt` of a malformed value (NaN) and a missing `year` are not modelled, because they depend on how the database layer casts query values. The database does not specify the order of documents with the same week; the model keeps collection order for them.
- `Dashboard.DashboardState.HandleSaveClick`: the concurrent `Promise.all` is reduced to the set of requests plus the set of target ids the server accepts. Which ids those are is a parameter: the server's own answer depends on the store, as `StockRoutes.SaleOutcome` states. Partial success is reported as a failure in the source too. The re-fetch after success is the separate `FetchStocks` call. Alerts and console logging are left out.
- `Dashboard.DashboardState.FetchStocks`: the token check, navigation and the HTTP call are left out. The `createdAt` instant of each fetched row is given as an integer, because `Date` parsing is outside the model.
- `Dashboard.DashboardState.HandleSaveNewRow`: the time service call and its local fallback both become parameters: the time text, the year, the milliseconds since local 1 January and the weekday of 1 January. Time zones and daylight saving are not modelled.
- Numbers are integers. `JsValues.ParseNumber` reads only the integer part, so fractions, exponents and `Infinity` are not modelled. JSON serialisation of NaN as `null` is not modelled.
- Rendering (the JSX table, `formattedHeaders`, column filtering) is not modelled: it computes no state.
- The version key `__v` that the database adds to every document is omitted from `Dashboard.RowOf`.
