/**
 * The stock document of the inventory backend: one item received and sold by
 * one user in one week of one year. Saving a document runs the schema's
 * validation: required paths must be present, `quantitySold` defaults to 0 and
 * `sellingPrice` may be absent. Timestamps are opaque strings.
 */
module StockSchema {
  import opened Wrappers

  /** The identifier of the owning user. */
  type UserId = string

  /** A stock document as it is stored. */
  datatype Stock = Stock(
    userId: UserId,
    itemName: string,
    quantityReceived: int,
    quantitySold: int,
    unitPrice: int,
    sellingPrice: Option<int>,
    week: int,
    year: int,
    createdAt: string,
    updatedAt: string)

  /** The values handed to the model before saving; an absent one is None. */
  datatype StockFields = StockFields(
    userId: Option<UserId>,
    itemName: Option<string>,
    quantityReceived: Option<int>,
    quantitySold: Option<int>,
    unitPrice: Option<int>,
    sellingPrice: Option<int>,
    week: Option<int>,
    year: Option<int>,
    createdAt: Option<string>,
    updatedAt: Option<string>)

  /** The schema's required paths. */
  datatype Path = UserIdPath | ItemNamePath | QuantityReceivedPath | UnitPricePath
                | WeekPath | YearPath | CreatedAtPath | UpdatedAtPath

  /** Saving either stores a document or fails validation naming the paths that failed. */
  datatype SaveResult = Saved(stock: Stock) | ValidationError(failed: set<Path>)

  /** The `required` check on a string path: present and not the empty string. */
  predicate RequiredString(v: Option<string>) {
    v.Some? && v.value != ""
  }

  /** Whether required path `p` passes its `required` check. */
  predicate Present(f: StockFields, p: Path) {
    match p
    case UserIdPath => f.userId.Some?
    case ItemNamePath => RequiredString(f.itemName)
    case QuantityReceivedPath => f.quantityReceived.Some?
    case UnitPricePath => f.unitPrice.Some?
    case WeekPath => f.week.Some?
    case YearPath => f.year.Some?
    case CreatedAtPath => RequiredString(f.createdAt)
    case UpdatedAtPath => RequiredString(f.updatedAt)
  }

  /** Well-formed on save: every required path passes. */
  predicate WellFormedFields(f: StockFields) {
    forall p: Path :: Present(f, p)
  }

  /** A stored document whose values would pass validation again. */
  predicate WellFormed(s: Stock) {
    s.itemName != "" && s.createdAt != "" && s.updatedAt != ""
  }

  /** The values of a stored document, every path present. */
  function FieldsOf(s: Stock): StockFields {
    StockFields(Some(s.userId), Some(s.itemName), Some(s.quantityReceived), Some(s.quantitySold),
                Some(s.unitPrice), s.sellingPrice, Some(s.week), Some(s.year),
                Some(s.createdAt), Some(s.updatedAt))
  }

  /** The required paths that fail their check. */
  function FailedPaths(f: StockFields): (ps: set<Path>)
    ensures forall p :: p in ps <==> !Present(f, p)
  {
    set p: Path | !Present(f, p)
  }

  /**
   * Validation on save. A document is stored exactly when every required path
   * passes; it then holds the given values, with `quantitySold` defaulting to 0.
   */
  function Validate(f: StockFields): (r: SaveResult)
    ensures r.Saved? <==> WellFormedFields(f)
    ensures r.Saved? ==> WellFormed(r.stock)
    ensures r.Saved? ==> FieldsOf(r.stock) == f.(quantitySold := Some(f.quantitySold.GetOr(0)))
    ensures r.ValidationError? ==> r.failed != {} && forall p :: p in r.failed <==> !Present(f, p)
  {
    var failed := FailedPaths(f);
    if failed != {} then ValidationError(failed)
    else
      assert forall p: Path :: Present(f, p) by {
        forall p: Path ensures Present(f, p) {
          assert p !in failed;
        }
      }
      assert Present(f, UserIdPath) && Present(f, ItemNamePath) && Present(f, QuantityReceivedPath)
          && Present(f, UnitPricePath) && Present(f, WeekPath) && Present(f, YearPath)
          && Present(f, CreatedAtPath) && Present(f, UpdatedAtPath);
      Saved(Stock(f.userId.value, f.itemName.value, f.quantityReceived.value, f.quantitySold.GetOr(0),
                  f.unitPrice.value, f.sellingPrice, f.week.value, f.year.value,
                  f.createdAt.value, f.updatedAt.value))
  }

  /** A document missing any required path is rejected, and the path is reported. */
  lemma MissingPathRejected(f: StockFields, p: Path)
    requires !Present(f, p)
    ensures Validate(f).ValidationError? && p in Validate(f).failed
  {
  }

  /** When `quantitySold` is not supplied, the stored document holds 0. */
  lemma QuantitySoldDefaultsToZero(f: StockFields)
    requires WellFormedFields(f) && f.quantitySold.None?
    ensures Validate(f).Saved? && Validate(f).stock.quantitySold == 0
  {
  }

  /** `sellingPrice` is optional: leaving it out does not make a document invalid. */
  lemma SellingPriceOptional(f: StockFields)
    requires WellFormedFields(f)
    ensures Validate(f.(sellingPrice := None)).Saved?
    ensures Validate(f.(sellingPrice := None)).stock.sellingPrice == None
  {
    assert forall p: Path :: Present(f.(sellingPrice := None), p) == Present(f, p);
  }

  /** Timestamps are opaque: any non-empty string is accepted and stored as given. */
  lemma TimestampsAreOpaque(f: StockFields, created: string, updated: string)
    requires WellFormedFields(f) && created != "" && updated != ""
    ensures Validate(f.(createdAt := Some(created), updatedAt := Some(updated))).Saved?
    ensures Validate(f.(createdAt := Some(created), updatedAt := Some(updated))).stock.createdAt == created
    ensures Validate(f.(createdAt := Some(created), updatedAt := Some(updated))).stock.updatedAt == updated
  {
    var g := f.(createdAt := Some(created), updatedAt := Some(updated));
    assert forall p: Path :: Present(g, p) by {
      forall p: Path ensures Present(g, p) {
        assert Present(f, p);
      }
    }
  }

  /** A stored well-formed document passes validation again unchanged. */
  lemma StoredRoundTrip(s: Stock)
    requires WellFormed(s)
    ensures Validate(FieldsOf(s)) == Saved(s)
  {
    assert forall p: Path :: Present(FieldsOf(s), p);
  }

  /**
   * The schema puts no bounds on the numbers: negative quantities, a week
   * outside 1..53 and more sold than received are all accepted.
   */
  lemma SchemaHasNoBounds()
    ensures var f := StockFields(Some("owner"), Some("bolts"), Some(-5), Some(10), Some(-1), None,
                                 Some(0), Some(-7), Some("c"), Some("u"));
            && Validate(f).Saved?
            && Validate(f).stock.quantitySold > Validate(f).stock.quantityReceived
            && Validate(f).stock.quantityReceived < 0
            && Validate(f).stock.week == 0
  {
    var f := StockFields(Some("owner"), Some("bolts"), Some(-5), Some(10), Some(-1), None,
                         Some(0), Some(-7), Some("c"), Some("u"));
    assert forall p: Path :: Present(f, p);
  }
}
