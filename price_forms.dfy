/**
 * The price-entry form (catalog/forms.py, PriceHistoryForm): defaults taken
 * from the item's most recent entry, and the sale-price rule of `clean`.
 *
 * Django's field-level validation (decimal digits, URL syntax, the date
 * widget, the store choice) is abstracted: the form is given the values the
 * fields cleaned to, absent where a field failed or was left empty, with the
 * messages of the fields that failed. Prices are in cents. As in Django's
 * `_clean_fields`, a field that reported an error is expected to have no
 * cleaned value; the model does not enforce this, and on inputs that break
 * it `clean` may compare a price Django would have dropped (validity is the
 * same either way, since the reported error alone makes the form invalid).
 */
module PriceForms {
  import opened Wrappers
  import opened Records

  datatype Field = StoreField | PriceField | DateRecordedField | OnSaleField | PreSalePriceField | ProductUrlField

  /** `cleaned_data`; an absent value is a missing key (`.get` gives None). */
  datatype CleanedData = CleanedData(
    store: Option<StoreId>,
    price: Option<int>,
    dateRecorded: Option<int>,
    onSale: bool,
    preSalePrice: Option<int>,
    productUrl: Option<string>)

  const NoData: CleanedData := CleanedData(None, None, None, false, None, None)

  const MissingOriginal: string := "Original price is required when 'Is this a sale price?' is checked."
  const NotGreater: string := "Original price must be greater than the sale price."
  const RequiredMessage: string := "This field is required."

  /** Django's `add_error` also drops the field from `cleaned_data`. */
  function Without(cd: CleanedData, f: Field): (r: CleanedData)
    ensures r.store == if f == StoreField then None else cd.store
    ensures r.price == if f == PriceField then None else cd.price
    ensures r.dateRecorded == if f == DateRecordedField then None else cd.dateRecorded
    ensures r.onSale == (f != OnSaleField && cd.onSale)
    ensures r.preSalePrice == if f == PreSalePriceField then None else cd.preSalePrice
    ensures r.productUrl == if f == ProductUrlField then None else cd.productUrl
  {
    match f
    case StoreField => cd.(store := None)
    case PriceField => cd.(price := None)
    case DateRecordedField => cd.(dateRecorded := None)
    case OnSaleField => cd.(onSale := false)
    case PreSalePriceField => cd.(preSalePrice := None)
    case ProductUrlField => cd.(productUrl := None)
  }

  function ErrorsOn(errors: map<Field, seq<string>>, f: Field): seq<string> {
    if f in errors then errors[f] else []
  }

  /** The error map after `add_error(f, message)`. */
  function WithError(errors: map<Field, seq<string>>, f: Field, message: string): (r: map<Field, seq<string>>)
    ensures r.Keys == errors.Keys + {f}
    ensures ErrorsOn(r, f) == ErrorsOn(errors, f) + [message]
    ensures forall g :: g != f && g in errors ==> r[g] == errors[g]
  {
    errors[f := ErrorsOn(errors, f) + [message]]
  }

  /** The message `clean` attaches to `pre_sale_price` (forms.py:62-66), if any. */
  function SaleError(cd: CleanedData): Option<string> {
    if cd.onSale then
      if cd.preSalePrice.None? then Some(MissingOriginal)
      else if cd.price.Some? && cd.preSalePrice.value <= cd.price.value then Some(NotGreater)
      else None
    else None
  }

  /** `cleaned_data` after `clean` (forms.py:56-70). */
  function AfterClean(cd: CleanedData): CleanedData {
    if SaleError(cd).Some? then Without(cd, PreSalePriceField)
    else if !cd.onSale && cd.preSalePrice.Some? then cd.(preSalePrice := None)
    else cd
  }

  /** The error map after `clean`. */
  function ErrorsAfterClean(errors: map<Field, seq<string>>, cd: CleanedData): map<Field, seq<string>> {
    match SaleError(cd)
    case Some(message) => WithError(errors, PreSalePriceField, message)
    case None => errors
  }

  /**
   * With `on_sale` set and the price known, `clean` accepts exactly when an
   * original price is given and it is strictly greater than the price.
   */
  lemma SaleRule(cd: CleanedData)
    requires cd.onSale && cd.price.Some?
    ensures SaleError(cd).None? <==> cd.preSalePrice.Some? && cd.preSalePrice.value > cd.price.value
  {
  }

  /** With `on_sale` set and no original price, `pre_sale_price` gets the "required" error. */
  lemma MissingOriginalRejected(cd: CleanedData)
    requires cd.onSale && cd.preSalePrice.None?
    ensures SaleError(cd) == Some(MissingOriginal)
  {
  }

  /** An original price equal to the price is rejected as well as a smaller one. */
  lemma EqualPricesRejected()
    ensures SaleError(CleanedData(Some(1), Some(7999), Some(0), true, Some(7999), None)) == Some(NotGreater)
    ensures SaleError(CleanedData(Some(1), Some(9999), Some(0), true, Some(7999), None)) == Some(NotGreater)
  {
  }

  /** A valid sale passes `clean` untouched. */
  lemma ValidSaleUnchanged(cd: CleanedData)
    requires cd.onSale && cd.preSalePrice.Some?
    requires cd.price.Some? ==> cd.preSalePrice.value > cd.price.value
    ensures SaleError(cd).None? && AfterClean(cd) == cd
  {
  }

  /** A price that failed its own validation is never compared. */
  lemma MissingPriceNotCompared(cd: CleanedData)
    requires cd.onSale && cd.preSalePrice.Some? && cd.price.None?
    ensures SaleError(cd).None?
  {
  }

  /** Without `on_sale`, `clean` adds no error and clears the original price. */
  lemma NotOnSaleClears(cd: CleanedData)
    requires !cd.onSale
    ensures SaleError(cd).None?
    ensures AfterClean(cd) == cd.(preSalePrice := None)
  {
  }

  /**
   * `clean` adds at most one error, only on `pre_sale_price`, and changes no
   * other cleaned value.
   */
  lemma CleanScope(errors: map<Field, seq<string>>, cd: CleanedData)
    ensures AfterClean(cd) == cd.(preSalePrice := AfterClean(cd).preSalePrice)
    ensures ErrorsAfterClean(errors, cd) == errors
            || ErrorsAfterClean(errors, cd) == WithError(errors, PreSalePriceField, SaleError(cd).value)
    ensures ErrorsAfterClean(errors, cd).Keys <= errors.Keys + {PreSalePriceField}
  {
  }

  /** Django's `required` check for the store, the price and the date, on top of the fields' own errors. */
  function FieldErrors(values: CleanedData, reported: map<Field, seq<string>>): (r: map<Field, seq<string>>)
    ensures reported.Keys <= r.Keys
    ensures forall f :: f in reported ==> r[f] == reported[f]
    ensures r == map[] <==> reported == map[] && values.store.Some? && values.price.Some? && values.dateRecorded.Some?
  {
    var a := if values.store.None? && StoreField !in reported then reported[StoreField := [RequiredMessage]] else reported;
    var b := if values.price.None? && PriceField !in a then a[PriceField := [RequiredMessage]] else a;
    var c := if values.dateRecorded.None? && DateRecordedField !in b then b[DateRecordedField := [RequiredMessage]] else b;
    assert StoreField in a || values.store.Some?;
    assert PriceField in b || values.price.Some?;
    c
  }

  /** `is_valid()`: no field error and no error from `clean`. */
  predicate Accepts(values: CleanedData, reported: map<Field, seq<string>>) {
    ErrorsAfterClean(FieldErrors(values, reported), values) == map[]
  }

  /** The form is valid exactly when every field passed and the sale rule holds. */
  lemma AcceptsIff(values: CleanedData, reported: map<Field, seq<string>>)
    ensures Accepts(values, reported) <==>
            reported == map[] && values.store.Some? && values.price.Some? && values.dateRecorded.Some?
            && SaleError(values).None?
  {
    var fe := FieldErrors(values, reported);
    if SaleError(values).Some? {
      assert PreSalePriceField in ErrorsAfterClean(fe, values);
    }
  }

  /** The entry `form.save(commit=False)` builds and `add_price_entry` stores for `item`. */
  function EntryFrom(item: ItemId, cd: CleanedData): (e: PriceEntry)
    requires cd.store.Some? && cd.price.Some? && cd.dateRecorded.Some?
    ensures e.item == item
  {
    PriceEntry(item, cd.store.value, cd.price.value, "HUF", cd.dateRecorded.value,
               cd.onSale, cd.preSalePrice, cd.productUrl)
  }

  /** Whatever the form accepts is a complete entry satisfying the sale-price invariant. */
  lemma AcceptedIsConsistent(item: ItemId, values: CleanedData, reported: map<Field, seq<string>>)
    requires Accepts(values, reported)
    ensures var cd := AfterClean(values);
            cd.store.Some? && cd.price.Some? && cd.dateRecorded.Some?
            && SaleConsistent(EntryFrom(item, cd))
  {
    AcceptsIff(values, reported);
  }

  /** The form's initial store and product URL. */
  datatype Initials = Initials(store: Option<StoreId>, productUrl: Option<string>)

  /**
   * The defaults `__init__` gives a form for an item (forms.py:49-54), as
   * evidently intended: the store and the URL of one latest-dated entry, the
   * URL only when it is non-empty, and no defaults when there is no entry.
   */
  function Prefill(item: Option<ItemId>, history: seq<PriceEntry>): (init: Initials)
    ensures item.None? || ForItem(history, item.value) == [] ==> init == Initials(None, None)
    ensures item.Some? && ForItem(history, item.value) != [] ==>
              exists e :: e in ForItem(history, item.value)
                          && (forall e' :: e' in ForItem(history, item.value) ==> e'.dateRecorded <= e.dateRecorded)
                          && init == Initials(Some(e.store), UrlOrNone(e.productUrl))
  {
    match item
    case None => Initials(None, None)
    case Some(i) =>
      match Latest(ForItem(history, i))
      case None => Initials(None, None)
      case Some(e) => Initials(Some(e.store), UrlOrNone(e.productUrl))
  }

  /** What `__init__` as written does: fill in the defaults, or fail on `None.product_url`. */
  datatype InitOutcome = Initialised(initials: Initials) | AttributeError

  /**
   * `__init__` as written (forms.py:49-54): line 53 reads `product_url` of
   * the last purchase even when there is none.
   */
  function PrefillAsWritten(item: Option<ItemId>, history: seq<PriceEntry>): InitOutcome {
    match item
    case None => Initialised(Initials(None, None))
    case Some(i) =>
      var last := Latest(ForItem(history, i));
      var store := if last.Some? then Some(last.value.store) else None;
      if last.None? then AttributeError
      else if HasUrl(last.value.productUrl) && store == Some(last.value.store) then
        Initialised(Initials(store, last.value.productUrl))
      else
        Initialised(Initials(store, None))
  }

  /** For an item with no price entry yet, the form as written cannot even be built. */
  lemma PrefillAsWrittenFailsWithoutHistory(i: ItemId, history: seq<PriceEntry>)
    requires ForItem(history, i) == []
    ensures PrefillAsWritten(Some(i), history) == AttributeError
  {
  }

  /** Wherever the code as written succeeds, it gives the intended defaults; it fails nowhere else. */
  lemma PrefillAsWrittenAgrees(item: Option<ItemId>, history: seq<PriceEntry>)
    ensures PrefillAsWritten(item, history) == AttributeError
            <==> item.Some? && ForItem(history, item.value) == []
    ensures PrefillAsWritten(item, history).Initialised? ==>
              PrefillAsWritten(item, history).initials == Prefill(item, history)
  {
  }

  /**
   * Two entries, 2024-01-01 at store 1 with URL "x" and 2024-02-01 at store 2
   * with URL "y": the defaults are store 2 and "y", never store 2 with "x".
   */
  lemma PrefillTakesLatest()
    ensures var a := PriceEntry(7, 1, 100, "HUF", 20240101, false, None, Some("x"));
            var b := PriceEntry(7, 2, 100, "HUF", 20240201, false, None, Some("y"));
            Prefill(Some(7), [a, b]) == Initials(Some(2), Some("y"))
  {
    var a := PriceEntry(7, 1, 100, "HUF", 20240101, false, None, Some("x"));
    var b := PriceEntry(7, 2, 100, "HUF", 20240201, false, None, Some("y"));
    var es := ForItem([a, b], 7);
    assert es == [a, b] by {
      assert [a, b][1..] == [b];
      assert ForItem([b], 7) == [b];
    }
    var l := Latest(es);
    assert l == Some(b) by {
      assert b in es && l.value in es;
      assert l.value == a || l.value == b;
    }
    assert HasUrl(b.productUrl);
  }

  /** A bound `PriceHistoryForm` for one request. */
  class PriceHistoryForm {
    const itemInstance: Option<ItemId>
    var storeInitial: Option<StoreId>
    var productUrlInitial: Option<string>
    var cleaned: CleanedData
    var errors: map<Field, seq<string>>

    /** `__init__` (forms.py:45-54) as evidently intended: defaults from one latest entry, or none. */
    constructor (itemInstance: Option<ItemId>, history: seq<PriceEntry>)
      ensures this.itemInstance == itemInstance
      ensures Initials(storeInitial, productUrlInitial) == Prefill(itemInstance, history)
      ensures cleaned == NoData && errors == map[]
    {
      var store: Option<StoreId> := None;
      var url: Option<string> := None;
      if itemInstance.Some? {
        var last := Latest(ForItem(history, itemInstance.value));
        if last.Some? {
          store := Some(last.value.store);
          if HasUrl(last.value.productUrl) && store == Some(last.value.store) {
            url := last.value.productUrl;
          }
        }
      }
      this.itemInstance := itemInstance;
      storeInitial := store;
      productUrlInitial := url;
      cleaned := NoData;
      errors := map[];
    }

    /** Django's `add_error(field, message)`. */
    method AddError(field: Field, message: string)
      modifies this
      ensures errors == WithError(old(errors), field, message)
      ensures cleaned == Without(old(cleaned), field)
      ensures storeInitial == old(storeInitial) && productUrlInitial == old(productUrlInitial)
    {
      errors := WithError(errors, field, message);
      cleaned := Without(cleaned, field);
    }

    /** `clean` (forms.py:56-70). */
    method Clean()
      modifies this
      ensures cleaned == AfterClean(old(cleaned))
      ensures errors == ErrorsAfterClean(old(errors), old(cleaned))
      ensures storeInitial == old(storeInitial) && productUrlInitial == old(productUrlInitial)
    {
      var onSale := cleaned.onSale;
      var preSalePrice := cleaned.preSalePrice;
      var price := cleaned.price;
      if onSale {
        if preSalePrice.None? {
          AddError(PreSalePriceField, MissingOriginal);
        } else if price.Some? && preSalePrice.value <= price.value {
          AddError(PreSalePriceField, NotGreater);
        }
      } else if !onSale && preSalePrice.Some? {
        cleaned := cleaned.(preSalePrice := None);
      }
    }

    /** `is_valid()`: field validation, then `clean`, then "no errors". */
    method IsValid(values: CleanedData, reported: map<Field, seq<string>>) returns (valid: bool)
      modifies this
      ensures valid <==> Accepts(values, reported)
      ensures cleaned == AfterClean(values)
      ensures errors == ErrorsAfterClean(FieldErrors(values, reported), values)
      ensures storeInitial == old(storeInitial) && productUrlInitial == old(productUrlInitial)
    {
      cleaned := values;
      errors := FieldErrors(values, reported);
      Clean();
      valid := errors == map[];
    }
  }
}
