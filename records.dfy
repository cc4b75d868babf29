/**
 * The catalog's stored records (catalog/models.py: Item, PriceHistory) and
 * the one query over them that both the price form and the last-purchase
 * view run: "the item's price entries, newest first, first one".
 *
 * Tables are sequences in storage order. When several entries share the
 * latest date the database's order among them is unspecified; the model
 * takes the first of them in storage order, for both callers alike.
 */
module Records {
  import opened Wrappers

  type ItemId = nat
  type StoreId = nat

  /** An item with the names of its tags (one per row of the many-to-many table). */
  datatype Item = Item(id: ItemId, name: string, tags: seq<string>)

  /** One price observation; prices are in cents, dates are timestamps. */
  datatype PriceEntry = PriceEntry(
    item: ItemId,
    store: StoreId,
    price: int,
    currency: string,
    dateRecorded: int,
    onSale: bool,
    preSalePrice: Option<int>,
    productUrl: Option<string>)

  /** The sale-price invariant an accepted entry satisfies. */
  predicate SaleConsistent(e: PriceEntry) {
    && (e.onSale ==> e.preSalePrice.Some? && e.preSalePrice.value > e.price)
    && (!e.onSale ==> e.preSalePrice.None?)
  }

  /** `item.price_entries`: the entries of one item, in storage order. */
  function ForItem(entries: seq<PriceEntry>, item: ItemId): (r: seq<PriceEntry>)
    ensures forall e :: e in r <==> e in entries && e.item == item
    ensures |r| <= |entries|
  {
    if entries == [] then []
    else
      var rest := ForItem(entries[1..], item);
      assert forall e :: e in entries <==> e == entries[0] || e in entries[1..];
      if entries[0].item == item then [entries[0]] + rest else rest
  }

  /** The index of a latest-dated entry: the first, in storage order, of those with the greatest date. */
  function LatestIndex(es: seq<PriceEntry>): (k: nat)
    requires |es| > 0
    ensures k < |es|
    ensures forall j :: 0 <= j < |es| ==> es[j].dateRecorded <= es[k].dateRecorded
    ensures forall j :: 0 <= j < k ==> es[j].dateRecorded < es[k].dateRecorded
  {
    if |es| == 1 then 0
    else
      var k := LatestIndex(es[..|es| - 1]);
      if es[|es| - 1].dateRecorded > es[k].dateRecorded then |es| - 1 else k
  }

  /** `order_by('-date_recorded').first()`: nothing for no entries, else a latest-dated one. */
  function Latest(es: seq<PriceEntry>): (r: Option<PriceEntry>)
    ensures r.None? <==> es == []
    ensures r.Some? ==> r.value in es && forall e :: e in es ==> e.dateRecorded <= r.value.dateRecorded
  {
    if es == [] then None else Some(es[LatestIndex(es)])
  }

  /** Python truthiness of a nullable URL: set and non-empty. */
  predicate HasUrl(url: Option<string>) {
    url.Some? && url.value != ""
  }

  /** The URL when it is truthy, else nothing. */
  function UrlOrNone(url: Option<string>): (r: Option<string>)
    ensures r.Some? <==> HasUrl(url)
    ensures r.Some? ==> r == url
  {
    if HasUrl(url) then url else None
  }
}
