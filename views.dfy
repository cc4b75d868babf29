/**
 * The catalog's views (catalog/views.py) over an in-memory catalog: the
 * item listing with its search and tag filters (`item_list`,
 * `ajax_search_items`), the last-purchase lookup
 * (`ajax_get_last_purchase_details`) and the price-entry submission
 * (`add_price_entry`).
 *
 * A request's query string is a map from parameter names to values; a
 * response is what the view decides (the listing it renders, the data it
 * encodes, the page it redirects to), not the rendered bytes.
 */
module Views {
  import opened Wrappers
  import Text
  import opened Records
  import opened Ordering
  import opened PriceForms

  /** `request.GET.get(key, '')`. */
  function Param(query: map<string, string>, key: string): (v: string)
    ensures key !in query ==> v == ""
    ensures key in query ==> v == query[key]
  {
    if key in query then query[key] else ""
  }

  /** Every part, stripped. */
  function StripAll(parts: seq<string>): (r: seq<string>)
    ensures |r| == |parts|
    ensures forall j :: 0 <= j < |parts| ==> r[j] == Text.Strip(parts[j])
  {
    MapStrings(Text.Strip, parts)
  }

  /** `[f(p) for p in parts]`. */
  function MapStrings(f: string -> string, parts: seq<string>): (r: seq<string>)
    ensures |r| == |parts|
    ensures forall j :: 0 <= j < |parts| ==> r[j] == f(parts[j])
  {
    if parts == [] then []
    else
      assert forall j :: 1 <= j < |parts| ==> parts[j] == parts[1..][j - 1];
      [f(parts[0])] + MapStrings(f, parts[1..])
  }

  /** The stripped parts that are not blank, in order. */
  function StrippedNonBlank(parts: seq<string>): (names: seq<string>)
    ensures |names| <= |parts|
    ensures forall k :: 0 <= k < |names| ==> names[k] != [] && Text.IsStripped(names[k])
    ensures forall n :: n in names <==> n in StripAll(parts) && n != []
  {
    if parts == [] then []
    else
      var rest := StrippedNonBlank(parts[1..]);
      var head := Text.Strip(parts[0]);
      assert StripAll(parts) == [head] + StripAll(parts[1..]);
      if head == [] then rest else [head] + rest
  }

  /** Stripping never brings in a character the text does not have. */
  lemma StripKeepsOut(s: string, c: char)
    requires c !in s
    ensures c !in Text.Strip(s)
  {
    SliceKeepsOut(s, Text.Strip(s), |s| - |Text.TrimStart(s)|, c);
  }

  lemma SliceKeepsOut(s: string, r: string, i: int, c: char)
    requires c !in s
    requires 0 <= i <= |s| - |r| && r == s[i..i + |r|]
    ensures c !in r
  {
    forall j | 0 <= j < |r| ensures r[j] != c {
      assert r[j] == s[i + j];
    }
  }

  /**
   * The selected tag names of a `tags` parameter (views.py:12 and 52): the
   * comma-separated parts, stripped, blank ones dropped. Every name is
   * non-empty, stripped and free of commas, and every part that is not
   * blank gives one.
   */
  function ParseTags(raw: string): (names: seq<string>)
    ensures forall k :: 0 <= k < |names| ==> names[k] != [] && Text.IsStripped(names[k]) && ',' !in names[k]
    ensures forall n :: n in names <==> n in StripAll(Text.Split(raw, ',')) && n != []
  {
    var parts := Text.Split(raw, ',');
    var names := StrippedNonBlank(parts);
    assert forall k :: 0 <= k < |names| ==> ',' !in names[k] by {
      forall k | 0 <= k < |names| ensures ',' !in names[k] {
        assert names[k] in StripAll(parts);
        var j :| 0 <= j < |parts| && StripAll(parts)[j] == names[k];
        StripKeepsOut(parts[j], ',');
      }
    }
    names
  }

  /** Tag names that are already clean pass through unchanged. */
  lemma {:induction false} StrippedNonBlankOfClean(names: seq<string>)
    requires forall k :: 0 <= k < |names| ==> names[k] != [] && Text.IsStripped(names[k])
    ensures StrippedNonBlank(names) == names
  {
    if names != [] {
      Text.StripOfStripped(names[0]);
      StrippedNonBlankOfClean(names[1..]);
    }
  }

  /** Joining clean tag names with commas and parsing the result gives the names back. */
  lemma ParseTagsJoin(names: seq<string>)
    requires |names| >= 1
    requires forall k :: 0 <= k < |names| ==> names[k] != [] && Text.IsStripped(names[k]) && ',' !in names[k]
    ensures ParseTags(Text.Join(names, ',')) == names
  {
    Text.SplitJoin(names, ',');
    StrippedNonBlankOfClean(names);
  }

  /** A missing or empty `tags` parameter selects no tag. */
  lemma NoTagsSelected()
    ensures ParseTags("") == []
  {
    assert Text.Split("", ',') == [""];
    assert Text.Strip("") == "";
  }

  /** The name filter (views.py:16-17): every item when the query is empty, else `name__icontains`. */
  predicate NameMatches(x: Item, q: string) {
    q == [] || Text.ContainsIgnoringCase(x.name, q)
  }

  /** The item has a tag whose name equals `t` ignoring case (`tags__name__iexact`). */
  predicate HasTag(x: Item, t: string) {
    exists k :: 0 <= k < |x.tags| && Text.EqualsIgnoringCase(x.tags[k], t)
  }

  predicate HasAllTags(x: Item, ts: seq<string>) {
    forall j :: 0 <= j < |ts| ==> HasTag(x, ts[j])
  }

  /** What the listing selects: the name matches and every selected tag is present. */
  predicate Selected(x: Item, q: string, ts: seq<string>) {
    NameMatches(x, q) && HasAllTags(x, ts)
  }

  /** `filter(name__icontains=q)`. */
  function FilterName(rows: seq<Item>, q: string): (r: seq<Item>)
    ensures |r| <= |rows|
    ensures forall x :: x in r <==> x in rows && Text.ContainsIgnoringCase(x.name, q)
  {
    if rows == [] then []
    else
      var rest := FilterName(rows[1..], q);
      assert forall x :: x in rows <==> x == rows[0] || x in rows[1..];
      if Text.ContainsIgnoringCase(rows[0].name, q) then [rows[0]] + rest else rest
  }

  /** How many of the tags are equal to `t` ignoring case. */
  function MatchingTags(tags: seq<string>, t: string): (n: nat)
    ensures n > 0 <==> exists k :: 0 <= k < |tags| && Text.EqualsIgnoringCase(tags[k], t)
  {
    if tags == [] then 0
    else
      var rest := MatchingTags(tags[1..], t);
      assert forall k :: 1 <= k < |tags| ==> tags[k] == tags[1..][k - 1];
      (if Text.EqualsIgnoringCase(tags[0], t) then 1 else 0) + rest
  }

  function Repeat(x: Item, n: nat): (r: seq<Item>)
    ensures |r| == n
    ensures forall y :: y in r <==> n > 0 && y == x
    ensures multiset(r) == multiset{}[x := n]
  {
    if n == 0 then [] else [x] + Repeat(x, n - 1)
  }

  /**
   * `filter(tags__name__iexact=t)`: a join with the tag table, so a row comes
   * back once per matching tag.
   */
  function FilterTag(rows: seq<Item>, t: string): (r: seq<Item>)
    ensures forall x :: x in r <==> x in rows && HasTag(x, t)
  {
    if rows == [] then []
    else
      var rest := FilterTag(rows[1..], t);
      assert forall x :: x in rows <==> x == rows[0] || x in rows[1..];
      Repeat(rows[0], MatchingTags(rows[0].tags, t)) + rest
  }

  /** Each row comes back from the join once per tag of it that matches. */
  lemma {:induction false} FilterTagCount(rows: seq<Item>, t: string)
    ensures forall x :: multiset(FilterTag(rows, t))[x] == multiset(rows)[x] * MatchingTags(x.tags, t)
  {
    if rows != [] {
      FilterTagCount(rows[1..], t);
      var rep := Repeat(rows[0], MatchingTags(rows[0].tags, t));
      var rest := FilterTag(rows[1..], t);
      assert FilterTag(rows, t) == rep + rest;
      forall x ensures multiset(rep + rest)[x] == multiset(rows)[x] * MatchingTags(x.tags, t) {
        JoinStep(rows, rep, rest, x, MatchingTags(x.tags, t));
      }
    }
  }

  /** The count of `x` in the first row's copies followed by the tail's rows. */
  lemma JoinStep(rows: seq<Item>, rep: seq<Item>, rest: seq<Item>, x: Item, m: nat)
    requires rows != []
    requires multiset(rep)[x] == if x == rows[0] then m else 0
    requires multiset(rest)[x] == multiset(rows[1..])[x] * m
    ensures multiset(rep + rest)[x] == multiset(rows)[x] * m
  {
    assert rows == [rows[0]] + rows[1..];
    var before := multiset(rows[1..])[x];
    assert multiset(rows)[x] == (if x == rows[0] then 1 else 0) + before;
    if x == rows[0] {
      assert (1 + before) * m == m + before * m;
    }
  }

  /** An item with two tags that both match the name comes back twice: the reason for `distinct()`. */
  lemma JoinRepeatsRows()
    ensures var x := Item(1, "Apple", ["a", "A"]);
            FilterTag([x], "a") == [x, x]
  {
    var x := Item(1, "Apple", ["a", "A"]);
    assert Text.EqualsIgnoringCase("a", "a");
    assert Text.Lower("A") == "a";
    assert ["a", "A"][1..] == ["A"];
    assert ["A"][1..] == [];
    assert MatchingTags(["A"], "a") == 1;
    assert MatchingTags(["a", "A"], "a") == 2;
    assert Repeat(x, 2) == [x] + Repeat(x, 1) == [x, x];
    assert [x][1..] == [];
  }

  /**
   * The filter chain of views.py:14-21 (and 54-61): the name filter, then
   * one tag filter per selected name, each narrowing the previous rows.
   */
  method FilterItems(items: seq<Item>, q: string, tagNames: seq<string>) returns (rows: seq<Item>)
    ensures forall x :: x in rows <==> x in items && Selected(x, q, tagNames)
  {
    rows := items;
    if q != [] {
      rows := FilterName(rows, q);
    }
    var i := 0;
    while i < |tagNames|
      invariant 0 <= i <= |tagNames|
      invariant forall x :: x in rows <==> x in items && NameMatches(x, q) && HasAllTags(x, tagNames[..i])
    {
      assert forall x :: HasAllTags(x, tagNames[..i + 1]) <==> HasAllTags(x, tagNames[..i]) && HasTag(x, tagNames[i]) by {
        forall x ensures HasAllTags(x, tagNames[..i + 1]) <==> HasAllTags(x, tagNames[..i]) && HasTag(x, tagNames[i]) {
          assert tagNames[..i + 1][i] == tagNames[i];
          assert forall j :: 0 <= j < i ==> tagNames[..i + 1][j] == tagNames[..i][j];
        }
      }
      rows := FilterTag(rows, tagNames[i]);
      i := i + 1;
    }
    assert tagNames[..i] == tagNames;
  }

  /**
   * What the listing page shows: each selected item once, in name order,
   * and nothing else.
   */
  ghost predicate IsListing(listed: seq<Item>, items: seq<Item>, q: string, ts: seq<string>) {
    && NoDuplicates(listed)
    && SortedByName(listed)
    && forall x :: x in listed <==> x in items && Selected(x, q, ts)
  }

  /**
   * Two listings for the same parameters show the same names in the same
   * order; they can differ only in the order of items sharing a name.
   */
  lemma ListingDetermined(a: seq<Item>, b: seq<Item>, items: seq<Item>, q: string, ts: seq<string>)
    requires IsListing(a, items, q, ts) && IsListing(b, items, q, ts)
    ensures |a| == |b| && Names(a) == Names(b)
  {
    ListingsAgree(a, b);
  }

  /** `items.distinct().order_by('name')`. */
  function DistinctByName(rows: seq<Item>): (r: seq<Item>)
    ensures NoDuplicates(r) && SortedByName(r)
    ensures forall x :: x in r <==> x in rows
  {
    var sorted := SortByName(rows);
    assert forall x :: x in sorted <==> x in rows by {
      forall x ensures x in sorted <==> x in rows {
        assert x in sorted <==> x in multiset(sorted);
        assert x in rows <==> x in multiset(rows);
      }
    }
    Distinct(sorted)
  }

  /** The queryset of views.py:14-23 (and 54-63): filtered, then `distinct().order_by('name')`. */
  method SelectItems(items: seq<Item>, q: string, tagNames: seq<string>) returns (listed: seq<Item>)
    ensures IsListing(listed, items, q, tagNames)
  {
    var rows := FilterItems(items, q, tagNames);
    listed := DistinctByName(rows);
  }

  /** The values the listing template receives. */
  datatype ListContext = ListContext(items: seq<Item>, searchQuery: string, selectedTags: seq<string>)

  /** The listing shared by both views (views.py:11-23 and 51-63). */
  method Listing(items: seq<Item>, query: map<string, string>) returns (ctx: ListContext)
    ensures ctx.searchQuery == Param(query, "q")
    ensures ctx.selectedTags == ParseTags(Param(query, "tags"))
    ensures IsListing(ctx.items, items, ctx.searchQuery, ctx.selectedTags)
  {
    var q := Param(query, "q");
    var tagNames := ParseTags(Param(query, "tags"));
    var listed := SelectItems(items, q, tagNames);
    ctx := ListContext(listed, q, tagNames);
  }

  /** `item_list` (views.py:10-36). */
  method ItemList(items: seq<Item>, query: map<string, string>) returns (ctx: ListContext)
    ensures ctx.searchQuery == Param(query, "q")
    ensures ctx.selectedTags == ParseTags(Param(query, "tags"))
    ensures IsListing(ctx.items, items, ctx.searchQuery, ctx.selectedTags)
  {
    ctx := Listing(items, query);
  }

  /** `ajax_search_items` (views.py:50-71): the same listing, rendered as a fragment. */
  method AjaxSearchItems(items: seq<Item>, query: map<string, string>) returns (ctx: ListContext)
    ensures ctx.searchQuery == Param(query, "q")
    ensures ctx.selectedTags == ParseTags(Param(query, "tags"))
    ensures IsListing(ctx.items, items, ctx.searchQuery, ctx.selectedTags)
  {
    ctx := Listing(items, query);
  }

  /** The JSON of the last-purchase lookup. */
  datatype Details = Details(storeId: Option<StoreId>, productUrl: Option<string>)

  /** The outcome of a view that looks its item up first. */
  datatype Lookup = ItemNotFound | Found(details: Details)

  /** What a GET or a POST of the price form carries: the cleaned field values and the fields' own errors. */
  datatype Request = Get | Post(values: CleanedData, reported: map<Field, seq<string>>)

  /** `ServerError`: the view raised, which Django answers with a 500 page. */
  datatype Response = NotFound | RedirectToDetail(item: ItemId) | RedirectToList | ServerError

  /** The item and price tables. */
  class Catalog {
    var items: seq<Item>
    var entries: seq<PriceEntry>

    constructor (items: seq<Item>, entries: seq<PriceEntry>)
      ensures this.items == items && this.entries == entries
    {
      this.items := items;
      this.entries := entries;
    }

    /** `get_object_or_404(Item, pk=item_id)` finds a row. */
    predicate HasItem(itemId: ItemId)
      reads this
    {
      exists x :: x in items && x.id == itemId
    }

    /**
     * `ajax_get_last_purchase_details` (views.py:74-86): {None, None} without
     * an entry, else the store and the non-empty URL of one latest-dated
     * entry, the same defaults the price form is built with.
     */
    method LastPurchaseDetails(itemId: ItemId) returns (r: Lookup)
      ensures r.ItemNotFound? <==> !HasItem(itemId)
      ensures r.Found? && ForItem(entries, itemId) == [] ==> r.details == Details(None, None)
      ensures r.Found? && ForItem(entries, itemId) != [] ==>
                exists e :: e in ForItem(entries, itemId)
                            && (forall e' :: e' in ForItem(entries, itemId) ==> e'.dateRecorded <= e.dateRecorded)
                            && r.details == Details(Some(e.store), UrlOrNone(e.productUrl))
      ensures r.Found? ==> Initials(r.details.storeId, r.details.productUrl) == Prefill(Some(itemId), entries)
    {
      if !(exists x :: x in items && x.id == itemId) {
        return ItemNotFound;
      }
      var storeId: Option<StoreId> := None;
      var productUrl: Option<string> := None;
      var last := Latest(ForItem(entries, itemId));
      if last.Some? {
        storeId := Some(last.value.store);
        if HasUrl(last.value.productUrl) {
          productUrl := last.value.productUrl;
        }
      }
      r := Found(Details(storeId, productUrl));
    }

    /**
     * `add_price_entry` (views.py:88-107) with the form's `__init__` as
     * evidently intended (`Prefill`): a valid POST appends exactly one entry,
     * for this item and consistent with the sale rule, and redirects to the
     * item; anything else stores nothing.
     */
    method AddPriceEntry(itemId: ItemId, request: Request) returns (resp: Response)
      modifies this`entries
      ensures !HasItem(itemId) ==> resp == NotFound && entries == old(entries)
      ensures HasItem(itemId) && request.Post? && Accepts(request.values, request.reported) ==>
                && resp == RedirectToDetail(itemId)
                && |entries| == |old(entries)| + 1
                && entries[..|old(entries)|] == old(entries)
                && entries[|old(entries)|] == EntryFrom(itemId, AfterClean(request.values))
                && entries[|old(entries)|].item == itemId
                && SaleConsistent(entries[|old(entries)|])
      ensures HasItem(itemId) && !(request.Post? && Accepts(request.values, request.reported)) ==>
                resp == RedirectToList && entries == old(entries)
    {
      if !(exists x :: x in items && x.id == itemId) {
        return NotFound;
      }
      if request.Get? {
        return RedirectToList;
      }
      var form := new PriceHistoryForm(Some(itemId), entries);
      var valid := form.IsValid(request.values, request.reported);
      if valid {
        AcceptedIsConsistent(itemId, request.values, request.reported);
        var entry := EntryFrom(itemId, form.cleaned);
        entries := entries + [entry];
        return RedirectToDetail(itemId);
      }
      return RedirectToList;
    }

    /**
     * `add_price_entry` as written: a POST builds the form (views.py:91) with
     * the `__init__` of forms.py:49-54 as written, which raises for an item
     * that has no entry yet, so the first price of an item is never stored.
     * Everywhere else the defaults are those of `Prefill`, and the request
     * is served as `AddPriceEntry` serves it.
     */
    method AddPriceEntryAsWritten(itemId: ItemId, request: Request) returns (resp: Response)
      modifies this`entries
      ensures !HasItem(itemId) ==> resp == NotFound && entries == old(entries)
      ensures HasItem(itemId) && request.Post? && ForItem(old(entries), itemId) == [] ==>
                resp == ServerError && entries == old(entries)
      ensures HasItem(itemId) && request.Post? && ForItem(old(entries), itemId) != []
              && Accepts(request.values, request.reported) ==>
                && resp == RedirectToDetail(itemId)
                && |entries| == |old(entries)| + 1
                && entries[..|old(entries)|] == old(entries)
                && entries[|old(entries)|] == EntryFrom(itemId, AfterClean(request.values))
      ensures HasItem(itemId) && request.Post? && ForItem(old(entries), itemId) != []
              && !Accepts(request.values, request.reported) ==>
                resp == RedirectToList && entries == old(entries)
      ensures HasItem(itemId) && request.Get? ==> resp == RedirectToList && entries == old(entries)
    {
      if !(exists x :: x in items && x.id == itemId) {
        return NotFound;
      }
      PrefillAsWrittenAgrees(Some(itemId), entries);
      if request.Post? && PrefillAsWritten(Some(itemId), entries) == AttributeError {
        return ServerError;
      }
      resp := AddPriceEntry(itemId, request);
    }
  }

  /** Appending an entry adds it to its own item's entries, at the end, and to no other item's. */
  lemma {:induction false} ForItemAppend(entries: seq<PriceEntry>, e: PriceEntry, i: ItemId)
    ensures ForItem(entries + [e], i) == ForItem(entries, i) + (if e.item == i then [e] else [])
    decreases |entries|
  {
    if entries == [] {
      assert [e][1..] == [];
    } else {
      assert (entries + [e])[1..] == entries[1..] + [e];
      ForItemAppend(entries[1..], e, i);
    }
  }
}
