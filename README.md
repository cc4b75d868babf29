# PriceTracker catalog, modelled in Dafny

PriceTracker is a Django app that records prices of catalog items over time. Its `catalog` application holds:

- items with tags;
- stores;
- price entries: a price at a store on a date, possibly a sale price with an original price, possibly a product URL;
- a typed attribute schema: attribute groups, attribute definitions with a unique slug and a value type (text, number or boolean), and one item specification per item and attribute.

This project models the logic of that application and proves properties of the model:

- **Slug allocation for attribute definitions** (`Attributes`). Saving a definition with a blank slug derives `base` from the group and attribute names. It then probes `base`, `base-1`, `base-2`, … against the other definitions' slugs until one is free. `AttributeDefinition.Save` is an imperative loop. It is proved to keep an explicit slug, and to pick the first free candidate, which no other definition uses. The loop makes at most |others| + 1 probes.
- **Item specification values** (`Specifications`). An item specification has three value slots: text, numeric and boolean. `save` coerces the text slot into the typed slot the attribute names. `get_value` reads the slots back according to the type, and `get_value_display` renders the result. `ItemSpecification.Save` is proved against the pure coercion `Coerce`. Lemmas state which slots change, the boolean vocabulary and idempotence.
- **The price-entry form** (`PriceForms`). The rule of `clean`: a sale needs an original price strictly greater than the price. The defaults of `__init__` come from the item's most recent entry. Django's `add_error` and `is_valid` are modelled over the form's cleaned data and its error map.
- **The views** (`Views`, `Ordering`, `Records`):
  - The comma-separated tag parameter is parsed into tag names.
  - The item list is filtered by a case-insensitive name search and, conjunctively, by tags (case-insensitive). It is made distinct and sorted by name. Two listings for the same parameters are proved to show the same names in the same order.
  - The last-purchase lookup returns the store and URL of a latest-dated entry.
  - `add_price_entry` is modelled twice. `AddPriceEntry` builds the form with the defaults as evidently intended: a valid POST appends exactly one entry, and any other request stores nothing. `AddPriceEntryAsWritten` builds the form as the code does, so a POST for an item with no entry yet fails with a server error and stores nothing (see Findings).

The catalog is modelled in memory:
- Tables are sequences in storage order, and the other definitions' slugs are a set.
- Prices are integers in cents and dates are integers.
- The query string is a map from parameter names to values.
- Django's `slugify`, Python's `float()` and `str()` of a non-integral Decimal are function parameters (`slugify`, `parse`, `formatDecimal`). `parse` stands for the whole conversion of the stripped text into the stored number. `str()` of an integral Decimal is modelled as the decimal rendering of the integer (`Text.IntToString`).

`Text` models the string operations the code uses:
- `str.strip()` and `str.lower()` on ASCII;
- `str.split(',')`;
- `str()` of a counter;
- the ORM lookups `icontains` and `iexact`.

## Model

| member | source | states |
|---|---|---|
| Text.Strip | catalog/views.py:12 | The result has no whitespace at either end, is a slice of the input, and everything cut off on both sides is whitespace. |
| Text.StripIdempotent | catalog/models.py:146 | Stripping twice is stripping once. |
| Text.StripOfStripped | catalog/views.py:12 | A string with no whitespace at either end is left as it is. |
| Text.Lower | catalog/models.py:146 | Same length as the input, and each character is lower-cased on its own. |
| Text.Contains | catalog/views.py:17 | True exactly when the needle occurs at some position of the text. |
| Text.Split | catalog/views.py:12 | At least one piece, no piece holds the separator, and joining the pieces with it gives back the input. |
| Text.SplitJoin | catalog/views.py:12 | Splitting the join of separator-free pieces gives back exactly those pieces. |
| Text.SplitNoSeparator | catalog/views.py:12 | A text without the separator splits into itself alone. |
| Text.NatToString | catalog/models.py:89 | The decimal rendering of a counter is a non-empty run of digits with no leading zero, except for 0 itself. |
| Text.DigitsRoundTrip | catalog/models.py:89 | Reading the rendered digits back gives the number. |
| Text.NatToStringInjective | catalog/models.py:89 | Different counters render differently. |
| Attributes.CandidateInjective | catalog/models.py:89 | `base`, `base-1`, `base-2`, … are pairwise different slugs. |
| Attributes.ProbesBounded | catalog/models.py:87-90 | If the first n candidates are all taken, n is at most the number of taken slugs, so the loop makes at most \|others\| + 1 probes. |
| Attributes.FirstFreeFrom | catalog/models.py:88-90 | Starting from the k-th candidate, the result is not taken, and it is the n-th candidate for some n ≤ \|taken\| with all earlier candidates taken. |
| Attributes.FirstFree | catalog/models.py:84-90 | The first candidate no other definition uses: not taken, every earlier candidate taken, and at most \|taken\| + 1 probes. |
| Attributes.FirstFreeUnique | catalog/models.py:84-90 | Any free candidate whose predecessors are all taken is the one the probing returns, so the slug chosen is fully determined. |
| Attributes.NutritionFatExample | catalog/models.py:84-90 | With `nutrition-fat` and `nutrition-fat-1` taken, the slug is `nutrition-fat-2`. |
| Attributes.AttributeDefinition.constructor | catalog/models.py:67-71 | A definition holds its group name, name, slug, unit and value type. |
| Attributes.AttributeDefinition.Save | catalog/models.py:82-91 | A non-blank slug is never altered. A blank one becomes the first free candidate from the slugified names, and it differs from every other definition's slug. The loop is proved with its invariants and a decreasing bound. |
| Specifications.WordSetsDisjoint | catalog/models.py:147-150 | No word is both truthy and falsy. |
| Specifications.Coerce | catalog/models.py:138-154 | The text slot never changes. With no text, or for a text attribute, nothing changes. The numeric slot changes only for number attributes, and the boolean slot only for boolean attributes. |
| Specifications.CoerceNumber | catalog/models.py:140-144 | For a number attribute the numeric slot becomes the parse of the stripped text when that parses, and stays as it was when it fails. |
| Specifications.CoerceBoolean | catalog/models.py:145-152 | For a boolean attribute the stripped, lower-cased text gives True for true/yes/1/on, False for false/no/0/off, and None for anything else. |
| Specifications.CoerceIdempotent | catalog/models.py:138-154 | Saving twice stores the same slots as saving once. |
| Specifications.ReadsAs | catalog/models.py:146-152 | A text whose stripped, lower-cased form is a given word reads as that word's boolean. |
| Specifications.ReadsPlain | catalog/models.py:146-152 | A stripped text with no capital letters reads as True if it is in the truthy vocabulary, as False if it is in the falsy one, and as None otherwise. |
| Specifications.ReadsPadded | catalog/models.py:146 | Whitespace around a non-blank word does not change how it reads. |
| Specifications.ReadsIgnoringCase | catalog/models.py:146 | Two stripped texts that agree once lower-cased read the same. |
| Specifications.MaybeIsUnknownWord | catalog/models.py:147-152 | "maybe" is stripped, has no capital letters and is in neither vocabulary, so it reads as None. |
| Specifications.EffectiveValue | catalog/models.py:114-122 | A numeric result only for number attributes, and a boolean result only for boolean attributes. |
| Specifications.NumberValue | catalog/models.py:116-119 | For a number attribute with a numeric value, the result is the stored number, given as an integer exactly when it is integral. |
| Specifications.BooleanValue | catalog/models.py:120-121 | For a boolean attribute with a boolean value, the result is that bool. |
| Specifications.TextFallback | catalog/models.py:122 | In every other case the result is the text slot. |
| Specifications.ValueIgnoresOtherSlots | catalog/models.py:114-122 | The value depends only on the text slot and the slot of the attribute's own type. |
| Specifications.DisplayAsWritten | catalog/models.py:124-129 | The display as written: for a boolean attribute it is always "Yes", "No" or "N/A". |
| Specifications.UnknownWordDisplaysYes | catalog/models.py:128-129 | A boolean specification saved with a non-empty word outside both vocabularies, such as "maybe", stores no boolean, yet the display as written shows "Yes". |
| Specifications.Display | catalog/models.py:124-129 | The display as intended: for a boolean attribute it is always "Yes", "No" or "N/A". |
| Specifications.DisplayOtherTypes | catalog/models.py:124-136 | For a text or number attribute, both displays are "N/A" when there is no value and otherwise the rendered value followed by " unit" when a non-empty unit is set. There is no value exactly when the text slot is empty and, for a number attribute, the numeric slot too. |
| Specifications.DisplayBooleanTriState | catalog/models.py:128-129 | For a boolean attribute, "Yes" iff the boolean slot is True, "No" iff False, and "N/A" iff unset. |
| Specifications.DisplayAgreesExceptUnknown | catalog/models.py:128-129 | The intended and the written display differ exactly for a boolean attribute with no boolean and a non-empty text. |
| Specifications.TenDisplaysAsInteger | catalog/models.py:114-136 | 10.0 reads as the integer 10 and displays as "10", or as "10 g" with unit g. 10.5 stays fractional. |
| Specifications.ItemSpecification.constructor | catalog/models.py:98-100 | A specification holds its attribute and its three slots. |
| Specifications.ItemSpecification.Save | catalog/models.py:138-154 | After save the slots are the coercion of the slots before, under the attribute's value type. |
| Records.ForItem | catalog/views.py:76 | An item's entries are exactly the table's entries for that item. |
| Records.LatestIndex | catalog/forms.py:50 | Points at an entry with the greatest date. Every entry before it is strictly older, so it is the first latest one. |
| Records.Latest | catalog/views.py:76 | Nothing exactly when there is no entry; otherwise one of the entries, dated no earlier than any other. |
| Ordering.NameLeTotal | catalog/views.py:23 | Any two names are ordered one way or the other. |
| Ordering.NameLeTransitive | catalog/views.py:23 | Name order is transitive. |
| Ordering.NameLeAntisymmetric | catalog/views.py:23 | Names ordered both ways are equal. |
| Ordering.Insert | catalog/views.py:23 | Inserting into a name-sorted sequence keeps it sorted and adds exactly that row. |
| Ordering.SortByName | catalog/views.py:23 | `order_by('name')` gives a name-sorted permutation of the rows. |
| Ordering.Distinct | catalog/views.py:23 | `distinct()` leaves no duplicates, keeps exactly the same rows, and keeps name order. |
| Ordering.SortedStringsUnique | catalog/views.py:23 | Two sorted sequences of names with the same multiset are equal. |
| Ordering.NamesPermutation | catalog/views.py:23 | Permuting rows permutes their names. |
| Ordering.OccursOnce | catalog/views.py:23 | In a duplicate-free sequence each row occurs once or not at all. |
| Ordering.SameElementsPermutation | catalog/views.py:23 | Duplicate-free sequences with the same rows are permutations of each other. |
| Ordering.ListingsAgree | catalog/views.py:23 | Two duplicate-free, name-sorted sequences of the same rows have the same length and list the same names in the same order. |
| PriceForms.Without | catalog/forms.py:64 | `add_error` drops the named field's value from the cleaned data (`on_sale` reads as unset) and leaves every other field's value as it was. |
| PriceForms.WithError | catalog/forms.py:64 | `add_error` appends the message to that field's errors, adds the field to the error keys and leaves other fields' errors alone. |
| PriceForms.SaleRule | catalog/forms.py:62-66 | With `on_sale` set and a price, `clean` adds no error iff an original price is given and is strictly greater than the price. |
| PriceForms.MissingOriginalRejected | catalog/forms.py:62-64 | With `on_sale` set and no original price, the "required" message goes on `pre_sale_price`. |
| PriceForms.EqualPricesRejected | catalog/forms.py:65-66 | An original price equal to the price (79.99 against 79.99) is rejected, as is a smaller one (79.99 against 99.99). |
| PriceForms.ValidSaleUnchanged | catalog/forms.py:62-66 | A valid sale passes `clean` with no error and unchanged cleaned data. |
| PriceForms.MissingPriceNotCompared | catalog/forms.py:65 | With `on_sale` set and the price missing after field validation, no comparison error is raised. |
| PriceForms.NotOnSaleClears | catalog/forms.py:67-68 | Without `on_sale`, `clean` adds no error and the cleaned original price is None. |
| PriceForms.CleanScope | catalog/forms.py:56-70 | `clean` changes no cleaned value but the original price, adds at most one error, and adds it only on `pre_sale_price`. |
| PriceForms.FieldErrors | catalog/forms.py:41-43 | Field errors keep every field's own errors. They are empty iff no field reported one and the store, price and date are all present. |
| PriceForms.AcceptsIff | catalog/forms.py:56-70 | The form is valid iff no field reported an error, the store, price and date are present, and the sale rule holds. |
| PriceForms.EntryFrom | catalog/views.py:93-94 | The entry built from the form belongs to the given item. |
| PriceForms.AcceptedIsConsistent | catalog/forms.py:62-68 | Whatever the form accepts builds a complete entry that is consistent with the sale rule. |
| PriceForms.Prefill | catalog/forms.py:49-54 | Without an item or without entries there are no defaults. Otherwise the store and the non-empty URL come from one and the same latest-dated entry. |
| PriceForms.PrefillAsWrittenFailsWithoutHistory | catalog/forms.py:53 | As written, building the form for an item with no entry fails with `AttributeError`. |
| PriceForms.PrefillAsWrittenAgrees | catalog/forms.py:49-54 | As written, `__init__` fails exactly for an item with no entry. Wherever it succeeds, it gives the intended defaults. |
| PriceForms.PrefillTakesLatest | catalog/forms.py:50-54 | Given entries of 2024-01-01 (store 1, "x") and 2024-02-01 (store 2, "y"), the defaults are store 2 and "y". |
| PriceForms.PriceHistoryForm.constructor | catalog/forms.py:45-54 | A new form's initial store and URL are the intended defaults. It has no cleaned data and no errors. |
| PriceForms.PriceHistoryForm.AddError | catalog/forms.py:64 | The error map gains the message on the field, the field drops out of the cleaned data, and the initials stay. |
| PriceForms.PriceHistoryForm.Clean | catalog/forms.py:56-70 | The cleaned data and the error map become what the sale rule makes of them. |
| PriceForms.PriceHistoryForm.IsValid | catalog/views.py:92 | Valid iff the form accepts the values. The cleaned data and the errors are those of field validation followed by `clean`. |
| Views.StripAll | catalog/views.py:12 | Each part, stripped, position by position. |
| Views.StrippedNonBlank | catalog/views.py:12 | Every result is non-empty and stripped. The results are exactly the stripped parts that are not blank. |
| Views.ParseTags | catalog/views.py:12 | Every parsed tag name is non-empty, stripped and free of commas. The names are exactly the stripped comma-separated parts that are not blank. |
| Views.StrippedNonBlankOfClean | catalog/views.py:12 | Names that are already clean pass through unchanged. |
| Views.ParseTagsJoin | catalog/views.py:12 | Parsing clean tag names joined with commas gives back exactly those names. |
| Views.NoTagsSelected | catalog/views.py:12 | An empty `tags` parameter selects no tag. |
| Views.FilterName | catalog/views.py:16-17 | Keeps exactly the rows whose name contains the query, ignoring case. |
| Views.MatchingTags | catalog/views.py:21 | An item matches a tag name a positive number of times iff one of its tags equals the name, ignoring case. |
| Views.FilterTag | catalog/views.py:20-21 | Keeps exactly the rows with a tag equal to the name, ignoring case. |
| Views.FilterTagCount | catalog/views.py:20-21 | The join returns each row once per tag of it that equals the name ignoring case: its count in the result is its count in the input times its number of matching tags. |
| Views.JoinRepeatsRows | catalog/views.py:21-23 | An item with the tags "a" and "A", filtered by "a", comes back twice before `distinct()`. |
| Views.FilterItems | catalog/views.py:14-21 | The rows left are exactly the items whose name matches the query (any, when it is empty) and that have every selected tag. The loop's invariant holds after each tag. |
| Views.ListingDetermined | catalog/views.py:14-23 | Two listings for the same items and parameters have the same length and show the same names in the same order. |
| Views.DistinctByName | catalog/views.py:23 | `distinct().order_by('name')`: no duplicates, sorted by name, the same rows. |
| Views.SelectItems | catalog/views.py:14-23 | The queryset lists each matching item exactly once, in name order, and nothing else. |
| Views.Listing | catalog/views.py:11-23 | The query and the parsed tags are passed back, and the items are the listing they select. |
| Views.ItemList | catalog/views.py:10-36 | The list page's items are the listing for its `q` and `tags` parameters. |
| Views.AjaxSearchItems | catalog/views.py:50-71 | The search fragment's items are the listing for the same parameters, so it agrees with the list page. |
| Views.Catalog.LastPurchaseDetails | catalog/views.py:74-86 | Not found iff the item does not exist. Otherwise {None, None} without entries, else the store and non-empty URL of one latest-dated entry; these always equal the form's defaults. |
| Views.Catalog.AddPriceEntry | catalog/views.py:88-107 | Unknown item: not found, table unchanged. A valid POST appends exactly one entry, for this item, built from the cleaned data and consistent with the sale rule, and redirects to the item. Any other request leaves the table unchanged and redirects to the list. |
| Views.Catalog.AddPriceEntryAsWritten | catalog/views.py:88-107 | As written. Unknown item: not found. A POST for an item with no entry yet: a server error, table unchanged. Otherwise as `AddPriceEntry`: a valid POST appends exactly one entry built from the cleaned data and redirects to the item, and an invalid POST or a GET stores nothing and redirects to the list. |
| Views.ForItemAppend | catalog/views.py:93-95 | An appended entry joins its own item's entries at the end and no other item's. |

## Left out

- The ORM, migrations, database constraints (uniqueness, cascades), `auto_now` timestamps and the actual row writes. Tables are in-memory sequences and sets, and `save` stops before the write.
- Concurrency, including the check-then-write race between two definitions probing for the same slug.
- The internals of `slugify` and the formatting of a non-integral Decimal: each is a function parameter (`slugify`, `formatDecimal`).
- Python's `float()`, float-to-Decimal conversion and quantisation to 5 decimal places: together they are the single parameter `parse`, which maps the stripped text to the stored number or to nothing. The intermediate float and the rounding it undergoes are not modelled separately.
- Specifications.ItemSpecification.Save: after `save` the numeric slot holds a Python `float`, and calling `get_value` on the same object would then fail. The model keeps one numeric type.
- Text.Lower: ASCII case folding only; Unicode case folding is not modelled. The database's case-insensitive matching and collation are assumed to agree with it.
- Text.Strip: only ASCII whitespace (space, `\t` to `\r`, `\x1c` to `\x1f`) is cut. Python's `str.strip()` also removes Unicode whitespace such as U+0085 and U+00A0, so texts padded with those strip differently (views.py:12, models.py:142 and 146).
- Ordering.SortByName: names are ordered by character code. Rows with equal names may come in any order in the database; `ListingsAgree` shows they still give the same names.
- Records.LatestIndex: among entries that share the latest date, the first in storage order is chosen. The database leaves that choice open.
- Views.ItemList: the `all_tags` list, the unbound `price_form` and the page title in the context are not modelled.
- Views.AjaxSearchItems: the rendered HTML fragment is not modelled, only the context it is rendered from.
- HTTP, redirects as responses, `messages` (including the error-message text built at views.py:100-103), template rendering and JSON encoding.
- Django's field-level validation (decimal digits, URL syntax, the date widget, the store choice). The form is given the values fields cleaned to and the errors they reported. Only the "required" check for store, price and date is modelled.
- `item_detail`, all `__str__` methods, the admin registrations and URL routing: rendering and framework wiring with no logic of their own.

## Findings

| source | as written | input that shows it | evidently intended | confidence | as-written member | corrected member |
|---|---|---|---|---|---|---|
| catalog/forms.py:53 | Reads `last_purchase.product_url` outside the `if last_purchase` guard on line 51. | A POST to `add_price_entry` for an item with no price entry yet (the first entry of a new item): `last_purchase` is None, so `__init__` raises `AttributeError`. | No defaults when the item has no entry; the form is built and validated as usual. | not executed | PriceForms.PrefillAsWrittenFailsWithoutHistory | PriceForms.Prefill |
| catalog/views.py:91 | The view builds `PriceHistoryForm` before validating, with the `__init__` of forms.py:49-54. | The first POST for a new item: the form's `__init__` raises, so the view fails and the entry is never stored. | The form is validated and a valid entry is stored, as for any other item. | not executed | Views.Catalog.AddPriceEntryAsWritten | Views.Catalog.AddPriceEntry |
| catalog/models.py:128-129 | For a boolean attribute, the display tests the truthiness of `get_value()`. When the boolean slot is None, that value falls back to the text slot. | A boolean specification saved with the text "maybe": `save` stores no boolean, and the display shows "Yes". | "N/A" whenever no boolean is stored; "Yes"/"No" only from the boolean slot. | not executed | Specifications.UnknownWordDisplaysYes | Specifications.DisplayBooleanTriState |
