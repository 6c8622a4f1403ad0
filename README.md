# OrbitPaws storefront — verified model of the shop and cart logic

This project models the logic of the OrbitPaws pet-supplies storefront (a
Next.js/React application) in Dafny and proves properties of it:

- **Catalog** (`catalog.dfy`): the product record, the fixed eight-product
  catalog and the `featuredProducts` selection (the four most popular,
  most popular first).
- **URL state codec** (`shop_url_state.dfy`): `splitCSV`,
  `parseShopStateFromSearchParams` and `buildShopSearchParams`. Search
  parameters are an ordered list of key/value pairs with the lookup and
  `set` behaviour of `URLSearchParams`.
- **Shop browsing** (`shop_browsing.dfy`, `shop_chips.dfy`,
  `shop_results.dfy`): `clamp`, `toggleInArray`, `filtersEqual`, the price
  bounds of the catalog, the "URL wins" hydration and its cleaning, the
  saved-filter clamp, the price inputs, the URL-sync comparison,
  `activeFilterCount`, the chip list with its remove buttons, and the
  results pipeline (six narrowing passes and a stable sort on a copy).
- **Cart store** (`cart.dfy`): `makeLineId` and the `add`, `remove`,
  `setQty` and `clear` transforms, as pure functions on the line list. The
  `CartProvider` is a class holding the lines, the `hydrated` flag and the
  saved-cart slot. It reads the saved cart once and saves every change
  after that.
- **Cart summary** (`cart_summary.dfy`): the join of lines to catalog
  products, subtotal, shipping, total and the quantity buttons.
- **Rating stars** (`rating_stars.dfy`): which of the five stars are full
  and which one is half.
- **Supporting modules:**
  - `js_strings.dfy`: JavaScript `trim`, `split`, `join`, `toLowerCase` and
    `includes`.
  - `js_number.dfy`: `Number(...)` and `String(...)` on the decimals the
    shop uses, and `Math.floor`/`Math.ceil`.
  - `sequences.dfy`: filter, stable sort, sums and distinctness.
  - `wrappers.dfy`: `Option`.

**Numbers** are exact integers in hundredths. Prices are cents (`3200` is
$32.00); ratings are hundredths (`470` is 4.7, and the half-star threshold
0.5 is `50`); shipping is `795` and free shipping starts at `8000`.

**`Number(s)`** parses:
- an optionally signed decimal with at most two fraction digits, after
  JavaScript whitespace trimming;
- the empty string as 0. So `p=12-` gives the range `[12, 0]`
  (`ShopUrlState.MissingMaximumIsZero`).

Anything else is NaN (`None`).

**Repeated selections survive the URL.** Neither `parse` nor the hydration
cleaning removes repeated categories or types. Accordingly:
- `ShopBrowsing.HydrateEncoded` proves the round trip gives back exactly
  the encoded state, repeats included.
- `ShopBrowsing.FiltersEqualRepeatedSelection` shows the consequence for
  `filtersEqual`: with a repeated selection it is not symmetric.

**Quirks of the code the model keeps and states:**
- A negative minimum price does not survive the URL: `p=-5-20` splits on
  every `-` (`ShopUrlState.NegativeMinimumLost`, `ShopUrlState.LeadingMinusRange`).
- Line ids collide when a product id contains `::`
  (`Cart.LineIdCollisions`). An empty variant id names the same line as
  none.
- An unrecognised `sort` value leaves the filtered catalog order
  unchanged (`ShopResults.ResultsUnknownSort`).

## Model

| member | source | states |
|---|---|---|
| JsNumber.FloorWhole | src/components/orbit/shop/ShopClient.tsx:88 | `Math.floor` to a whole amount: the largest multiple of 100 not above the input |
| JsNumber.CeilWhole | src/components/orbit/shop/ShopClient.tsx:89 | `Math.ceil` to a whole amount: the smallest multiple of 100 not below the input |
| JsNumber.ParseShow | src/lib/orbit/shopUrlState.ts:103 | `Number(String(n))` gives back `n` for every amount, negative ones included |
| JsStrings.TrimIsTrimmed | src/lib/orbit/shopUrlState.ts:83 | `trim` leaves no whitespace at either end |
| JsStrings.SplitJoin | src/lib/orbit/shopUrlState.ts:21-22 | splitting the join of separator-free pieces gives back the pieces |
| ShopUrlState.SetParamGet | src/lib/orbit/shopUrlState.ts:84 | after `set(name, value)`, `get(name)` is the value and every other key reads as before |
| ShopUrlState.SetParamFresh | src/lib/orbit/shopUrlState.ts:87 | `set` of an absent key appends one pair at the end |
| ShopUrlState.SetParamNames | src/lib/orbit/shopUrlState.ts:84 | `set` adds the key to the names and keeps each name at most once |
| ShopUrlState.SplitCsv | src/lib/orbit/shopUrlState.ts:19-25 | a missing or empty value gives no items |
| ShopUrlState.SplitCsvItems | src/lib/orbit/shopUrlState.ts:19-25 | every item is non-empty, trimmed and comma-free |
| ShopUrlState.SplitCsvJoin | src/lib/orbit/shopUrlState.ts:19-25 | `splitCSV` of the comma-join of non-empty, trimmed, comma-free items gives back the items |
| ShopUrlState.ParseShopState | src/lib/orbit/shopUrlState.ts:27-71 | `q` defaults to "", `sort`/`view` pass through unchecked, `v` means vet-only exactly when it is "1", a missing `p` gives the default range and a missing `r` no minimum |
| ShopUrlState.ParsePrice | src/lib/orbit/shopUrlState.ts:38-47 | without a `p` value or without a `-` in it the range is the default bounds |
| ShopUrlState.ParsePricePieces | src/lib/orbit/shopUrlState.ts:40-46 | the range is the two numbers before and after the first `-` when both parse, the default bounds otherwise |
| ShopUrlState.ParsePriceText | src/lib/orbit/shopUrlState.ts:97-100 | a range written as `min-max` with non-negative ends is read back exactly |
| ShopUrlState.NegativeMinimumLost | src/lib/orbit/shopUrlState.ts:40-46 | a range whose minimum is negative is read back as `[0, -min]` |
| ShopUrlState.LeadingMinusRange | src/lib/orbit/shopUrlState.ts:40-46 | a value starting with `-` yields the range from 0 to the first number |
| ShopUrlState.MissingMaximumIsZero | src/lib/orbit/shopUrlState.ts:41-45 | `p=a-` reads the missing maximum as 0, since `Number("")` is 0 |
| ShopUrlState.ParseEmpty | src/lib/orbit/shopUrlState.ts:42-43 | `Number("")` is 0, not NaN |
| ShopUrlState.ParseRating | src/lib/orbit/shopUrlState.ts:49-55 | a missing or empty `r` gives no minimum; a non-empty `r` gives exactly what `Number` makes of it (none when it is not a number) |
| ShopUrlState.BuildShopSearchParams | src/lib/orbit/shopUrlState.ts:73-109 | the step-by-step `set` calls produce exactly the query the builder specifies |
| ShopUrlState.AssembleGet | src/lib/orbit/shopUrlState.ts:80-106 | each key of the built query holds the value given for it, and keys without a value are absent |
| ShopUrlState.EncodeGet | src/lib/orbit/shopUrlState.ts:83-106 | `q` is the trimmed query when not blank, `sort`/`view` always, `c`/`t` the comma-join when non-empty, `p` the range when not the defaults, `r` when a minimum is set, `v=1` when vet-only |
| ShopUrlState.AssembleKeysOnce | src/lib/orbit/shopUrlState.ts:80-106 | the built query names every key at most once, and names exactly the keys given a value |
| ShopUrlState.EncodeKeysOnce | src/lib/orbit/shopUrlState.ts:86-88 | the built query always holds `sort` and `view`, so it is never empty, and no key repeats |
| ShopBrowsing.Clamp | src/components/orbit/shop/ShopClient.tsx:42-44 | the result lies in `[min, max]`, is the input when inside, `min` below and `max` above; `min` when the bounds are out of order |
| ShopBrowsing.ToggleInArray | src/components/orbit/shop/ShopClient.tsx:46-48 | a present value is removed (every copy) and nothing else: the multiset loses exactly that value and the rest keep their order; an absent one is appended |
| ShopBrowsing.ToggleTwice | src/components/orbit/shop/ShopClient.tsx:46-48 | toggling an absent value twice restores the list |
| ShopBrowsing.ToggleKeepsDistinct | src/components/orbit/shop/ShopClient.tsx:46-48 | toggling keeps a repeat-free selection repeat-free |
| ShopBrowsing.FiltersEqualMeaning | src/components/orbit/shop/ShopClient.tsx:54-65 | on repeat-free selections, equal exactly when switches, rating and range agree and the selections hold the same values |
| ShopBrowsing.FiltersEqualReflexive | src/components/orbit/shop/ShopClient.tsx:54-65 | every filter state equals itself, repeated selections included |
| ShopBrowsing.FiltersEqualSymmetric | src/components/orbit/shop/ShopClient.tsx:54-65 | symmetric on repeat-free selections |
| ShopBrowsing.FiltersEqualRepeatedSelection | src/components/orbit/shop/ShopClient.tsx:54-65 | with a repeated category the comparison is not symmetric |
| ShopBrowsing.MinPrice | src/components/orbit/shop/ShopClient.tsx:88 | the smallest catalog price: attained and not above any price |
| ShopBrowsing.MaxPrice | src/components/orbit/shop/ShopClient.tsx:89 | the largest catalog price: attained and not below any price |
| ShopBrowsing.Bounds | src/components/orbit/shop/ShopClient.tsx:86-91 | whole-dollar bounds containing every price, each within a dollar of some price |
| ShopBrowsing.CatalogBounds | src/components/orbit/shop/ShopClient.tsx:86-91 | the shop's catalog has bounds $12 to $32 |
| ShopBrowsing.CatalogPriceRange | src/data/products.ts:27-141 | every catalog price lies between $12 and $32, both attained |
| ShopBrowsing.ActiveFilterCount | src/components/orbit/shop/ShopClient.tsx:224-229 | at most five kinds of filter are active |
| ShopBrowsing.ActiveFilterCountZero | src/components/orbit/shop/ShopClient.tsx:93-102 | no filter is active exactly when the filters are the defaults |
| ShopBrowsing.KnownCategories | src/components/orbit/shop/ShopClient.tsx:148-154 | the categories kept are the URL's items that are `cat` or `dog`, in order |
| ShopBrowsing.KnownTypes | src/components/orbit/shop/ShopClient.tsx:149-157 | the types kept are the URL's items that are `food`, `toy` or `grooming`, in order |
| ShopBrowsing.ClampRange | src/components/orbit/shop/ShopClient.tsx:158-161 | each end inside the bounds stays, one below lands on the lower bound, one above on the upper bound |
| ShopBrowsing.HydrateFromUrl | src/components/orbit/shop/ShopClient.tsx:121-169 | with none of the eight keys nothing changes; otherwise query, sort (default popular), view (default grid) and vet flag come from the URL, categories and types are the URL's known names in order, the minimum rating is the parsed `r`, and the range is the parsed `p` clamped into the bounds |
| ShopBrowsing.CategoriesRoundTrip | src/components/orbit/shop/ShopClient.tsx:148-154 | any category selection survives `c` encoding, `splitCSV` and the allowed-list cleaning |
| ShopBrowsing.TypesRoundTrip | src/components/orbit/shop/ShopClient.tsx:155-157 | any type selection survives `t` encoding, `splitCSV` and the allowed-list cleaning |
| ShopBrowsing.RatingRoundTrip | src/lib/orbit/shopUrlState.ts:49-55 | the minimum rating, set or not, survives `r` encoding and parsing |
| ShopBrowsing.PriceRoundTrip | src/components/orbit/shop/ShopClient.tsx:158-161 | a range inside non-negative bounds survives `p` encoding, parsing and clamping |
| ShopBrowsing.ParseEncoded | src/lib/orbit/shopUrlState.ts:27-71 | parsing the built query gives the trimmed query, the sort, the view and each filter's parsed encoding |
| ShopBrowsing.HydrateEncoded | src/components/orbit/shop/ShopClient.tsx:139-165 | hydrating from the built query gives back the trimmed query, sort, view and exactly the filters, for ranges inside the bounds |
| ShopBrowsing.ClampSavedPrice | src/components/orbit/shop/ShopClient.tsx:172-181 | only the range changes, to the old range clamped end by end into the bounds |
| ShopBrowsing.ClampSavedPriceIdempotent | src/components/orbit/shop/ShopClient.tsx:172-181 | clamping twice is clamping once, and filters inside the bounds are kept |
| ShopBrowsing.SetMin | src/components/orbit/shop/ShopClient.tsx:364-369 | ignored exactly when the input is not a number; otherwise the typed number clamped between the lower bound and the maximum becomes the minimum, and the maximum stays |
| ShopBrowsing.SetMax | src/components/orbit/shop/ShopClient.tsx:371-376 | ignored exactly when the input is not a number; otherwise the typed number clamped between the minimum and the upper bound becomes the maximum, and the minimum stays |
| ShopBrowsing.PriceInputsKeepRange | src/components/orbit/shop/ShopClient.tsx:364-376 | either input keeps an ordered range inside the bounds |
| ShopBrowsing.EmptiedPriceInputs | src/components/orbit/shop/ShopClient.tsx:364-376 | emptying the minimum input sets it to the lower bound; emptying the maximum sets it to the minimum |
| ShopBrowsing.DropTrailingQuestionMark | src/components/orbit/shop/ShopClient.tsx:198-199 | a final `?` is removed, and a text not ending in `?` is unchanged |
| ShopBrowsing.NeedsReplaceExactly | src/components/orbit/shop/ShopClient.tsx:195-200 | the router is called exactly when the query string changes |
| ShopChips.FormatMoney | src/components/orbit/shop/ShopClient.tsx:50-52 | a dollar sign followed by the amount |
| ShopChips.FormatMoneyRounds | src/components/orbit/shop/ShopClient.tsx:50-52 | the text is `$`, a `-` for any negative amount, and the whole number nearest the magnitude, halves rounded up |
| ShopChips.FormatMoneyWhole | src/components/orbit/shop/ShopClient.tsx:50-52 | a whole amount prints as `$` and its plain number |
| ShopChips.CategoryChips | src/components/orbit/shop/ShopClient.tsx:245-255 | one chip per selected category, in selection order |
| ShopChips.TypeChips | src/components/orbit/shop/ShopClient.tsx:257-267 | one chip per selected type, in selection order |
| ShopChips.PushSwitchChips | src/components/orbit/shop/ShopClient.tsx:269-291 | the vet, rating and price pushes append exactly the switch chips |
| ShopChips.BuildChips | src/components/orbit/shop/ShopClient.tsx:234-294 | the pushes produce search, category, type, vet, rating and price chips in that order |
| ShopChips.PushCategoryChips | src/components/orbit/shop/ShopClient.tsx:245-255 | the loop appends the category chips to the list |
| ShopChips.PushTypeChips | src/components/orbit/shop/ShopClient.tsx:257-267 | the loop appends the type chips to the list |
| ShopChips.ChipCount | src/components/orbit/shop/ShopClient.tsx:234-294 | one chip per selection, plus one each for a non-blank query, vet-only, a minimum rating and a non-default range |
| ShopChips.NoChips | src/components/orbit/shop/ShopClient.tsx:234-294 | no chips exactly when the query is blank and no filter is active |
| ShopChips.Remove | src/components/orbit/shop/ShopClient.tsx:241-289 | each chip resets only its own field: the search chip clears the query; a category or type chip removes every copy of its value, keeping the others in order; the vet chip clears the switch, the rating chip the minimum rating, the price chip restores the bounds; everything else is unchanged |
| ShopChips.ChipMeaning | src/components/orbit/shop/ShopClient.tsx:237-283 | each chip shows a setting of the state it was made from |
| ShopChips.SelectionChipPresent | src/components/orbit/shop/ShopClient.tsx:245-267 | a category or type has a chip exactly when it is selected |
| ShopChips.RemovedChipDisappears | src/components/orbit/shop/ShopClient.tsx:241-289 | after pressing a chip's remove button no chip for the same setting is left |
| ShopResults.Results | src/components/orbit/shop/ShopClient.tsx:307-348 | the successive passes and the sort produce the catalog's selected products ordered by the sort key |
| ShopResults.NarrowedIsFilter | src/components/orbit/shop/ShopClient.tsx:310-337 | the first `n` passes keep exactly the products meeting the first `n` active conditions |
| ShopResults.SixPassesSelect | src/components/orbit/shop/ShopClient.tsx:310-337 | the six passes keep exactly the selected products, in catalog order |
| ShopResults.PassesAll | src/components/orbit/shop/ShopClient.tsx:310-337 | passing all six active checks is meeting category, type, price, rating, vet and query conditions |
| ShopResults.ResultsCount | src/components/orbit/shop/ShopClient.tsx:307-348 | the results are a permutation of the selected catalog products |
| ShopResults.ResultsMembers | src/components/orbit/shop/ShopClient.tsx:310-337 | a product is listed exactly when it is in the catalog and meets every active condition |
| ShopResults.ResultsOrdered | src/components/orbit/shop/ShopClient.tsx:339-345 | popularity and rating non-increasing, price ascending or descending, as the sort asks |
| ShopResults.ResultsStable | src/components/orbit/shop/ShopClient.tsx:339-345 | products with equal sort keys keep their catalog order |
| ShopResults.ResultsUnknownSort | src/components/orbit/shop/ShopClient.tsx:339-345 | an unknown sort leaves the selected products in catalog order |
| ShopResults.DefaultsListEverything | src/components/orbit/shop/ShopClient.tsx:93-102 | with the default filters and no query, every catalog product is listed |
| Catalog.ProductsUniqueIds | src/data/products.ts:27-141 | eight products with distinct ids |
| Catalog.Featured | src/data/products.ts:143-146 | four products, or the whole catalog when smaller |
| Catalog.FeaturedByPopularity | src/data/products.ts:145 | featured products are ordered by non-increasing popularity |
| Catalog.FeaturedAreMostPopular | src/data/products.ts:143-146 | featured products come from the catalog and none left out is more popular than one featured |
| Catalog.NotFeaturedNoMorePopular | src/data/products.ts:143-146 | a product left out is no more popular than any featured one |
| Catalog.FeaturedDistinct | src/data/products.ts:143-146 | featured products are distinct catalog products |
| Catalog.FeaturedProductsFacts | src/data/products.ts:143-146 | the shop features four distinct catalog products |
| RatingStars.FullStars | src/components/orbit/OrbitRatingStars.tsx:11 | the whole part of the rating |
| RatingStars.Stars | src/components/orbit/OrbitRatingStars.tsx:13-16 | exactly five stars |
| RatingStars.FullIff | src/components/orbit/OrbitRatingStars.tsx:11-14 | star `i` is full exactly when the rating reaches `i + 1` |
| RatingStars.HalfOnlyAfterFull | src/components/orbit/OrbitRatingStars.tsx:11-15 | star `i` is half exactly when the rating is at least `i + 0.5` and below `i + 1`, and is never also full |
| RatingStars.AtMostOneHalf | src/components/orbit/OrbitRatingStars.tsx:14-15 | no two stars are half |
| RatingStars.FullCountIsFloor | src/components/orbit/OrbitRatingStars.tsx:11-14 | the number of full stars is the whole part of the rating, capped to 0..5 |
| Cart.ColonMeansVariant | src/lib/orbit/cart/cart-context.tsx:26-28 | for colon-free product ids, a line id contains `:` exactly when a non-empty variant is given |
| Cart.LineIdInjective | src/lib/orbit/cart/cart-context.tsx:26-28 | for colon-free product ids, two line ids are equal exactly when product and non-empty variant agree |
| Cart.LineIdCollisions | src/lib/orbit/cart/cart-context.tsx:26-28 | `a::b` without variant and `a` with variant `b` share a line id; an empty variant is no variant |
| Cart.OneLinePerProductVariant | src/lib/orbit/cart/cart-context.tsx:54-74 | a valid cart has at most one line per product and variant |
| Cart.TotalItemsBounds | src/lib/orbit/cart/cart-context.tsx:49-52 | an empty cart holds 0 items; with positive quantities at least one per line |
| Cart.AddQty | src/lib/orbit/cart/cart-context.tsx:55 | at least 1: the quantity asked for, or 1 when missing or below 1 |
| Cart.FindLine | src/lib/orbit/cart/cart-context.tsx:59 | finds a line exactly when one has the id, and it is the first such |
| Cart.AddExisting | src/lib/orbit/cart/cart-context.tsx:61-66 | on an id the cart has, only that line's quantity grows; length and order stay |
| Cart.AddNew | src/lib/orbit/cart/cart-context.tsx:68-74 | on a new id, one line is appended at the end and the earlier lines are untouched |
| Cart.AddKeepsValid | src/lib/orbit/cart/cart-context.tsx:54-76 | `add` keeps ids distinct, quantities positive and ids matching their product and variant |
| Cart.AddTotal | src/lib/orbit/cart/cart-context.tsx:54-76 | `add` raises the item total by the added quantity |
| Cart.RemoveMembers | src/lib/orbit/cart/cart-context.tsx:78-80 | keeps exactly the lines with another id; an absent id changes nothing |
| Cart.RemoveOne | src/lib/orbit/cart/cart-context.tsx:78-80 | removing a present id drops that one line, keeps the rest in order and lowers the total by its quantity |
| Cart.RemoveKeepsValid | src/lib/orbit/cart/cart-context.tsx:78-80 | `remove` keeps the cart valid |
| Cart.SetQtyOnly | src/lib/orbit/cart/cart-context.tsx:82-87 | only the line with the id changes, to quantity `max(1, qty)`; an absent id changes nothing |
| Cart.SetQtyOne | src/lib/orbit/cart/cart-context.tsx:82-87 | on a present id, one line is updated and the total moves by the difference |
| Cart.SetQtyIdempotent | src/lib/orbit/cart/cart-context.tsx:82-87 | setting the same quantity twice is setting it once |
| Cart.SetQtyKeepsValid | src/lib/orbit/cart/cart-context.tsx:82-87 | `setQty` keeps the cart valid |
| Cart.CartStore.constructor | src/lib/orbit/cart/cart-context.tsx:33-34 | the first render: an empty cart, not hydrated, storage untouched |
| Cart.CartStore.Save | src/lib/orbit/cart/cart-context.tsx:44-47 | the saved slot holds the current lines and nothing else changes |
| Cart.CartStore.Hydrate | src/lib/orbit/cart/cart-context.tsx:37-41 | the saved lines replace the cart only when present; then the store is hydrated and the saved cart equals the cart |
| Cart.CartStore.Add | src/lib/orbit/cart/cart-context.tsx:54-76 | the lines become `add`'s update, saved only once hydrated; validity and persistence kept and the total grows by the quantity |
| Cart.CartStore.Remove | src/lib/orbit/cart/cart-context.tsx:78-80 | the lines become `remove`'s update, saved only once hydrated; validity and persistence kept |
| Cart.CartStore.SetQty | src/lib/orbit/cart/cart-context.tsx:82-87 | the lines become `setQty`'s update, saved only once hydrated; validity and persistence kept |
| Cart.CartStore.Clear | src/lib/orbit/cart/cart-context.tsx:89-92 | the cart is emptied and the saved cart removed, then saved as empty when hydrated and the cart was not already empty |
| CartSummary.FindProduct | src/components/orbit/cart/CartClient.tsx:22 | finds a catalog product with the id exactly when one exists |
| CartSummary.JoinKeepsOrder | src/components/orbit/cart/CartClient.tsx:20-26 | the joined lines are the cart's lines of known products, in cart order |
| CartSummary.JoinFindsProducts | src/components/orbit/cart/CartClient.tsx:20-26 | each joined line carries the first catalog product with its id |
| CartSummary.SubtotalByLines | src/components/orbit/cart/CartClient.tsx:28 | the subtotal is the sum of price times quantity, unknown products counting nothing |
| CartSummary.SubtotalNonNegative | src/components/orbit/cart/CartClient.tsx:28 | with non-negative prices and positive quantities the subtotal is not negative |
| CartSummary.Shipping | src/components/orbit/cart/CartClient.tsx:29 | free from $80 and for an empty order, $7.95 otherwise |
| CartSummary.TotalBounds | src/components/orbit/cart/CartClient.tsx:30 | the total is at least the subtotal and at most the fee more, zero only for an empty order |
| CartSummary.TotalDropsAtThreshold | src/components/orbit/cart/CartClient.tsx:29-30 | an order of $79.99 costs $87.94 in total, one of $80 costs $80 |
| CartSummary.Decrement | src/components/orbit/cart/CartClient.tsx:108 | the − button asks for one less, never below 1 |
| CartSummary.IncrementWithinStock | src/components/orbit/cart/CartClient.tsx:79-80 | while enabled, + asks for exactly one more and stays within stock; it is disabled exactly when out of stock or at the stock |
| CartSummary.ButtonsSetExactly | src/components/orbit/cart/CartClient.tsx:108-117 | the line ends with exactly the quantity either button asks for, and an enabled + adds one item to the cart |

## Left out

- Timers: the search debounce and the simulated loading spinner are timing behaviour, not logic.
- React and Next.js plumbing: effects, memos, refs, `useRouter` and `useSearchParams`. Only the decision each effect makes is modelled.
- URL bytes: the percent-encoding and `toString` of `URLSearchParams` are not modelled. Parameters are key/value pairs, and the URL-sync comparison takes the two query strings as given.
- `localStorage` I/O and JSON failures: `loadCart`/`saveCart`/`clearCartStorage` become reads and writes of the store's `stored` field. A stored value that fails to parse is the same as a missing one.
- Saved-cart validity: a saved cart may have been written by anything, so `Cart.CartStore` keeps its validity only when the saved cart was valid (`StoredValid`).
- `useLocalStorageState` (saved sort, view and filters) is not modelled. Only the bounds clamp applied to saved filters is.
- Floating point: prices and ratings are exact hundredths, and amounts in the shop never need more precision. `Number(...)` treats exponents, hexadecimal, `Infinity` and more than two fraction digits as NaN.
- The cart page's `money` formatting is not modelled; only the shop's `formatMoney` is.
- JsStrings.ToLower: lowercases ASCII letters only; Unicode case mapping is not modelled.
- ShopBrowsing.Bounds: requires a non-empty catalog. On an empty one, `Math.min()` and `Math.max()` give infinities that integers cannot represent.
- Cart.CartStore.Hydrate: requires a store that is not yet hydrated. The effect has no dependencies and runs once; React's development-mode double run is not modelled.
- RatingStars: ratings are in hundredths rather than tenths, so that 4.75 is representable. A rating's half star is decided exactly as written.
- `featuredProducts`' `slice()` copy: with values instead of arrays, sorting cannot reorder the catalog constant, so this holds by construction.
- Out of scope: the slider's step handling and the product cards (`OrbitProductCard`, the 3D card).
- Out of scope: the markup-only pages and layout components, and `src/lib/utils.ts`.
