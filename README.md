# Storefront and admin point-of-sale logic of ecom-app, in Dafny

This project models the client-side logic of the ecom-app React storefront
and proves properties of it:

- **The admin point of sale** (`frontend/src/pages/Admin/Product.jsx`) has
  three parts:
  - A searchable product grid, shown six products per page, with a colour
    and a size chosen per product.
  - A cart of order lines with a running total.
  - The order request sent for a chosen customer.

  The page's state is the class `AdminProduct.PointOfSale`. Its fields are
  the page's React state: products, search term, current page, selected
  customer, per-product choice, cart lines, total. Its methods are the
  page's handlers. The search, the page slice, the duplicate check, the
  total and the order payload are pure functions beside it.
- **The product-detail page** (`frontend/src/pages/ProductDisplay.jsx`) is
  the class `ProductDisplay.ProductPage`. It covers:
  - the quantity stepper;
  - colour, size and image selection;
  - the add-to-cart hand-off, which resolves the chosen colour and size to a
    variant or refuses when none matches.
- **The colour and size options** are built with
  `[...new Map(variants.map(v => [v.color._id, v.color])).values()]`, both on
  the product page and in the admin grid. They are modelled in `Catalog`
  over a generic model of a JavaScript `Map`. A `Map` keeps the position of
  a key's first insertion and the value of its last one. The options are
  compared with a reference de-duplication `JsArrays.Dedup`.
- **The home page shelves** (`NewArrivalProduct.jsx`, `BestSellingProduct.jsx`)
  keep the store's products whose category list holds the slug
  `new-arrivals` or `best-selling`. Any value that is not an array counts as
  no products or no categories. This is modelled in `Shelves`.

`JsArrays` models the JavaScript built-ins these rely on:
- `find`: the first element that passes, or `undefined`;
- `filter`;
- `slice`: relative and clamped indices;
- `Map.set` and `values()`.

The handlers of `PointOfSale` follow the code as written. Removing and
updating cart lines are keyed by product id alone, as in the source. The total is
proved to stay equal to the sum of price × quantity over the lines (the
predicate `Consistent()`) after adding, updating and placing an order. After
a removal it is proved to stay equal when the product had one line;
otherwise it is off by exactly the value of the product's other lines
(`RemoveTotalDrift`). The
two places where the code departs from its evident intent are recorded under
"## Findings". Each has a corrected, row-keyed version beside it, with the
intended property proved. The corrected versions are the class's
`RemoveRow` and `UpdateRowQuantity`.

## Model

| member | source | states |
|---|---|---|
| JsArrays.Find | frontend/src/pages/Admin/Product.jsx:133-138 | `find` gives `undefined` exactly when no element passes, and otherwise the element at the first index that passes |
| JsArrays.Filter | frontend/src/pages/Admin/Product.jsx:170-172 | `filter` never returns more elements than it is given; which ones it keeps is the row for `JsArrays.FilterSpec` |
| JsArrays.FilterSpec | frontend/src/pages/Admin/Product.jsx:170-172 | `filter` keeps every element that passes and only those, keeps every occurrence of a passing value (equal counts), and its result is a subsequence of the input (order kept) |
| JsArrays.FilterMembers | frontend/src/pages/Admin/Product.jsx:170-172 | what `filter` keeps passes and comes from the input, every passing element is kept, and the result is a subsequence of the input |
| JsArrays.FilterCounts | frontend/src/pages/Admin/Product.jsx:170-172 | `filter` keeps as many copies of each passing value as the input has, and no copy of a failing one |
| JsArrays.FindOnly | frontend/src/pages/Admin/Product.jsx:133-138 | when exactly one element passes, `find` returns that element |
| JsArrays.FilterDropsOnly | frontend/src/pages/Admin/Product.jsx:170-172 | when exactly one element fails, `filter` removes just that element and keeps the rest in order |
| JsArrays.RelativeIndex | frontend/src/pages/Admin/Product.jsx:119-122 | a `slice` index lies in `[0, len]`, and an index already in range is kept unchanged |
| JsArrays.Slice | frontend/src/pages/Admin/Product.jsx:119-122 | `slice(start, end)` is never longer than the array; page contents are the row for `AdminProduct.PageContents` |
| JsArrays.MapSetSpec | frontend/src/pages/Admin/Product.jsx:308-313 | on a map with distinct keys, `set` keeps an existing key in place with the new value, changes no other entry, and appends a new key at the end |
| JsArrays.MapSet | frontend/src/pages/Admin/Product.jsx:308-313 | `set` keeps the map's size or grows it by one entry; its placement and values are the row for `JsArrays.MapSetSpec` |
| JsArrays.Values | frontend/src/pages/Admin/Product.jsx:313 | `values()` lists each entry's value, in the map's order |
| JsArrays.NewMap | frontend/src/pages/Admin/Product.jsx:308-313 | `new Map(pairs)` has the distinct ids in first-occurrence order as keys, and each key's value is the last item with that id |
| JsArrays.UniqueBy | frontend/src/pages/Admin/Product.jsx:307-323 | `[...new Map(...).values()]` has the ids `Dedup` gives, and each entry is the last item carrying its id |
| JsArrays.UniqueBySpec | frontend/src/pages/Admin/Product.jsx:307-323 | the kept items have pairwise distinct ids, every input id is among them, no other ids occur, and the order is that of first occurrence |
| JsArrays.DedupSameElements | frontend/src/pages/ProductDisplay.jsx:112-116 | the reference de-duplication keeps exactly the elements of its input |
| JsArrays.DedupDistinct | frontend/src/pages/ProductDisplay.jsx:112-116 | the reference de-duplication repeats no element |
| JsArrays.DedupFirstOccurrenceOrder | frontend/src/pages/ProductDisplay.jsx:112-116 | the reference de-duplication lists elements in the order of their first occurrence |
| JsArrays.LastWithIdIsLast | frontend/src/pages/ProductDisplay.jsx:112-116 | the item the `Map` keeps for an id occurs in the input, and no later item has that id |
| Catalog.IsVariant | frontend/src/pages/ProductDisplay.jsx:80-83 | the variant `find`'s test: the variant's colour id and size id are both the chosen ones; its use is the row for `Catalog.VariantFor` |
| Catalog.VariantFor | frontend/src/pages/ProductDisplay.jsx:80-83 | there is no variant exactly when no variant has both ids; otherwise the result is the first variant with both ids |
| Catalog.AvailableColors | frontend/src/pages/ProductDisplay.jsx:112-116 | the swatch ids are the variants' colour ids, de-duplicated in first-occurrence order |
| Catalog.AvailableColorsAreLast | frontend/src/pages/ProductDisplay.jsx:112-116 | each swatch is the colour of a variant that no later variant shares a colour id with |
| Catalog.AvailableColorsSpec | frontend/src/pages/ProductDisplay.jsx:112-116 | the swatches have:<br>- distinct ids;<br>- one swatch per variant colour id;<br>- only variant colour ids;<br>- first-occurrence order |
| Catalog.AvailableSizes | frontend/src/pages/ProductDisplay.jsx:119-123 | the size-button ids are the variants' size ids, de-duplicated in first-occurrence order |
| Catalog.AvailableSizesAreLast | frontend/src/pages/ProductDisplay.jsx:119-123 | each size button is the size of a variant that no later variant shares a size id with |
| Catalog.AvailableSizesSpec | frontend/src/pages/ProductDisplay.jsx:119-123 | the size buttons have:<br>- distinct ids;<br>- one button per variant size id;<br>- only variant size ids;<br>- first-occurrence order |
| AdminProduct.LowerChar | frontend/src/pages/Admin/Product.jsx:106 | `toLowerCase` maps `A`–`Z` to `a`–`z` and leaves every other character alone |
| AdminProduct.Lower | frontend/src/pages/Admin/Product.jsx:105-107 | lower-casing keeps the length and lower-cases each character in place |
| AdminProduct.Includes | frontend/src/pages/Admin/Product.jsx:107 | `includes(t)` holds when `t` occurs at some position of the string; its use is the row for `AdminProduct.EmptySearchKeepsAll` |
| AdminProduct.MatchesSearch | frontend/src/pages/Admin/Product.jsx:105-108 | the search test: the lower-cased name includes the lower-cased term; see `AdminProduct.SearchIgnoresCase` |
| AdminProduct.FilteredProducts | frontend/src/pages/Admin/Product.jsx:104-109 | the searched list; what it holds is the row for `AdminProduct.SearchKeepsMatchesInOrder` |
| AdminProduct.SearchKeepsMatchesInOrder | frontend/src/pages/Admin/Product.jsx:104-109 | the search keeps exactly the products whose lower-cased name contains the lower-cased term, every occurrence of each, in their original order |
| AdminProduct.EmptySearchKeepsAll | frontend/src/pages/Admin/Product.jsx:104-109 | an empty search term keeps every product |
| AdminProduct.SearchIgnoresCase | frontend/src/pages/Admin/Product.jsx:104-109 | searching for a term or for its lower-cased form gives the same products |
| AdminProduct.CurrentProducts | frontend/src/pages/Admin/Product.jsx:117-122 | the products of one page; what it holds is the rows for `AdminProduct.PageHoldsAtMostSix`, `AdminProduct.PageContents` and `AdminProduct.PagesPartition` |
| AdminProduct.PageHoldsAtMostSix | frontend/src/pages/Admin/Product.jsx:116-122 | any page number shows at most six products |
| AdminProduct.PageContents | frontend/src/pages/Admin/Product.jsx:116-122 | page p ≥ 1 shows `filtered[min((p-1)·6, n) .. min(p·6, n)]` |
| AdminProduct.PagesPartition | frontend/src/pages/Admin/Product.jsx:116-122 | pages 1 to k, put together, are the first min(6k, n) products |
| AdminProduct.AllPagesHoldEverything | frontend/src/pages/Admin/Product.jsx:116-122 | the ⌈n/6⌉ pages together are the whole filtered list |
| AdminProduct.CartTotal | frontend/src/pages/Admin/Product.jsx:187-190 | the `reduce` sum of price × quantity; its laws are the rows for `AdminProduct.CartTotalAppend` and `AdminProduct.CartTotalSplit` |
| AdminProduct.LineTotal | frontend/src/pages/Admin/Product.jsx:178 | a line's value is `item.price * item.quantity`, the term summed by `AdminProduct.CartTotal` and subtracted on removal |
| AdminProduct.SameVariant | frontend/src/pages/Admin/Product.jsx:133-138 | the duplicate check's test: same product id, colour id and size id; its use is the row for `AdminProduct.InCart` |
| AdminProduct.SelectionFor | frontend/src/pages/Admin/Product.jsx:126 | the product's entry in `selectedVariants`, defaulting to `{}`: the stored choice, or no colour and no size for a product never clicked; see `AdminProduct.UnchosenIsRefused` |
| AdminProduct.Chosen | frontend/src/pages/Admin/Product.jsx:128 | JavaScript truthiness of a chosen id: it is set and not the empty string; see `AdminProduct.UnchosenIsRefused` |
| AdminProduct.UnchosenIsRefused | frontend/src/pages/Admin/Product.jsx:126-131 | an add for a product never clicked, or whose colour or size id is empty, is refused for a missing choice |
| AdminProduct.InCart | frontend/src/pages/Admin/Product.jsx:133-138 | the duplicate check finds a line exactly when some cart line has the product, colour and size |
| AdminProduct.CartTotalAppend | frontend/src/pages/Admin/Product.jsx:187-190 | the sum of price × quantity over two carts put together is the sum of their totals |
| AdminProduct.CartTotalSplit | frontend/src/pages/Admin/Product.jsx:187-190 | the cart total is one product's lines' total plus the total of the other lines |
| AdminProduct.WithChoice | frontend/src/pages/Admin/Product.jsx:197-205 | choosing a colour or size sets only that field of that product, keeps the other field, and changes no other product's choice |
| AdminProduct.AddOutcomeFor | frontend/src/pages/Admin/Product.jsx:125-147 | an add:<br>- is refused for a missing choice exactly when colour or size is unset or empty;<br>- is refused as a duplicate exactly when a line for that variant exists;<br>- succeeds exactly when neither holds and the variant exists |
| AdminProduct.NewLine | frontend/src/pages/Admin/Product.jsx:149-161 | the appended line: one piece at the variant's price with its colour and size; see `AdminProduct.AddKeepsCartSound` |
| AdminProduct.AddKeepsCartSound | frontend/src/pages/Admin/Product.jsx:149-164 | a successful add keeps every variant on one line at most, and raises the sum of the lines by exactly the variant's price |
| AdminProduct.RemainingLines | frontend/src/pages/Admin/Product.jsx:170-172 | the lines of other products, in order (by `JsArrays.FilterSpec`); see `AdminProduct.PointOfSale.RemoveFromCart` |
| AdminProduct.FirstLineOf | frontend/src/pages/Admin/Product.jsx:173-175 | the line found for a product in the cart is its first line: a cart line of that product with no line of the product before it |
| AdminProduct.TotalAfterRemove | frontend/src/pages/Admin/Product.jsx:178 | the total less the first line's value; how far it drifts is the row for `AdminProduct.RemoveTotalDrift` |
| AdminProduct.RemoveTotalDrift | frontend/src/pages/Admin/Product.jsx:169-180 | after removal as written, the total is off from the remaining lines' sum by the value of the product's lines other than its first |
| AdminProduct.SingleLineTotal | frontend/src/pages/Admin/Product.jsx:169-180 | for a product with one line, that line's value is the product's share of the total |
| AdminProduct.WithQuantity | frontend/src/pages/Admin/Product.jsx:184-186 | the update sets the quantity on every line of the product, keeps its length, and leaves every other line unchanged |
| AdminProduct.WithQuantityKeepsDistinct | frontend/src/pages/Admin/Product.jsx:184-186 | updating quantities never makes two lines share a variant |
| AdminProduct.SubsequenceKeepsDistinct | frontend/src/pages/Admin/Product.jsx:170-172 | the lines left after removing some lines still hold each variant at most once |
| AdminProduct.RemoveLeavesStaleTotal | frontend/src/pages/Admin/Product.jsx:169-180 | a cart with two lines of one product (total 30) becomes empty on removal, with total 20 |
| AdminProduct.UpdateChangesSiblingRow | frontend/src/pages/Admin/Product.jsx:183-194 | setting one row of a two-colour product to 3 pieces sets the other colour's row to 3 too |
| AdminProduct.WithoutRow | frontend/src/pages/Admin/Product.jsx:170-172 | corrected removal (Findings, first row): the lines other than the variant's row; see `AdminProduct.RemoveRowKeepsTotal` |
| AdminProduct.TotalAfterRemoveRow | frontend/src/pages/Admin/Product.jsx:178 | corrected total (Findings, first row): less the variant's row's value; see `AdminProduct.RemoveRowKeepsTotal` |
| AdminProduct.RemoveRowKeepsTotal | frontend/src/pages/Admin/Product.jsx:169-180 | with distinct lines, removal keyed by variant:<br>- takes out exactly that variant's row;<br>- keeps the other rows in order;<br>- leaves the total equal to the sum of the rows |
| AdminProduct.OnlyRowOfVariant | frontend/src/pages/Admin/Product.jsx:133-138 | with distinct lines, a variant's row is the only row for that variant |
| AdminProduct.CartTotalWithout | frontend/src/pages/Admin/Product.jsx:178 | taking one row out of the cart lowers the sum of the lines by that row's price × quantity |
| AdminProduct.WithRowQuantity | frontend/src/pages/Admin/Product.jsx:184-186 | corrected update (Findings, second row): the variant's row takes the quantity; see `AdminProduct.RowQuantityTouchesOneRow` |
| AdminProduct.RowQuantityTouchesOneRow | frontend/src/pages/Admin/Product.jsx:183-194 | with distinct lines, a quantity change keyed by variant:<br>- gives that variant's row the new quantity;<br>- changes no other row;<br>- keeps the lines distinct |
| AdminProduct.OrderRequest | frontend/src/pages/Admin/Product.jsx:207-223 | a request is built exactly when a customer is chosen, the cart is non-empty and the total is positive; it carries the customer, the total, and one item per line in order with id, quantity, price, colour and size |
| AdminProduct.OrderItemOf | frontend/src/pages/Admin/Product.jsx:215-221 | an order item copies a line's product id, quantity, price, colour id and size id; see `AdminProduct.ItemsMatchLines` |
| AdminProduct.OrderTotalMatchesItems | frontend/src/pages/Admin/Product.jsx:213-223 | from a consistent cart, the request's `totalAmount` is the sum of price × quantity over its items |
| AdminProduct.ItemsMatchLines | frontend/src/pages/Admin/Product.jsx:215-221 | items copied from the lines have the same price × quantity sum as the lines |
| AdminProduct.PointOfSale.constructor | frontend/src/pages/Admin/Product.jsx:24-33 | the page starts with no products, an empty term, page 1, no customer, no choices, an empty cart and total 0, which is consistent |
| AdminProduct.PointOfSale.ReceiveProducts | frontend/src/pages/Admin/Product.jsx:59 | the fetched list replaces the products |
| AdminProduct.PointOfSale.SetSearchTerm | frontend/src/pages/Admin/Product.jsx:430 | typing replaces the search term |
| AdminProduct.PointOfSale.ChangePage | frontend/src/pages/Admin/Product.jsx:112-114 | the pager sets the current page |
| AdminProduct.PointOfSale.SelectUser | frontend/src/pages/Admin/Product.jsx:438 | picking a customer selects them |
| AdminProduct.PointOfSale.ShownProducts | frontend/src/pages/Admin/Product.jsx:104-122 | the grid shows at most six products, each one a product of the list that matches the search |
| AdminProduct.PointOfSale.SelectVariant | frontend/src/pages/Admin/Product.jsx:197-205 | a swatch or size click updates only that product's choice for that field |
| AdminProduct.PointOfSale.AddToCart | frontend/src/pages/Admin/Product.jsx:125-166 | adding:<br>- reports why it was refused and then changes nothing;<br>- on success appends exactly one line (one piece at the variant's price);<br>- raises the total by that price;<br>- keeps lines distinct and the total consistent |
| AdminProduct.PointOfSale.RemoveFromCart | frontend/src/pages/Admin/Product.jsx:169-180 | as written, removal:<br>- drops every line of the product and keeps the rest in order;<br>- subtracts only the first line's value;<br>- keeps the total consistent when the product had one line |
| AdminProduct.PointOfSale.UpdateQuantity | frontend/src/pages/Admin/Product.jsx:183-194 | every line of the product takes the quantity, the other lines stay, and the total becomes the sum of the lines |
| AdminProduct.PointOfSale.RemoveRow | frontend/src/pages/Admin/Product.jsx:169-180 | corrected removal:<br>- drops only the clicked variant's row;<br>- subtracts only that row's value;<br>- keeps the lines distinct and a consistent total consistent |
| AdminProduct.PointOfSale.UpdateRowQuantity | frontend/src/pages/Admin/Product.jsx:183-194 | corrected update: only the edited variant's row takes the quantity, the lines stay distinct, and the total is the sum of the lines |
| AdminProduct.PointOfSale.PlaceOrder | frontend/src/pages/Admin/Product.jsx:207-244 | the request sent is the guarded payload; an accepted order empties the cart and zeroes the total; otherwise the cart is unchanged |
| ProductDisplay.Stepped | frontend/src/pages/ProductDisplay.jsx:70-76 | `+` adds one; `-` subtracts one only above 1; from a quantity of at least 1 the result is at least 1 |
| ProductDisplay.AfterSteps | frontend/src/pages/ProductDisplay.jsx:70-76 | the quantity after a sequence of presses; its bounds are the row for `ProductDisplay.QuantityStaysPositive` |
| ProductDisplay.QuantityStaysPositive | frontend/src/pages/ProductDisplay.jsx:70-76 | from a quantity of at least 1, any sequence of presses ends:<br>- at least 1;<br>- at most the start plus the `+` presses;<br>- at least the start minus the `-` presses |
| ProductDisplay.InitialImage | frontend/src/pages/ProductDisplay.jsx:40 | the first image shown is the first image's url, or the empty string when there are no images |
| ProductDisplay.CartRequestFor | frontend/src/pages/ProductDisplay.jsx:78-101 | no cart call is made exactly when no variant has both chosen ids; otherwise the call carries the product's id, the quantity, the ids and the first matching variant's price |
| ProductDisplay.ProductPage.constructor | frontend/src/pages/ProductDisplay.jsx:24-40 | when the page mounts, its first product starts with its first image, quantity 1 and no colour or size chosen |
| ProductDisplay.ProductPage.LoadProduct | frontend/src/pages/ProductDisplay.jsx:35-49 | a later product loaded on the same page (a similar-product link changes the route) shows its first image, while the quantity and the chosen colour and size carry over |
| ProductDisplay.ProductPage.ShowImage | frontend/src/pages/ProductDisplay.jsx:66-68 | a thumbnail click shows that image |
| ProductDisplay.ProductPage.SelectColor | frontend/src/pages/ProductDisplay.jsx:213 | a swatch click selects that colour id |
| ProductDisplay.ProductPage.SelectSize | frontend/src/pages/ProductDisplay.jsx:233 | a size click selects that size id |
| ProductDisplay.ProductPage.PressIncrement | frontend/src/pages/ProductDisplay.jsx:70-72 | `+` adds exactly one piece and keeps the quantity at least 1 |
| ProductDisplay.ProductPage.PressDecrement | frontend/src/pages/ProductDisplay.jsx:74-76 | `-` removes a piece only above 1, so the quantity stays at least 1 |
| ProductDisplay.ProductPage.AddToCart | frontend/src/pages/ProductDisplay.jsx:78-101 | the button makes the cart call for the current quantity and choice, or none when the pair is not offered; any call carries at least one piece |
| Shelves.CategoriesOf | frontend/src/components/NewArrivalProduct.jsx:37-38 | `product?.category`, defaulted to `[]`: a missing product or category gives an empty list, a non-array value gives no list at all; see `Shelves.OnShelfIsTagged` |
| Shelves.OnShelf | frontend/src/components/NewArrivalProduct.jsx:36-40 | the filter's test; it equals the independent `Tagged` by `Shelves.OnShelfIsTagged` |
| Shelves.OnShelfIsTagged | frontend/src/components/NewArrivalProduct.jsx:36-40 | the filter's test holds exactly for a product whose category field is an array with an entry of that slug |
| Shelves.Shelf | frontend/src/components/NewArrivalProduct.jsx:35-41 | the shelf for a slug; what it holds is the row for `Shelves.ShelfSpec` |
| Shelves.NewArrivals | frontend/src/components/NewArrivalProduct.jsx:35-41 | the "New Arrivals" shelf; what it holds is the row for `Shelves.NewArrivalsSpec` |
| Shelves.BestSelling | frontend/src/components/BestSellingProduct.jsx:30-36 | the "Best Selling" shelf; what it holds is the row for `Shelves.BestSellingSpec` |
| Shelves.ShelfSpec | frontend/src/components/NewArrivalProduct.jsx:35-41 | a shelf is empty for a non-array list, and otherwise holds exactly the tagged products, every occurrence of each, in order, as a subsequence |
| Shelves.NewArrivalsSpec | frontend/src/components/NewArrivalProduct.jsx:35-41 | "New Arrivals" holds exactly the products tagged `new-arrivals`, every occurrence of each, in order; nothing without an array of categories appears; a non-array list gives none |
| Shelves.BestSellingSpec | frontend/src/components/BestSellingProduct.jsx:30-36 | "Best Selling" holds exactly the products tagged `best-selling`, every occurrence of each, in order; nothing without an array of categories appears; a non-array list gives none |

## Left out

- HTTP, `localStorage` and toasts are left out. This covers fetching products, users and categories, the user create/update/delete calls, the order POST and the product-detail fetches. The server's answer to the order POST is a boolean parameter of `PlaceOrder`, and a failed request counts as a refusal.
- The discount percentage is left out. It uses floating-point division and `toFixed`.
- Prices and quantities are unbounded integers, not JavaScript numbers.
- AdminProduct.PointOfSale.PlaceOrder: the POST is modelled as one atomic step. In the source the cart is cleared after the `await`, so lines added while the request is in flight are cleared without being ordered; the model does not capture that interleaving.
- AdminProduct.LowerChar: `toLowerCase` is modelled for ASCII letters only. Unicode case mapping is not captured.
- AdminProduct.PointOfSale.UpdateQuantity: the quantity box can report `null` when it is cleared. The model takes an integer and does not capture a `null` quantity.
- AdminProduct.PointOfSale.AddToCart: when no variant has the chosen pair, the source throws a `TypeError` reading `variant.price` before any state changes. The model reports `NoSuchVariant` and changes nothing.
- AdminProduct.PointOfSale.RemoveFromCart: it requires a product that has a line in the cart, because only a cart row's button calls it. For an absent product the source would throw on `removedItem.price`.
- Catalog: `product.variants` missing (`?.` giving `undefined`) is modelled as an empty list. Colour and size references that the API did not populate are not modelled.
- Shelves: `null` entries inside a category array, and category entries without a `slug`, are not modelled.
- Animation (GSAP, ScrollTrigger), JSX rendering, the colour-class map and tab switching are left out.
- The backend is not part of this model: its route files only hand requests to controllers.

## Findings

| source | as written | input that shows it | evidently intended | confidence | as-written member | corrected member |
|---|---|---|---|---|---|---|
| frontend/src/pages/Admin/Product.jsx:169-180 | the remove button of a row filters out every line with that product id, but subtracts only the first such line's price × quantity from the total | a cart with product p1 in red (price 10) and blue (price 20), one piece each, total 30: removing the blue row empties the cart and leaves the total at 20 | remove only the clicked row (product, colour and size), and subtract that row's value, so the total stays the sum of the lines | high (not executed) | AdminProduct.RemoveLeavesStaleTotal | AdminProduct.RemoveRowKeepsTotal |
| frontend/src/pages/Admin/Product.jsx:183-194 | the quantity box of a row sets the quantity on every line with that product id | the same cart: setting the blue row to 3 pieces also sets the red row to 3 | change only the edited row, since rows are told apart by product, colour and size (lines 133-138) | high (not executed) | AdminProduct.UpdateChangesSiblingRow | AdminProduct.RowQuantityTouchesOneRow |
