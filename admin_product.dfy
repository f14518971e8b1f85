/** The admin point-of-sale page: a searchable, paginated product grid
    where the admin picks a colour and a size per product, a cart of order
    lines with a running total, and the order request sent for a chosen
    customer. */
module AdminProduct {
  import opened JsArrays
  import opened Catalog

  // ---------------------------------------------------------------------
  // Search

  /** `toLowerCase` on one character (ASCII letters only). */
  function LowerChar(c: char): (d: char)
    ensures 'A' <= c <= 'Z' ==> d as int == c as int + 32
    ensures !('A' <= c <= 'Z') ==> d == c
  {
    if 'A' <= c <= 'Z' then (c as int + 32) as char else c
  }

  function Lower(s: string): (r: string)
    ensures |r| == |s|
    ensures forall i :: 0 <= i < |s| ==> r[i] == LowerChar(s[i])
  {
    seq(|s|, i requires 0 <= i < |s| => LowerChar(s[i]))
  }

  /** `s.includes(t)`: `t` occurs in `s` at some position. */
  predicate Includes(s: string, t: string)
  {
    exists i :: 0 <= i <= |s| && t <= s[i..]
  }

  /** The product's lower-cased name contains the lower-cased search term. */
  predicate MatchesSearch(p: Product, term: string)
  {
    Includes(Lower(p.name), Lower(term))
  }

  /** `products.filter(p => p.name.toLowerCase().includes(term.toLowerCase()))`. */
  function FilteredProducts(products: seq<Product>, term: string): seq<Product>
  {
    Filter(products, p => MatchesSearch(p, term))
  }

  /** The search keeps exactly the products whose name matches, every
      occurrence of each, in their original order. */
  lemma SearchKeepsMatchesInOrder(products: seq<Product>, term: string)
    ensures var r := FilteredProducts(products, term);
      && (forall i :: 0 <= i < |r| ==> r[i] in products && MatchesSearch(r[i], term))
      && (forall i :: 0 <= i < |products| && MatchesSearch(products[i], term) ==> products[i] in r)
      && (forall p :: multiset(r)[p] == if MatchesSearch(p, term) then multiset(products)[p] else 0)
      && IsSubsequence(r, products)
  {
    FilterSpec(products, p => MatchesSearch(p, term));
  }

  /** An empty search term keeps every product. */
  lemma EmptySearchKeepsAll(products: seq<Product>)
    ensures FilteredProducts(products, "") == products
  {
    forall i | 0 <= i < |products| ensures MatchesSearch(products[i], "") {
      assert "" <= Lower(products[i].name)[0..];
    }
    FilterKeepsAll(products, p => MatchesSearch(p, ""));
  }

  lemma LowerIdempotent(s: string)
    ensures Lower(Lower(s)) == Lower(s)
  {
  }

  /** The search does not depend on the case of the term. */
  lemma SearchIgnoresCase(products: seq<Product>, term: string)
    ensures FilteredProducts(products, term) == FilteredProducts(products, Lower(term))
  {
    LowerIdempotent(term);
    FilterSameTest(products, p => MatchesSearch(p, term), p => MatchesSearch(p, Lower(term)));
  }

  // ---------------------------------------------------------------------
  // Pagination

  const ProductsPerPage := 6

  /** `filtered.slice(page * 6 - 6, page * 6)`: the products shown on `page`. */
  function CurrentProducts(filtered: seq<Product>, page: int): seq<Product>
  {
    var indexOfLast := page * ProductsPerPage;
    var indexOfFirst := indexOfLast - ProductsPerPage;
    Slice(filtered, indexOfFirst, indexOfLast)
  }

  function Min(a: int, b: int): int
  {
    if a <= b then a else b
  }

  /** Whatever the page number, a page shows at most six products. */
  lemma PageHoldsAtMostSix(filtered: seq<Product>, page: int)
    ensures |CurrentProducts(filtered, page)| <= ProductsPerPage
  {
  }

  /** Page `p >= 1` shows `filtered[(p - 1) * 6 .. min(p * 6, n)]`, and
      nothing once `(p - 1) * 6` reaches the end. */
  lemma PageContents(filtered: seq<Product>, page: int)
    requires page >= 1
    ensures var n := |filtered|;
      CurrentProducts(filtered, page) == filtered[Min((page - 1) * ProductsPerPage, n) .. Min(page * ProductsPerPage, n)]
  {
  }

  /** Pages 1 to `k`, one after the other. */
  function PagesUpTo(filtered: seq<Product>, k: nat): seq<Product>
  {
    if k == 0 then [] else PagesUpTo(filtered, k - 1) + CurrentProducts(filtered, k)
  }

  /** Consecutive pages partition the list: pages 1 to `k` together are its
      first `min(6k, n)` products. */
  lemma {:induction false} PagesPartition(filtered: seq<Product>, k: nat)
    ensures PagesUpTo(filtered, k) == filtered[..Min(k * ProductsPerPage, |filtered|)]
  {
    if k > 0 {
      PagesPartition(filtered, k - 1);
      PageContents(filtered, k);
      var n := |filtered|;
      var a, b := Min((k - 1) * ProductsPerPage, n), Min(k * ProductsPerPage, n);
      assert filtered[..a] + filtered[a..b] == filtered[..b];
    }
  }

  /** The `ceil(n / 6)` pages the pager offers hold the whole list. */
  lemma AllPagesHoldEverything(filtered: seq<Product>)
    ensures PagesUpTo(filtered, (|filtered| + ProductsPerPage - 1) / ProductsPerPage) == filtered
  {
    PagesPartition(filtered, (|filtered| + ProductsPerPage - 1) / ProductsPerPage);
  }

  // ---------------------------------------------------------------------
  // Cart lines

  /** One line of the cart, as the page stores it. */
  datatype CartLine = CartLine(
    productId: Id, name: string, quantity: int, price: int,
    colorId: Id, sizeId: Id, colorName: string, sizeName: string)

  function LineTotal(l: CartLine): int
  {
    l.price * l.quantity
  }

  /** `lines.reduce((sum, l) => sum + l.price * l.quantity, 0)`. */
  function CartTotal(lines: seq<CartLine>): int
  {
    if lines == [] then 0 else LineTotal(lines[0]) + CartTotal(lines[1..])
  }

  lemma {:induction false} CartTotalAppend(a: seq<CartLine>, b: seq<CartLine>)
    ensures CartTotal(a + b) == CartTotal(a) + CartTotal(b)
  {
    if a != [] {
      assert (a + b)[0] == a[0] && (a + b)[1..] == a[1..] + b;
      CartTotalAppend(a[1..], b);
    } else {
      assert a + b == b;
    }
  }

  /** The line is for this product in this colour and size. */
  predicate SameVariant(l: CartLine, productId: Id, colorId: Id, sizeId: Id)
  {
    l.productId == productId && l.colorId == colorId && l.sizeId == sizeId
  }

  /** The duplicate check: `lines.find(...)` finds a line for the variant. */
  predicate InCart(lines: seq<CartLine>, productId: Id, colorId: Id, sizeId: Id)
    ensures InCart(lines, productId, colorId, sizeId) <==>
      exists i :: 0 <= i < |lines| && SameVariant(lines[i], productId, colorId, sizeId)
  {
    Find(lines, IsRow(productId, colorId, sizeId)).Some?
  }

  /** No two lines share product, colour and size. */
  ghost predicate DistinctLines(lines: seq<CartLine>)
  {
    forall i, j :: 0 <= i < j < |lines| ==>
      !SameVariant(lines[j], lines[i].productId, lines[i].colorId, lines[i].sizeId)
  }

  /** The lines that belong to `productId`, in order. */
  function LinesOf(lines: seq<CartLine>, productId: Id): seq<CartLine>
  {
    Filter(lines, (l: CartLine) => l.productId == productId)
  }

  /** The cart total splits into the lines of one product and the rest. */
  lemma {:induction false} CartTotalSplit(lines: seq<CartLine>, productId: Id)
    ensures CartTotal(lines) == CartTotal(LinesOf(lines, productId))
                                + CartTotal(RemainingLines(lines, productId))
  {
    if lines != [] {
      CartTotalSplit(lines[1..], productId);
    }
  }

  // ---------------------------------------------------------------------
  // Colour and size choice per product

  /** The choice stored for one product; a field never clicked is absent. */
  datatype Selection = Selection(color: Option<Id>, size: Option<Id>)

  datatype VariantField = SelectedColor | SelectedSize

  /** JavaScript truthiness of an optional id: present and not empty. */
  predicate Chosen(o: Option<Id>)
  {
    o.Some? && o.value != ""
  }

  /** `selectedVariants[productId] || {}`. */
  function SelectionFor(selections: map<Id, Selection>, productId: Id): Selection
  {
    if productId in selections then selections[productId] else Selection(None, None)
  }

  /** `{...prev, [productId]: {...prev[productId], [field]: value}}`: only the
      chosen field of that product changes. */
  function WithChoice(selections: map<Id, Selection>, productId: Id, field: VariantField, value: Id)
    : (r: map<Id, Selection>)
    ensures r.Keys == selections.Keys + {productId}
    ensures forall q :: q in selections && q != productId ==> r[q] == selections[q]
    ensures field == SelectedColor ==>
      r[productId].color == Some(value) && r[productId].size == SelectionFor(selections, productId).size
    ensures field == SelectedSize ==>
      r[productId].size == Some(value) && r[productId].color == SelectionFor(selections, productId).color
  {
    var prev := SelectionFor(selections, productId);
    selections[productId := match field
      case SelectedColor => prev.(color := Some(value))
      case SelectedSize => prev.(size := Some(value))]
  }

  // ---------------------------------------------------------------------
  // Adding a line

  datatype AddOutcome =
    | Added
    | MissingSelection  // "Please select a color and size."
    | AlreadyInCart     // "<name> in this variant is already in the cart."
    | NoSuchVariant     // `variant.price` read from undefined: a TypeError, nothing stored

  /** The line added for `product` in variant `v`: one piece at the variant's price. */
  function NewLine(product: Product, v: Variant): CartLine
  {
    CartLine(product.id, product.name, 1, v.price, v.color.id, v.size.id, v.color.name, v.size.name)
  }

  /** Which way adding `product` with choice `sel` to `lines` goes. */
  function AddOutcomeFor(lines: seq<CartLine>, sel: Selection, product: Product): (r: AddOutcome)
    ensures r == MissingSelection <==> !Chosen(sel.color) || !Chosen(sel.size)
    ensures r == AlreadyInCart <==> (
      && Chosen(sel.color) && Chosen(sel.size)
      && exists i :: 0 <= i < |lines| && SameVariant(lines[i], product.id, sel.color.value, sel.size.value))
    ensures r == Added <==> (
      && Chosen(sel.color) && Chosen(sel.size)
      && (forall i :: 0 <= i < |lines| ==> !SameVariant(lines[i], product.id, sel.color.value, sel.size.value))
      && exists i :: 0 <= i < |product.variants| && IsVariant(product.variants[i], sel.color.value, sel.size.value))
  {
    if !Chosen(sel.color) || !Chosen(sel.size) then MissingSelection
    else if InCart(lines, product.id, sel.color.value, sel.size.value) then AlreadyInCart
    else if VariantFor(product.variants, sel.color.value, sel.size.value).None? then NoSuchVariant
    else Added
  }

  /** A product never clicked reads as `{}`, and an empty id is falsy: the
      add is refused for a missing choice in both cases. */
  lemma UnchosenIsRefused(lines: seq<CartLine>, selections: map<Id, Selection>, product: Product)
    ensures product.id !in selections ==>
      AddOutcomeFor(lines, SelectionFor(selections, product.id), product) == MissingSelection
    ensures product.id in selections && (selections[product.id].color == Some("") || selections[product.id].size == Some("")) ==>
      AddOutcomeFor(lines, SelectionFor(selections, product.id), product) == MissingSelection
  {
  }

  /** A successful add keeps lines distinct and adds exactly the new
      line's price to the sum of the lines. */
  lemma AddKeepsCartSound(lines: seq<CartLine>, sel: Selection, product: Product)
    requires DistinctLines(lines)
    requires AddOutcomeFor(lines, sel, product) == Added
    ensures var v := VariantFor(product.variants, sel.color.value, sel.size.value).value;
      && DistinctLines(lines + [NewLine(product, v)])
      && CartTotal(lines + [NewLine(product, v)]) == CartTotal(lines) + v.price
  {
    var v := VariantFor(product.variants, sel.color.value, sel.size.value).value;
    var l := NewLine(product, v);
    assert SameVariant(l, product.id, sel.color.value, sel.size.value);
    CartTotalAppend(lines, [l]);
    assert CartTotal([l]) == LineTotal(l);
  }

  // ---------------------------------------------------------------------
  // Removing and re-quantifying lines, keyed by product id as written

  /** `lines.filter(l => l.productId !== productId)`. */
  function RemainingLines(lines: seq<CartLine>, productId: Id): seq<CartLine>
  {
    Filter(lines, (l: CartLine) => l.productId != productId)
  }

  /** `lines.find(l => l.productId === productId)`, for a product in the
      cart: its first line. */
  function FirstLineOf(lines: seq<CartLine>, productId: Id): (l: CartLine)
    requires exists i :: 0 <= i < |lines| && lines[i].productId == productId
    ensures l in lines && l.productId == productId
    ensures exists i :: 0 <= i < |lines| && lines[i] == l
                        && forall j :: 0 <= j < i ==> lines[j].productId != productId
  {
    Find(lines, (l: CartLine) => l.productId == productId).value
  }

  /** The total after removal as written: only the first line's value is subtracted. */
  function TotalAfterRemove(lines: seq<CartLine>, total: int, productId: Id): int
    requires exists i :: 0 <= i < |lines| && lines[i].productId == productId
  {
    total - LineTotal(FirstLineOf(lines, productId))
  }

  /** Removal as written drops every line of the product; starting from a
      consistent total, the new total is off from the remaining lines' sum
      by exactly the value of that product's lines other than its first. */
  lemma RemoveTotalDrift(lines: seq<CartLine>, productId: Id)
    requires exists i :: 0 <= i < |lines| && lines[i].productId == productId
    ensures TotalAfterRemove(lines, CartTotal(lines), productId)
            == CartTotal(RemainingLines(lines, productId))
               + (CartTotal(LinesOf(lines, productId)) - LineTotal(FirstLineOf(lines, productId)))
  {
    CartTotalSplit(lines, productId);
  }

  /** The sum of a product's lines is its first line's value when it has
      only one line, so removal as written then keeps the total consistent. */
  lemma {:induction false} SingleLineTotal(lines: seq<CartLine>, productId: Id)
    requires |LinesOf(lines, productId)| == 1
    ensures exists i :: 0 <= i < |lines| && lines[i].productId == productId
    ensures CartTotal(LinesOf(lines, productId)) == LineTotal(FirstLineOf(lines, productId))
  {
    if lines[0].productId == productId {
      assert LinesOf(lines, productId) == [lines[0]] + LinesOf(lines[1..], productId);
    } else {
      assert LinesOf(lines, productId) == LinesOf(lines[1..], productId);
      SingleLineTotal(lines[1..], productId);
      var i :| 0 <= i < |lines[1..]| && lines[1..][i].productId == productId;
      assert lines[i + 1].productId == productId;
    }
  }

  /** `lines.map(l => l.productId === productId ? {...l, quantity} : l)`. */
  function WithQuantity(lines: seq<CartLine>, productId: Id, quantity: int): (r: seq<CartLine>)
    ensures |r| == |lines|
    ensures forall i :: 0 <= i < |lines| ==>
      r[i] == if lines[i].productId == productId then lines[i].(quantity := quantity) else lines[i]
  {
    seq(|lines|, i requires 0 <= i < |lines| =>
      if lines[i].productId == productId then lines[i].(quantity := quantity) else lines[i])
  }

  /** Changing quantities never changes which variant a line is for. */
  lemma WithQuantityKeepsDistinct(lines: seq<CartLine>, productId: Id, quantity: int)
    requires DistinctLines(lines)
    ensures DistinctLines(WithQuantity(lines, productId, quantity))
  {
    var r := WithQuantity(lines, productId, quantity);
    forall i, j | 0 <= i < j < |r| ensures !SameVariant(r[j], r[i].productId, r[i].colorId, r[i].sizeId) {
      assert !SameVariant(lines[j], lines[i].productId, lines[i].colorId, lines[i].sizeId);
    }
  }

  /** A subsequence of distinct lines is distinct. */
  lemma {:induction false} SubsequenceKeepsDistinct(r: seq<CartLine>, lines: seq<CartLine>)
    requires IsSubsequence(r, lines) && DistinctLines(lines)
    ensures DistinctLines(r)
  {
    if r != [] && lines != [] {
      assert DistinctLines(lines[1..]) by {
        forall i, j | 0 <= i < j < |lines[1..]|
          ensures !SameVariant(lines[1..][j], lines[1..][i].productId, lines[1..][i].colorId, lines[1..][i].sizeId)
        {
          assert lines[1..][i] == lines[i + 1] && lines[1..][j] == lines[j + 1];
        }
      }
      if r[0] == lines[0] {
        SubsequenceKeepsDistinct(r[1..], lines[1..]);
        SubsequenceElements(r[1..], lines[1..]);
        forall j | 0 < j < |r| ensures !SameVariant(r[j], r[0].productId, r[0].colorId, r[0].sizeId) {
          assert r[1..][j - 1] == r[j];
          var k :| 0 <= k < |lines[1..]| && lines[1..][k] == r[j];
          assert lines[k + 1] == r[j];
        }
        forall i, j | 0 < i < j < |r| ensures !SameVariant(r[j], r[i].productId, r[i].colorId, r[i].sizeId) {
          assert r[1..][i - 1] == r[i] && r[1..][j - 1] == r[j];
        }
      } else {
        SubsequenceKeepsDistinct(r, lines[1..]);
      }
    }
  }

  /** Every element of a subsequence occurs in the sequence. */
  lemma {:induction false} SubsequenceElements<T>(r: seq<T>, s: seq<T>)
    requires IsSubsequence(r, s)
    ensures forall j :: 0 <= j < |r| ==> exists k :: 0 <= k < |s| && s[k] == r[j]
  {
    if r != [] && s != [] {
      if r[0] == s[0] {
        SubsequenceElements(r[1..], s[1..]);
        forall j | 0 <= j < |r| ensures exists k :: 0 <= k < |s| && s[k] == r[j] {
          if j == 0 {
            assert s[0] == r[0];
          } else {
            assert r[1..][j - 1] == r[j];
            var k :| 0 <= k < |s[1..]| && s[1..][k] == r[j];
            assert s[k + 1] == r[j];
          }
        }
      } else {
        SubsequenceElements(r, s[1..]);
        forall j | 0 <= j < |r| ensures exists k :: 0 <= k < |s| && s[k] == r[j] {
          var k :| 0 <= k < |s[1..]| && s[1..][k] == r[j];
          assert s[k + 1] == r[j];
        }
      }
    }
  }

  // ---------------------------------------------------------------------
  // Rows keyed by product id alone: what goes wrong, and the row-keyed fix

  /** Two rows of one product, a red and a blue one, in a consistent cart. */
  function TwoVariantCart(): seq<CartLine>
  {
    [ CartLine("p1", "Tee", 1, 10, "red", "m", "Red", "M"),
      CartLine("p1", "Tee", 1, 20, "blue", "m", "Blue", "M") ]
  }

  /** Removing the blue row as written drops both rows but takes only the
      red row's 10 off the total of 30, leaving 20 for an empty cart. */
  lemma RemoveLeavesStaleTotal()
    ensures var lines := TwoVariantCart();
      && DistinctLines(lines) && CartTotal(lines) == 30
      && RemainingLines(lines, "p1") == []
      && TotalAfterRemove(lines, CartTotal(lines), "p1") == 20
      && TotalAfterRemove(lines, CartTotal(lines), "p1") != CartTotal(RemainingLines(lines, "p1"))
  {
    var lines := TwoVariantCart();
    assert RemainingLines(lines, "p1") == RemainingLines(lines[1..], "p1");
    assert FirstLineOf(lines, "p1") == lines[0];
  }

  /** Setting the blue row to 3 pieces as written also sets the red row to 3. */
  lemma UpdateChangesSiblingRow()
    ensures var r := WithQuantity(TwoVariantCart(), "p1", 3);
      && r[0].colorId == "red" && r[0].quantity == 3
      && r[1].colorId == "blue" && r[1].quantity == 3
  {
  }

  /** The test "this row is for the variant", as handed to `find` and `filter`. */
  function IsRow(productId: Id, colorId: Id, sizeId: Id): CartLine -> bool
  {
    l => SameVariant(l, productId, colorId, sizeId)
  }

  function IsOtherRow(productId: Id, colorId: Id, sizeId: Id): CartLine -> bool
  {
    l => !SameVariant(l, productId, colorId, sizeId)
  }

  /** Corrected removal: drop only the row for the variant. */
  function WithoutRow(lines: seq<CartLine>, productId: Id, colorId: Id, sizeId: Id): seq<CartLine>
  {
    Filter(lines, IsOtherRow(productId, colorId, sizeId))
  }

  /** Corrected total after removal: less the removed row's value. */
  function TotalAfterRemoveRow(lines: seq<CartLine>, total: int, productId: Id, colorId: Id, sizeId: Id): int
  {
    match Find(lines, IsRow(productId, colorId, sizeId))
    case Some(l) => total - LineTotal(l)
    case None => total
  }

  /** In a cart of distinct rows, the corrected removal of the variant of
      row `i` takes out exactly that row, keeps the others in order, and
      keeps the total equal to the sum of the rows. */
  lemma RemoveRowKeepsTotal(lines: seq<CartLine>, productId: Id, colorId: Id, sizeId: Id, i: nat)
    requires DistinctLines(lines)
    requires i < |lines| && SameVariant(lines[i], productId, colorId, sizeId)
    ensures WithoutRow(lines, productId, colorId, sizeId) == lines[..i] + lines[i + 1..]
    ensures TotalAfterRemoveRow(lines, CartTotal(lines), productId, colorId, sizeId)
            == CartTotal(WithoutRow(lines, productId, colorId, sizeId))
  {
    OnlyRowOfVariant(lines, productId, colorId, sizeId, i);
    FindOnly(lines, IsRow(productId, colorId, sizeId), i);
    FilterDropsOnly(lines, IsOtherRow(productId, colorId, sizeId), i);
    CartTotalWithout(lines, i);
  }

  /** In a cart of distinct rows, the row at `i` is the only one for its variant. */
  lemma OnlyRowOfVariant(lines: seq<CartLine>, productId: Id, colorId: Id, sizeId: Id, i: nat)
    requires DistinctLines(lines)
    requires i < |lines| && SameVariant(lines[i], productId, colorId, sizeId)
    ensures forall j :: 0 <= j < |lines| && j != i ==> !SameVariant(lines[j], productId, colorId, sizeId)
  {
    forall j | 0 <= j < |lines| && j != i ensures !SameVariant(lines[j], productId, colorId, sizeId) {
      if j < i {
        assert !SameVariant(lines[i], lines[j].productId, lines[j].colorId, lines[j].sizeId);
      } else {
        assert !SameVariant(lines[j], lines[i].productId, lines[i].colorId, lines[i].sizeId);
      }
    }
  }

  /** Taking the row at `i` out of a cart takes its value off the total. */
  lemma CartTotalWithout(lines: seq<CartLine>, i: nat)
    requires i < |lines|
    ensures CartTotal(lines[..i] + lines[i + 1..]) == CartTotal(lines) - LineTotal(lines[i])
  {
    CartTotalAppend(lines[..i], lines[i + 1..]);
    CartTotalAppend(lines[..i], lines[i..]);
    assert lines[..i] + lines[i..] == lines;
    assert lines[i..] == [lines[i]] + lines[i + 1..];
  }

  /** Corrected quantity change: only the row for the variant takes it. */
  function WithRowQuantity(lines: seq<CartLine>, productId: Id, colorId: Id, sizeId: Id, quantity: int)
    : seq<CartLine>
  {
    seq(|lines|, i requires 0 <= i < |lines| =>
      if SameVariant(lines[i], productId, colorId, sizeId) then lines[i].(quantity := quantity) else lines[i])
  }

  /** In a cart of distinct rows, the corrected change gives the variant's
      row the new quantity, touches no other row, and keeps rows distinct. */
  lemma RowQuantityTouchesOneRow(lines: seq<CartLine>, productId: Id, colorId: Id, sizeId: Id, quantity: int)
    requires DistinctLines(lines)
    ensures var r := WithRowQuantity(lines, productId, colorId, sizeId, quantity);
      && |r| == |lines| && DistinctLines(r)
      && (forall i, j :: 0 <= i < j < |r| ==> r[i] == lines[i] || r[j] == lines[j])
      && (forall i :: 0 <= i < |lines| && SameVariant(lines[i], productId, colorId, sizeId) ==>
            r[i] == lines[i].(quantity := quantity))
      && (forall i :: 0 <= i < |r| && r[i] != lines[i] ==>
            SameVariant(lines[i], productId, colorId, sizeId) && r[i] == lines[i].(quantity := quantity))
  {
    var r := WithRowQuantity(lines, productId, colorId, sizeId, quantity);
    forall i, j | 0 <= i < j < |r| ensures !SameVariant(r[j], r[i].productId, r[i].colorId, r[i].sizeId) {
      assert !SameVariant(lines[j], lines[i].productId, lines[i].colorId, lines[i].sizeId);
    }
  }

  // ---------------------------------------------------------------------
  // Placing the order

  datatype OrderItem = OrderItem(productId: Id, quantity: int, price: int, color: Id, size: Id)
  datatype OrderPayload = OrderPayload(userId: Id, items: seq<OrderItem>, totalAmount: int)

  function OrderItemOf(l: CartLine): OrderItem
  {
    OrderItem(l.productId, l.quantity, l.price, l.colorId, l.sizeId)
  }

  /** The request body, or none when the guard refuses: no customer chosen,
      an empty cart, or a total that is not positive. */
  function OrderRequest(user: Option<Id>, lines: seq<CartLine>, total: int): (r: Option<OrderPayload>)
    ensures r.Some? <==> Chosen(user) && |lines| > 0 && total > 0
    ensures r.Some? ==> r.value.userId == user.value && r.value.totalAmount == total
    ensures r.Some? ==> (
      && |r.value.items| == |lines|
      && forall i :: 0 <= i < |lines| ==> r.value.items[i] == OrderItemOf(lines[i]))
  {
    if !Chosen(user) || |lines| == 0 || total <= 0 then None
    else Some(OrderPayload(user.value, seq(|lines|, i requires 0 <= i < |lines| => OrderItemOf(lines[i])), total))
  }

  function ItemsTotal(items: seq<OrderItem>): int
  {
    if items == [] then 0 else items[0].price * items[0].quantity + ItemsTotal(items[1..])
  }

  /** From a consistent cart, the request's `totalAmount` is the sum of
      price times quantity over the items it sends. */
  lemma OrderTotalMatchesItems(user: Option<Id>, lines: seq<CartLine>)
    requires OrderRequest(user, lines, CartTotal(lines)).Some?
    ensures var p := OrderRequest(user, lines, CartTotal(lines)).value;
      p.totalAmount == ItemsTotal(p.items)
  {
    var p := OrderRequest(user, lines, CartTotal(lines)).value;
    ItemsMatchLines(p.items, lines);
  }

  lemma {:induction false} ItemsMatchLines(items: seq<OrderItem>, lines: seq<CartLine>)
    requires |items| == |lines| && forall i :: 0 <= i < |lines| ==> items[i] == OrderItemOf(lines[i])
    ensures ItemsTotal(items) == CartTotal(lines)
  {
    if lines != [] {
      ItemsMatchLines(items[1..], lines[1..]);
    }
  }

  // ---------------------------------------------------------------------
  // The page's state

  class PointOfSale {
    var products: seq<Product>
    var searchTerm: string
    var currentPage: int
    var selectedUser: Option<Id>
    var selections: map<Id, Selection>
    var items: seq<CartLine>
    var total: int

    /** The cart never holds two lines for the same variant. */
    ghost predicate Valid()
      reads this
    {
      DistinctLines(items)
    }

    /** The running total is the sum of price times quantity over the lines. */
    ghost predicate Consistent()
      reads this
    {
      total == CartTotal(items)
    }

    constructor ()
      ensures Valid() && Consistent()
      ensures products == [] && searchTerm == "" && currentPage == 1 && selectedUser == None
      ensures selections == map[] && items == [] && total == 0
    {
      products, searchTerm, currentPage, selectedUser := [], "", 1, None;
      selections, items, total := map[], [], 0;
    }

    /** The products list arrives from the server. */
    method ReceiveProducts(ps: seq<Product>)
      modifies this`products
      ensures products == ps
    {
      products := ps;
    }

    method SetSearchTerm(term: string)
      modifies this`searchTerm
      ensures searchTerm == term
    {
      searchTerm := term;
    }

    method ChangePage(page: int)
      modifies this`currentPage
      ensures currentPage == page
    {
      currentPage := page;
    }

    method SelectUser(user: Id)
      modifies this`selectedUser
      ensures selectedUser == Some(user)
    {
      selectedUser := Some(user);
    }

    /** The products of the current page under the current search term. */
    function ShownProducts(): (r: seq<Product>)
      reads this
      ensures |r| <= ProductsPerPage
      ensures forall i :: 0 <= i < |r| ==> r[i] in products && MatchesSearch(r[i], searchTerm)
    {
      var filtered := FilteredProducts(products, searchTerm);
      PageHoldsAtMostSix(filtered, currentPage);
      SearchKeepsMatchesInOrder(products, searchTerm);
      var r := CurrentProducts(filtered, currentPage);
      assert forall i :: 0 <= i < |r| ==> r[i] in filtered;
      r
    }

    /** A colour or size button of `productId` is clicked. */
    method SelectVariant(productId: Id, field: VariantField, value: Id)
      modifies this`selections
      ensures selections == WithChoice(old(selections), productId, field, value)
    {
      selections := WithChoice(selections, productId, field, value);
    }

    method AddToCart(product: Product) returns (outcome: AddOutcome)
      requires Valid()
      modifies this`items, this`total
      ensures Valid()
      ensures outcome == AddOutcomeFor(old(items), SelectionFor(selections, product.id), product)
      ensures outcome == Added ==>
        var sel := SelectionFor(selections, product.id);
        var v := VariantFor(product.variants, sel.color.value, sel.size.value).value;
        items == old(items) + [NewLine(product, v)] && total == old(total) + v.price
      ensures outcome != Added ==> items == old(items) && total == old(total)
      ensures old(Consistent()) ==> Consistent()
    {
      var sel := SelectionFor(selections, product.id);
      outcome := AddOutcomeFor(items, sel, product);
      if outcome == Added {
        var v := VariantFor(product.variants, sel.color.value, sel.size.value).value;
        AddKeepsCartSound(items, sel, product);
        items := items + [NewLine(product, v)];
        total := total + v.price;
      }
    }

    /** The remove button of a cart row: every line of that product goes,
        but only the first line's value leaves the total. */
    method RemoveFromCart(productId: Id)
      requires Valid()
      requires exists i :: 0 <= i < |items| && items[i].productId == productId
      modifies this`items, this`total
      ensures Valid()
      ensures items == RemainingLines(old(items), productId)
      ensures total == TotalAfterRemove(old(items), old(total), productId)
      ensures old(Consistent()) && |LinesOf(old(items), productId)| == 1 ==> Consistent()
    {
      var remaining := RemainingLines(items, productId);
      FilterMembers(items, (l: CartLine) => l.productId != productId);
      SubsequenceKeepsDistinct(remaining, items);
      if |LinesOf(items, productId)| == 1 {
        SingleLineTotal(items, productId);
        RemoveTotalDrift(items, productId);
      }
      total := TotalAfterRemove(items, total, productId);
      items := remaining;
    }

    /** The quantity box of a cart row: every line of that product takes
        the quantity, and the total is summed afresh. */
    method UpdateQuantity(productId: Id, quantity: int)
      requires Valid()
      modifies this`items, this`total
      ensures Valid() && Consistent()
      ensures items == WithQuantity(old(items), productId, quantity)
    {
      WithQuantityKeepsDistinct(items, productId, quantity);
      items := WithQuantity(items, productId, quantity);
      total := CartTotal(items);
    }

    /** Corrected remove button: only the clicked row goes, and only its
        value leaves the total, so a consistent total stays consistent. */
    method RemoveRow(productId: Id, colorId: Id, sizeId: Id)
      requires Valid()
      requires exists i :: 0 <= i < |items| && SameVariant(items[i], productId, colorId, sizeId)
      modifies this`items, this`total
      ensures Valid()
      ensures items == WithoutRow(old(items), productId, colorId, sizeId)
      ensures total == TotalAfterRemoveRow(old(items), old(total), productId, colorId, sizeId)
      ensures old(Consistent()) ==> Consistent()
    {
      var i :| 0 <= i < |items| && SameVariant(items[i], productId, colorId, sizeId);
      RemoveRowKeepsTotal(items, productId, colorId, sizeId, i);
      var remaining := WithoutRow(items, productId, colorId, sizeId);
      FilterMembers(items, IsOtherRow(productId, colorId, sizeId));
      SubsequenceKeepsDistinct(remaining, items);
      total := TotalAfterRemoveRow(items, total, productId, colorId, sizeId);
      items := remaining;
    }

    /** Corrected quantity box: only the edited row takes the quantity, and
        the total is summed afresh. */
    method UpdateRowQuantity(productId: Id, colorId: Id, sizeId: Id, quantity: int)
      requires Valid()
      modifies this`items, this`total
      ensures Valid() && Consistent()
      ensures items == WithRowQuantity(old(items), productId, colorId, sizeId, quantity)
    {
      RowQuantityTouchesOneRow(items, productId, colorId, sizeId, quantity);
      items := WithRowQuantity(items, productId, colorId, sizeId, quantity);
      total := CartTotal(items);
    }

    /** The place-order button. `accepted` is the server's answer
        (`response.data.success`); a failed request counts as refused. */
    method PlaceOrder(accepted: bool) returns (sent: Option<OrderPayload>)
      requires Valid()
      modifies this`items, this`total
      ensures Valid()
      ensures sent == OrderRequest(selectedUser, old(items), old(total))
      ensures sent.Some? && accepted ==> items == [] && total == 0
      ensures !(sent.Some? && accepted) ==> items == old(items) && total == old(total)
      ensures old(Consistent()) ==> Consistent()
    {
      sent := OrderRequest(selectedUser, items, total);
      if sent.Some? && accepted {
        items, total := [], 0;
      }
    }
  }
}
