/** The home page's "New Arrivals" and "Best Selling" shelves: the products
    of the store whose categories include the shelf's slug. The store's
    product list is loosely typed, so each value is modelled by the shapes
    the code tells apart. */
module Shelves {
  import opened JsArrays

  datatype CategoryRef = CategoryRef(slug: string)

  /** A product's `category` field: unset or falsy (defaulted to `[]`), an
      array of category references, or some other truthy value. */
  datatype CategoryField = Unset | CategoryArray(refs: seq<CategoryRef>) | NotArray

  /** An entry of the product list: `null`/`undefined`, or a product. */
  datatype StoreItem = Missing | Item(id: string, category: CategoryField)

  /** `productDetail`: an array of entries, or any other value. */
  datatype ProductDetail = ProductArray(items: seq<StoreItem>) | NotAnArray

  const NewArrivalsSlug := "new-arrivals"
  const BestSellingSlug := "best-selling"

  /** `product?.category || []`, and whether that is an array. */
  function CategoriesOf(p: StoreItem): Option<seq<CategoryRef>>
  {
    match p
    case Missing => Some([])
    case Item(_, Unset) => Some([])
    case Item(_, CategoryArray(refs)) => Some(refs)
    case Item(_, NotArray) => None
  }

  /** The filter's test: the categories are an array and `some` entry has `slug`. */
  predicate OnShelf(p: StoreItem, slug: string)
  {
    var cats := CategoriesOf(p);
    cats.Some? && exists i :: 0 <= i < |cats.value| && cats.value[i].slug == slug
  }

  /** What a product must be for the shelf: a product whose category field
      is an array holding a reference with `slug`. */
  ghost predicate Tagged(p: StoreItem, slug: string)
  {
    p.Item? && p.category.CategoryArray? && exists c :: c in p.category.refs && c.slug == slug
  }

  function Shelf(detail: ProductDetail, slug: string): seq<StoreItem>
  {
    if detail.ProductArray? then Filter(detail.items, p => OnShelf(p, slug)) else []
  }

  function NewArrivals(detail: ProductDetail): seq<StoreItem>
  {
    Shelf(detail, NewArrivalsSlug)
  }

  function BestSelling(detail: ProductDetail): seq<StoreItem>
  {
    Shelf(detail, BestSellingSlug)
  }

  lemma OnShelfIsTagged(p: StoreItem, slug: string)
    ensures OnShelf(p, slug) <==> Tagged(p, slug)
  {
    if Tagged(p, slug) {
      var c :| c in p.category.refs && c.slug == slug;
      var i :| 0 <= i < |p.category.refs| && p.category.refs[i] == c;
    }
  }

  /** A shelf holds exactly the tagged products of the list, every
      occurrence of each, in their original order; a list that is not an
      array gives an empty shelf. */
  lemma ShelfSpec(detail: ProductDetail, slug: string)
    ensures detail.NotAnArray? ==> Shelf(detail, slug) == []
    ensures detail.ProductArray? ==> var r, ps := Shelf(detail, slug), detail.items;
      && (forall i :: 0 <= i < |r| ==> r[i] in ps && Tagged(r[i], slug))
      && (forall i :: 0 <= i < |ps| && Tagged(ps[i], slug) ==> ps[i] in r)
      && (forall p :: multiset(r)[p] == if Tagged(p, slug) then multiset(ps)[p] else 0)
      && IsSubsequence(r, ps)
  {
    forall p: StoreItem ensures OnShelf(p, slug) <==> Tagged(p, slug) {
      OnShelfIsTagged(p, slug);
    }
    if detail.ProductArray? {
      FilterSpec(detail.items, p => OnShelf(p, slug));
    }
  }

  /** "New Arrivals" holds exactly the products tagged `new-arrivals`,
      every occurrence of each, in order; entries without an array of categories never appear. */
  lemma NewArrivalsSpec(detail: ProductDetail)
    ensures detail.NotAnArray? ==> NewArrivals(detail) == []
    ensures detail.ProductArray? ==> var r, ps := NewArrivals(detail), detail.items;
      && (forall i :: 0 <= i < |r| ==> r[i] in ps && Tagged(r[i], NewArrivalsSlug))
      && (forall i :: 0 <= i < |ps| && Tagged(ps[i], NewArrivalsSlug) ==> ps[i] in r)
      && (forall p :: multiset(r)[p] == if Tagged(p, NewArrivalsSlug) then multiset(ps)[p] else 0)
      && IsSubsequence(r, ps)
    ensures forall p :: p in NewArrivals(detail) ==> p.Item? && p.category.CategoryArray?
  {
    ShelfSpec(detail, NewArrivalsSlug);
  }

  /** "Best Selling" holds exactly the products tagged `best-selling`,
      every occurrence of each, in order; entries without an array of categories never appear. */
  lemma BestSellingSpec(detail: ProductDetail)
    ensures detail.NotAnArray? ==> BestSelling(detail) == []
    ensures detail.ProductArray? ==> var r, ps := BestSelling(detail), detail.items;
      && (forall i :: 0 <= i < |r| ==> r[i] in ps && Tagged(r[i], BestSellingSlug))
      && (forall i :: 0 <= i < |ps| && Tagged(ps[i], BestSellingSlug) ==> ps[i] in r)
      && (forall p :: multiset(r)[p] == if Tagged(p, BestSellingSlug) then multiset(ps)[p] else 0)
      && IsSubsequence(r, ps)
    ensures forall p :: p in BestSelling(detail) ==> p.Item? && p.category.CategoryArray?
  {
    ShelfSpec(detail, BestSellingSlug);
  }
}
