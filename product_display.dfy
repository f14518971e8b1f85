/** The product-detail page: image gallery, colour and size choice, a
    quantity stepper, and the hand-off of the chosen variant to the cart. */
module ProductDisplay {
  import opened JsArrays
  import opened Catalog

  // ---------------------------------------------------------------------
  // Quantity stepper

  datatype Step = Increment | Decrement

  /** `+` always adds one; `-` takes one off only above 1. */
  function Stepped(quantity: int, step: Step): (r: int)
    ensures quantity >= 1 ==> r >= 1
    ensures step == Increment ==> r == quantity + 1
    ensures step == Decrement ==> r == if quantity > 1 then quantity - 1 else quantity
  {
    match step
    case Increment => quantity + 1
    case Decrement => if quantity > 1 then quantity - 1 else quantity
  }

  /** The quantity after pressing the buttons in `steps`, in order. */
  function AfterSteps(quantity: int, steps: seq<Step>): int
    decreases steps
  {
    if steps == [] then quantity else AfterSteps(Stepped(quantity, steps[0]), steps[1..])
  }

  /** How many of `steps` are `step`. */
  function Occurrences(steps: seq<Step>, step: Step): nat
  {
    if steps == [] then 0 else (if steps[0] == step then 1 else 0) + Occurrences(steps[1..], step)
  }

  /** From any quantity of at least 1, no sequence of presses takes it below
      1, above its start plus the number of `+` presses, or below its start
      minus the number of `-` presses. */
  lemma {:induction false} QuantityStaysPositive(quantity: int, steps: seq<Step>)
    requires quantity >= 1
    decreases steps
    ensures var q := AfterSteps(quantity, steps);
      && 1 <= q
      && q <= quantity + Occurrences(steps, Increment)
      && q >= quantity - Occurrences(steps, Decrement)
  {
    if steps != [] {
      QuantityStaysPositive(Stepped(quantity, steps[0]), steps[1..]);
    }
  }

  // ---------------------------------------------------------------------
  // Images

  /** `product.images?.[0]?.url || ""`. */
  function InitialImage(images: seq<Image>): (url: string)
    ensures images == [] ==> url == ""
    ensures images != [] ==> url == images[0].url
  {
    if images == [] then "" else images[0].url
  }

  // ---------------------------------------------------------------------
  // Handing the choice to the cart

  /** The arguments of `addToCart(product, quantity, color, size, price)`. */
  datatype CartRequest = CartRequest(productId: Id, quantity: int, colorId: Id, sizeId: Id, price: int)

  /** The cart call for the current choice, or none ("This color and size
      combination is not available.") when no variant has both ids. */
  function CartRequestFor(product: Product, quantity: int, colorId: Id, sizeId: Id): (r: Option<CartRequest>)
    ensures r.None? <==> forall i :: 0 <= i < |product.variants| ==> !IsVariant(product.variants[i], colorId, sizeId)
    ensures r.Some? ==>
      && r.value.productId == product.id && r.value.quantity == quantity
      && r.value.colorId == colorId && r.value.sizeId == sizeId
      && exists i :: 0 <= i < |product.variants|
           && IsVariant(product.variants[i], colorId, sizeId)
           && (forall j :: 0 <= j < i ==> !IsVariant(product.variants[j], colorId, sizeId))
           && r.value.price == product.variants[i].price
  {
    match VariantFor(product.variants, colorId, sizeId)
    case None => None
    case Some(v) => Some(CartRequest(product.id, quantity, colorId, sizeId, v.price))
  }

  // ---------------------------------------------------------------------
  // The page's state once the product has loaded

  class ProductPage {
    var product: Product
    var selectedImage: string
    var quantity: int
    var selectedColor: Id
    var selectedSize: Id

    /** The stepper never shows less than one piece. */
    ghost predicate Valid()
      reads this
    {
      quantity >= 1
    }

    /** The page mounts and its first product arrives: its first image is
        shown, one piece, nothing chosen. */
    constructor (p: Product)
      ensures Valid()
      ensures product == p && selectedImage == InitialImage(p.images)
      ensures quantity == 1 && selectedColor == "" && selectedSize == ""
    {
      product := p;
      selectedImage := InitialImage(p.images);
      quantity := 1;
      selectedColor, selectedSize := "", "";
    }

    /** A similar-product link changes the route on the same page: the new
        product and its first image are shown, while the quantity and the
        chosen colour and size carry over from the previous product. */
    method LoadProduct(p: Product)
      requires Valid()
      modifies this`product, this`selectedImage
      ensures Valid()
      ensures product == p && selectedImage == InitialImage(p.images)
      ensures quantity == old(quantity)
      ensures selectedColor == old(selectedColor) && selectedSize == old(selectedSize)
    {
      product := p;
      selectedImage := InitialImage(p.images);
    }

    method ShowImage(url: string)
      modifies this`selectedImage
      ensures selectedImage == url
    {
      selectedImage := url;
    }

    method SelectColor(colorId: Id)
      modifies this`selectedColor
      ensures selectedColor == colorId
    {
      selectedColor := colorId;
    }

    method SelectSize(sizeId: Id)
      modifies this`selectedSize
      ensures selectedSize == sizeId
    {
      selectedSize := sizeId;
    }

    method PressIncrement()
      requires Valid()
      modifies this`quantity
      ensures Valid() && quantity == Stepped(old(quantity), Increment)
    {
      quantity := quantity + 1;
    }

    method PressDecrement()
      requires Valid()
      modifies this`quantity
      ensures Valid() && quantity == Stepped(old(quantity), Decrement)
    {
      if quantity > 1 {
        quantity := quantity - 1;
      }
    }

    /** The add-to-cart button: the call made to the cart, if any, for the
        current quantity and choice. */
    method AddToCart() returns (request: Option<CartRequest>)
      requires Valid()
      ensures request == CartRequestFor(product, quantity, selectedColor, selectedSize)
      ensures request.Some? ==> request.value.quantity >= 1
    {
      var selectedVariant := VariantFor(product.variants, selectedColor, selectedSize);
      if selectedVariant.None? {
        return None;
      }
      request := Some(CartRequest(product.id, quantity, selectedColor, selectedSize, selectedVariant.value.price));
    }
  }
}
