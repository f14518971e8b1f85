/** The product documents both storefront pages work with: a product, its
    images, and its variants (a colour and a size with their own price and
    stock), as the API returns them with colour and size populated. */
module Catalog {
  import opened JsArrays

  type Id = string

  datatype Color = Color(id: Id, name: string)
  datatype Size = Size(id: Id, name: string)
  datatype Variant = Variant(color: Color, size: Size, price: int, quantity: int)
  datatype Image = Image(url: string)
  datatype Product = Product(id: Id, name: string, variants: seq<Variant>, images: seq<Image>)

  /** The variant is the one for colour id `colorId` and size id `sizeId`. */
  predicate IsVariant(v: Variant, colorId: Id, sizeId: Id)
  {
    v.color.id == colorId && v.size.id == sizeId
  }

  /** `variants.find(v => v.color._id === colorId && v.size._id === sizeId)`:
      the first variant for that pair, or none when the pair is not offered. */
  function VariantFor(variants: seq<Variant>, colorId: Id, sizeId: Id): (r: Option<Variant>)
    ensures r.None? <==> forall i :: 0 <= i < |variants| ==> !IsVariant(variants[i], colorId, sizeId)
    ensures r.Some? ==> exists i :: 0 <= i < |variants| && variants[i] == r.value
                                    && IsVariant(variants[i], colorId, sizeId)
                                    && forall j :: 0 <= j < i ==> !IsVariant(variants[j], colorId, sizeId)
  {
    Find(variants, v => IsVariant(v, colorId, sizeId))
  }

  /** The colour of each variant, in order. */
  function VariantColors(variants: seq<Variant>): (r: seq<Color>)
    ensures |r| == |variants| && forall i :: 0 <= i < |variants| ==> r[i] == variants[i].color
  {
    seq(|variants|, i requires 0 <= i < |variants| => variants[i].color)
  }

  /** The size of each variant, in order. */
  function VariantSizes(variants: seq<Variant>): (r: seq<Size>)
    ensures |r| == |variants| && forall i :: 0 <= i < |variants| ==> r[i] == variants[i].size
  {
    seq(|variants|, i requires 0 <= i < |variants| => variants[i].size)
  }

  /** The colour swatches offered: one per colour id, in order of first
      appearance among the variants, each being the colour of the last
      variant with that id (a `Map` keyed by colour id keeps the first
      position and the last value). */
  function AvailableColors(variants: seq<Variant>): (r: seq<Color>)
    ensures Ids(r, (c: Color) => c.id) == Dedup(Ids(VariantColors(variants), (c: Color) => c.id))
  {
    UniqueBy(VariantColors(variants), (c: Color) => c.id)
  }

  /** Each entry of `AvailableColors` is the colour of some variant, and no later
      variant has a colour with the same id. */
  lemma AvailableColorsAreLast(variants: seq<Variant>)
    ensures var r := AvailableColors(variants);
      forall j :: 0 <= j < |r| ==>
        exists i :: 0 <= i < |variants| && variants[i].color == r[j]
                    && forall i' :: i < i' < |variants| ==> variants[i'].color.id != r[j].id
  {
    var colors := VariantColors(variants);
    var r := AvailableColors(variants);
    forall j | 0 <= j < |r|
      ensures exists i :: 0 <= i < |variants| && variants[i].color == r[j]
                          && forall i' :: i < i' < |variants| ==> variants[i'].color.id != r[j].id
    {
      LastWithIdIsLast(colors, (c: Color) => c.id, r[j].id);
    }
  }

  /** The size buttons offered: one per size id, in order of first
      appearance, each being the size of the last variant with that id. */
  function AvailableSizes(variants: seq<Variant>): (r: seq<Size>)
    ensures Ids(r, (s: Size) => s.id) == Dedup(Ids(VariantSizes(variants), (s: Size) => s.id))
  {
    UniqueBy(VariantSizes(variants), (s: Size) => s.id)
  }

  /** Each entry of `AvailableSizes` is the size of some variant, and no later
      variant has a size with the same id. */
  lemma AvailableSizesAreLast(variants: seq<Variant>)
    ensures var r := AvailableSizes(variants);
      forall j :: 0 <= j < |r| ==>
        exists i :: 0 <= i < |variants| && variants[i].size == r[j]
                    && forall i' :: i < i' < |variants| ==> variants[i'].size.id != r[j].id
  {
    var sizes := VariantSizes(variants);
    var r := AvailableSizes(variants);
    forall j | 0 <= j < |r|
      ensures exists i :: 0 <= i < |variants| && variants[i].size == r[j]
                          && forall i' :: i < i' < |variants| ==> variants[i'].size.id != r[j].id
    {
      LastWithIdIsLast(sizes, (s: Size) => s.id, r[j].id);
    }
  }

  /** The colour ids of the variants, in order. */
  function ColorIds(variants: seq<Variant>): seq<Id>
  {
    Ids(VariantColors(variants), (c: Color) => c.id)
  }

  /** The swatches have distinct ids, every variant's colour id has one,
      each swatch's id is some variant's colour id, and swatches come in
      the order in which their ids first appear among the variants. */
  lemma AvailableColorsSpec(variants: seq<Variant>)
    ensures var r := AvailableColors(variants);
      && (forall j, j' :: 0 <= j < j' < |r| ==> r[j].id != r[j'].id)
      && (forall i :: 0 <= i < |variants| ==> exists j :: 0 <= j < |r| && r[j].id == variants[i].color.id)
      && (forall j :: 0 <= j < |r| ==> r[j].id in ColorIds(variants))
      && (forall j, j' :: 0 <= j < j' < |r| ==>
            FirstIndexOf(ColorIds(variants), r[j].id) < FirstIndexOf(ColorIds(variants), r[j'].id))
  {
    UniqueBySpec(VariantColors(variants), (c: Color) => c.id);
  }

  /** The size ids of the variants, in order. */
  function SizeIds(variants: seq<Variant>): seq<Id>
  {
    Ids(VariantSizes(variants), (s: Size) => s.id)
  }

  /** The same four facts for the size buttons. */
  lemma AvailableSizesSpec(variants: seq<Variant>)
    ensures var r := AvailableSizes(variants);
      && (forall j, j' :: 0 <= j < j' < |r| ==> r[j].id != r[j'].id)
      && (forall i :: 0 <= i < |variants| ==> exists j :: 0 <= j < |r| && r[j].id == variants[i].size.id)
      && (forall j :: 0 <= j < |r| ==> r[j].id in SizeIds(variants))
      && (forall j, j' :: 0 <= j < j' < |r| ==>
            FirstIndexOf(SizeIds(variants), r[j].id) < FirstIndexOf(SizeIds(variants), r[j'].id))
  {
    UniqueBySpec(VariantSizes(variants), (s: Size) => s.id);
  }
}
