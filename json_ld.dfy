/**
 * The JSON-LD product data the diagnostic scripts scripts/test-fallback.js
 * and scripts/test-ar.js read from `script[type="application/ld+json"]`
 * elements, as the values `JSON.parse` can give them, and the expression
 * both use to gather the offers of one element:
 * `Array.isArray(d) ? d.flatMap(item => item.offers || []) : (d.offers || [])`.
 */
module JsonLd {
  import opened Wrappers
  import opened Strings

  /**
   * One offer: its `name` (None when missing or empty) and its price after
   * `Math.round(parseFloat(price))` (None for `NaN`).
   */
  datatype Offer = Offer(name: Option<string>, price: Option<int>)

  /** An `offers` property: missing (or falsy), an array of offers, or a single offer object. */
  datatype OffersField = Absent | OfferList(list: seq<Offer>) | SingleOffer(offer: Offer)

  /** An array element: `null` (reading `.offers` of it throws) or an object (a primitive has no `offers`). */
  datatype Item = NullItem | ObjectItem(offers: OffersField)

  /**
   * The parsed content of one script element: text `JSON.parse` rejects (or
   * `null`, whose `.offers` throws), an array, or any other value with its
   * `offers` property.
   */
  datatype LdBlock = Unparsable | ArrayBlock(items: seq<Item>) | ObjectBlock(offers: OffersField)

  /**
   * What `item.offers || []` contributes to `flatMap`: an array is spliced in,
   * a single object is one element, so only an array gives more than one offer,
   * and nothing comes out exactly for a falsy property or an empty array.
   */
  function FieldOffers(field: OffersField): (offers: seq<Offer>)
    ensures !field.OfferList? ==> |offers| <= 1
    ensures offers == [] <==> field.Absent? || field == OfferList([])
    ensures forall o :: o in offers <==> (field.OfferList? && o in field.list) || (field.SingleOffer? && o == field.offer)
    ensures field.Absent? ==> offers == []
    ensures field.OfferList? ==> offers == field.list
    ensures field.SingleOffer? ==> offers == [field.offer]
  {
    match field
    case Absent => []
    case OfferList(list) => list
    case SingleOffer(o) => [o]
  }

  /** Some item of the array is `null`. */
  predicate HasNullItem(items: seq<Item>)
  {
    exists i :: 0 <= i < |items| && items[i].NullItem?
  }

  /** `flatMap` over items none of which is `null`. */
  function FlatOffers(items: seq<Item>): (offers: seq<Offer>)
    requires !HasNullItem(items)
  {
    if items == [] then []
    else
      assert forall i :: 0 <= i < |items| - 1 ==> items[..|items| - 1][i] == items[i];
      FlatOffers(items[..|items| - 1]) + FieldOffers(items[|items| - 1].offers)
  }

  /** An offer gathered from an array comes from one of its items, and every item's offers are gathered. */
  lemma {:induction false} FlatOffersMembers(items: seq<Item>, o: Offer)
    requires !HasNullItem(items)
    ensures o in FlatOffers(items) <==> exists i :: 0 <= i < |items| && o in FieldOffers(items[i].offers)
  {
    if items != [] {
      var init := items[..|items| - 1];
      var last := items[|items| - 1];
      assert forall i :: 0 <= i < |init| ==> init[i] == items[i];
      FlatOffersMembers(init, o);
      assert FlatOffers(items) == FlatOffers(init) + FieldOffers(last.offers);
      if o in FieldOffers(last.offers) {
        assert 0 <= |items| - 1 < |items| && o in FieldOffers(items[|items| - 1].offers);
      }
    }
  }

  /**
   * The offers of one script element, or None when the element's handler
   * throws before touching any variable: the text does not parse, an array
   * holds `null`, or a lone `offers` object is iterated with `for ... of`.
   */
  function BlockOffers(block: LdBlock): (r: Option<seq<Offer>>)
    ensures r.None? <==>
      block.Unparsable? || (block.ArrayBlock? && HasNullItem(block.items)) ||
      (block.ObjectBlock? && block.offers.SingleOffer?)
    ensures block.ArrayBlock? && r.Some? ==> r.value == FlatOffers(block.items)
    ensures block.ObjectBlock? && r.Some? ==> r.value == FieldOffers(block.offers)
  {
    match block
    case Unparsable => None
    case ArrayBlock(items) => if HasNullItem(items) then None else Some(FlatOffers(items))
    case ObjectBlock(offers) => if offers.SingleOffer? then None else Some(FieldOffers(offers))
  }

  /** The condition markers in offer names. */
  const AMinusMarker: string := "【状態A-】"
  const BMarker: string := "【状態B】"

  /** `o.name && o.name.includes(marker)`. */
  predicate HasMarker(o: Offer, marker: string)
  {
    o.name.Some? && Contains(o.name.value, marker)
  }

  /** Index of the first offer from `n` on whose name has `marker`, or `|offers|`: the `for ... break` loops and `find`. */
  function MarkerIndex(offers: seq<Offer>, marker: string, n: nat): (i: nat)
    requires n <= |offers|
    ensures n <= i <= |offers|
    ensures i < |offers| ==> HasMarker(offers[i], marker)
    ensures forall j :: n <= j < i ==> !HasMarker(offers[j], marker)
    decreases |offers| - n
  {
    if n == |offers| then n
    else if HasMarker(offers[n], marker) then n
    else MarkerIndex(offers, marker, n + 1)
  }

  /** `offers.find(o => o.name && o.name.includes(marker))`. */
  function FirstWithMarker(offers: seq<Offer>, marker: string): (r: Option<Offer>)
    ensures r.None? <==> forall j :: 0 <= j < |offers| ==> !HasMarker(offers[j], marker)
    ensures r.Some? ==>
      exists i :: 0 <= i < |offers| && r.value == offers[i] && HasMarker(offers[i], marker) &&
        forall j :: 0 <= j < i ==> !HasMarker(offers[j], marker)
  {
    var i := MarkerIndex(offers, marker, 0);
    if i < |offers| then Some(offers[i]) else None
  }
}
