/**
 * The condition fallback of scripts/test-fallback.js: over the JSON-LD
 * elements of a product page in document order, take the first 【状態A-】
 * offer of each element, and the first 【状態B】 offer only while no truthy
 * price has been found.
 */
module TestFallback {
  import opened Wrappers
  import opened Strings
  import opened JsonLd

  /** The offer condition recorded in `conditionUsed`. */
  datatype Condition = AMinus | B

  /** `priceAMinus` (None for `null` or `NaN`) and `conditionUsed` (None for `null`). */
  datatype FallbackState = FallbackState(price: Option<int>, condition: Option<Condition>)

  /** The state before the first element. */
  const Start: FallbackState := FallbackState(None, None)

  /** `priceAMinus` is truthy: present, not `NaN`, not 0. */
  predicate Truthy(price: Option<int>)
  {
    price.Some? && price.value != 0
  }

  /** The state after the A- loop of one element's offers. */
  function AMinusStep(st: FallbackState, offers: seq<Offer>): FallbackState
  {
    var a := FirstWithMarker(offers, AMinusMarker);
    if a.Some? then FallbackState(a.value.price, Some(AMinus)) else st
  }

  /** One element: the A- loop, then the B loop when the price is still not truthy; a throwing element changes nothing. */
  function BlockStep(st: FallbackState, block: LdBlock): FallbackState
  {
    var offers := BlockOffers(block);
    if offers.None? then st
    else
      var afterA := AMinusStep(st, offers.value);
      var b := FirstWithMarker(offers.value, BMarker);
      if !Truthy(afterA.price) && b.Some? then FallbackState(b.value.price, Some(B)) else afterA
  }

  /** The elements of the page, in document order. */
  function Fallback(blocks: seq<LdBlock>): FallbackState
  {
    if blocks == [] then Start
    else BlockStep(Fallback(blocks[..|blocks| - 1]), blocks[|blocks| - 1])
  }

  /** A block that does not parse, or whose handler throws, leaves price and condition unchanged. */
  lemma FailedBlockNoChange(st: FallbackState, block: LdBlock)
    requires BlockOffers(block).None?
    ensures BlockStep(st, block) == st
  {
  }

  /** An A- offer with a truthy price is taken with condition A-, whatever was found before. */
  lemma AMinusTaken(st: FallbackState, block: LdBlock)
    requires BlockOffers(block).Some?
    requires FirstWithMarker(BlockOffers(block).value, AMinusMarker).Some?
    requires Truthy(FirstWithMarker(BlockOffers(block).value, AMinusMarker).value.price)
    ensures BlockStep(st, block) ==
      FallbackState(FirstWithMarker(BlockOffers(block).value, AMinusMarker).value.price, Some(AMinus))
  {
  }

  /** Without an A- offer, a truthy price already found is kept: a B offer never replaces it. */
  lemma TruthyPriceKept(st: FallbackState, block: LdBlock)
    requires Truthy(st.price)
    requires BlockOffers(block).None? || FirstWithMarker(BlockOffers(block).value, AMinusMarker).None?
    ensures BlockStep(st, block) == st
  {
  }

  /** A B offer is selected only where the price after the A- loop is not truthy. */
  lemma BOnlyWithoutTruthyPrice(st: FallbackState, block: LdBlock)
    requires BlockStep(st, block) != st && BlockStep(st, block).condition == Some(B)
    ensures BlockOffers(block).Some?
    ensures !Truthy(AMinusStep(st, BlockOffers(block).value).price)
    ensures FirstWithMarker(BlockOffers(block).value, BMarker).Some?
  {
  }

  /**
   * The last element holding an A- offer decides the result when that offer
   * has a truthy price: no later element without A- offers can replace it.
   */
  lemma {:induction false} LastAMinusWins(blocks: seq<LdBlock>, k: nat)
    requires k < |blocks| && BlockOffers(blocks[k]).Some?
    requires FirstWithMarker(BlockOffers(blocks[k]).value, AMinusMarker).Some?
    requires Truthy(FirstWithMarker(BlockOffers(blocks[k]).value, AMinusMarker).value.price)
    requires forall j :: k < j < |blocks| ==>
      BlockOffers(blocks[j]).None? || FirstWithMarker(BlockOffers(blocks[j]).value, AMinusMarker).None?
    ensures Fallback(blocks) ==
      FallbackState(FirstWithMarker(BlockOffers(blocks[k]).value, AMinusMarker).value.price, Some(AMinus))
  {
    var init := blocks[..|blocks| - 1];
    if k == |blocks| - 1 {
      AMinusTaken(Fallback(init), blocks[k]);
    } else {
      assert init[k] == blocks[k];
      LastAMinusWins(init, k);
      TruthyPriceKept(Fallback(init), blocks[|blocks| - 1]);
    }
  }

  /**
   * An A- offer without a usable price does not keep B out: an element whose
   * A- offer has no price and whose B offer costs 500 ends with B at 500.
   */
  lemma PricelessAMinusFallsBackToB()
    ensures Fallback([ObjectBlock(OfferList([Offer(Some(AMinusMarker), None), Offer(Some(BMarker), Some(500))]))]) ==
      FallbackState(Some(500), Some(B))
  {
    var offers := [Offer(Some(AMinusMarker), None), Offer(Some(BMarker), Some(500))];
    var block := ObjectBlock(OfferList(offers));
    assert [block][..0] == [];
    assert Fallback([block]) == BlockStep(Start, block);
    assert BlockOffers(block) == Some(offers);
    assert OccursAt(AMinusMarker, AMinusMarker, 0);
    assert HasMarker(offers[0], AMinusMarker);
    assert FirstWithMarker(offers, AMinusMarker) == Some(offers[0]);
    assert OccursAt(BMarker, BMarker, 0);
    assert !Contains(AMinusMarker, BMarker) by {
      forall i: nat | i <= |AMinusMarker| ensures !OccursAt(AMinusMarker, BMarker, i) {
        if i + |BMarker| <= |AMinusMarker| {
          assert AMinusMarker[i..i + |BMarker|][3] != BMarker[3];
        }
      }
    }
    assert !HasMarker(offers[0], BMarker) && HasMarker(offers[1], BMarker);
    assert MarkerIndex(offers, BMarker, 0) == 1;
    assert FirstWithMarker(offers, BMarker) == Some(offers[1]);
  }

  /** The element loop of `test()`, with the two `for ... break` loops. */
  method FallbackPrice(blocks: seq<LdBlock>) returns (st: FallbackState)
    ensures st == Fallback(blocks)
  {
    var priceAMinus: Option<int> := None;
    var conditionUsed: Option<Condition> := None;
    for n := 0 to |blocks|
      invariant FallbackState(priceAMinus, conditionUsed) == Fallback(blocks[..n])
    {
      assert blocks[..n + 1][..n] == blocks[..n];
      var parsed := BlockOffers(blocks[n]);
      if parsed.Some? {
        var offers := parsed.value;
        var i := 0;
        while i < |offers|
          invariant 0 <= i <= |offers|
          invariant MarkerIndex(offers, AMinusMarker, i) == MarkerIndex(offers, AMinusMarker, 0)
        {
          if offers[i].name.Some? && Contains(offers[i].name.value, AMinusMarker) {
            priceAMinus := offers[i].price;
            conditionUsed := Some(AMinus);
            break;
          }
          i := i + 1;
        }
        if !Truthy(priceAMinus) {
          var j := 0;
          while j < |offers|
            invariant 0 <= j <= |offers|
            invariant MarkerIndex(offers, BMarker, j) == MarkerIndex(offers, BMarker, 0)
          {
            if offers[j].name.Some? && Contains(offers[j].name.value, BMarker) {
              priceAMinus := offers[j].price;
              conditionUsed := Some(B);
              break;
            }
            j := j + 1;
          }
        }
      }
    }
    assert blocks[..|blocks|] == blocks;
    st := FallbackState(priceAMinus, conditionUsed);
  }
}
