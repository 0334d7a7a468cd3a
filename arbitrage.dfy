/**
 * The arbitrage engine of lib/arbitrage.ts: currency conversion, the profit
 * margin and its four bands, and the lookup of a market card in the price
 * snapshots of the two shops (Japan-Toreca and Torecacamp) with the cheaper
 * shop winning.
 */
module Arbitrage {
  import opened Wrappers
  import opened Strings

  /**
   * One normalised shop listing (`TorecaPrice`). The price is None where the
   * snapshot holds `null`: the Japan-Toreca scraper writes one when a page
   * shows no yen amount.
   */
  datatype TorecaPrice = TorecaPrice(
    cardNumber: string,
    setCode: string,
    rarity: string,
    priceJpy: Option<int>,
    inStock: bool,
    lastUpdated: string,
    url: string)

  /** `jpy * exchangeRate`. */
  function ConvertJpyToUsd(jpy: real, exchangeRate: real): (usd: real)
    ensures usd == 0.0 <==> jpy == 0.0 || exchangeRate == 0.0
    ensures exchangeRate > 0.0 ==> (usd > 0.0 <==> jpy > 0.0)
  {
    jpy * exchangeRate
  }

  /** `Math.round(x * 10) / 10`, with `Math.round(y)` being `floor(y + 0.5)`. */
  function RoundToTenth(x: real): (r: real)
    ensures x - 0.05 < r <= x + 0.05
    ensures (r * 10.0).Floor as real == r * 10.0
  {
    var k := (x * 10.0 + 0.5).Floor;
    k as real / 10.0
  }

  /** A value rounded to tenths that lies strictly within 0.05 of a sign keeps that sign: no rounding flips it. */
  lemma RoundKeepsSign(x: real)
    ensures x >= 0.0 ==> RoundToTenth(x) >= 0.0
    ensures x < 0.0 ==> RoundToTenth(x) <= 0.0
  {
    var k := (RoundToTenth(x) * 10.0).Floor;
    if x >= 0.0 {
      assert k as real > -0.5;
    } else {
      assert k as real < 0.5;
    }
  }

  /** The margin before rounding: `((market - buy) / buy) * 100`. */
  function ExactMargin(marketUsd: real, buyUsd: real): real
    requires buyUsd != 0.0
  {
    ((marketUsd - buyUsd) / buyUsd) * 100.0
  }

  /**
   * `calculateProfitMargin`: the percentage by which the market price beats the
   * converted shop price, rounded to one decimal; 0 when the converted price is 0.
   */
  function CalculateProfitMargin(marketUsd: real, torecaJpy: real, exchangeRate: real): (m: real)
    ensures torecaJpy * exchangeRate == 0.0 ==> m == 0.0
    ensures torecaJpy * exchangeRate != 0.0 ==>
      var exact := ExactMargin(marketUsd, torecaJpy * exchangeRate);
      exact - 0.05 < m <= exact + 0.05
  ensures (m * 10.0).Floor as real == m * 10.0
  {
    var buyUsd := ConvertJpyToUsd(torecaJpy, exchangeRate);
    if buyUsd == 0.0 then 0.0
    else RoundToTenth(ExactMargin(marketUsd, buyUsd))
  }

  /**
   * With a positive buy price, a market price at least the buy price never
   * shows a negative margin, and a positive margin always means a real profit.
   * (A loss below 0.05% rounds to 0, so the converse of the first fails.)
   */
  lemma {:induction false} MarginSign(marketUsd: real, torecaJpy: real, exchangeRate: real)
    requires torecaJpy * exchangeRate > 0.0
    ensures marketUsd >= torecaJpy * exchangeRate ==> CalculateProfitMargin(marketUsd, torecaJpy, exchangeRate) >= 0.0
    ensures CalculateProfitMargin(marketUsd, torecaJpy, exchangeRate) > 0.0 ==> marketUsd > torecaJpy * exchangeRate
    ensures marketUsd < torecaJpy * exchangeRate ==> CalculateProfitMargin(marketUsd, torecaJpy, exchangeRate) <= 0.0
  {
    var buy := torecaJpy * exchangeRate;
    var exact := ExactMargin(marketUsd, buy);
    assert exact >= 0.0 <==> marketUsd >= buy by {
      assert (marketUsd - buy) / buy >= 0.0 <==> marketUsd - buy >= 0.0;
    }
    assert exact > 0.0 <==> marketUsd > buy by {
      assert (marketUsd - buy) / buy > 0.0 <==> marketUsd - buy > 0.0;
    }
    RoundKeepsSign(exact);
    var m := CalculateProfitMargin(marketUsd, torecaJpy, exchangeRate);
    if m > 0.0 {
      // m is a multiple of 0.1, so it is at least 0.1 and the exact margin at least 0.05.
      var k := (m * 10.0).Floor;
      assert k >= 1;
    }
  }

  datatype ProfitCategory = Perfect | Good | Medium | Bad

  /** `getProfitCategory`: bands with inclusive lower edges at 80, 50 and 30. */
  function GetProfitCategory(profitMargin: real): (c: ProfitCategory)
    ensures c == Perfect <==> profitMargin >= 80.0
    ensures c == Good <==> 50.0 <= profitMargin < 80.0
    ensures c == Medium <==> 30.0 <= profitMargin < 50.0
    ensures c == Bad <==> profitMargin < 30.0
  {
    if profitMargin >= 80.0 then Perfect
    else if profitMargin >= 50.0 then Good
    else if profitMargin >= 30.0 then Medium
    else Bad
  }

  /** The position of a band, from worst to best. */
  function Rank(c: ProfitCategory): nat
  {
    match c
    case Bad => 0
    case Medium => 1
    case Good => 2
    case Perfect => 3
  }

  /** A larger margin never falls into a worse band. */
  lemma CategoryMonotone(m1: real, m2: real)
    requires m1 <= m2
    ensures Rank(GetProfitCategory(m1)) <= Rank(GetProfitCategory(m2))
  {
  }

  datatype CategoryColors = CategoryColors(bg: string, text: string, border: string)

  /** `getProfitCategoryColors`: the style classes of a band. */
  function GetProfitCategoryColors(category: ProfitCategory): (colors: CategoryColors)
    ensures colors.bg != "" && colors.text != "" && colors.border != ""
  {
    match category
    case Perfect => CategoryColors("bg-green-900/30", "text-green-200", "border-green-500/50")
    case Good => CategoryColors("bg-blue-900/30", "text-blue-200", "border-blue-500/50")
    case Medium => CategoryColors("bg-yellow-900/30", "text-yellow-200", "border-yellow-500/50")
    case Bad => CategoryColors("bg-red-900/30", "text-red-200", "border-red-500/50")
  }

  /** `getProfitCategoryLabel`: the display label of a band. */
  function GetProfitCategoryLabel(category: ProfitCategory): (caption: string)
    ensures caption != ""
  {
    match category
    case Perfect => "Perfect 🔥"
    case Good => "Good 💎"
    case Medium => "Medium ⚖️"
    case Bad => "Low ❌"
  }

  /** Distinct bands have distinct labels. */
  lemma CategoryLabelsDistinct(c1: ProfitCategory, c2: ProfitCategory)
    requires c1 != c2
    ensures GetProfitCategoryLabel(c1) != GetProfitCategoryLabel(c2)
  {
    assert GetProfitCategoryLabel(c1)[0] != GetProfitCategoryLabel(c2)[0];
  }

  /** Distinct bands differ in all three style classes. */
  lemma CategoryColorsDistinct(c1: ProfitCategory, c2: ProfitCategory)
    requires c1 != c2
    ensures GetProfitCategoryColors(c1).bg != GetProfitCategoryColors(c2).bg
    ensures GetProfitCategoryColors(c1).text != GetProfitCategoryColors(c2).text
    ensures GetProfitCategoryColors(c1).border != GetProfitCategoryColors(c2).border
  {
    var k1, k2 := GetProfitCategoryColors(c1), GetProfitCategoryColors(c2);
    assert k1.bg[3] != k2.bg[3];
    assert k1.text[5] != k2.text[5];
    assert k1.border[7] != k2.border[7];
  }

  /**
   * The set code named by a free-text set label: "black bolt" is looked for
   * first, then "white flare", both case-insensitively.
   */
  function SetCodeForLabel(cardSetName: string): (code: Option<string>)
    ensures code == Some("SV11B") <==> Contains(ToLower(cardSetName), "black bolt")
    ensures code == Some("SV11W") <==>
      !Contains(ToLower(cardSetName), "black bolt") && Contains(ToLower(cardSetName), "white flare")
    ensures code.None? <==>
      !Contains(ToLower(cardSetName), "black bolt") && !Contains(ToLower(cardSetName), "white flare")
  {
    var lower := ToLower(cardSetName);
    if Contains(lower, "black bolt") then Some("SV11B")
    else if Contains(lower, "white flare") then Some("SV11W")
    else None
  }

  /** The record is the one a lookup of `(setCode, cardNumber)` is after. */
  predicate IsFor(p: TorecaPrice, setCode: string, cardNumber: string)
  {
    p.setCode == setCode && p.cardNumber == cardNumber
  }

  /** Index of the first record for `(setCode, cardNumber)`, or `|prices|`: `prices.find(...)`. */
  function FindIndex(prices: seq<TorecaPrice>, setCode: string, cardNumber: string): (i: nat)
    ensures i <= |prices|
    ensures i < |prices| ==> IsFor(prices[i], setCode, cardNumber)
    ensures forall j :: 0 <= j < i ==> !IsFor(prices[j], setCode, cardNumber)
  {
    if prices == [] then 0
    else if IsFor(prices[0], setCode, cardNumber) then 0
    else 1 + FindIndex(prices[1..], setCode, cardNumber)
  }

  /** `prices.find(...) || null`. */
  function Find(prices: seq<TorecaPrice>, setCode: string, cardNumber: string): (r: Option<TorecaPrice>)
    ensures r.None? <==> forall j :: 0 <= j < |prices| ==> !IsFor(prices[j], setCode, cardNumber)
    ensures r.Some? ==>
      exists i :: 0 <= i < |prices| && r.value == prices[i] && IsFor(prices[i], setCode, cardNumber) &&
        forall j :: 0 <= j < i ==> !IsFor(prices[j], setCode, cardNumber)
  {
    var i := FindIndex(prices, setCode, cardNumber);
    if i < |prices| then Some(prices[i]) else None
  }

  /**
   * `matchTorecaPrice`: the first snapshot record whose set code is the one the
   * label names and whose card number is `cardNumber`; null for an unknown label.
   */
  function MatchTorecaPrice(cardSetName: string, cardNumber: string, torecaPrices: seq<TorecaPrice>): (r: Option<TorecaPrice>)
    ensures SetCodeForLabel(cardSetName).None? ==> r.None?
    ensures SetCodeForLabel(cardSetName).Some? ==>
      r == Find(torecaPrices, SetCodeForLabel(cardSetName).value, cardNumber)
  {
    var setCode := SetCodeForLabel(cardSetName);
    if setCode.None? then None
    else Find(torecaPrices, setCode.value, cardNumber)
  }

  /** The part of a matched record a `TorecaMatch` keeps. */
  datatype SourcePrice = SourcePrice(priceJpy: Option<int>, inStock: bool, url: string)

  datatype Source = JapanToreca | Torecacamp

  /** `TorecaMatch`: what each shop offers for one card and which is cheaper. */
  datatype TorecaMatch = TorecaMatch(
    japanToreca: Option<SourcePrice>,
    torecacamp: Option<SourcePrice>,
    lowestPrice: Option<int>,
    lowestSource: Option<Source>)

  function Summary(p: TorecaPrice): SourcePrice
  {
    SourcePrice(p.priceJpy, p.inStock, p.url)
  }

  /** The number a JavaScript relational operator sees: `null` reads as 0. */
  function NumericValue(price: Option<int>): int
  {
    if price.Some? then price.value else 0
  }

  /**
   * `matchBothTorecaSources`: the record is built field by field. Each shop is
   * looked up as `matchTorecaPrice` does; when both match, Japan-Toreca wins
   * unless Torecacamp is strictly cheaper.
   */
  method MatchBothTorecaSources(
    cardSetName: string, cardNumber: string,
    japanTorecaPrices: seq<TorecaPrice>, torecacampPrices: seq<TorecaPrice>)
    returns (result: TorecaMatch)
    ensures SetCodeForLabel(cardSetName).None? ==> result == TorecaMatch(None, None, None, None)
    ensures result.japanToreca ==
      (var m := MatchTorecaPrice(cardSetName, cardNumber, japanTorecaPrices); if m.Some? then Some(Summary(m.value)) else None)
    ensures result.torecacamp ==
      (var m := MatchTorecaPrice(cardSetName, cardNumber, torecacampPrices); if m.Some? then Some(Summary(m.value)) else None)
    ensures result.lowestSource.None? <==> result.japanToreca.None? && result.torecacamp.None?
    ensures result.lowestSource == Some(JapanToreca) ==>
      result.japanToreca.Some? && result.lowestPrice == result.japanToreca.value.priceJpy
    ensures result.lowestSource == Some(Torecacamp) ==>
      result.torecacamp.Some? && result.lowestPrice == result.torecacamp.value.priceJpy
    ensures result.lowestSource.None? ==> result.lowestPrice.None?
    ensures result.japanToreca.Some? && result.torecacamp.Some? ==>
      (result.lowestSource == Some(JapanToreca) <==>
        NumericValue(result.japanToreca.value.priceJpy) <= NumericValue(result.torecacamp.value.priceJpy))
    ensures (result.japanToreca.Some? && result.torecacamp.Some? &&
      result.japanToreca.value.priceJpy.Some? && result.torecacamp.value.priceJpy.Some?) ==>
        var j, c := result.japanToreca.value.priceJpy.value, result.torecacamp.value.priceJpy.value;
        result.lowestPrice == Some(if j <= c then j else c)
  {
    var setCode := SetCodeForLabel(cardSetName);
    result := TorecaMatch(None, None, None, None);
    if setCode.None? {
      return;
    }
    var japanMatch := Find(japanTorecaPrices, setCode.value, cardNumber);
    if japanMatch.Some? {
      result := result.(japanToreca := Some(Summary(japanMatch.value)));
    }
    var campMatch := Find(torecacampPrices, setCode.value, cardNumber);
    if campMatch.Some? {
      result := result.(torecacamp := Some(Summary(campMatch.value)));
    }
    if result.japanToreca.Some? && result.torecacamp.Some? {
      if NumericValue(result.japanToreca.value.priceJpy) <= NumericValue(result.torecacamp.value.priceJpy) {
        result := result.(lowestPrice := result.japanToreca.value.priceJpy, lowestSource := Some(JapanToreca));
      } else {
        result := result.(lowestPrice := result.torecacamp.value.priceJpy, lowestSource := Some(Torecacamp));
      }
    } else if result.japanToreca.Some? {
      result := result.(lowestPrice := result.japanToreca.value.priceJpy, lowestSource := Some(JapanToreca));
    } else if result.torecacamp.Some? {
      result := result.(lowestPrice := result.torecacamp.value.priceJpy, lowestSource := Some(Torecacamp));
    }
  }
}
