/**
 * The Torecacamp scraper of scripts/scrape-torecacamp.js: product-page
 * extraction (the PSA skip, the title patterns, the radio-label scan and the
 * aria radiogroup fallback), the link filter of the search pages, and the
 * accumulation of the snapshot over every set and rarity.
 *
 * The network is a pair of functions: `fetchSearch(term)` is the search page
 * for the query `term` (None when the request fails) and `fetchProduct(url)`
 * the product page at `url`. `capturedAt` stands for the
 * `new Date().toISOString()` stamp.
 */
module ScrapeTorecacamp {
  import opened Wrappers
  import opened Strings
  import opened Collections
  import opened Patterns
  import opened Urls
  import opened Dom
  import opened Arbitrage

  /** The sets searched, in order. */
  const Sets: seq<string> := ["SV11B", "SV11W"]

  /** The rarities searched within each set, in order. */
  const Rarities: seq<string> := ["SAR", "AR", "SR"]

  /** Every set code a record can carry: the upper-cased captures of the set pattern. */
  const SetCodes: seq<string> := ["SV11B", "SV11W", "M3", "M2A", "M2", "M1L", "M1S"]

  /**
   * An `input[type="radio"]` as the radio scan reads it: the text of the
   * element right after it (its label), the text of the label's descendants,
   * and the text of the label's parent. A radio with no next element has
   * empty texts.
   */
  datatype Radio = Radio(labelText: string, labelDescendantsText: string, labelParentText: string)

  /**
   * A product page: the text of the first `h1`, its radio inputs in document
   * order, and the texts of the `[role="radio"]` elements inside a
   * `[role="radiogroup"]`, in document order. Trimming the title and the
   * label texts changes none of the tests made on them, so it is not modelled.
   */
  datatype CampPage = CampPage(title: string, radios: seq<Radio>, ariaRadioTexts: seq<string>)

  /** The two variables both scans update: `priceAMinus` (None for null or `NaN`) and `inStock`. */
  datatype ScanState = ScanState(price: Option<nat>, inStock: bool)

  /** The state before either scan. */
  const Unscanned: ScanState := ScanState(None, false)

  /** A graded listing: the title mentions "PSA" or "psa". */
  predicate IsPsa(title: string)
  {
    Contains(title, "PSA") || Contains(title, "psa")
  }

  /** The label test of the radio scan: 【状態A-】 or 状態A-. */
  predicate IsAMinusLabel(labelText: string)
  {
    Contains(labelText, "【状態A-】") || Contains(labelText, "状態A-")
  }

  /** The bracketed test is subsumed: a label passes exactly when it contains 状態A-. */
  lemma AMinusLabelIff(labelText: string)
    ensures IsAMinusLabel(labelText) <==> Contains(labelText, "状態A-")
  {
    if Contains(labelText, "【状態A-】") {
      assert OccursAt("【状態A-】", "状態A-", 1);
      ContainsTransitive(labelText, "【状態A-】", "状態A-");
    }
  }

  /** `$label.find('*').text() || $label.parent().text()`: the parent's text when the descendants have none. */
  function PriceText(r: Radio): string
  {
    if r.labelDescendantsText != "" then r.labelDescendantsText else r.labelParentText
  }

  /** The sold-out test of the radio scan. */
  predicate SoldOutLabel(labelText: string)
  {
    Contains(labelText, "Sold Out") || Contains(labelText, "売り切れ") || Contains(labelText, "在庫なし")
  }

  /** The radio sets the price: its label passes and its price text holds a yen amount. */
  predicate RadioSetsPrice(r: Radio)
  {
    IsAMinusLabel(r.labelText) && YenAmount(PriceText(r)).Some?
  }

  /** One radio of the scan: a passing label always sets the stock flag, and sets the price when it has an amount. */
  function RadioStep(st: ScanState, r: Radio): ScanState
  {
    if IsAMinusLabel(r.labelText) then
      var amount := YenAmount(PriceText(r));
      ScanState(if amount.Some? then ParseAmount(amount.value) else st.price, !SoldOutLabel(r.labelText))
    else st
  }

  /** The radio scan over `radios` in document order, from state `st`. */
  function RadioScan(st: ScanState, radios: seq<Radio>): ScanState
  {
    if radios == [] then st
    else RadioStep(RadioScan(st, radios[..|radios| - 1]), radios[|radios| - 1])
  }

  /** With no passing label the radio scan changes nothing. */
  lemma {:induction false} RadioScanUnmatched(st: ScanState, radios: seq<Radio>)
    requires forall j :: 0 <= j < |radios| ==> !IsAMinusLabel(radios[j].labelText)
    ensures RadioScan(st, radios) == st
  {
    if radios != [] {
      RadioScanUnmatched(st, radios[..|radios| - 1]);
    }
  }

  /** The last passing label decides the stock flag, whatever came before. */
  lemma {:induction false} RadioStockFromLast(st: ScanState, radios: seq<Radio>, k: nat)
    requires k < |radios| && IsAMinusLabel(radios[k].labelText)
    requires forall j :: k < j < |radios| ==> !IsAMinusLabel(radios[j].labelText)
    ensures RadioScan(st, radios).inStock == !SoldOutLabel(radios[k].labelText)
  {
    if k < |radios| - 1 {
      RadioStockFromLast(st, radios[..|radios| - 1], k);
    }
  }

  /** The last passing label with a yen amount decides the price, whatever came before. */
  lemma {:induction false} RadioPriceFromLast(st: ScanState, radios: seq<Radio>, k: nat)
    requires k < |radios| && RadioSetsPrice(radios[k])
    requires forall j :: k < j < |radios| ==> !RadioSetsPrice(radios[j])
    ensures RadioScan(st, radios).price == YenPrice(PriceText(radios[k]))
  {
    var init := radios[..|radios| - 1];
    var last := radios[|radios| - 1];
    assert RadioScan(st, radios) == RadioStep(RadioScan(st, init), last);
    if k < |radios| - 1 {
      assert init[k] == radios[k];
      assert forall j :: k < j < |init| ==> init[j] == radios[j];
      RadioPriceFromLast(st, init, k);
      assert !RadioSetsPrice(last);
    } else {
      assert last == radios[k];
    }
  }

  /** The aria text sets both variables: it contains 【状態A-】 and a yen amount. */
  predicate AriaApplies(text: string)
  {
    Contains(text, "【状態A-】") && YenAmount(text).Some?
  }

  /** The sold-out test of the aria scan, which does not look for 在庫なし. */
  predicate AriaSoldOut(text: string)
  {
    Contains(text, "Sold Out") || Contains(text, "売り切れ")
  }

  /** One `[role="radio"]` of the fallback scan: price and stock change together or not at all. */
  function AriaStep(st: ScanState, text: string): ScanState
  {
    if AriaApplies(text) then ScanState(ParseAmount(YenAmount(text).value), !AriaSoldOut(text)) else st
  }

  /** The aria scan over `texts` in document order, from state `st`. */
  function AriaScan(st: ScanState, texts: seq<string>): ScanState
  {
    if texts == [] then st
    else AriaStep(AriaScan(st, texts[..|texts| - 1]), texts[|texts| - 1])
  }

  /** Without an A- text holding an amount, the aria scan leaves price and stock as they were. */
  lemma {:induction false} AriaScanUnmatched(st: ScanState, texts: seq<string>)
    requires forall j :: 0 <= j < |texts| ==> !AriaApplies(texts[j])
    ensures AriaScan(st, texts) == st
  {
    if texts != [] {
      AriaScanUnmatched(st, texts[..|texts| - 1]);
    }
  }

  /** The last applicable aria text decides both the price and the stock flag. */
  lemma {:induction false} AriaFromLast(st: ScanState, texts: seq<string>, k: nat)
    requires k < |texts| && AriaApplies(texts[k])
    requires forall j :: k < j < |texts| ==> !AriaApplies(texts[j])
    ensures AriaScan(st, texts) == ScanState(YenPrice(texts[k]), !AriaSoldOut(texts[k]))
  {
    if k < |texts| - 1 {
      AriaFromLast(st, texts[..|texts| - 1], k);
    }
  }

  /** Both scans of a page: the aria scan runs only when the radio scan found no truthy price. */
  function PageScan(page: CampPage): ScanState
  {
    var afterRadios := RadioScan(Unscanned, page.radios);
    if Truthy(afterRadios.price) then afterRadios else AriaScan(afterRadios, page.ariaRadioTexts)
  }

  /** A record this scraper can produce. */
  predicate WellFormed(card: TorecaPrice, capturedAt: string)
  {
    IsNumberPair(card.cardNumber) && card.setCode in SetCodes &&
    card.rarity in ["SAR", "AR", "SR", "BWR"] && card.priceJpy.Some? && card.priceJpy.value > 0 &&
    card.lastUpdated == capturedAt
  }

  /**
   * What `extractCardData(html, url)` returns: null for a PSA listing, a title
   * missing one of the three patterns, or a page whose scans find no truthy
   * price; otherwise the record, with the set code upper-cased.
   */
  function ExtractedCard(page: CampPage, url: string, capturedAt: string): (r: Option<TorecaPrice>)
    ensures IsPsa(page.title) ==> r.None?
    ensures r.Some? <==>
      !IsPsa(page.title) && FirstMatch(NumberPairAt, page.title).Some? &&
      FirstMatch(SetCodeAt, page.title).Some? && FirstMatch(RarityAt, page.title).Some? &&
      Truthy(PageScan(page).price)
    ensures r.Some? ==>
      r.value.cardNumber == FirstMatch(NumberPairAt, page.title).value &&
      r.value.setCode == ToUpper(FirstMatch(SetCodeAt, page.title).value) &&
      r.value.rarity == FirstMatch(RarityAt, page.title).value &&
      r.value.priceJpy == PageScan(page).price && r.value.inStock == PageScan(page).inStock &&
      r.value.url == url
    ensures r.Some? ==> WellFormed(r.value, capturedAt)
  {
    if IsPsa(page.title) then None
    else
      var cardNumberMatch := FirstMatch(NumberPairAt, page.title);
      var setMatch := FirstMatch(SetCodeAt, page.title);
      var rarityMatch := FirstMatch(RarityAt, page.title);
      var scan := PageScan(page);
      if cardNumberMatch.None? || setMatch.None? || rarityMatch.None? || !Truthy(scan.price) then None
      else Some(TorecaPrice(cardNumberMatch.value, ToUpper(setMatch.value), rarityMatch.value,
        scan.price, scan.inStock, capturedAt, url))
  }

  /** The `input[type="radio"]` loop of `extractCardData`. */
  method ScanRadios(radios: seq<Radio>) returns (priceAMinus: Option<nat>, inStock: bool)
    ensures ScanState(priceAMinus, inStock) == RadioScan(Unscanned, radios)
  {
    priceAMinus, inStock := None, false;
    for i := 0 to |radios|
      invariant ScanState(priceAMinus, inStock) == RadioScan(Unscanned, radios[..i])
    {
      var radio := radios[i];
      assert radios[..i + 1][..i] == radios[..i];
      if Contains(radio.labelText, "【状態A-】") || Contains(radio.labelText, "状態A-") {
        var priceText := if radio.labelDescendantsText != "" then radio.labelDescendantsText else radio.labelParentText;
        var priceMatch := YenAmount(priceText);
        if priceMatch.Some? {
          priceAMinus := ParseAmount(priceMatch.value);
        }
        var isSoldOut := Contains(radio.labelText, "Sold Out") || Contains(radio.labelText, "売り切れ") ||
          Contains(radio.labelText, "在庫なし");
        inStock := !isSoldOut;
      }
    }
    assert radios[..|radios|] == radios;
  }

  /** The `[role="radiogroup"] [role="radio"]` loop of `extractCardData`, continuing from the radio scan's state. */
  method ScanAria(texts: seq<string>, price0: Option<nat>, inStock0: bool) returns (priceAMinus: Option<nat>, inStock: bool)
    ensures ScanState(priceAMinus, inStock) == AriaScan(ScanState(price0, inStock0), texts)
  {
    priceAMinus, inStock := price0, inStock0;
    for j := 0 to |texts|
      invariant ScanState(priceAMinus, inStock) == AriaScan(ScanState(price0, inStock0), texts[..j])
    {
      var text := texts[j];
      assert texts[..j + 1][..j] == texts[..j];
      if Contains(text, "【状態A-】") {
        var priceMatch := YenAmount(text);
        if priceMatch.Some? {
          priceAMinus := ParseAmount(priceMatch.value);
          var isSoldOut := Contains(text, "Sold Out") || Contains(text, "売り切れ");
          inStock := !isSoldOut;
        }
      }
    }
    assert texts[..|texts|] == texts;
  }

  /** `extractCardData`: the PSA skip, the title patterns, then the radio scan and, failing a price, the aria scan. */
  method ExtractCardData(page: CampPage, url: string, capturedAt: string) returns (r: Option<TorecaPrice>)
    ensures r == ExtractedCard(page, url, capturedAt)
  {
    var title := page.title;
    if Contains(title, "PSA") || Contains(title, "psa") {
      return None;
    }
    var cardNumberMatch := FirstMatch(NumberPairAt, title);
    var setMatch := FirstMatch(SetCodeAt, title);
    var rarityMatch := FirstMatch(RarityAt, title);
    if cardNumberMatch.None? || setMatch.None? || rarityMatch.None? {
      return None;
    }
    var priceAMinus, inStock := ScanRadios(page.radios);
    if !Truthy(priceAMinus) {
      priceAMinus, inStock := ScanAria(page.ariaRadioTexts, priceAMinus, inStock);
    }
    if !Truthy(priceAMinus) {
      return None;
    }
    r := Some(TorecaPrice(cardNumberMatch.value, ToUpper(setMatch.value), rarityMatch.value,
      priceAMinus, inStock, capturedAt, url));
  }

  /** The query of `searchCards(setCode, rarity)`. */
  function SearchTerm(setCode: string, rarity: string): string
  {
    setCode + " " + rarity
  }

  /** The anchor filter of `searchCards`: the `/products/` selector, a non-empty `href`, and `/products/rc_` in it. */
  predicate KeepCampLink(a: Anchor)
  {
    HrefContains(a, "/products/") && a.href.value != [] && Contains(a.href.value, "/products/rc_")
  }

  /** The `/products/rc_` test alone decides the filter: the selector and the emptiness test are implied by it. */
  lemma KeepCampLinkIff(a: Anchor)
    ensures KeepCampLink(a) <==> HrefContains(a, "/products/rc_")
  {
    if HrefContains(a, "/products/rc_") {
      assert OccursAt("/products/rc_", "/products/", 0);
      ContainsTransitive(a.href.value, "/products/rc_", "/products/");
      var i :| OccursAt(a.href.value, "/products/rc_", i);
      assert |a.href.value| > 0;
    }
  }

  /** The product links a search response yields: none for a failed request. */
  function SearchLinks(response: Option<SearchPage>): seq<string>
  {
    if response.None? then [] else UniqueCleanUrls(response.value.anchors, TorecacampBase, KeepCampLink)
  }

  /**
   * The links of one search: none when the request failed; otherwise
   * distinct, query-free, each the cleaned address of an `rc_` product
   * anchor, and every such anchor represented.
   */
  lemma SearchLinksExact(response: Option<SearchPage>)
    ensures response.None? ==> SearchLinks(response) == []
    ensures response.Some? ==>
      var links := SearchLinks(response);
      var anchors := response.value.anchors;
      Distinct(links) &&
      (forall i :: 0 <= i < |links| ==> '?' !in links[i] && FromAccepted(links[i], anchors, TorecacampBase, KeepCampLink)) &&
      (forall j :: 0 <= j < |anchors| && KeepCampLink(anchors[j]) ==> CleanUrl(TorecacampBase, anchors[j].href.value) in links)
  {
    if response.Some? {
      var anchors := response.value.anchors;
      var links := SearchLinks(response);
      UniqueCleanUrlsDistinct(anchors, TorecacampBase, KeepCampLink);
      UniqueCleanUrlsSound(anchors, TorecacampBase, KeepCampLink);
      UniqueCleanUrlsComplete(anchors, TorecacampBase, KeepCampLink);
      forall i | 0 <= i < |links| ensures '?' !in links[i] {
        assert FromAccepted(links[i], anchors, TorecacampBase, KeepCampLink);
      }
    }
  }

  /** `searchCards(setCode, rarity)`. */
  method SearchCards(setCode: string, rarity: string, fetchSearch: string -> Option<SearchPage>)
    returns (productUrls: seq<string>)
    ensures productUrls == SearchLinks(fetchSearch(SearchTerm(setCode, rarity)))
  {
    var response := fetchSearch(setCode + " " + rarity);
    if response.None? {
      return [];
    }
    var anchors := response.value.anchors;
    productUrls := [];
    for i := 0 to |anchors|
      invariant productUrls == UniqueCleanUrls(anchors[..i], TorecacampBase, KeepCampLink)
    {
      var a := anchors[i];
      assert anchors[..i + 1][..i] == anchors[..i];
      if a.href.Some? && Contains(a.href.value, "/products/") && a.href.value != [] &&
        Contains(a.href.value, "/products/rc_")
      {
        var cleanUrl := CleanUrl(TorecacampBase, a.href.value);
        if cleanUrl !in productUrls {
          productUrls := productUrls + [cleanUrl];
        }
      }
    }
    assert anchors[..|anchors|] == anchors;
  }

  /** `scrapeProduct(url)`: null when the request fails. */
  function ProductCard(url: string, fetchProduct: string -> Option<CampPage>, capturedAt: string): Option<TorecaPrice>
  {
    var page := fetchProduct(url);
    if page.None? then None else ExtractedCard(page.value, url, capturedAt)
  }

  method ScrapeProduct(url: string, fetchProduct: string -> Option<CampPage>, capturedAt: string)
    returns (card: Option<TorecaPrice>)
    ensures card == ProductCard(url, fetchProduct, capturedAt)
  {
    var response := fetchProduct(url);
    if response.None? {
      return None;
    }
    card := ExtractCardData(response.value, url, capturedAt);
  }

  /** The non-null records of the pages at `urls`, in order. */
  function ScrapedCards(urls: seq<string>, fetchProduct: string -> Option<CampPage>, capturedAt: string): (cards: seq<TorecaPrice>)
    ensures |cards| <= |urls|
  {
    if urls == [] then []
    else
      var rest := ScrapedCards(urls[..|urls| - 1], fetchProduct, capturedAt);
      var card := ProductCard(urls[|urls| - 1], fetchProduct, capturedAt);
      if card.Some? then rest + [card.value] else rest
  }

  /** Every record scraped from a list of links is well formed. */
  lemma {:induction false} ScrapedCardsWellFormed(urls: seq<string>, fetchProduct: string -> Option<CampPage>, capturedAt: string)
    ensures forall i :: 0 <= i < |ScrapedCards(urls, fetchProduct, capturedAt)| ==>
      WellFormed(ScrapedCards(urls, fetchProduct, capturedAt)[i], capturedAt)
  {
    if urls != [] {
      ScrapedCardsWellFormed(urls[..|urls| - 1], fetchProduct, capturedAt);
    }
  }

  /** The records of a link that extracts are among the records of any list holding it. */
  lemma {:induction false} ScrapedCardsHas(urls: seq<string>, fetchProduct: string -> Option<CampPage>, capturedAt: string, k: nat)
    requires k < |urls| && ProductCard(urls[k], fetchProduct, capturedAt).Some?
    ensures ProductCard(urls[k], fetchProduct, capturedAt).value in ScrapedCards(urls, fetchProduct, capturedAt)
  {
    if k < |urls| - 1 {
      var init := urls[..|urls| - 1];
      assert init[k] == urls[k];
      ScrapedCardsHas(init, fetchProduct, capturedAt, k);
    }
  }

  /** The records of one search query. */
  function QueryCards(setCode: string, rarity: string, fetchSearch: string -> Option<SearchPage>,
    fetchProduct: string -> Option<CampPage>, capturedAt: string): seq<TorecaPrice>
  {
    ScrapedCards(SearchLinks(fetchSearch(SearchTerm(setCode, rarity))), fetchProduct, capturedAt)
  }

  /** The records of the first `n` rarities of `setCode`, in query order. */
  function SetCards(setCode: string, n: nat, fetchSearch: string -> Option<SearchPage>,
    fetchProduct: string -> Option<CampPage>, capturedAt: string): seq<TorecaPrice>
    requires n <= |Rarities|
  {
    if n == 0 then []
    else
      SetCards(setCode, n - 1, fetchSearch, fetchProduct, capturedAt) +
      QueryCards(setCode, Rarities[n - 1], fetchSearch, fetchProduct, capturedAt)
  }

  /** The records of the first `m` sets, in query order: what `scrapeAllCards` writes when `m` is 2. */
  function AllCards(m: nat, fetchSearch: string -> Option<SearchPage>,
    fetchProduct: string -> Option<CampPage>, capturedAt: string): seq<TorecaPrice>
    requires m <= |Sets|
  {
    if m == 0 then []
    else
      AllCards(m - 1, fetchSearch, fetchProduct, capturedAt) +
      SetCards(Sets[m - 1], |Rarities|, fetchSearch, fetchProduct, capturedAt)
  }

  /** Every record of the snapshot has a truthy price, a known set code and rarity, and a `digits/digits` number. */
  lemma {:induction false} SnapshotWellFormed(m: nat, fetchSearch: string -> Option<SearchPage>,
    fetchProduct: string -> Option<CampPage>, capturedAt: string)
    requires m <= |Sets|
    ensures forall i :: 0 <= i < |AllCards(m, fetchSearch, fetchProduct, capturedAt)| ==>
      WellFormed(AllCards(m, fetchSearch, fetchProduct, capturedAt)[i], capturedAt)
  {
    if m > 0 {
      SnapshotWellFormed(m - 1, fetchSearch, fetchProduct, capturedAt);
      SetCardsWellFormed(Sets[m - 1], |Rarities|, fetchSearch, fetchProduct, capturedAt);
    }
  }

  lemma {:induction false} SetCardsWellFormed(setCode: string, n: nat, fetchSearch: string -> Option<SearchPage>,
    fetchProduct: string -> Option<CampPage>, capturedAt: string)
    requires n <= |Rarities|
    ensures forall i :: 0 <= i < |SetCards(setCode, n, fetchSearch, fetchProduct, capturedAt)| ==>
      WellFormed(SetCards(setCode, n, fetchSearch, fetchProduct, capturedAt)[i], capturedAt)
  {
    if n > 0 {
      SetCardsWellFormed(setCode, n - 1, fetchSearch, fetchProduct, capturedAt);
      ScrapedCardsWellFormed(SearchLinks(fetchSearch(SearchTerm(setCode, Rarities[n - 1]))), fetchProduct, capturedAt);
    }
  }

  /**
   * Nothing is deduplicated across queries: a product page listed by two
   * rarity searches of a set contributes its record twice.
   */
  lemma SharedLinkCountedTwice(setCode: string, r1: nat, r2: nat, url: string,
    fetchSearch: string -> Option<SearchPage>, fetchProduct: string -> Option<CampPage>, capturedAt: string)
    requires r1 < r2 < |Rarities|
    requires url in SearchLinks(fetchSearch(SearchTerm(setCode, Rarities[r1])))
    requires url in SearchLinks(fetchSearch(SearchTerm(setCode, Rarities[r2])))
    requires ProductCard(url, fetchProduct, capturedAt).Some?
    ensures multiset(SetCards(setCode, |Rarities|, fetchSearch, fetchProduct, capturedAt))[ProductCard(url, fetchProduct, capturedAt).value] >= 2
  {
    var card := ProductCard(url, fetchProduct, capturedAt).value;
    CountAfterQuery(setCode, r1, url, fetchSearch, fetchProduct, capturedAt, 0);
    CountKept(setCode, r1 + 1, r2, card, fetchSearch, fetchProduct, capturedAt, 1);
    CountAfterQuery(setCode, r2, url, fetchSearch, fetchProduct, capturedAt, 1);
    CountKept(setCode, r2 + 1, |Rarities|, card, fetchSearch, fetchProduct, capturedAt, 2);
  }

  /** A rarity query listing `url` adds its record once more to the set's records. */
  lemma CountAfterQuery(setCode: string, r: nat, url: string,
    fetchSearch: string -> Option<SearchPage>, fetchProduct: string -> Option<CampPage>, capturedAt: string, count: nat)
    requires r < |Rarities|
    requires url in SearchLinks(fetchSearch(SearchTerm(setCode, Rarities[r])))
    requires ProductCard(url, fetchProduct, capturedAt).Some?
    requires multiset(SetCards(setCode, r, fetchSearch, fetchProduct, capturedAt))[ProductCard(url, fetchProduct, capturedAt).value] >= count
    ensures multiset(SetCards(setCode, r + 1, fetchSearch, fetchProduct, capturedAt))[ProductCard(url, fetchProduct, capturedAt).value] >= count + 1
  {
    QueryHasCard(setCode, Rarities[r], url, fetchSearch, fetchProduct, capturedAt);
    SetCardsStep(setCode, r, fetchSearch, fetchProduct, capturedAt);
  }

  /** Later rarity queries keep every record already gathered. */
  lemma CountKept(setCode: string, m: nat, n: nat, card: TorecaPrice,
    fetchSearch: string -> Option<SearchPage>, fetchProduct: string -> Option<CampPage>, capturedAt: string, count: nat)
    requires m <= n <= |Rarities|
    requires multiset(SetCards(setCode, m, fetchSearch, fetchProduct, capturedAt))[card] >= count
    ensures multiset(SetCards(setCode, n, fetchSearch, fetchProduct, capturedAt))[card] >= count
  {
    SetCardsGrow(setCode, m, n, fetchSearch, fetchProduct, capturedAt);
  }

  /** The records of the first `n + 1` rarities: those of the first `n`, then those of rarity `n`. */
  lemma SetCardsStep(setCode: string, n: nat, fetchSearch: string -> Option<SearchPage>,
    fetchProduct: string -> Option<CampPage>, capturedAt: string)
    requires n < |Rarities|
    ensures multiset(SetCards(setCode, n + 1, fetchSearch, fetchProduct, capturedAt)) ==
      multiset(SetCards(setCode, n, fetchSearch, fetchProduct, capturedAt)) +
      multiset(QueryCards(setCode, Rarities[n], fetchSearch, fetchProduct, capturedAt))
  {
  }

  /** A link of a query whose page extracts puts that record among the query's records. */
  lemma QueryHasCard(setCode: string, rarity: string, url: string,
    fetchSearch: string -> Option<SearchPage>, fetchProduct: string -> Option<CampPage>, capturedAt: string)
    requires url in SearchLinks(fetchSearch(SearchTerm(setCode, rarity)))
    requires ProductCard(url, fetchProduct, capturedAt).Some?
    ensures multiset(QueryCards(setCode, rarity, fetchSearch, fetchProduct, capturedAt))[ProductCard(url, fetchProduct, capturedAt).value] >= 1
  {
    var links := SearchLinks(fetchSearch(SearchTerm(setCode, rarity)));
    var k :| 0 <= k < |links| && links[k] == url;
    ScrapedCardsHas(links, fetchProduct, capturedAt, k);
  }

  /** Later queries only add records. */
  lemma {:induction false} SetCardsGrow(setCode: string, m: nat, n: nat, fetchSearch: string -> Option<SearchPage>,
    fetchProduct: string -> Option<CampPage>, capturedAt: string)
    requires m <= n <= |Rarities|
    ensures multiset(SetCards(setCode, m, fetchSearch, fetchProduct, capturedAt)) <=
      multiset(SetCards(setCode, n, fetchSearch, fetchProduct, capturedAt))
    decreases n - m
  {
    if m < n {
      SetCardsGrow(setCode, m, n - 1, fetchSearch, fetchProduct, capturedAt);
    }
  }

  /** The product loop of one query: one `scrapeProduct` per link, keeping the non-null records. */
  method ScrapeLinks(productUrls: seq<string>, fetchProduct: string -> Option<CampPage>, capturedAt: string)
    returns (cards: seq<TorecaPrice>)
    ensures cards == ScrapedCards(productUrls, fetchProduct, capturedAt)
  {
    cards := [];
    for k := 0 to |productUrls|
      invariant cards == ScrapedCards(productUrls[..k], fetchProduct, capturedAt)
    {
      assert productUrls[..k + 1][..k] == productUrls[..k];
      var cardData := ScrapeProduct(productUrls[k], fetchProduct, capturedAt);
      if cardData.Some? {
        cards := cards + [cardData.value];
      }
    }
    assert productUrls[..|productUrls|] == productUrls;
  }

  /** `scrapeAllCards` up to the file write: every set, every rarity, every link, in order, with no dedup. */
  method ScrapeAllCards(fetchSearch: string -> Option<SearchPage>, fetchProduct: string -> Option<CampPage>,
    capturedAt: string)
    returns (allCards: seq<TorecaPrice>)
    ensures allCards == AllCards(|Sets|, fetchSearch, fetchProduct, capturedAt)
  {
    allCards := [];
    for s := 0 to |Sets|
      invariant allCards == AllCards(s, fetchSearch, fetchProduct, capturedAt)
    {
      for r := 0 to |Rarities|
        invariant allCards == AllCards(s, fetchSearch, fetchProduct, capturedAt) +
          SetCards(Sets[s], r, fetchSearch, fetchProduct, capturedAt)
      {
        var productUrls := SearchCards(Sets[s], Rarities[r], fetchSearch);
        var cards := ScrapeLinks(productUrls, fetchProduct, capturedAt);
        ghost var setSoFar := SetCards(Sets[s], r, fetchSearch, fetchProduct, capturedAt);
        assert SetCards(Sets[s], r + 1, fetchSearch, fetchProduct, capturedAt) == setSoFar + cards;
        AppendAssociative(AllCards(s, fetchSearch, fetchProduct, capturedAt), setSoFar, cards);
        allCards := allCards + cards;
      }
    }
  }
}
