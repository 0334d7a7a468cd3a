/**
 * The Japan-Toreca scraper of scripts/scrape-toreca.js: product-page
 * extraction, the search-page link filter, the bounded pagination of one set,
 * and the keyed dedup of the final snapshot.
 *
 * The network is a pair of functions: `fetchSearch(setCode, page)` is the
 * search page `/search?q=<setCode>&page=<page>` and `fetchProduct(url)` the
 * product page at `url`, each None when the request fails. `capturedAt`
 * stands for the `new Date().toISOString()` stamp.
 */
module ScrapeToreca {
  import opened Wrappers
  import opened Strings
  import opened Collections
  import opened Patterns
  import opened Urls
  import opened Dom
  import opened Arbitrage

  /** The sets crawled, in order. */
  const Sets: seq<string> := ["SV11B", "SV11W"]

  /** The most search pages fetched per set. */
  const MaxPages: nat := 20

  /**
   * A product page as `extractCardData` reads it: the text of the first `h1`,
   * the text of every element in document order (`$('*')`), and the text of
   * `body`. Trimming the title changes none of the captures, so it is not modelled.
   */
  datatype ProductPage = ProductPage(title: string, elementTexts: seq<string>, bodyText: string)

  /** Index of the first element text at or after `n` with a yen amount, or `|texts|`. */
  function PriceTextIndex(texts: seq<string>, n: nat): (i: nat)
    requires n <= |texts|
    ensures n <= i <= |texts|
    ensures i < |texts| ==> Contains(texts[i], "¥") && YenAmount(texts[i]).Some?
    ensures forall j :: n <= j < i ==> YenAmount(texts[j]).None?
    decreases |texts| - n
  {
    if n == |texts| then n
    else if Contains(texts[n], "¥") && YenAmount(texts[n]).Some? then n
    else PriceTextIndex(texts, n + 1)
  }

  /** The price the element scan settles on: the first yen amount with its commas removed, or null. */
  function PagePrice(texts: seq<string>): (price: Option<nat>)
    ensures PriceTextIndex(texts, 0) == |texts| ==> price.None?
    ensures PriceTextIndex(texts, 0) < |texts| ==> price == YenPrice(texts[PriceTextIndex(texts, 0)])
  {
    var i := PriceTextIndex(texts, 0);
    if i < |texts| then YenPrice(texts[i]) else None
  }

  /** Once an element text holds a yen amount, the elements after it are never read. */
  lemma PagePriceIgnoresLater(texts: seq<string>, later: seq<string>)
    requires PriceTextIndex(texts, 0) < |texts|
    ensures PagePrice(texts + later) == PagePrice(texts)
  {
    var i := PriceTextIndex(texts, 0);
    var all := texts + later;
    assert forall j :: 0 <= j <= i ==> all[j] == texts[j];
    PriceTextIndexAt(all, 0, i);
  }

  /** The scan from `n` stops at `i` when `i` is the first index from `n` holding a yen amount. */
  lemma {:induction false} PriceTextIndexAt(texts: seq<string>, n: nat, i: nat)
    requires n <= i < |texts| && YenAmount(texts[i]).Some?
    requires forall j :: n <= j < i ==> YenAmount(texts[j]).None?
    ensures PriceTextIndex(texts, n) == i
    decreases i - n
  {
    if n < i {
      PriceTextIndexAt(texts, n + 1, i);
    } else {
      assert Contains(texts[i], "¥");
    }
  }

  /** The stock rule: the body mentions 在庫 but neither 在庫切れ nor 売り切れ. */
  predicate InStockText(bodyText: string)
  {
    Contains(bodyText, "在庫") && !Contains(bodyText, "在庫切れ") && !Contains(bodyText, "売り切れ")
  }

  /** 在庫切れ ("out of stock") itself contains 在庫, so it has to be excluded explicitly. */
  lemma OutOfStockMentionsStock(bodyText: string)
    requires Contains(bodyText, "在庫切れ")
    ensures Contains(bodyText, "在庫") && !InStockText(bodyText)
  {
    assert OccursAt("在庫切れ", "在庫", 0);
    ContainsTransitive(bodyText, "在庫切れ", "在庫");
  }

  /**
   * What `extractCardData(html, url)` returns: null unless the title has a
   * `(n/m)` card number, a `[SV11B]`/`[SV11W]` set tag and a rarity; otherwise
   * a record whose price may still be null.
   */
  function ExtractedCard(page: ProductPage, url: string, capturedAt: string): (r: Option<TorecaPrice>)
    ensures r.Some? <==>
      FirstMatch(ParenNumberAt, page.title).Some? && FirstMatch(BracketSetAt, page.title).Some? &&
      FirstMatch(RarityAt, page.title).Some?
    ensures r.Some? ==>
      r.value.cardNumber == FirstMatch(ParenNumberAt, page.title).value && IsNumberPair(r.value.cardNumber) &&
      r.value.setCode == FirstMatch(BracketSetAt, page.title).value && r.value.setCode in Sets &&
      r.value.rarity == FirstMatch(RarityAt, page.title).value && r.value.rarity in ["SAR", "AR", "SR", "BWR"]
    ensures r.Some? ==>
      r.value.priceJpy == PagePrice(page.elementTexts) && (r.value.inStock <==> InStockText(page.bodyText)) &&
      r.value.url == url && r.value.lastUpdated == capturedAt
  {
    var cardNumberMatch := FirstMatch(ParenNumberAt, page.title);
    var setMatch := FirstMatch(BracketSetAt, page.title);
    var rarityMatch := FirstMatch(RarityAt, page.title);
    if cardNumberMatch.None? || setMatch.None? || rarityMatch.None? then None
    else
      Some(TorecaPrice(cardNumberMatch.value, setMatch.value, rarityMatch.value,
        PagePrice(page.elementTexts), InStockText(page.bodyText), capturedAt, url))
  }

  /** `extractCardData`, with the element scan that stops at the first yen amount. */
  method ExtractCardData(page: ProductPage, url: string, capturedAt: string) returns (r: Option<TorecaPrice>)
    ensures r == ExtractedCard(page, url, capturedAt)
  {
    var title := page.title;
    var cardNumberMatch := FirstMatch(ParenNumberAt, title);
    var setMatch := FirstMatch(BracketSetAt, title);
    var rarityMatch := FirstMatch(RarityAt, title);
    if cardNumberMatch.None? || setMatch.None? || rarityMatch.None? {
      return None;
    }
    var price: Option<nat> := None;
    var n := 0;
    while n < |page.elementTexts|
      invariant 0 <= n <= |page.elementTexts|
      invariant price.None?
      invariant PriceTextIndex(page.elementTexts, n) == PriceTextIndex(page.elementTexts, 0)
    {
      var text := page.elementTexts[n];
      if Contains(text, "¥") && !Truthy(price) {
        var m := YenAmount(text);
        if m.Some? {
          price := ParseAmount(m.value);
          break;
        }
      }
      n := n + 1;
    }
    var inStock := Contains(page.bodyText, "在庫") && !Contains(page.bodyText, "在庫切れ") &&
      !Contains(page.bodyText, "売り切れ");
    r := Some(TorecaPrice(cardNumberMatch.value, setMatch.value, rarityMatch.value, price, inStock, capturedAt, url));
  }

  /** The anchor-text test of `scrapeSearchPage`: an A- listing of a wanted rarity, tagged with the queried set. */
  predicate KeepLink(a: Anchor, setCode: string)
  {
    HrefContains(a, "/products/") && a.href.value != [] &&
    Contains(a.text, "【状態A-】") &&
    (Contains(a.text, "SAR") || Contains(a.text, "AR") || Contains(a.text, "SR")) &&
    FirstMatch(BracketSetAt, a.text) == Some(setCode)
  }

  /** The product links a search-page response yields: none for a failed request. */
  function PageLinks(setCode: string, response: Option<SearchPage>): seq<string>
  {
    if response.None? then [] else UniqueCleanUrls(response.value.anchors, JapanTorecaBase, a => KeepLink(a, setCode))
  }

  /** Index of the first anchor from `n` on whose text contains 次 ("next"), or `|anchors|`. */
  function NextAnchorIndex(anchors: seq<Anchor>, n: nat): (i: nat)
    requires n <= |anchors|
    ensures n <= i <= |anchors|
    decreases |anchors| - n
  {
    if n == |anchors| then n
    else if Contains(anchors[n].text, "次") then n
    else NextAnchorIndex(anchors, n + 1)
  }

  /** `$('a:contains("次")').length > 0`; false for a failed request. */
  predicate HasNextPage(response: Option<SearchPage>)
  {
    response.Some? && NextAnchorIndex(response.value.anchors, 0) < |response.value.anchors|
  }

  /** The scan from `n` finds an anchor exactly when one from `n` on mentions 次. */
  lemma {:induction false} NextAnchorIndexFinds(anchors: seq<Anchor>, n: nat)
    requires n <= |anchors|
    ensures NextAnchorIndex(anchors, n) < |anchors| <==> exists i :: n <= i < |anchors| && Contains(anchors[i].text, "次")
    decreases |anchors| - n
  {
    if n < |anchors| && !Contains(anchors[n].text, "次") {
      NextAnchorIndexFinds(anchors, n + 1);
      assert forall i :: n <= i < |anchors| && Contains(anchors[i].text, "次") ==> n + 1 <= i;
    }
  }

  /** A page offers a next page exactly when it was fetched and one of its anchors mentions 次. */
  lemma HasNextPageIff(response: Option<SearchPage>)
    ensures HasNextPage(response) <==>
      response.Some? && exists i :: 0 <= i < |response.value.anchors| && Contains(response.value.anchors[i].text, "次")
  {
    if response.Some? {
      NextAnchorIndexFinds(response.value.anchors, 0);
    }
  }

  /**
   * The links of one search page: none when the request failed; otherwise
   * distinct, each the cleaned address of an anchor that passes the filter,
   * and every passing anchor represented.
   */
  lemma PageLinksExact(setCode: string, response: Option<SearchPage>)
    ensures response.None? ==> PageLinks(setCode, response) == [] && !HasNextPage(response)
    ensures response.Some? ==>
      var links := PageLinks(setCode, response);
      var anchors := response.value.anchors;
      Distinct(links) &&
      (forall i :: 0 <= i < |links| ==> '?' !in links[i] && FromAccepted(links[i], anchors, JapanTorecaBase, a => KeepLink(a, setCode))) &&
      (forall j :: 0 <= j < |anchors| && KeepLink(anchors[j], setCode) ==> CleanUrl(JapanTorecaBase, anchors[j].href.value) in links)
  {
    if response.Some? {
      var keep := (a: Anchor) => KeepLink(a, setCode);
      var anchors := response.value.anchors;
      var links := PageLinks(setCode, response);
      UniqueCleanUrlsDistinct(anchors, JapanTorecaBase, keep);
      UniqueCleanUrlsSound(anchors, JapanTorecaBase, keep);
      UniqueCleanUrlsComplete(anchors, JapanTorecaBase, keep);
      forall i | 0 <= i < |links| ensures '?' !in links[i] {
        assert FromAccepted(links[i], anchors, JapanTorecaBase, keep);
      }
    }
  }

  /**
   * `scrapeSearchPage(setCode, page)`: the distinct cleaned links of the kept
   * anchors in first-seen order, and whether some anchor offers a next page.
   */
  method ScrapeSearchPage(setCode: string, page: nat, fetchSearch: (string, nat) -> Option<SearchPage>)
    returns (productLinks: seq<string>, hasNextPage: bool)
    ensures productLinks == PageLinks(setCode, fetchSearch(setCode, page))
    ensures hasNextPage == HasNextPage(fetchSearch(setCode, page))
  {
    var response := fetchSearch(setCode, page);
    if response.None? {
      return [], false;
    }
    var anchors := response.value.anchors;
    ghost var keep := (a: Anchor) => KeepLink(a, setCode);
    productLinks := [];
    var i := 0;
    while i < |anchors|
      invariant 0 <= i <= |anchors|
      invariant productLinks == UniqueCleanUrls(anchors[..i], JapanTorecaBase, keep)
    {
      var a := anchors[i];
      assert anchors[..i + 1][..i] == anchors[..i];
      if a.href.Some? && Contains(a.href.value, "/products/") && a.href.value != [] &&
        Contains(a.text, "【状態A-】") && (Contains(a.text, "SAR") || Contains(a.text, "AR") || Contains(a.text, "SR"))
      {
        var titleSetMatch := FirstMatch(BracketSetAt, a.text);
        if titleSetMatch.Some? && titleSetMatch.value == setCode {
          var cleanUrl := CleanUrl(JapanTorecaBase, a.href.value);
          if cleanUrl !in productLinks {
            productLinks := productLinks + [cleanUrl];
          }
        }
      }
      i := i + 1;
    }
    assert anchors[..i] == anchors;
    hasNextPage := NextAnchorIndex(anchors, 0) < |anchors|;
  }

  /**
   * The last search page the crawl of `setCode` reads when it has reached
   * page `page`: the first page from `page` on that offers no next page, or
   * `MaxPages`.
   */
  function LastPage(setCode: string, fetchSearch: (string, nat) -> Option<SearchPage>, page: nat): (last: nat)
    requires 1 <= page <= MaxPages
    ensures page <= last <= MaxPages
    decreases MaxPages - page
  {
    if page == MaxPages || !HasNextPage(fetchSearch(setCode, page)) then page
    else LastPage(setCode, fetchSearch, page + 1)
  }

  /** Every page the crawl reads before its last offers a next page; the last offers none unless it is page `MaxPages`. */
  lemma {:induction false} LastPageStops(setCode: string, fetchSearch: (string, nat) -> Option<SearchPage>, page: nat)
    requires 1 <= page <= MaxPages
    ensures forall p :: page <= p < LastPage(setCode, fetchSearch, page) ==> HasNextPage(fetchSearch(setCode, p))
    ensures LastPage(setCode, fetchSearch, page) < MaxPages ==>
      !HasNextPage(fetchSearch(setCode, LastPage(setCode, fetchSearch, page)))
    decreases MaxPages - page
  {
    if page < MaxPages && HasNextPage(fetchSearch(setCode, page)) {
      LastPageStops(setCode, fetchSearch, page + 1);
    }
  }

  /** The links of search pages 1 to `n`, page by page. */
  function LinksUpTo(setCode: string, fetchSearch: (string, nat) -> Option<SearchPage>, n: nat): seq<string>
  {
    if n == 0 then [] else LinksUpTo(setCode, fetchSearch, n - 1) + PageLinks(setCode, fetchSearch(setCode, n))
  }

  /** The crawl goes on past page `page` exactly when it offers a next page below the cap. */
  lemma LastPageNext(setCode: string, fetchSearch: (string, nat) -> Option<SearchPage>, page: nat)
    requires 1 <= page <= MaxPages
    ensures HasNextPage(fetchSearch(setCode, page)) && page + 1 <= MaxPages <==> page < LastPage(setCode, fetchSearch, page)
    ensures page < LastPage(setCode, fetchSearch, page) ==>
      LastPage(setCode, fetchSearch, page + 1) == LastPage(setCode, fetchSearch, page)
  {
  }

  /** Every product link gathered for `setCode`, in crawl order. */
  function Crawl(setCode: string, fetchSearch: (string, nat) -> Option<SearchPage>): seq<string>
  {
    LinksUpTo(setCode, fetchSearch, LastPage(setCode, fetchSearch, 1))
  }

  /** A failed request offers no next page, so it is the last page read, and it contributes no links. */
  lemma FailedPageEndsCrawl(setCode: string, fetchSearch: (string, nat) -> Option<SearchPage>, i: nat)
    requires 1 <= i <= LastPage(setCode, fetchSearch, 1) && fetchSearch(setCode, i).None?
    ensures i == LastPage(setCode, fetchSearch, 1)
    ensures PageLinks(setCode, fetchSearch(setCode, i)) == []
  {
    LastPageStops(setCode, fetchSearch, 1);
  }

  /** The record of the product page at `url`: None when the request failed or the title lacks a field. */
  function ProductCard(url: string, fetchProduct: string -> Option<ProductPage>, capturedAt: string): Option<TorecaPrice>
  {
    var page := fetchProduct(url);
    if page.None? then None else ExtractedCard(page.value, url, capturedAt)
  }

  /** The records extracted from the product pages at `urls`, in order; failed requests and unparsable pages give none. */
  function ScrapedCards(urls: seq<string>, fetchProduct: string -> Option<ProductPage>, capturedAt: string): (cards: seq<TorecaPrice>)
    ensures |cards| <= |urls|
  {
    if urls == [] then []
    else
      var rest := ScrapedCards(urls[..|urls| - 1], fetchProduct, capturedAt);
      var card := ProductCard(urls[|urls| - 1], fetchProduct, capturedAt);
      if card.Some? then rest + [card.value] else rest
  }

  /** Each scraped record is what `extractCardData` made of the page at one of the links. */
  lemma {:induction false} ScrapedCardsFrom(urls: seq<string>, fetchProduct: string -> Option<ProductPage>, capturedAt: string, i: nat)
    requires i < |ScrapedCards(urls, fetchProduct, capturedAt)|
    ensures exists j :: 0 <= j < |urls| && ProductCard(urls[j], fetchProduct, capturedAt) == Some(ScrapedCards(urls, fetchProduct, capturedAt)[i])
  {
    var init := urls[..|urls| - 1];
    var rest := ScrapedCards(init, fetchProduct, capturedAt);
    var cards := ScrapedCards(urls, fetchProduct, capturedAt);
    var card := ProductCard(urls[|urls| - 1], fetchProduct, capturedAt);
    assert cards == if card.Some? then rest + [card.value] else rest;
    if i < |rest| {
      ScrapedCardsFrom(init, fetchProduct, capturedAt, i);
      var j :| 0 <= j < |init| && ProductCard(init[j], fetchProduct, capturedAt) == Some(rest[i]);
      assert init[j] == urls[j] && cards[i] == rest[i];
    } else {
      assert card.Some? && cards[i] == card.value;
      assert ProductCard(urls[|urls| - 1], fetchProduct, capturedAt) == Some(cards[i]);
    }
  }

  /** What `scrapeSet(setCode)` returns. */
  function SetCards(setCode: string, fetchSearch: (string, nat) -> Option<SearchPage>,
    fetchProduct: string -> Option<ProductPage>, capturedAt: string): seq<TorecaPrice>
  {
    ScrapedCards(Crawl(setCode, fetchSearch), fetchProduct, capturedAt)
  }

  /**
   * The state of the pagination loop of a crawl that ends at `last`, before
   * page `page`: the links so far are those of the pages before it, and the
   * loop continues exactly while `page` is still to be read.
   */
  ghost predicate CrawlState(setCode: string, fetchSearch: (string, nat) -> Option<SearchPage>, last: nat,
    page: nat, hasMore: bool, links: seq<string>)
  {
    1 <= page <= last + 1 && last <= MaxPages &&
    (page <= last ==> LastPage(setCode, fetchSearch, page) == last) &&
    links == LinksUpTo(setCode, fetchSearch, page - 1) &&
    (hasMore && page <= MaxPages <==> page <= last)
  }

  /**
   * One round of the pagination loop: page `page`'s links are appended and
   * its next-page flag is kept, which takes the loop state to `page + 1`.
   */
  method CrawlRound(setCode: string, fetchSearch: (string, nat) -> Option<SearchPage>, ghost last: nat,
    page: nat, linksBefore: seq<string>)
    returns (links: seq<string>, hasMore: bool)
    requires CrawlState(setCode, fetchSearch, last, page, true, linksBefore) && page <= last
    ensures CrawlState(setCode, fetchSearch, last, page + 1, hasMore, links)
  {
    var productLinks, hasNextPage := ScrapeSearchPage(setCode, page, fetchSearch);
    links := linksBefore + productLinks;
    hasMore := hasNextPage;
    CrawlStateStep(setCode, fetchSearch, last, page, linksBefore, productLinks, hasNextPage);
  }

  /** The ghost half of a round: appending page `page`'s links and taking its next-page flag keeps the loop state. */
  lemma CrawlStateStep(setCode: string, fetchSearch: (string, nat) -> Option<SearchPage>, last: nat,
    page: nat, linksBefore: seq<string>, productLinks: seq<string>, hasNextPage: bool)
    requires CrawlState(setCode, fetchSearch, last, page, true, linksBefore) && page <= last
    requires productLinks == PageLinks(setCode, fetchSearch(setCode, page))
    requires hasNextPage == HasNextPage(fetchSearch(setCode, page))
    ensures CrawlState(setCode, fetchSearch, last, page + 1, hasNextPage, linksBefore + productLinks)
  {
    LastPageNext(setCode, fetchSearch, page);
    LinksUpToStep(setCode, fetchSearch, page, linksBefore, productLinks);
  }

  /** The links of pages 1 to `page` are those before it followed by its own. */
  lemma LinksUpToStep(setCode: string, fetchSearch: (string, nat) -> Option<SearchPage>, page: nat,
    linksBefore: seq<string>, productLinks: seq<string>)
    requires 1 <= page && linksBefore == LinksUpTo(setCode, fetchSearch, page - 1)
    requires productLinks == PageLinks(setCode, fetchSearch(setCode, page))
    ensures linksBefore + productLinks == LinksUpTo(setCode, fetchSearch, page)
  {
  }

  /** Once the pagination loop stops, its links are those of the whole crawl. */
  lemma CrawlDone(setCode: string, fetchSearch: (string, nat) -> Option<SearchPage>,
    page: nat, hasMore: bool, links: seq<string>)
    requires CrawlState(setCode, fetchSearch, LastPage(setCode, fetchSearch, 1), page, hasMore, links)
    requires !(hasMore && page <= MaxPages)
    ensures links == Crawl(setCode, fetchSearch)
  {
    var last := LastPage(setCode, fetchSearch, 1);
    assert page - 1 == last;
  }

  /** The pagination loop of `scrapeSet`: at most 20 search pages, until one offers no next page. */
  method CollectProductLinks(setCode: string, fetchSearch: (string, nat) -> Option<SearchPage>)
    returns (allProductLinks: seq<string>)
    ensures allProductLinks == Crawl(setCode, fetchSearch)
  {
    allProductLinks := [];
    var page: nat := 1;
    var hasMore := true;
    ghost var last := LastPage(setCode, fetchSearch, 1);
    while hasMore && page <= MaxPages
      invariant CrawlState(setCode, fetchSearch, last, page, hasMore, allProductLinks)
      decreases MaxPages + 1 - page
    {
      allProductLinks, hasMore := CrawlRound(setCode, fetchSearch, last, page, allProductLinks);
      page := page + 1;
    }
    CrawlDone(setCode, fetchSearch, page, hasMore, allProductLinks);
  }

  /** The product loop of `scrapeSet`: one extraction per link, skipping failed requests and unparsable pages. */
  method ScrapeProducts(allProductLinks: seq<string>, fetchProduct: string -> Option<ProductPage>, capturedAt: string)
    returns (cards: seq<TorecaPrice>)
    ensures cards == ScrapedCards(allProductLinks, fetchProduct, capturedAt)
  {
    cards := [];
    var i := 0;
    while i < |allProductLinks|
      invariant 0 <= i <= |allProductLinks|
      invariant cards == ScrapedCards(allProductLinks[..i], fetchProduct, capturedAt)
    {
      var url := allProductLinks[i];
      assert allProductLinks[..i + 1][..i] == allProductLinks[..i];
      var response := fetchProduct(url);
      if response.Some? {
        var cardData := ExtractCardData(response.value, url, capturedAt);
        if cardData.Some? {
          cards := cards + [cardData.value];
        }
      }
      i := i + 1;
    }
    assert allProductLinks[..i] == allProductLinks;
  }

  /** `scrapeSet`: the links of every crawled page, then the records of their product pages. */
  method ScrapeSet(setCode: string, fetchSearch: (string, nat) -> Option<SearchPage>,
    fetchProduct: string -> Option<ProductPage>, capturedAt: string)
    returns (cards: seq<TorecaPrice>)
    ensures cards == SetCards(setCode, fetchSearch, fetchProduct, capturedAt)
  {
    var allProductLinks := CollectProductLinks(setCode, fetchSearch);
    cards := ScrapeProducts(allProductLinks, fetchProduct, capturedAt);
  }

  /** The dedup key `${setCode}-${cardNumber}-${rarity}`. */
  function CardKey(card: TorecaPrice): string
  {
    card.setCode + "-" + card.cardNumber + "-" + card.rarity
  }

  /** Every record of both sets, in crawl order, before dedup. */
  function AllCards(fetchSearch: (string, nat) -> Option<SearchPage>,
    fetchProduct: string -> Option<ProductPage>, capturedAt: string): seq<TorecaPrice>
  {
    SetCards(Sets[0], fetchSearch, fetchProduct, capturedAt) + SetCards(Sets[1], fetchSearch, fetchProduct, capturedAt)
  }

  /**
   * `scrapeToreca` up to the file write: both sets in order, then one record
   * per key, the last one scraped, at the key's first position.
   */
  method ScrapeTorecaSnapshot(fetchSearch: (string, nat) -> Option<SearchPage>,
    fetchProduct: string -> Option<ProductPage>, capturedAt: string)
    returns (uniqueCards: seq<TorecaPrice>)
    ensures uniqueCards == LastWins(AllCards(fetchSearch, fetchProduct, capturedAt), CardKey)
    ensures KeyedBy(uniqueCards, AllCards(fetchSearch, fetchProduct, capturedAt), CardKey)
  {
    var allCards: seq<TorecaPrice> := [];
    for s := 0 to |Sets|
      invariant allCards == if s == 0 then [] else if s == 1 then SetCards(Sets[0], fetchSearch, fetchProduct, capturedAt)
        else AllCards(fetchSearch, fetchProduct, capturedAt)
    {
      var cards := ScrapeSet(Sets[s], fetchSearch, fetchProduct, capturedAt);
      allCards := allCards + cards;
    }
    uniqueCards := LastWins(allCards, CardKey);
    LastWinsKeyed(allCards, CardKey);
  }

  /** Every record in the snapshot carries a set code of `Sets`, a `digits/digits` number and a known rarity. */
  lemma SnapshotWellFormed(fetchSearch: (string, nat) -> Option<SearchPage>,
    fetchProduct: string -> Option<ProductPage>, capturedAt: string)
    ensures var snapshot := LastWins(AllCards(fetchSearch, fetchProduct, capturedAt), CardKey);
      forall i :: 0 <= i < |snapshot| ==>
        snapshot[i].setCode in Sets && IsNumberPair(snapshot[i].cardNumber) &&
        snapshot[i].rarity in ["SAR", "AR", "SR", "BWR"] && snapshot[i].lastUpdated == capturedAt
  {
    var all := AllCards(fetchSearch, fetchProduct, capturedAt);
    var snapshot := LastWins(all, CardKey);
    LastWinsKeyed(all, CardKey);
    forall i | 0 <= i < |snapshot|
      ensures snapshot[i].setCode in Sets && IsNumberPair(snapshot[i].cardNumber) &&
        snapshot[i].rarity in ["SAR", "AR", "SR", "BWR"] && snapshot[i].lastUpdated == capturedAt
    {
      var n := LastKeyIndex(all, CardKey, CardKey(snapshot[i]));
      assert snapshot[i] == all[n];
      ScrapedWellFormed(all, n, fetchSearch, fetchProduct, capturedAt);
    }
  }

  lemma ScrapedWellFormed(all: seq<TorecaPrice>, n: nat, fetchSearch: (string, nat) -> Option<SearchPage>,
    fetchProduct: string -> Option<ProductPage>, capturedAt: string)
    requires all == AllCards(fetchSearch, fetchProduct, capturedAt) && n < |all|
    ensures all[n].setCode in Sets && IsNumberPair(all[n].cardNumber) &&
      all[n].rarity in ["SAR", "AR", "SR", "BWR"] && all[n].lastUpdated == capturedAt
  {
    var a := SetCards(Sets[0], fetchSearch, fetchProduct, capturedAt);
    var b := SetCards(Sets[1], fetchSearch, fetchProduct, capturedAt);
    var card := all[n];
    if n < |a| {
      assert card == a[n];
      ScrapedCardsFrom(Crawl(Sets[0], fetchSearch), fetchProduct, capturedAt, n);
    } else {
      assert card == b[n - |a|];
      ScrapedCardsFrom(Crawl(Sets[1], fetchSearch), fetchProduct, capturedAt, n - |a|);
    }
  }
}
