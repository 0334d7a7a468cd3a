# Toreca arbitrage: a Dafny model

A model of the core logic of a price tracker for Japanese Pokémon cards
(sets SV11B "Black Bolt" and SV11W "White Flare"). The tracker compares
market prices against two Japanese shops and shows the possible profit. The
model covers:

- **`lib/arbitrage.ts`**
  - the 24-hour JPY→USD exchange-rate cache, as a class with one mutable field
  - currency conversion and the rounded profit margin, with its zero guard
  - the four profit bands, with their labels and colours
  - the look-up of a card in the two shop snapshots, with the cheaper shop winning
- **`lib/filterCards.ts`**: the card pipeline. It deduplicates cards by id, applies the set, rarity, price and search filters, then does a stable sort.
- **`scripts/scrape-toreca.js`** (Japan-Toreca):
  - product-page extraction
  - the search-page link filter
  - pagination capped at 20 pages
  - the keyed deduplication of the snapshot
- **`scripts/scrape-torecacamp.js`** (Torecacamp):
  - the skip for graded (PSA) listings
  - case-insensitive title parsing
  - the radio-label price scan and its aria fallback
  - the link filter
  - the snapshot, concatenated over sets × rarities without deduplication
- **`scripts/test-fallback.js` and `scripts/test-ar.js`**:
  - flattening the offers of JSON-LD product data
  - the fallback from condition A- to condition B
  - the first-A- lookup
  - the product-URL loop

Network, DOM and clock access are parameters:
- A search page is its list of anchors (`href`, text).
- A Japan-Toreca product page is its `h1` title, its element texts in document order, and its body text.
- A Torecacamp product page is its title, its radio inputs (label text, descendants' text, parent's text) and its aria radio texts.
- A fetch is a function returning `None` for a failed request.
- The two `Date.now()` readings of `getExchangeRate` are a `now` parameter (the freshness test) and a `stamp` parameter (the timestamp stored after the response), with `now <= stamp`. The ISO timestamp of the scrapers is one `capturedAt` string.

Regular expressions are specification functions over strings, with JavaScript's `match` semantics:
- the leftmost start index wins;
- at one index, the alternatives are tried in order.

Modules and files:

| module | file | models |
|---|---|---|
| Wrappers | `wrappers.dfy` | `Option` |
| Strings | `strings.dfy` | `includes`, `startsWith`, ASCII case mapping, `split(c)[0]`, a stand-in for `localeCompare` |
| Collections | `collections.dfy` | distinctness; `Array.from(new Map(...).values())` |
| Patterns | `patterns.dfy` | the regular expressions and `parseInt` of yen amounts |
| Urls, Dom | `urls.dfy`, `dom.dfy` | link normalisation and the shared link-collection loop |
| ExchangeRate, Arbitrage | `exchange_rate.dfy`, `arbitrage.dfy` | `lib/arbitrage.ts` |
| FilterCards | `filter_cards.dfy` | `lib/filterCards.ts` |
| ScrapeToreca | `scrape_toreca.dfy` | `scripts/scrape-toreca.js` |
| ScrapeTorecacamp | `scrape_torecacamp.dfy` | `scripts/scrape-torecacamp.js` |
| JsonLd, TestFallback, TestAr | `json_ld.dfy`, `test_fallback.dfy`, `test_ar.dfy` | the two diagnostic scripts |

Where a loop or an in-place update appears in the source, the model has a method:
- The rate cache, `matchBothTorecaSources`' field-by-field record, the element, radio and aria scans, the link loops, the pagination loop and the accumulation loops are all methods.
- Each method is proved equal to a specification function, and the properties are proved about that function.

Two methods in `exchange_rate.dfy` drive the rate cache through concrete call sequences and assert what each call returns. They have no contract of their own:
- `CacheWindowScenario`: a successful refresh is reused, without a request, by any call less than 24 hours after its response arrived, even one 24 hours after the refresh began when the response was late. A call 24 hours after the response or later makes exactly one new request.
- `StaleFailureScenario`: a failed refresh of a stale cache returns 0.0067, not the stale rate, and keeps the stale entry.

## Model

| member | source | states |
|---|---|---|
| ExchangeRate.ExchangeRateCache.constructor | lib/arbitrage.ts:2 | the process starts with no cached rate |
| ExchangeRate.ExchangeRateCache.GetExchangeRate | lib/arbitrage.ts:2-30 | a cached rate younger than 24 h is returned with no request and no change; otherwise a request is made; a truthy `rates.USD` is stored with the clock reading taken after the response (`stamp`) and returned; any failure returns exactly 0.0067 and leaves the (possibly stale) cache as it was |
| Arbitrage.ConvertJpyToUsd | lib/arbitrage.ts:35-37 | the converted price is 0 exactly when either factor is 0, and with a positive rate it is positive exactly when the yen price is |
| Arbitrage.RoundToTenth | lib/arbitrage.ts:53 | `Math.round(x*10)/10` is a multiple of 0.1 within (x − 0.05, x + 0.05] |
| Arbitrage.RoundKeepsSign | lib/arbitrage.ts:53 | rounding to tenths never turns a non-negative value negative or a negative value positive |
| Arbitrage.CalculateProfitMargin | lib/arbitrage.ts:43-54 | 0 whenever `jpy * rate` is 0; otherwise a multiple of 0.1 within 0.05 of the exact percentage `((market − buy) / buy) × 100`, which is `Math.round(exact × 10) / 10` and nothing else |
| Arbitrage.MarginSign | lib/arbitrage.ts:43-54 | with a positive buy price, a market price at or above it gives a non-negative margin, one below it a non-positive margin, and a positive margin implies a real profit |
| Arbitrage.GetProfitCategory | lib/arbitrage.ts:61-66 | perfect iff ≥ 80, good iff in [50, 80), medium iff in [30, 50), bad iff < 30 |
| Arbitrage.CategoryMonotone | lib/arbitrage.ts:61-66 | a larger margin never lands in a worse band |
| Arbitrage.GetProfitCategoryColors | lib/arbitrage.ts:71-102 | every band has non-empty background, text and border classes |
| Arbitrage.CategoryColorsDistinct | lib/arbitrage.ts:71-102 | distinct bands differ in all three classes |
| Arbitrage.GetProfitCategoryLabel | lib/arbitrage.ts:107-118 | every band has a non-empty label |
| Arbitrage.CategoryLabelsDistinct | lib/arbitrage.ts:107-118 | distinct bands have distinct labels |
| Arbitrage.SetCodeForLabel | lib/arbitrage.ts:218-222 | SV11B iff the lower-cased label contains "black bolt" (even when it also names "white flare"); SV11W iff it contains "white flare" but not "black bolt"; null iff neither |
| Arbitrage.FindIndex | lib/arbitrage.ts:226-228 | the index of the first record with the set code and card number, or the length when none has them |
| Arbitrage.Find | lib/arbitrage.ts:226-228 | null iff no record matches; otherwise the first matching record |
| Arbitrage.MatchTorecaPrice | lib/arbitrage.ts:212-229 | null for a label naming no set; otherwise the first snapshot record with that set code and card number |
| Arbitrage.MatchBothTorecaSources | lib/arbitrage.ts:234-300 | all-null for an unknown label; each shop holds its first match; the lowest source is null iff neither shop matched, and the lowest price is then null; otherwise the lowest price is the named shop's price; with both matched, Japan-Toreca wins iff its price is at most Torecacamp's (null read as 0), and two present prices give their minimum |
| FilterCards.PassesSet | lib/filterCards.ts:30-34 | only `blackbolt` (label lacks "black bolt") and `whiteflare` (label lacks "white flare") exclude a card; every other set value, m3 to m1s included, keeps all cards |
| FilterCards.PassesRarity | lib/filterCards.ts:37-41 | `all` keeps everything; SAR, AR and SR keep exactly the rarities containing "Special Art", "Art Rare" and "Super Rare" |
| FilterCards.PassesSearch | lib/filterCards.ts:49-54 | an empty term keeps every card; otherwise a card passes iff the lower-cased term occurs in its lower-cased name or card number |
| FilterCards.PassesPrice | lib/filterCards.ts:43-46 | a card passes iff its market price lies within [minPrice, maxPrice], both ends included |
| FilterCards.Keep | lib/filterCards.ts:28-57 | the filter callback: set, rarity, price and search filters all pass (`minProfit` and `stockStatus` are not read, see `UnreadFilters`) |
| FilterCards.FilterKept | lib/filterCards.ts:28-57 | every survivor passes all four filters, and each card occurs as often as in the input when it passes and never otherwise |
| FilterCards.Sign | lib/filterCards.ts:61-63 | the sign of a price difference |
| FilterCards.Compare | lib/filterCards.ts:58-71 | the comparator's sign: price-desc puts a first iff a's market price is larger or equal, price-asc iff it is smaller or equal, and `profit` (the `default` branch) calls every pair equal |
| FilterCards.CompareAntisymmetric | lib/filterCards.ts:58-71 | swapping the cards negates every comparator |
| FilterCards.CompareTransitive | lib/filterCards.ts:58-71 | "not after" is transitive for every comparator |
| FilterCards.Insert | lib/filterCards.ts:58-71 | insertion adds exactly the one card, so it is a permutation of the list plus that card |
| FilterCards.SortCards | lib/filterCards.ts:58-71 | the sort is a permutation of its input |
| FilterCards.InsertSorted | lib/filterCards.ts:58-71 | inserting into a sorted list keeps it sorted |
| FilterCards.SortCardsSorted | lib/filterCards.ts:58-71 | the sorted list is ordered by the comparator |
| FilterCards.Ties | lib/filterCards.ts:58-71 | the cards of a list that the comparator calls equal to a given card, in list order: the order stability is about |
| FilterCards.InsertTies | lib/filterCards.ts:58-71 | insertion places a card before every card it ties with, so the order of the cards tying with any card is kept |
| FilterCards.SortCardsStable | lib/filterCards.ts:58-71 | the sort is stable for every `sortBy`: the cards that compare equal to any card appear in their input order |
| FilterCards.ProfitSortKeepsOrder | lib/filterCards.ts:68-69 | with the always-0 comparator, a stable sort returns its input unchanged |
| FilterCards.FilterAndSortCards | lib/filterCards.ts:21-72 | the output is never longer than the input |
| FilterCards.FilterAndSortCardsCorrect | lib/filterCards.ts:21-72 | every shown card passes all filters; every passing card of the deduplicated list is shown exactly as often as it occurs there (once, ids being unique); the output is ordered by `sortBy` |
| FilterCards.FilterAndSortCardsStable | lib/filterCards.ts:21-72 | cards the chosen comparator calls equal are shown in their deduplicated order |
| FilterCards.DedupById | lib/filterCards.ts:23-25 | after the id dedup, ids are pairwise distinct, every input id is present, at its first-seen position, with its last-seen card |
| FilterCards.SortOrder | lib/filterCards.ts:58-71 | price-desc shows market prices non-increasing, price-asc non-decreasing; name and number show names and card numbers in ascending order |
| FilterCards.ProfitKeepsFilteredOrder | lib/filterCards.ts:58-70 | sorting by `profit` returns the filtered cards in their deduplicated order |
| FilterCards.UnreadFilters | lib/filterCards.ts:28-57 | changing `minProfit` or `stockStatus` never changes the result |
| FilterCards.SpecialArtRarePasses | lib/filterCards.ts:38-40 | a "Special Art Rare" card passes both the SAR and the AR filter, but not SR |
| FilterCards.DefaultFiltersKeepInRange | components/FilterBar.tsx:23-32 | with the filter bar's defaults, every card priced 0 to 10000 is kept, in the deduplicated order |
| Strings.ToLower | lib/filterCards.ts:31 | the lower-cased string has the same length and no upper-case letter; every character that is not an upper-case letter is kept, and each upper-case letter becomes the lower-case letter that upper-cases back to it |
| Strings.ToLowerIdempotent | lib/filterCards.ts:31 | lower-casing an already lower-cased string changes nothing |
| Strings.ToLowerIgnoresCase | lib/filterCards.ts:49-51 | a string and its upper-cased form lower-case to the same string, so the search and set tests ignore case |
| Strings.ToLowerEmpty | lib/filterCards.ts:49-50 | a term is empty iff its lower-cased form is |
| Strings.ToUpper | scripts/scrape-torecacamp.js:42 | the upper-cased string has the same length and no lower-case letter; every character that is not a lower-case letter is kept, and each lower-case letter becomes the upper-case letter that lower-cases back to it |
| Strings.ToUpperIgnoresCase | scripts/scrape-torecacamp.js:42 | a string and its lower-cased form upper-case to the same string, so the set code does not depend on the title's case |
| Strings.BeforeFirst | scripts/scrape-toreca.js:91 | `split('?')[0]` is the longest prefix without '?', and it is followed by '?' when shorter than the string |
| Strings.LexCompare | lib/filterCards.ts:65-67 | the name and number order returns -1, 0 or 1, and 0 exactly for equal strings |
| Strings.LexCompareAntisymmetric | lib/filterCards.ts:65-67 | swapping the operands negates the comparison |
| Strings.LexCompareTransitive | lib/filterCards.ts:65-67 | "not after" is transitive, so the order is total |
| Collections.LastWins | scripts/scrape-toreca.js:178-185 | the `Map`-based dedup is never longer than its input |
| Collections.LastWinsKeyed | scripts/scrape-toreca.js:178-185 | the dedup holds distinct keys, every input key, each with its last value, in first-seen order |
| Patterns.MatchStart | scripts/scrape-toreca.js:22-24 | the leftmost start index at which a pattern matches, and no match before it |
| Patterns.FirstMatch | scripts/scrape-toreca.js:22-24 | `match` succeeds iff the pattern matches at some index, and then yields the capture at the leftmost one |
| Patterns.ParenNumberAt | scripts/scrape-toreca.js:22 | a `\((\d+\/\d+)\)` capture has the form digits '/' digits |
| Patterns.NumberPairAt | scripts/scrape-torecacamp.js:32 | a `(\d+\/\d+)` capture has the form digits '/' digits |
| Patterns.BracketSetAt | scripts/scrape-toreca.js:23 | a `\[(SV11[BW])\]` capture is SV11B or SV11W |
| Patterns.RarityAt | scripts/scrape-toreca.js:24 | a `(SAR\|AR\|SR\|BWR)` capture is one of the four, and occurs at the index |
| Patterns.SetCodeAt | scripts/scrape-torecacamp.js:33 | a case-insensitive `(SV11[BW]\|M3\|M2a?\|M1[LS])` capture upper-cases to one of the seven set codes |
| Patterns.Sv11At | scripts/scrape-torecacamp.js:33 | the `SV11[BW]` alternative: a capture upper-cases to SV11B or SV11W |
| Patterns.M2At | scripts/scrape-torecacamp.js:33 | once `M2` has matched, `M2a?` always matches, taking the `a` when present, and upper-cases to M2A or M2 |
| Patterns.M1At | scripts/scrape-torecacamp.js:33 | the `M1[LS]` alternative: a capture upper-cases to M1L or M1S |
| Patterns.YenAmountAt | scripts/scrape-toreca.js:39 | a `¥\s*([\d,]+)` capture starts after a '¥' and is a non-empty run of digits and commas |
| Patterns.YenAmount | scripts/scrape-toreca.js:39 | a text with a yen amount contains '¥' |
| Patterns.DropCommas | scripts/scrape-toreca.js:41 | removing the commas leaves only digits, and nothing exactly when the capture is all commas |
| Patterns.ParseAmount | scripts/scrape-toreca.js:41 | `parseInt` of the comma-free capture is `NaN` exactly when it is all commas, and otherwise the value of its digits |
| Patterns.YenPrice | scripts/scrape-toreca.js:39-41 | the price of a text is null without a yen amount, and otherwise the parsed amount |
| Urls.Absolutise | scripts/scrape-toreca.js:89 | the link is a suffix of the resolved address; with an absolute base the address is absolute; a link already starting with `http` is returned unchanged |
| Urls.AbsolutiseIdempotent | scripts/scrape-toreca.js:89 | resolving an address a second time against the absolute base changes nothing |
| Urls.CleanUrl | scripts/scrape-torecacamp.js:126-128 | the address `split('?')[0]` leaves; its properties are those of `CleanUrlCut` and `CleanUrlIdempotent` |
| Urls.CleanUrlCut | scripts/scrape-toreca.js:89-91 | the cleaned address holds no '?', is a prefix of the absolute address, and equals it when that has no query |
| Urls.CleanUrlIdempotent | scripts/scrape-torecacamp.js:126-128 | cleaning a cleaned address changes nothing |
| Dom.UniqueCleanUrls | scripts/scrape-torecacamp.js:123-133 | the link loop collects at most one link per anchor |
| Dom.UniqueCleanUrlsDistinct | scripts/scrape-torecacamp.js:129-131 | the collected links are pairwise distinct |
| Dom.UniqueCleanUrlsSound | scripts/scrape-torecacamp.js:123-133 | every collected link is the cleaned address of an accepted anchor |
| Dom.UniqueCleanUrlsHas | scripts/scrape-torecacamp.js:123-133 | the cleaned address of any accepted anchor is collected |
| Dom.UniqueCleanUrlsComplete | scripts/scrape-torecacamp.js:123-133 | every accepted anchor's cleaned address is collected |
| ScrapeToreca.PriceTextIndex | scripts/scrape-toreca.js:36-45 | the first element text holding '¥' and a yen amount; none before it holds an amount |
| ScrapeToreca.PagePrice | scripts/scrape-toreca.js:35-45 | the price is null when no element text holds a yen amount, and otherwise the parsed amount of the first one |
| ScrapeToreca.PagePriceIgnoresLater | scripts/scrape-toreca.js:36-45 | once an element holds a yen amount, later elements never change the price |
| ScrapeToreca.PriceTextIndexAt | scripts/scrape-toreca.js:36-45 | the scan stops exactly at the first element with a yen amount |
| ScrapeToreca.OutOfStockMentionsStock | scripts/scrape-toreca.js:49 | a body with 在庫切れ contains 在庫 but is not in stock |
| ScrapeToreca.InStockText | scripts/scrape-toreca.js:48-49 | the stock test: the body contains 在庫 and neither 在庫切れ nor 売り切れ |
| ScrapeToreca.KeepLink | scripts/scrape-toreca.js:79-88 | an anchor is kept iff its href is non-empty, its text has 【状態A-】 and one of SAR, AR, SR, and its first `[SV11B]`/`[SV11W]` tag is the set being scraped |
| ScrapeToreca.PageLinks | scripts/scrape-toreca.js:79-97 | the links of one search-page response, with none for a failed request; stated by `PageLinksExact` |
| ScrapeToreca.HasNextPage | scripts/scrape-toreca.js:100 | the next-page flag; stated by `HasNextPageIff` |
| ScrapeToreca.ExtractedCard | scripts/scrape-toreca.js:15-60 | null iff the title lacks the `(n/m)` number, the `[SV11B]`/`[SV11W]` tag or a rarity; otherwise the captures, a set code of the two sets, a digits/digits number, the first yen price (possibly null), and in stock iff 在庫 and neither 在庫切れ nor 売り切れ |
| ScrapeToreca.ExtractCardData | scripts/scrape-toreca.js:15-60 | the element loop with its early break returns the extraction above |
| ScrapeToreca.NextAnchorIndex | scripts/scrape-toreca.js:100 | the scan for an anchor mentioning 次 stays within the anchors |
| ScrapeToreca.NextAnchorIndexFinds | scripts/scrape-toreca.js:100 | the scan finds an anchor iff one from its start mentions 次 |
| ScrapeToreca.HasNextPageIff | scripts/scrape-toreca.js:100-106 | a page offers a next page iff it was fetched and one of its anchors mentions 次 |
| ScrapeToreca.PageLinksExact | scripts/scrape-toreca.js:79-107 | a failed request gives no links and no next page; otherwise the links are distinct and query-free, each is the cleaned address of a kept anchor, and every kept anchor is represented |
| ScrapeToreca.ScrapeSearchPage | scripts/scrape-toreca.js:63-108 | the link loop returns the page's links and its next-page flag |
| ScrapeToreca.LastPage | scripts/scrape-toreca.js:119-128 | the last page read lies between the current page and 20 |
| ScrapeToreca.LastPageStops | scripts/scrape-toreca.js:119-128 | every page read before the last offers a next page, and the last offers none unless it is page 20 |
| ScrapeToreca.LastPageNext | scripts/scrape-toreca.js:119-123 | the crawl goes past a page iff that page offers a next page and it is below 20 |
| ScrapeToreca.FailedPageEndsCrawl | scripts/scrape-toreca.js:104-122 | a failed request is the last page read and adds no links |
| ScrapeToreca.CrawlRound | scripts/scrape-toreca.js:120-123 | one round appends the page's links and takes its next-page flag, keeping the loop state |
| ScrapeToreca.CrawlStateStep | scripts/scrape-toreca.js:120-123 | the loop state holds at the next page after one round |
| ScrapeToreca.LinksUpToStep | scripts/scrape-toreca.js:121 | the links so far, followed by the current page's, are the links up to that page |
| ScrapeToreca.CrawlDone | scripts/scrape-toreca.js:119-128 | when the loop stops, the links are those of every page of the crawl |
| ScrapeToreca.CollectProductLinks | scripts/scrape-toreca.js:114-128 | the pagination loop collects the links of pages 1 to the last page read |
| ScrapeToreca.Crawl | scripts/scrape-toreca.js:114-128 | the links of search pages 1 to `LastPage`, page by page; the pages it reads are stated by `LastPageStops` and `LastPageNext` |
| ScrapeToreca.ScrapedCards | scripts/scrape-toreca.js:133-160 | at most one record per link |
| ScrapeToreca.ScrapedCardsFrom | scripts/scrape-toreca.js:133-160 | every record is the extraction of the page at one of the links |
| ScrapeToreca.ScrapeProducts | scripts/scrape-toreca.js:133-160 | the product loop keeps the extracted records in link order, skipping failures |
| ScrapeToreca.ScrapeSet | scripts/scrape-toreca.js:111-163 | `scrapeSet` returns the records of every crawled link |
| ScrapeToreca.ScrapeTorecaSnapshot | scripts/scrape-toreca.js:166-185 | the snapshot is the keyed dedup of both sets' records: unique `set-number-rarity` keys, each with its last-scraped record at its first position |
| ScrapeToreca.SnapshotWellFormed | scripts/scrape-toreca.js:178-185 | every snapshot record has a set code of the two sets, a digits/digits number, a known rarity and the capture time |
| ScrapeToreca.ScrapedWellFormed | scripts/scrape-toreca.js:170-175 | every record gathered for both sets is well formed |
| ScrapeTorecacamp.AMinusLabelIff | scripts/scrape-torecacamp.js:56 | a label passes iff it contains 状態A-; the bracketed test is subsumed |
| ScrapeTorecacamp.IsPsa | scripts/scrape-torecacamp.js:26 | a title is skipped iff it contains `PSA` or `psa` |
| ScrapeTorecacamp.SoldOutLabel | scripts/scrape-torecacamp.js:66 | a radio label is sold out iff it contains Sold Out, 売り切れ or 在庫なし |
| ScrapeTorecacamp.RadioScan | scripts/scrape-torecacamp.js:50-69 | the radio loop's state after a sequence of radios; stated by `RadioScanUnmatched`, `RadioStockFromLast` and `RadioPriceFromLast` |
| ScrapeTorecacamp.AriaScan | scripts/scrape-torecacamp.js:72-86 | the aria loop's state after a sequence of texts; stated by `AriaScanUnmatched` and `AriaFromLast` |
| ScrapeTorecacamp.RadioScanUnmatched | scripts/scrape-torecacamp.js:50-69 | with no A- label the radio scan changes nothing |
| ScrapeTorecacamp.RadioStockFromLast | scripts/scrape-torecacamp.js:56-67 | the last A- label decides the stock flag (false iff it says Sold Out, 売り切れ or 在庫なし) |
| ScrapeTorecacamp.RadioPriceFromLast | scripts/scrape-torecacamp.js:56-63 | the last A- label with a yen amount decides the price |
| ScrapeTorecacamp.AriaScanUnmatched | scripts/scrape-torecacamp.js:72-86 | without an A- text holding an amount, the aria scan changes neither price nor stock |
| ScrapeTorecacamp.AriaFromLast | scripts/scrape-torecacamp.js:77-83 | the last applicable aria text decides price and stock together |
| ScrapeTorecacamp.ExtractedCard | scripts/scrape-torecacamp.js:19-102 | null for a PSA/psa title; otherwise null iff a pattern is missing or no truthy price was found (aria scan only when the radio scan found none); a record carries the captures, the upper-cased set code, the scanned price and stock, and is well formed with a non-zero price |
| ScrapeTorecacamp.ScanRadios | scripts/scrape-torecacamp.js:46-69 | the radio loop ends in the radio scan's state |
| ScrapeTorecacamp.ScanAria | scripts/scrape-torecacamp.js:72-86 | the aria loop ends in the aria scan's state |
| ScrapeTorecacamp.ExtractCardData | scripts/scrape-torecacamp.js:19-102 | the method returns the extraction above |
| ScrapeTorecacamp.KeepCampLinkIff | scripts/scrape-torecacamp.js:123-125 | an anchor is kept iff its href contains `/products/rc_` |
| ScrapeTorecacamp.KeepCampLink | scripts/scrape-torecacamp.js:123-125 | the link filter; stated by `KeepCampLinkIff` |
| ScrapeTorecacamp.SearchLinks | scripts/scrape-torecacamp.js:105-142 | the links of one search response, with none for a failed request; stated by `SearchLinksExact` |
| ScrapeTorecacamp.SearchLinksExact | scripts/scrape-torecacamp.js:105-142 | a failed search gives no links; otherwise the links are distinct and query-free, each is the cleaned address of an `rc_` anchor, and every such anchor is represented |
| ScrapeTorecacamp.SearchCards | scripts/scrape-torecacamp.js:105-142 | the link loop returns the search's links |
| ScrapeTorecacamp.ScrapeProduct | scripts/scrape-torecacamp.js:145-158 | null for a failed request, otherwise the page's extraction |
| ScrapeTorecacamp.ScrapedCards | scripts/scrape-torecacamp.js:175-185 | at most one record per link |
| ScrapeTorecacamp.ScrapedCardsWellFormed | scripts/scrape-torecacamp.js:175-185 | every record scraped from a list of links is well formed |
| ScrapeTorecacamp.ScrapedCardsHas | scripts/scrape-torecacamp.js:175-182 | a link whose page extracts puts that record among the records |
| ScrapeTorecacamp.SnapshotWellFormed | scripts/scrape-torecacamp.js:161-187 | every snapshot record has a truthy price, a known set code and rarity, and a digits/digits number |
| ScrapeTorecacamp.SetCardsWellFormed | scripts/scrape-torecacamp.js:169-186 | every record gathered for one set is well formed |
| ScrapeTorecacamp.SharedLinkCountedTwice | scripts/scrape-torecacamp.js:164-187 | a product listed by two rarity searches of a set adds its record twice: nothing is deduplicated across queries |
| ScrapeTorecacamp.SetCardsStep | scripts/scrape-torecacamp.js:169-186 | each rarity query adds its records to those gathered so far |
| ScrapeTorecacamp.QueryHasCard | scripts/scrape-torecacamp.js:171-182 | a link of a query whose page extracts puts that record among the query's records |
| ScrapeTorecacamp.SetCardsGrow | scripts/scrape-torecacamp.js:169-186 | later queries only add records |
| ScrapeTorecacamp.ScrapeLinks | scripts/scrape-torecacamp.js:175-185 | the product loop keeps the non-null records in link order |
| ScrapeTorecacamp.ScrapeAllCards | scripts/scrape-torecacamp.js:161-187 | the snapshot is the in-order concatenation of every set's and rarity's records |
| JsonLd.FieldOffers | scripts/test-fallback.js:20 | only an array property can give more than one offer, nothing comes out exactly for a falsy property or an empty array, and the offers are the array's elements or the single object |
| JsonLd.FlatOffers | scripts/test-fallback.js:20 | the `flatMap` over an array's items; what it gathers is stated by `FlatOffersMembers` |
| JsonLd.FlatOffersMembers | scripts/test-fallback.js:20 | an offer of an array block comes from one of its items, and every item's offers are present |
| JsonLd.BlockOffers | scripts/test-fallback.js:17-42 | a block's handler throws iff its text does not parse, an array holds `null`, or its `offers` is a single object; otherwise the offers are the flattened item offers of an array, or the block's own `offers` |
| JsonLd.MarkerIndex | scripts/test-ar.js:49 | the first offer from the start whose name contains the marker; none before it does |
| JsonLd.FirstWithMarker | scripts/test-ar.js:49 | `find` is null iff no offer name contains the marker, and otherwise the first such offer |
| TestFallback.FailedBlockNoChange | scripts/test-fallback.js:18-41 | a block that fails to parse, or whose handler throws, leaves price and condition unchanged |
| TestFallback.AMinusTaken | scripts/test-fallback.js:23-29 | a block's first A- offer with a truthy price is taken with condition A-, whatever came before |
| TestFallback.TruthyPriceKept | scripts/test-fallback.js:32-40 | without an A- offer, a truthy price already found is never replaced by B |
| TestFallback.BOnlyWithoutTruthyPrice | scripts/test-fallback.js:32-40 | B is selected only when the price after the A- loop is not truthy |
| TestFallback.LastAMinusWins | scripts/test-fallback.js:17-42 | the last block with a truthy-priced A- offer decides the result when no later block has an A- offer |
| TestFallback.PricelessAMinusFallsBackToB | scripts/test-fallback.js:23-40 | an A- offer without a price does not keep B out |
| TestFallback.FallbackPrice | scripts/test-fallback.js:14-42 | the block loop with its two `for … break` loops ends in the fallback state |
| TestFallback.Fallback | scripts/test-fallback.js:14-42 | the state after the page's blocks in document order; stated by `LastAMinusWins`, `AMinusTaken`, `TruthyPriceKept` and `FailedBlockNoChange` |
| TestAr.CollectedUrls | scripts/test-ar.js:15-21 | the as-written loop collects at most one link per anchor |
| TestAr.KeepLink | scripts/test-ar.js:15-17 | the link filter, the same as `searchCards`' in scripts/scrape-torecacamp.js |
| TestAr.CollectedUrlsFixed | scripts/test-ar.js:15-21 | the corrected loop; stated by `CollectedUrlsFixedDistinct` |
| TestAr.BeforeQuery | scripts/test-ar.js:19 | splitting at the first '?' gives the part before the query |
| TestAr.QueryVariantsCollectedTwice | scripts/test-ar.js:17-19 | two links to one product that differ only in their query are both collected, as the same address |
| TestAr.CleanQueryVariant | scripts/test-ar.js:18-19 | a relative link with a query is cleaned to the base address followed by its path |
| TestAr.KeepsQueryVariant | scripts/test-ar.js:17 | adding a query to an `rc_` link keeps it in the filter |
| TestAr.CollectedUrlsFixedDistinct | scripts/test-ar.js:15-21 | the corrected loop collects distinct addresses, the same set as the as-written loop |
| TestAr.CollectedCleanMembers | scripts/test-ar.js:18-19 | every address collected is a cleaned address |
| TestAr.CleanUrlOfCollected | scripts/test-ar.js:17-19 | a raw href equal to a collected address is clean already |
| TestAr.FirstUrlUnaffected | scripts/test-ar.js:30-32 | both loops collect nothing together, and otherwise start with the same address |
| TestAr.FirstStable | scripts/test-ar.js:30-32 | both loops push the same address first |
| TestAr.CollectProductUrlsAsWritten | scripts/test-ar.js:13-21 | the loop as written returns the as-written collection |
| TestAr.CollectProductUrls | scripts/test-ar.js:13-21 | the corrected loop returns the corrected collection |
| TestAr.SelectedOffers | scripts/test-ar.js:42-55 | every reported offer's name contains 【状態A-】 |
| TestAr.SelectedOffersFound | scripts/test-ar.js:42-55 | an offer is reported iff some block has an A- offer |
| TestAr.AMinusFound | scripts/test-ar.js:43-54 | some JSON-LD block parses and has an offer named with 【状態A-】 |
| TestAr.FindAMinus | scripts/test-ar.js:42-55 | the block loop reports each block's first A- offer, and `found` holds iff one exists |
| TestAr.TestAR | scripts/test-ar.js:4-72 | the links are those of the as-written loop (query variants may repeat), the same set as the corrected loop's; `found` holds iff there is a first link whose JSON-LD has an A- offer, which is the answer the corrected loop gives too |
| TestAr.TestARFixed | scripts/test-ar.js:4-72 | with the corrected loop the links are distinct, and `found` holds iff there is a first link whose JSON-LD has an A- offer |

## Left out

- **I/O.** Network requests (`axios`, `fetch`), HTML parsing (`cheerio`), `JSON.parse`, the file reads and writes, `sleep` delays, console output and the summary and statistics printing are left out. Pages, parsed JSON and fetch outcomes are parameters. `loadTorecaPrices` and `loadTorecacampPrices` (lib/arbitrage.ts:136-186) are file and fetch I/O; snapshots are given sequences.
- **Timestamps.** `Date.now()` is a parameter of the call that reads it (`now` and `stamp` in `GetExchangeRate`). Each scraped record's `last_updated` is its own `new Date().toISOString()` reading (scripts/scrape-toreca.js:57, scripts/scrape-torecacamp.js:99), taken at a different time across the `sleep` delays. The model gives every record of one run the same `capturedAt` string, so records scraped at different moments carry the same timestamp.
- ScrapeToreca.SnapshotWellFormed: "every record has the capture time" holds because all the readings are one `capturedAt`. In the source, each record has its own reading.
- ScrapeTorecacamp.SharedLinkCountedTwice: the two records it counts are identical only because both carry the one `capturedAt`. In the source, the two pushed records can also differ in `last_updated`.
- ExchangeRate.ExchangeRateCache.GetExchangeRate: calls are modelled one after another. Two calls that overlap during the `await`s both see no fresh cache and both make a request; that interleaving is not modelled.
- **Request URLs.** The search URLs, including `encodeURIComponent` of the Torecacamp query, are left out. A search is keyed by its set code and page, or by its search term.
- ExchangeRate.ExchangeRateCache.GetExchangeRate: rates are reals and the 0.0067 fallback is exact. Floating-point representation is not modelled.
- FilterCards.PassesPrice: prices are reals, so a `NaN` `prices.market` is not modelled. In the source it passes the price filter, because both comparisons at lib/filterCards.ts:44 are false.
- FilterCards.Compare: for the same reason, the `NaN` difference the price comparators at lib/filterCards.ts:61-63 return for a `NaN` price is not modelled. `sort` treats it as a tie, which can make the order inconsistent.
- Arbitrage.CalculateProfitMargin: uses exact real arithmetic. `Math.round` is `floor(x + 0.5)`. IEEE rounding of the product, quotient and `* 10` is not modelled.
- Arbitrage.MarginSign: weaker than "the sign of the margin is the sign of the profit". A loss under 0.05 % rounds to 0, so only the directions stated hold.
- **`Math.round(parseFloat(price))` of JSON-LD offers.** This is abstracted to an optional integer price, with None for `NaN`.
- Patterns.ParseAmount: gives the exact value of the digits. `parseInt` loses precision beyond 2^53, which is not modelled.
- **Case mapping.** `toLowerCase` and `toUpperCase` are modelled on ASCII letters only. Every literal they are compared with is ASCII. Without the `u` flag, a regex never folds a non-ASCII character onto an ASCII letter.
- **`localeCompare`.** It is modelled by code-point lexicographic order, a total order standing in for the locale's collation.
- **Trimming.** `trim()` of titles and label texts is not modelled. No test made on them depends on surrounding white space.
- **Unusual JSON-LD shapes.** `offers` values other than an array, an object or a falsy value are not modelled. An array element that is `null` makes the block throw; other primitives have no `offers`. A `null` entry inside an offers array, which would throw inside the offer loops, is not modelled.
- **Repeated `$('*')` texts.** The Japan-Toreca element scan reads each element's text once. Repetitions of text across nested elements are part of the given sequence.
- **Left-out source.** `scripts/test-extract.js` repeats the Japan-Toreca extraction for printing and is not part of this model. The React components and `app/page.tsx` are not part of this model either. Only the `FilterState` shape and its defaults (components/FilterBar.tsx:11-32) are used.

Where the code and its surrounding description differ, the model follows the code:
- A failed rate refresh returns 0.0067 even when a stale rate is cached, and leaves that stale rate in place.
- Only `blackbolt` and `whiteflare` restrict the set filter.
- `minProfit` and `stockStatus` are never read.
- The `profit` sort compares every pair as equal, so the filtered order is kept.
- In `matchBothTorecaSources`, a `null` Japan-Toreca price compares as 0. It can therefore win with a null lowest price.
- In test-fallback.js, B is selected even in a block that has an A- offer when that offer's price is falsy (missing, `NaN` or 0). `PricelessAMinusFallsBackToB` exhibits it, and `BOnlyWithoutTruthyPrice` states the rule the code follows.
- The Torecacamp snapshot has no cross-query dedup (`SharedLinkCountedTwice`).

## Findings

| source | as written | input that shows it | evidently intended | confidence | as-written member | corrected member |
|---|---|---|---|---|---|---|
| scripts/test-ar.js:17-19 | the duplicate test looks for the raw `href` among addresses that were already absolutised and stripped of their query, so it almost never fires | two anchors `/products/rc_x?a` and `/products/rc_x?b` are both collected as `https://torecacamp-pokemon.com/products/rc_x` | test the cleaned address, as `searchCards` does at scripts/scrape-torecacamp.js:128-131, so the list is duplicate-free | not executed | TestAr.QueryVariantsCollectedTwice | TestAr.CollectedUrlsFixedDistinct |
