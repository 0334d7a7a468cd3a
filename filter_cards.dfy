/**
 * `filterAndSortCards` of lib/filterCards.ts: the market cards are
 * deduplicated by id, filtered by the user's `FilterState`, and sorted by a
 * comparator chosen by `sortBy` with JavaScript's stable `Array.prototype.sort`.
 */
module FilterCards {
  import opened Strings
  import opened Collections

  /** A market card; of its prices only `market` is read. */
  datatype Card = Card(
    id: string,
    name: string,
    cardNumber: string,
    rarity: string,
    setName: string,
    market: real)

  datatype SetFilter = AllSets | BlackBolt | WhiteFlare | M3 | M2a | M2 | M1l | M1s
  datatype RarityFilter = AllRarities | SAR | AR | SR
  datatype StockStatus = AllStock | InStock | OutOfStock
  datatype SortBy = PriceDesc | PriceAsc | Name | Number | Profit

  /** `FilterState`; the field `set` is called `cardSet` here. */
  datatype FilterState = FilterState(
    cardSet: SetFilter,
    rarity: RarityFilter,
    minPrice: real,
    maxPrice: real,
    minProfit: real,
    stockStatus: StockStatus,
    sortBy: SortBy,
    searchTerm: string)

  /** The filters the filter bar starts with. */
  const DefaultFilters: FilterState := FilterState(AllSets, AllRarities, 0.0, 10000.0, 0.0, AllStock, Profit, "")

  function CardId(c: Card): string { c.id }

  /** The set filter: only `blackbolt` and `whiteflare` exclude anything. */
  function PassesSet(cardSet: SetFilter, c: Card): (b: bool)
    ensures cardSet != BlackBolt && cardSet != WhiteFlare ==> b
    ensures cardSet == BlackBolt ==> (b <==> Contains(ToLower(c.setName), "black bolt"))
    ensures cardSet == WhiteFlare ==> (b <==> Contains(ToLower(c.setName), "white flare"))
  {
    if cardSet == AllSets then true
    else
      var setName := ToLower(c.setName);
      if cardSet == BlackBolt && !Contains(setName, "black bolt") then false
      else if cardSet == WhiteFlare && !Contains(setName, "white flare") then false
      else true
  }

  /** The rarity filter, by substring of the card's rarity name. */
  function PassesRarity(rarity: RarityFilter, c: Card): (b: bool)
    ensures rarity == AllRarities ==> b
    ensures rarity == SAR ==> (b <==> Contains(c.rarity, "Special Art"))
    ensures rarity == AR ==> (b <==> Contains(c.rarity, "Art Rare"))
    ensures rarity == SR ==> (b <==> Contains(c.rarity, "Super Rare"))
  {
    if rarity == AllRarities then true
    else if rarity == SAR && !Contains(c.rarity, "Special Art") then false
    else if rarity == AR && !Contains(c.rarity, "Art Rare") then false
    else if rarity == SR && !Contains(c.rarity, "Super Rare") then false
    else true
  }

  /** The price range, both ends inclusive. */
  predicate PassesPrice(f: FilterState, c: Card)
  {
    !(c.market < f.minPrice || c.market > f.maxPrice)
  }

  /** The search term (skipped when empty) must occur in the name or the card number, ignoring case. */
  function PassesSearch(searchTerm: string, c: Card): (b: bool)
    ensures searchTerm == [] ==> b
    ensures searchTerm != [] ==>
      (b <==> Contains(ToLower(c.name), ToLower(searchTerm)) || Contains(ToLower(c.cardNumber), ToLower(searchTerm)))
  {
    if searchTerm != [] then
      var search := ToLower(searchTerm);
      var matchesName := Contains(ToLower(c.name), search);
      var matchesNumber := Contains(ToLower(c.cardNumber), search);
      !(!matchesName && !matchesNumber)
    else true
  }

  /** The `.filter` callback. */
  predicate Keep(f: FilterState, c: Card)
  {
    PassesSet(f.cardSet, c) && PassesRarity(f.rarity, c) && PassesPrice(f, c) && PassesSearch(f.searchTerm, c)
  }

  /**
   * `cards.filter(card => Keep(f, card))`: the survivors in their order, each
   * kept card as often as it occurs and every other card never.
   */
  function FilterKept(cards: seq<Card>, f: FilterState): (r: seq<Card>)
    ensures |r| <= |cards|
    ensures forall i :: 0 <= i < |r| ==> Keep(f, r[i])
    ensures forall c :: multiset(r)[c] == if Keep(f, c) then multiset(cards)[c] else 0
  {
    if cards == [] then []
    else
      var rest := FilterKept(cards[1..], f);
      assert cards == [cards[0]] + cards[1..];
      if Keep(f, cards[0]) then [cards[0]] + rest else rest
  }

  function Sign(x: real): (s: int)
    ensures s == 1 <==> x > 0.0
    ensures s == -1 <==> x < 0.0
    ensures s == 0 <==> x == 0.0
  {
    if x > 0.0 then 1 else if x < 0.0 then -1 else 0
  }

  /**
   * The `.sort` comparator, reduced to its sign (all `Array.prototype.sort`
   * looks at). `localeCompare` is modelled by code-point lexicographic order.
   */
  function Compare(sortBy: SortBy, a: Card, b: Card): (r: int)
    ensures -1 <= r <= 1
    ensures sortBy == PriceDesc ==> (r <= 0 <==> a.market >= b.market)
    ensures sortBy == PriceAsc ==> (r <= 0 <==> a.market <= b.market)
    ensures sortBy == Profit ==> r == 0
  {
    match sortBy
    case PriceDesc => Sign(b.market - a.market)
    case PriceAsc => Sign(a.market - b.market)
    case Name => LexCompare(a.name, b.name)
    case Number => LexCompare(a.cardNumber, b.cardNumber)
    case Profit => 0
  }

  lemma CompareAntisymmetric(sortBy: SortBy, a: Card, b: Card)
    ensures Compare(sortBy, a, b) == -Compare(sortBy, b, a)
  {
    match sortBy
    case Name => LexCompareAntisymmetric(a.name, b.name);
    case Number => LexCompareAntisymmetric(a.cardNumber, b.cardNumber);
    case _ =>
  }

  lemma CompareTransitive(sortBy: SortBy, a: Card, b: Card, c: Card)
    requires Compare(sortBy, a, b) <= 0 && Compare(sortBy, b, c) <= 0
    ensures Compare(sortBy, a, c) <= 0
  {
    match sortBy
    case Name => LexCompareTransitive(a.name, b.name, c.name);
    case Number => LexCompareTransitive(a.cardNumber, b.cardNumber, c.cardNumber);
    case _ =>
  }

  /** No later card should have come first. */
  ghost predicate Sorted(s: seq<Card>, sortBy: SortBy)
  {
    forall i, j :: 0 <= i < j < |s| ==> Compare(sortBy, s[i], s[j]) <= 0
  }

  /** Puts `x` before the first card it does not compare after, so equal cards keep their order. */
  function Insert(x: Card, s: seq<Card>, sortBy: SortBy): (r: seq<Card>)
    ensures multiset(r) == multiset(s) + multiset{x}
    ensures |r| == |s| + 1
  {
    if s == [] then [x]
    else if Compare(sortBy, x, s[0]) <= 0 then [x] + s
    else
      assert s == [s[0]] + s[1..];
      [s[0]] + Insert(x, s[1..], sortBy)
  }

  /**
   * The stable sort, as an insertion sort: it returns a permutation of its
   * input (below), ordered by the comparator (`SortCardsSorted`), in which
   * cards that compare equal keep their input order (`SortCardsStable`).
   */
  function SortCards(s: seq<Card>, sortBy: SortBy): (r: seq<Card>)
    ensures multiset(r) == multiset(s)
    ensures |r| == |s|
  {
    if s == [] then []
    else
      assert s == [s[0]] + s[1..];
      Insert(s[0], SortCards(s[1..], sortBy), sortBy)
  }

  lemma {:induction false} InsertSorted(x: Card, s: seq<Card>, sortBy: SortBy)
    requires Sorted(s, sortBy)
    ensures Sorted(Insert(x, s, sortBy), sortBy)
  {
    if s != [] && Compare(sortBy, x, s[0]) > 0 {
      InsertSorted(x, s[1..], sortBy);
      CompareAntisymmetric(sortBy, x, s[0]);
      InsertLowerBound(s[0], x, s[1..], sortBy);
      SortedCons(s[0], Insert(x, s[1..], sortBy), sortBy);
    } else if s != [] {
      forall j | 0 <= j < |s| ensures Compare(sortBy, x, s[j]) <= 0 {
        if j > 0 {
          CompareTransitive(sortBy, x, s[0], s[j]);
        }
      }
      SortedCons(x, s, sortBy);
    }
  }

  /** A card that comes before `x` and before every card of `s` comes before every card of their insertion. */
  lemma {:induction false} InsertLowerBound(y: Card, x: Card, s: seq<Card>, sortBy: SortBy)
    requires Compare(sortBy, y, x) <= 0
    requires forall k :: 0 <= k < |s| ==> Compare(sortBy, y, s[k]) <= 0
    ensures forall j :: 0 <= j < |Insert(x, s, sortBy)| ==> Compare(sortBy, y, Insert(x, s, sortBy)[j]) <= 0
  {
    if s != [] && Compare(sortBy, x, s[0]) > 0 {
      InsertLowerBound(y, x, s[1..], sortBy);
    }
  }

  /** A sorted list stays sorted under a head that comes before all of it. */
  lemma SortedCons(h: Card, t: seq<Card>, sortBy: SortBy)
    requires Sorted(t, sortBy)
    requires forall j :: 0 <= j < |t| ==> Compare(sortBy, h, t[j]) <= 0
    ensures Sorted([h] + t, sortBy)
  {
    var r := [h] + t;
    forall i, j | 0 <= i < j < |r| ensures Compare(sortBy, r[i], r[j]) <= 0 {
      if i > 0 {
        assert r[i] == t[i - 1] && r[j] == t[j - 1];
      }
    }
  }

  /** The sorted cards are ordered by the comparator. */
  lemma {:induction false} SortCardsSorted(s: seq<Card>, sortBy: SortBy)
    ensures Sorted(SortCards(s, sortBy), sortBy)
  {
    if s != [] {
      SortCardsSorted(s[1..], sortBy);
      InsertSorted(s[0], SortCards(s[1..], sortBy), sortBy);
    }
  }

  /** The cards of `s` that compare equal to `c`, in their order in `s`. */
  function Ties(s: seq<Card>, c: Card, sortBy: SortBy): seq<Card>
  {
    if s == [] then []
    else (if Compare(sortBy, s[0], c) == 0 then [s[0]] else []) + Ties(s[1..], c, sortBy)
  }

  lemma TiesCons(h: Card, t: seq<Card>, c: Card, sortBy: SortBy)
    ensures Ties([h] + t, c, sortBy) == (if Compare(sortBy, h, c) == 0 then [h] else []) + Ties(t, c, sortBy)
  {
    assert ([h] + t)[1..] == t;
  }

  /** Insertion puts `x` before every card it ties with, so the cards tying with `c` keep their order. */
  lemma {:induction false} InsertTies(x: Card, s: seq<Card>, c: Card, sortBy: SortBy)
    ensures Ties(Insert(x, s, sortBy), c, sortBy) ==
      (if Compare(sortBy, x, c) == 0 then [x] else []) + Ties(s, c, sortBy)
  {
    if s == [] {
      TiesCons(x, [], c, sortBy);
      assert [x] + [] == [x];
    } else if Compare(sortBy, x, s[0]) <= 0 {
      TiesCons(x, s, c, sortBy);
    } else {
      var h, t := s[0], s[1..];
      assert s == [h] + t;
      InsertTies(x, t, c, sortBy);
      TiesCons(h, Insert(x, t, sortBy), c, sortBy);
      TiesCons(h, t, c, sortBy);
      if Compare(sortBy, x, c) == 0 && Compare(sortBy, h, c) == 0 {
        // Two cards tying with `c` tie with each other, so `x` cannot come after `h`.
        CompareAntisymmetric(sortBy, h, c);
        CompareTransitive(sortBy, x, c, h);
        assert false;
      }
    }
  }

  /** The sort is stable for every key: the cards that compare equal to any card keep their input order. */
  lemma {:induction false} SortCardsStable(s: seq<Card>, c: Card, sortBy: SortBy)
    ensures Ties(SortCards(s, sortBy), c, sortBy) == Ties(s, c, sortBy)
  {
    if s != [] {
      SortCardsStable(s[1..], c, sortBy);
      InsertTies(s[0], SortCards(s[1..], sortBy), c, sortBy);
    }
  }

  /** The 'profit' comparator calls every pair equal, so the stable sort leaves the order unchanged. */
  lemma {:induction false} ProfitSortKeepsOrder(s: seq<Card>)
    ensures SortCards(s, Profit) == s
  {
    if s != [] {
      ProfitSortKeepsOrder(s[1..]);
      assert s == [s[0]] + s[1..];
    }
  }

  /** `filterAndSortCards`. */
  function FilterAndSortCards(cards: seq<Card>, filters: FilterState): (r: seq<Card>)
    ensures |r| <= |cards|
  {
    SortCards(FilterKept(LastWins(cards, CardId), filters), filters.sortBy)
  }

  /**
   * Every card the pipeline shows passes all four filters, every card of the
   * deduplicated list that passes them is shown (exactly once, since ids are
   * unique after dedup), and the result is in the order `sortBy` asks for.
   */
  lemma FilterAndSortCardsCorrect(cards: seq<Card>, filters: FilterState)
    ensures var r := FilterAndSortCards(cards, filters);
      (forall i :: 0 <= i < |r| ==> Keep(filters, r[i])) &&
      (forall c :: multiset(r)[c] == if Keep(filters, c) then multiset(LastWins(cards, CardId))[c] else 0) &&
      Sorted(r, filters.sortBy)
  {
    var kept := FilterKept(LastWins(cards, CardId), filters);
    var r := SortCards(kept, filters.sortBy);
    SortCardsSorted(kept, filters.sortBy);
    forall i | 0 <= i < |r| ensures Keep(filters, r[i]) {
      assert r[i] in multiset(kept);
    }
  }

  /** The id dedup: distinct ids, each input id present, at its first-seen position, with its last-seen card. */
  lemma DedupById(cards: seq<Card>)
    ensures KeyedBy(LastWins(cards, CardId), cards, CardId)
  {
    LastWinsKeyed(cards, CardId);
  }

  /** Cards of the filtered list that compare equal under `sortBy` are shown in their deduplicated order. */
  lemma FilterAndSortCardsStable(cards: seq<Card>, filters: FilterState, c: Card)
    ensures Ties(FilterAndSortCards(cards, filters), c, filters.sortBy) ==
      Ties(FilterKept(LastWins(cards, CardId), filters), c, filters.sortBy)
  {
    SortCardsStable(FilterKept(LastWins(cards, CardId), filters), c, filters.sortBy);
  }

  /**
   * 'price-desc' shows market prices from high to low, 'price-asc' from low to
   * high, and 'name' and 'number' show names and card numbers in ascending order.
   */
  lemma SortOrder(cards: seq<Card>, filters: FilterState)
    ensures var r := FilterAndSortCards(cards, filters);
      (filters.sortBy == PriceDesc ==> forall i, j :: 0 <= i < j < |r| ==> r[i].market >= r[j].market) &&
      (filters.sortBy == PriceAsc ==> forall i, j :: 0 <= i < j < |r| ==> r[i].market <= r[j].market) &&
      (filters.sortBy == Name ==> forall i, j :: 0 <= i < j < |r| ==> LexCompare(r[i].name, r[j].name) <= 0) &&
      (filters.sortBy == Number ==> forall i, j :: 0 <= i < j < |r| ==> LexCompare(r[i].cardNumber, r[j].cardNumber) <= 0)
  {
    FilterAndSortCardsCorrect(cards, filters);
  }

  /** Sorting by 'profit' shows the surviving cards in their deduplicated order. */
  lemma ProfitKeepsFilteredOrder(cards: seq<Card>, filters: FilterState)
    requires filters.sortBy == Profit
    ensures FilterAndSortCards(cards, filters) == FilterKept(LastWins(cards, CardId), filters)
  {
    ProfitSortKeepsOrder(FilterKept(LastWins(cards, CardId), filters));
  }

  lemma {:induction false} FilterKeptSameKeep(cards: seq<Card>, f: FilterState, g: FilterState)
    requires forall c :: Keep(f, c) == Keep(g, c)
    ensures FilterKept(cards, f) == FilterKept(cards, g)
  {
    if cards != [] {
      FilterKeptSameKeep(cards[1..], f, g);
    }
  }

  /** `minProfit` and `stockStatus` are never read: changing them changes nothing. */
  lemma UnreadFilters(cards: seq<Card>, filters: FilterState, minProfit: real, stockStatus: StockStatus)
    ensures FilterAndSortCards(cards, filters.(minProfit := minProfit, stockStatus := stockStatus)) ==
      FilterAndSortCards(cards, filters)
  {
    FilterKeptSameKeep(LastWins(cards, CardId), filters, filters.(minProfit := minProfit, stockStatus := stockStatus));
  }

  /** A "Special Art Rare" rarity passes both the 'SAR' and the 'AR' filter, but not 'SR'. */
  lemma SpecialArtRarePasses(c: Card)
    requires c.rarity == "Special Art Rare"
    ensures PassesRarity(SAR, c) && PassesRarity(AR, c) && !PassesRarity(SR, c)
  {
    assert OccursAt(c.rarity, "Special Art", 0);
    assert OccursAt(c.rarity, "Art Rare", 8);
    // "Super Rare" would need a 'u' right after its start, and no such 'u' exists.
    forall i: nat | i + 10 <= |c.rarity| ensures !OccursAt(c.rarity, "Super Rare", i) {
      assert c.rarity[i + 1] != 'u';
      assert "Super Rare"[1] == 'u';
    }
  }

  /** With the filter bar's defaults, every card within 0..10000 is kept and the order is the deduplicated one. */
  lemma DefaultFiltersKeepInRange(cards: seq<Card>)
    ensures var dedup := LastWins(cards, CardId);
      FilterAndSortCards(cards, DefaultFilters) == FilterKept(dedup, DefaultFilters) &&
      forall c: Card :: 0.0 <= c.market <= 10000.0 ==> multiset(FilterAndSortCards(cards, DefaultFilters))[c] == multiset(dedup)[c]
  {
    ProfitKeepsFilteredOrder(cards, DefaultFilters);
    FilterAndSortCardsCorrect(cards, DefaultFilters);
    forall c: Card | 0.0 <= c.market <= 10000.0 ensures Keep(DefaultFilters, c) {
    }
  }
}
