/**
 * The diagnostic scripts/test-ar.js: the product links of one Torecacamp
 * search page, then the 【状態A-】 offers in the JSON-LD of the first
 * product. Both requests are inputs: the search page itself and
 * `fetchBlocks(url)`, the JSON-LD elements of the page at `url` (the script
 * has no error handling for either request).
 */
module TestAr {
  import opened Wrappers
  import opened Strings
  import opened Collections
  import opened Urls
  import opened Dom
  import opened JsonLd
  import ScrapeTorecacamp

  /** The link filter: a non-empty `/products/` href containing `/products/rc_`. */
  predicate KeepLink(a: Anchor)
  {
    ScrapeTorecacamp.KeepCampLink(a)
  }

  /**
   * The link loop as written: the duplicate test looks for the raw `href`
   * among the addresses collected so far, which are absolutised and
   * query-stripped.
   */
  function CollectedUrls(anchors: seq<Anchor>): (urls: seq<string>)
    ensures |urls| <= |anchors|
  {
    if anchors == [] then []
    else
      var rest := CollectedUrls(anchors[..|anchors| - 1]);
      var a := anchors[|anchors| - 1];
      if KeepLink(a) && a.href.value !in rest then rest + [CleanUrl(TorecacampBase, a.href.value)] else rest
  }

  /** The loop with the duplicate test on the cleaned address, as `searchCards` in scripts/scrape-torecacamp.js has it. */
  function CollectedUrlsFixed(anchors: seq<Anchor>): seq<string>
  {
    UniqueCleanUrls(anchors, TorecacampBase, KeepLink)
  }

  /** `s.split('?')[0]` of an address with a query is the part before the query. */
  lemma {:induction false} BeforeQuery(s: string, t: string)
    requires '?' !in s
    ensures BeforeFirst(s + "?" + t, '?') == s
  {
    if s != [] {
      assert (s + "?" + t)[1..] == s[1..] + "?" + t;
      BeforeQuery(s[1..], t);
    }
  }

  /**
   * The as-written loop keeps duplicates: two links to the same product that
   * differ only in their query strings are both collected, as the same address.
   */
  lemma QueryVariantsCollectedTwice(path: string, q1: string, q2: string)
    requires Contains(path, "/products/rc_") && '?' !in path && !StartsWith(path, "http")
    ensures
      var urls := CollectedUrls([Anchor(Some(path + "?" + q1), ""), Anchor(Some(path + "?" + q2), "")]);
      |urls| == 2 && urls[0] == urls[1] && urls[0] == TorecacampBase + path
  {
    var a1 := Anchor(Some(path + "?" + q1), "");
    var a2 := Anchor(Some(path + "?" + q2), "");
    KeepsQueryVariant(path, q1);
    KeepsQueryVariant(path, q2);
    CleanQueryVariant(path, q1);
    CleanQueryVariant(path, q2);
    var u := TorecacampBase + path;
    assert [a1][..0] == [];
    assert CollectedUrls([a1]) == [u];
    assert (path + "?" + q2)[|path|] == '?';
    assert a2.href.value !in [u];
    assert [a1, a2][..1] == [a1];
    assert CollectedUrls([a1, a2]) == [u] + [u];
  }

  /** A relative link with a query string is cleaned to the base address followed by its path. */
  lemma CleanQueryVariant(path: string, q: string)
    requires '?' !in path && !StartsWith(path, "http")
    ensures CleanUrl(TorecacampBase, path + "?" + q) == TorecacampBase + path
    ensures '?' !in TorecacampBase + path
  {
    assert '?' !in TorecacampBase;
    assert !StartsWith(path + "?" + q, "http") by {
      if |path| >= 4 {
        assert (path + "?" + q)[..4] == path[..4];
      } else {
        assert (path + "?" + q)[|path|] == '?' != "http"[|path|];
      }
    }
    assert TorecacampBase + (path + "?" + q) == (TorecacampBase + path) + "?" + q;
    BeforeQuery(TorecacampBase + path, q);
  }

  /** A link with a query string passes the filter when its path does. */
  lemma KeepsQueryVariant(path: string, q: string)
    requires Contains(path, "/products/rc_")
    ensures KeepLink(Anchor(Some(path + "?" + q), ""))
  {
    var href := path + "?" + q;
    var i: nat :| i <= |path| && OccursAt(path, "/products/rc_", i);
    assert href[i..i + 13] == path[i..i + 13];
    assert OccursAt(href, "/products/rc_", i);
    assert href[i..i + 10] == href[i..i + 13][..10];
    assert OccursAt(href, "/products/", i);
  }

  /**
   * The corrected loop collects distinct addresses, and exactly the ones the
   * as-written loop collects: the raw-`href` test only lets duplicates through.
   */
  lemma {:induction false} CollectedUrlsFixedDistinct(anchors: seq<Anchor>)
    ensures Distinct(CollectedUrlsFixed(anchors))
    ensures forall u :: u in CollectedUrlsFixed(anchors) <==> u in CollectedUrls(anchors)
  {
    UniqueCleanUrlsDistinct(anchors, TorecacampBase, KeepLink);
    if anchors != [] {
      var init := anchors[..|anchors| - 1];
      var a := anchors[|anchors| - 1];
      CollectedUrlsFixedDistinct(init);
      CollectedCleanMembers(init);
      if KeepLink(a) && a.href.value in CollectedUrls(init) {
        CleanUrlOfCollected(init, a.href.value);
      }
    }
  }

  /** Every collected address is a cleaned address. */
  lemma {:induction false} CollectedCleanMembers(anchors: seq<Anchor>)
    ensures forall u :: u in CollectedUrls(anchors) ==> exists h :: u == CleanUrl(TorecacampBase, h)
  {
    if anchors != [] {
      CollectedCleanMembers(anchors[..|anchors| - 1]);
    }
  }

  /** A raw `href` already among the collected addresses is clean: cleaning it gives it back. */
  lemma CleanUrlOfCollected(anchors: seq<Anchor>, href: string)
    requires href in CollectedUrls(anchors)
    ensures CleanUrl(TorecacampBase, href) == href
  {
    CollectedCleanMembers(anchors);
    assert exists h :: href == CleanUrl(TorecacampBase, h);
    var h :| href == CleanUrl(TorecacampBase, h);
    BasesAbsolute();
    CleanUrlIdempotent(TorecacampBase, h);
  }

  /** The first address, the only one the script goes on to fetch, is the same under both loops. */
  lemma FirstUrlUnaffected(anchors: seq<Anchor>)
    ensures CollectedUrls(anchors) == [] <==> CollectedUrlsFixed(anchors) == []
    ensures CollectedUrls(anchors) != [] ==> CollectedUrls(anchors)[0] == CollectedUrlsFixed(anchors)[0]
  {
    CollectedUrlsFixedDistinct(anchors);
    if CollectedUrlsFixed(anchors) != [] {
      assert CollectedUrlsFixed(anchors)[0] in CollectedUrls(anchors);
    }
    if CollectedUrls(anchors) != [] {
      FirstStable(anchors);
    }
  }

  /** Both loops push the same address first: the cleaned address of the first kept anchor. */
  lemma {:induction false} FirstStable(anchors: seq<Anchor>)
    requires CollectedUrls(anchors) != []
    ensures CollectedUrlsFixed(anchors) != [] && CollectedUrls(anchors)[0] == CollectedUrlsFixed(anchors)[0]
  {
    var init := anchors[..|anchors| - 1];
    CollectedUrlsFixedDistinct(init);
    if CollectedUrlsFixed(init) != [] {
      assert CollectedUrlsFixed(init)[0] in CollectedUrls(init);
    }
    if CollectedUrls(init) != [] {
      FirstStable(init);
    }
  }

  /** The `$('a[href*="/products/"]').each(...)` loop of `testAR`, as written. */
  method CollectProductUrlsAsWritten(searchPage: SearchPage) returns (productUrls: seq<string>)
    ensures productUrls == CollectedUrls(searchPage.anchors)
  {
    var anchors := searchPage.anchors;
    productUrls := [];
    for i := 0 to |anchors|
      invariant productUrls == CollectedUrls(anchors[..i])
    {
      var a := anchors[i];
      assert anchors[..i + 1][..i] == anchors[..i];
      if a.href.Some? && Contains(a.href.value, "/products/") && a.href.value != [] &&
        Contains(a.href.value, "/products/rc_") && a.href.value !in productUrls
      {
        var fullUrl := if StartsWith(a.href.value, "http") then a.href.value else TorecacampBase + a.href.value;
        productUrls := productUrls + [BeforeFirst(fullUrl, '?')];
      }
    }
    assert anchors[..|anchors|] == anchors;
  }

  /** The same loop with the duplicate test made on the cleaned address. */
  method CollectProductUrls(searchPage: SearchPage) returns (productUrls: seq<string>)
    ensures productUrls == CollectedUrlsFixed(searchPage.anchors)
  {
    var anchors := searchPage.anchors;
    productUrls := [];
    for i := 0 to |anchors|
      invariant productUrls == CollectedUrlsFixed(anchors[..i])
    {
      var a := anchors[i];
      assert anchors[..i + 1][..i] == anchors[..i];
      if a.href.Some? && Contains(a.href.value, "/products/") && a.href.value != [] &&
        Contains(a.href.value, "/products/rc_")
      {
        var cleanUrl := CleanUrl(TorecacampBase, a.href.value);
        if cleanUrl !in productUrls {
          productUrls := productUrls + [cleanUrl];
        }
      }
    }
    assert anchors[..|anchors|] == anchors;
  }

  /** The first A- offer of every element that has one, in document order: the offers the script reports. */
  function SelectedOffers(blocks: seq<LdBlock>): (offers: seq<Offer>)
    ensures forall i :: 0 <= i < |offers| ==> HasMarker(offers[i], AMinusMarker)
  {
    if blocks == [] then []
    else
      var rest := SelectedOffers(blocks[..|blocks| - 1]);
      var parsed := BlockOffers(blocks[|blocks| - 1]);
      if parsed.Some? && FirstWithMarker(parsed.value, AMinusMarker).Some? then
        rest + [FirstWithMarker(parsed.value, AMinusMarker).value]
      else rest
  }

  /** The element parses and has an offer whose name contains 【状態A-】. */
  predicate HasAMinus(block: LdBlock)
  {
    BlockOffers(block).Some? && FirstWithMarker(BlockOffers(block).value, AMinusMarker).Some?
  }

  /** Some element has an A- offer. */
  predicate AMinusFound(blocks: seq<LdBlock>)
  {
    exists i :: 0 <= i < |blocks| && HasAMinus(blocks[i])
  }

  /** An offer is reported exactly when some element has an A- offer. */
  lemma {:induction false} SelectedOffersFound(blocks: seq<LdBlock>)
    ensures SelectedOffers(blocks) != [] <==> AMinusFound(blocks)
  {
    if blocks != [] {
      SelectedOffersFound(blocks[..|blocks| - 1]);
      AMinusFoundSnoc(blocks);
    }
  }

  /** Some element has an A- offer iff one before the last has, or the last has. */
  lemma AMinusFoundSnoc(blocks: seq<LdBlock>)
    requires blocks != []
    ensures AMinusFound(blocks) <==> AMinusFound(blocks[..|blocks| - 1]) || HasAMinus(blocks[|blocks| - 1])
  {
    var init := blocks[..|blocks| - 1];
    assert forall i :: 0 <= i < |init| ==> init[i] == blocks[i];
  }

  /** The JSON-LD loop over the first product's elements: the reported offers, and `found`. */
  method FindAMinus(blocks: seq<LdBlock>) returns (reported: seq<Offer>, found: bool)
    ensures reported == SelectedOffers(blocks)
    ensures found <==> AMinusFound(blocks)
  {
    reported, found := [], false;
    for n := 0 to |blocks|
      invariant reported == SelectedOffers(blocks[..n])
      invariant found <==> reported != []
    {
      assert blocks[..n + 1][..n] == blocks[..n];
      var parsed := BlockOffers(blocks[n]);
      if parsed.Some? {
        var aMinusOffer := FirstWithMarker(parsed.value, AMinusMarker);
        if aMinusOffer.Some? {
          reported := reported + [aMinusOffer.value];
          found := true;
        }
      }
    }
    assert blocks[..|blocks|] == blocks;
    SelectedOffersFound(blocks);
  }

  /**
   * `testAR` as written: the collected links (query variants of one product
   * may repeat), and, when there is one, whether the first product's JSON-LD
   * has an A- offer. The repeats change neither the set of links nor the
   * product tested, so `found` is what the corrected loop would give.
   */
  method TestAR(searchPage: SearchPage, fetchBlocks: string -> seq<LdBlock>) returns (productUrls: seq<string>, found: bool)
    ensures productUrls == CollectedUrls(searchPage.anchors)
    ensures forall u :: u in productUrls <==> u in CollectedUrlsFixed(searchPage.anchors)
    ensures found <==> productUrls != [] && AMinusFound(fetchBlocks(productUrls[0]))
    ensures found <==>
      CollectedUrlsFixed(searchPage.anchors) != [] && AMinusFound(fetchBlocks(CollectedUrlsFixed(searchPage.anchors)[0]))
  {
    productUrls := CollectProductUrlsAsWritten(searchPage);
    CollectedUrlsFixedDistinct(searchPage.anchors);
    FirstUrlUnaffected(searchPage.anchors);
    found := false;
    if |productUrls| > 0 {
      var testUrl := productUrls[0];
      var blocks := fetchBlocks(testUrl);
      var _, f := FindAMinus(blocks);
      found := f;
    }
  }

  /** `testAR` with the corrected link loop: the same test over a duplicate-free list of links. */
  method TestARFixed(searchPage: SearchPage, fetchBlocks: string -> seq<LdBlock>) returns (productUrls: seq<string>, found: bool)
    ensures productUrls == CollectedUrlsFixed(searchPage.anchors) && Distinct(productUrls)
    ensures found <==> productUrls != [] && AMinusFound(fetchBlocks(productUrls[0]))
  {
    productUrls := CollectProductUrls(searchPage);
    CollectedUrlsFixedDistinct(searchPage.anchors);
    found := false;
    if |productUrls| > 0 {
      var testUrl := productUrls[0];
      var blocks := fetchBlocks(testUrl);
      var _, f := FindAMinus(blocks);
      found := f;
    }
  }
}
