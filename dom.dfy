/**
 * The parts of a fetched HTML page the scrapers query with cheerio, as plain
 * values: the anchors of a search page, each with its `href` attribute (None
 * when the attribute is missing) and its text content, in document order.
 */
module Dom {
  import opened Wrappers
  import opened Strings
  import opened Collections
  import opened Urls

  datatype Anchor = Anchor(href: Option<string>, text: string)

  /** The anchor is matched by the selector `a[href*="<part>"]`. */
  predicate HrefContains(a: Anchor, part: string)
  {
    a.href.Some? && Contains(a.href.value, part)
  }

  /** A search-results page: all of its anchors, in document order. */
  datatype SearchPage = SearchPage(anchors: seq<Anchor>)

  /**
   * The link loop both crawlers run over a search page: for each anchor in
   * document order that `keep` accepts (and that has an `href`), its cleaned
   * address is pushed unless the list already holds it.
   */
  function UniqueCleanUrls(anchors: seq<Anchor>, base: string, keep: Anchor -> bool): (urls: seq<string>)
    ensures |urls| <= |anchors|
  {
    if anchors == [] then []
    else
      var a := anchors[|anchors| - 1];
      var rest := UniqueCleanUrls(anchors[..|anchors| - 1], base, keep);
      if keep(a) && a.href.Some? && CleanUrl(base, a.href.value) !in rest then rest + [CleanUrl(base, a.href.value)]
      else rest
  }

  /** An accepted anchor with an `href`. */
  predicate Accepted(a: Anchor, keep: Anchor -> bool)
  {
    keep(a) && a.href.Some?
  }

  /** The collected links are distinct. */
  lemma {:induction false} UniqueCleanUrlsDistinct(anchors: seq<Anchor>, base: string, keep: Anchor -> bool)
    ensures Distinct(UniqueCleanUrls(anchors, base, keep))
  {
    if anchors != [] {
      UniqueCleanUrlsDistinct(anchors[..|anchors| - 1], base, keep);
    }
  }

  /** `url` is the cleaned address of an accepted anchor of `anchors`. */
  predicate FromAccepted(url: string, anchors: seq<Anchor>, base: string, keep: Anchor -> bool)
  {
    exists j :: 0 <= j < |anchors| && Accepted(anchors[j], keep) && url == CleanUrl(base, anchors[j].href.value)
  }

  /** Each collected link is the cleaned address of an accepted anchor. */
  lemma {:induction false} UniqueCleanUrlsSound(anchors: seq<Anchor>, base: string, keep: Anchor -> bool)
    ensures forall i :: 0 <= i < |UniqueCleanUrls(anchors, base, keep)| ==>
      FromAccepted(UniqueCleanUrls(anchors, base, keep)[i], anchors, base, keep)
  {
    if anchors != [] {
      var init := anchors[..|anchors| - 1];
      UniqueCleanUrlsSound(init, base, keep);
      var rest := UniqueCleanUrls(init, base, keep);
      var urls := UniqueCleanUrls(anchors, base, keep);
      forall i | 0 <= i < |urls| ensures FromAccepted(urls[i], anchors, base, keep) {
        if i < |rest| {
          assert FromAccepted(rest[i], init, base, keep);
          var j :| 0 <= j < |init| && Accepted(init[j], keep) && rest[i] == CleanUrl(base, init[j].href.value);
          assert anchors[j] == init[j];
          assert urls[i] == rest[i];
        } else {
          assert urls[i] == CleanUrl(base, anchors[|anchors| - 1].href.value);
        }
      }
    }
  }

  /** The cleaned address of the accepted anchor at `j` is collected. */
  lemma {:induction false} UniqueCleanUrlsHas(anchors: seq<Anchor>, base: string, keep: Anchor -> bool, j: nat)
    requires j < |anchors| && Accepted(anchors[j], keep)
    ensures CleanUrl(base, anchors[j].href.value) in UniqueCleanUrls(anchors, base, keep)
  {
    var init := anchors[..|anchors| - 1];
    var rest := UniqueCleanUrls(init, base, keep);
    var urls := UniqueCleanUrls(anchors, base, keep);
    var last := anchors[|anchors| - 1];
    if j < |init| {
      assert init[j] == anchors[j];
      UniqueCleanUrlsHas(init, base, keep, j);
      assert forall v :: v in rest ==> v in urls;
    } else {
      assert anchors[j] == last;
      if CleanUrl(base, last.href.value) !in rest {
        assert urls == rest + [CleanUrl(base, last.href.value)];
      }
    }
  }

  /** Every accepted anchor's cleaned address is collected. */
  lemma UniqueCleanUrlsComplete(anchors: seq<Anchor>, base: string, keep: Anchor -> bool)
    ensures forall j :: 0 <= j < |anchors| && Accepted(anchors[j], keep) ==>
      CleanUrl(base, anchors[j].href.value) in UniqueCleanUrls(anchors, base, keep)
  {
    forall j | 0 <= j < |anchors| && Accepted(anchors[j], keep)
      ensures CleanUrl(base, anchors[j].href.value) in UniqueCleanUrls(anchors, base, keep)
    {
      UniqueCleanUrlsHas(anchors, base, keep, j);
    }
  }
}
