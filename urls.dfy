/**
 * The link normalisation shared by both crawlers:
 * `(href.startsWith('http') ? href : BASE_URL + href).split('?')[0]`.
 */
module Urls {
  import opened Strings

  const JapanTorecaBase: string := "https://shop.japan-toreca.com"
  const TorecacampBase: string := "https://torecacamp-pokemon.com"

  /**
   * A relative link is resolved against the shop's base address: the link
   * ends the result, an absolute base gives an absolute result, and an
   * absolute link is left alone.
   */
  function Absolutise(base: string, href: string): (r: string)
    ensures |href| <= |r| && r[|r| - |href|..] == href
    ensures StartsWith(base, "http") ==> StartsWith(r, "http")
    ensures StartsWith(href, "http") ==> r == href
    ensures !StartsWith(href, "http") ==> r == base + href
  {
    if StartsWith(href, "http") then href
    else
      assert StartsWith(base, "http") ==> (base + href)[..4] == base[..4];
      base + href
  }

  /** Resolving an address already resolved against an absolute base changes nothing. */
  lemma AbsolutiseIdempotent(base: string, href: string)
    requires StartsWith(base, "http")
    ensures Absolutise(base, Absolutise(base, href)) == Absolutise(base, href)
  {
  }

  /** Both shops' base addresses are absolute. */
  lemma BasesAbsolute()
    ensures StartsWith(JapanTorecaBase, "http") && StartsWith(TorecacampBase, "http")
  {
    assert JapanTorecaBase[..4] == "http";
    assert TorecacampBase[..4] == "http";
  }

  /** The absolute address without its query string. */
  function CleanUrl(base: string, href: string): string
  {
    BeforeFirst(Absolutise(base, href), '?')
  }

  /**
   * The cleaned address holds no '?', is a prefix of the absolute address,
   * and is all of it when that has no query string.
   */
  lemma CleanUrlCut(base: string, href: string)
    ensures '?' !in CleanUrl(base, href)
    ensures StartsWith(Absolutise(base, href), CleanUrl(base, href))
    ensures '?' !in Absolutise(base, href) ==> CleanUrl(base, href) == Absolutise(base, href)
  {
  }

  /** Cleaning an already clean address changes nothing, as long as the base itself is absolute. */
  lemma CleanUrlIdempotent(base: string, href: string)
    requires StartsWith(base, "http")
    ensures CleanUrl(base, CleanUrl(base, href)) == CleanUrl(base, href)
  {
    var a := Absolutise(base, href);
    var c := CleanUrl(base, href);
    assert StartsWith(a, "http") by {
      if !StartsWith(href, "http") {
        assert a[..4] == base[..4];
      }
    }
    // The scheme holds no '?', so the cut comes after it.
    assert '?' !in a[..4];
    assert c[..4] == a[..4];
    assert Absolutise(base, c) == c;
  }
}
