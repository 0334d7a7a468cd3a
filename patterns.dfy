/**
 * The regular expressions of the scrapers, as specification functions over
 * strings with JavaScript's `String.prototype.match` semantics for a
 * non-global pattern: the leftmost start index at which the pattern matches
 * wins, and at one start index the alternatives are tried in order.
 *
 * Each pattern is given by an "attempt" function: the capture group of the
 * pattern when it matches at exactly index `i`. Every repetition in these
 * patterns (`\d+`, `\s*`, `[\d,]+`) is followed by a character its class
 * excludes (or by nothing), so the greedy run is the only one that can
 * succeed and no backtracking has to be modelled.
 */
module Patterns {
  import opened Wrappers
  import opened Strings

  predicate IsDigit(c: char) { '0' <= c <= '9' }

  predicate IsDigitOrComma(c: char) { IsDigit(c) || c == ',' }

  /** JavaScript's `\s`: white space and line terminators. */
  predicate IsJsSpace(c: char)
  {
    c == ' ' || c == '\t' || c == '\n' || c == '\r' || c == '\U{0B}' || c == '\U{0C}'
    || c == '\U{A0}' || c == '\U{1680}' || ('\U{2000}' <= c <= '\U{200A}')
    || c == '\U{2028}' || c == '\U{2029}' || c == '\U{202F}' || c == '\U{205F}'
    || c == '\U{3000}' || c == '\U{FEFF}'
  }

  predicate AllDigits(s: string)
  {
    forall k :: 0 <= k < |s| ==> IsDigit(s[k])
  }

  /** The text has the shape `digits '/' digits`, as in "171/086". */
  predicate IsNumberPair(g: string)
  {
    exists k :: 0 < k < |g| - 1 && g[k] == '/' && AllDigits(g[..k]) && AllDigits(g[k + 1..])
  }

  /** End of the longest run of `cls` characters starting at `i`. */
  function RunEnd(s: string, i: nat, cls: char -> bool): (j: nat)
    requires i <= |s|
    ensures i <= j <= |s|
    ensures forall k :: i <= k < j ==> cls(s[k])
    ensures j == |s| || !cls(s[j])
    decreases |s| - i
  {
    if i < |s| && cls(s[i]) then RunEnd(s, i + 1, cls) else i
  }

  /** The first start index at or after `i` where `attempt` succeeds. */
  function MatchStart(attempt: (string, nat) -> Option<string>, s: string, i: nat): (r: Option<nat>)
    ensures r.Some? ==> i <= r.value < |s| && attempt(s, r.value).Some?
    ensures r.Some? ==> forall j :: i <= j < r.value ==> attempt(s, j).None?
    ensures r.None? ==> forall j :: i <= j < |s| ==> attempt(s, j).None?
    decreases |s| - i
  {
    if i >= |s| then None
    else if attempt(s, i).Some? then Some(i)
    else MatchStart(attempt, s, i + 1)
  }

  /** `s.match(pattern)[1]`: the capture at the leftmost matching start index. */
  function FirstMatch(attempt: (string, nat) -> Option<string>, s: string): (r: Option<string>)
    ensures r.Some? <==> exists i :: 0 <= i < |s| && attempt(s, i).Some?
    ensures r.Some? ==> MatchStart(attempt, s, 0).Some? && r == attempt(s, MatchStart(attempt, s, 0).value)
  {
    var start := MatchStart(attempt, s, 0);
    if start.Some? then attempt(s, start.value) else None
  }

  /** `\((\d+\/\d+)\)` at index `i`. */
  function ParenNumberAt(s: string, i: nat): (r: Option<string>)
    ensures r.Some? ==> IsNumberPair(r.value)
  {
    if i < |s| && s[i] == '(' then
      var j := RunEnd(s, i + 1, IsDigit);
      if i + 1 < j < |s| && s[j] == '/' then
        var k := RunEnd(s, j + 1, IsDigit);
        if j + 1 < k < |s| && s[k] == ')' then
          var g := s[i + 1..k];
          assert g[j - i - 1] == '/' && g[..j - i - 1] == s[i + 1..j] && g[j - i..] == s[j + 1..k];
          Some(g)
        else None
      else None
    else None
  }

  /** `(\d+\/\d+)` at index `i`. */
  function NumberPairAt(s: string, i: nat): (r: Option<string>)
    ensures r.Some? ==> IsNumberPair(r.value)
  {
    if i < |s| && IsDigit(s[i]) then
      var j := RunEnd(s, i, IsDigit);
      if j < |s| && s[j] == '/' then
        var k := RunEnd(s, j + 1, IsDigit);
        if j + 1 < k then
          var g := s[i..k];
          assert g[j - i] == '/' && g[..j - i] == s[i..j] && g[j - i + 1..] == s[j + 1..k];
          Some(g)
        else None
      else None
    else None
  }

  /** `\[(SV11[BW])\]` at index `i`. */
  function BracketSetAt(s: string, i: nat): (r: Option<string>)
    ensures r.Some? ==> r.value == "SV11B" || r.value == "SV11W"
  {
    if OccursAt(s, "[SV11B]", i) then Some("SV11B")
    else if OccursAt(s, "[SV11W]", i) then Some("SV11W")
    else None
  }

  /** `(SAR|AR|SR|BWR)` at index `i`, alternatives in that order. */
  function RarityAt(s: string, i: nat): (r: Option<string>)
    ensures r.Some? ==> r.value in ["SAR", "AR", "SR", "BWR"]
    ensures r.Some? ==> OccursAt(s, r.value, i)
  {
    if OccursAt(s, "SAR", i) then Some("SAR")
    else if OccursAt(s, "AR", i) then Some("AR")
    else if OccursAt(s, "SR", i) then Some("SR")
    else if OccursAt(s, "BWR", i) then Some("BWR")
    else None
  }

  /** `p` (upper case) occurs at `i` when letters are compared case-insensitively. */
  predicate OccursAtIgnoreCase(s: string, p: string, i: nat)
  {
    i + |p| <= |s| && ToUpper(s[i..i + |p|]) == p
  }

  /**
   * `(SV11[BW]|M3|M2a?|M1[LS])` with the `i` flag, at index `i`; the optional
   * `a` is greedy. The capture is the matched text in its original case.
   * (Without the `u` flag JavaScript never folds a non-ASCII character onto
   * an ASCII letter, so ASCII case folding is exact for this pattern.)
   */
  function SetCodeAt(s: string, i: nat): (r: Option<string>)
    ensures r.Some? ==> ToUpper(r.value) in ["SV11B", "SV11W", "M3", "M2A", "M2", "M1L", "M1S"]
  {
    var sv := Sv11At(s, i);
    if sv.Some? then sv
    else if OccursAtIgnoreCase(s, "M3", i) then Some(s[i..i + 2])
    else if OccursAtIgnoreCase(s, "M2", i) then M2At(s, i)
    else M1At(s, i)
  }

  /** The `SV11[BW]` alternative. */
  function Sv11At(s: string, i: nat): (r: Option<string>)
    ensures r.Some? ==> ToUpper(r.value) == "SV11B" || ToUpper(r.value) == "SV11W"
  {
    if OccursAtIgnoreCase(s, "SV11", i) && i + 4 < |s| && UpperChar(s[i + 4]) == 'B' then
      UpperCapture(s, i, "SV11", "SV11B");
      Some(s[i..i + 5])
    else if OccursAtIgnoreCase(s, "SV11", i) && i + 4 < |s| && UpperChar(s[i + 4]) == 'W' then
      UpperCapture(s, i, "SV11", "SV11W");
      Some(s[i..i + 5])
    else None
  }

  /** The `M2a?` alternative once `M2` has matched: the optional `a` is taken when present. */
  function M2At(s: string, i: nat): (r: Option<string>)
    requires OccursAtIgnoreCase(s, "M2", i)
    ensures r.Some? && (ToUpper(r.value) == "M2A" || ToUpper(r.value) == "M2")
  {
    if i + 2 < |s| && UpperChar(s[i + 2]) == 'A' then
      UpperCapture(s, i, "M2", "M2A");
      Some(s[i..i + 3])
    else Some(s[i..i + 2])
  }

  /** The `M1[LS]` alternative. */
  function M1At(s: string, i: nat): (r: Option<string>)
    ensures r.Some? ==> ToUpper(r.value) == "M1L" || ToUpper(r.value) == "M1S"
  {
    if OccursAtIgnoreCase(s, "M1", i) && i + 2 < |s| && UpperChar(s[i + 2]) == 'L' then
      UpperCapture(s, i, "M1", "M1L");
      Some(s[i..i + 3])
    else if OccursAtIgnoreCase(s, "M1", i) && i + 2 < |s| && UpperChar(s[i + 2]) == 'S' then
      UpperCapture(s, i, "M1", "M1S");
      Some(s[i..i + 3])
    else None
  }

  /** A case-insensitive match of `p` followed by a character upper-casing to the last one of `q` upper-cases to `q`. */
  lemma UpperCapture(s: string, i: nat, p: string, q: string)
    requires |q| == |p| + 1 && q[..|p|] == p
    requires OccursAtIgnoreCase(s, p, i) && i + |p| < |s| && UpperChar(s[i + |p|]) == q[|p|]
    ensures ToUpper(s[i..i + |p| + 1]) == q
  {
    assert s[i..i + |p| + 1] == s[i..i + |p|] + [s[i + |p|]];
    assert q == q[..|p|] + [q[|p|]];
  }

  /** `¥\s*([\d,]+)` at index `i`: a yen sign, optional white space, then digits and commas. */
  function YenAmountAt(s: string, i: nat): (r: Option<string>)
    ensures r.Some? ==> r.value != [] && forall k :: 0 <= k < |r.value| ==> IsDigitOrComma(r.value[k])
    ensures r.Some? ==> i < |s| && s[i] == '¥'
  {
    if i < |s| && s[i] == '¥' then
      var j := RunEnd(s, i + 1, IsJsSpace);
      var k := RunEnd(s, j, IsDigitOrComma);
      if j < k then Some(s[j..k]) else None
    else None
  }

  /** `text.match(/¥\s*([\d,]+)/)[1]`. */
  function YenAmount(text: string): (r: Option<string>)
    ensures r.Some? ==> Contains(text, "¥")
  {
    var start := MatchStart(YenAmountAt, text, 0);
    if start.Some? then
      assert OccursAt(text, "¥", start.value);
      YenAmountAt(text, start.value)
    else None
  }

  /** The digits of `s` in order, with everything else (the commas) dropped. */
  function DropCommas(s: string): (r: string)
    requires forall k :: 0 <= k < |s| ==> IsDigitOrComma(s[k])
    ensures AllDigits(r) && |r| <= |s|
    ensures (r == []) <==> forall k :: 0 <= k < |s| ==> s[k] == ','
  {
    if s == [] then []
    else if s[0] == ',' then DropCommas(s[1..])
    else
      var rest := DropCommas(s[1..]);
      assert forall k :: 0 < k < |s| ==> s[k] == s[1..][k - 1];
      var r := [s[0]] + rest;
      assert IsDigitOrComma(s[0]);
      assert forall k :: 0 < k < |r| ==> r[k] == rest[k - 1];
      assert forall k :: 0 <= k < |r| ==> IsDigit(r[k]);
      r
  }

  /** The value of a string of decimal digits. */
  function DigitsValue(d: string): (n: nat)
    requires AllDigits(d)
  {
    if d == [] then 0
    else DigitsValue(d[..|d| - 1]) * 10 + (d[|d| - 1] as int - '0' as int)
  }

  /**
   * `parseInt(amount.replace(/,/g, ''))` for a `[\d,]+` capture: the value of
   * its digits, or None (`NaN`) when the capture is nothing but commas.
   */
  function ParseAmount(amount: string): (r: Option<nat>)
    requires forall k :: 0 <= k < |amount| ==> IsDigitOrComma(amount[k])
    ensures r.None? <==> forall k :: 0 <= k < |amount| ==> amount[k] == ','
    ensures r.Some? ==> r.value == DigitsValue(DropCommas(amount))
  {
    var digits := DropCommas(amount);
    if digits == [] then None else Some(DigitsValue(digits))
  }

  /** A parsed price is truthy: present, not `NaN` and not 0. */
  predicate Truthy(price: Option<nat>)
  {
    price.Some? && price.value != 0
  }

  /** `parseInt(...)` of the first yen amount in `text`, or None when there is no amount or it is `NaN`. */
  function YenPrice(text: string): (r: Option<nat>)
    ensures YenAmount(text).None? ==> r.None?
    ensures YenAmount(text).Some? ==> r == ParseAmount(YenAmount(text).value)
  {
    var amount := YenAmount(text);
    if amount.Some? then ParseAmount(amount.value) else None
  }
}
