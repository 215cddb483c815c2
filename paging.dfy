/**
  The one-indexed paging shared by the listing handlers
  (controllers/userController.js): the validation of the `page` and
  `per_page` query strings, the slicer that fills a page of an embedded list,
  and the page count the handlers report. trackController.js carries its own
  copy of the validation, `validateGetTracksRequest`, which is the same guard
  chain word for word; the model defines it once, here.

  Query strings arrive pre-parsed as integers; `None` stands for an absent
  (or empty) query string.
 */
module Paging {
  import opened Common

  const DEFAULT_PAGE := 1
  const DEFAULT_PER_PAGE := 5
  const MAX_PER_PAGE := 10

  const INVALID_PAGE := "Invalid page number. Page numbers start from 1 (one-indexed)"
  const INVALID_PER_PAGE := "Invalid per page number"
  const PER_PAGE_TOO_LARGE := "Invalid per page number. Maximum number of tracks per page is 10"

  /** `if (!req.query.x) req.query.x = default`. */
  function WithDefault(q: Option<int>, default: int): int
  {
    if q.None? then default else q.value
  }

  /**
    `validatePageQueryStrings`: `None` when the parameters are accepted,
    otherwise the message of the first failing check. The page is checked
    first; a page size under 1 and one over 10 get different messages.
   */
  function ValidatePage(page: int, perPage: int): (r: Option<string>)
    ensures r.None? <==> page >= 1 && 1 <= perPage <= MAX_PER_PAGE
    ensures page < 1 ==> r == Some(INVALID_PAGE)
    ensures page >= 1 && perPage < 1 ==> r == Some(INVALID_PER_PAGE)
    ensures page >= 1 && perPage > MAX_PER_PAGE ==> r == Some(PER_PAGE_TOO_LARGE)
  {
    if page - 1 < 0 then Some(INVALID_PAGE)
    else if perPage < 1 then Some(INVALID_PER_PAGE)
    else if perPage > MAX_PER_PAGE then Some(PER_PAGE_TOO_LARGE)
    else None
  }

  function Min(a: int, b: int): int { if a < b then a else b }

  function Max(a: int, b: int): int { if a < b then b else a }

  /**
    Page `page` (one-indexed) of `perPage` entries: the entries from index
    `perPage * (page - 1)` on, at most `perPage` of them. A negative start
    index or a page past the end gives the empty page.
   */
  function PageSlice<T>(s: seq<T>, page: int, perPage: int): (r: seq<T>)
    ensures perPage * (page - 1) < 0 || perPage <= 0 ==> r == []
    ensures var start := perPage * (page - 1);
      0 <= start && 0 < perPage ==>
        && |r| == Min(perPage, Max(0, |s| - start))
        && forall k :: 0 <= k < |r| ==> r[k] == s[start + k]
  {
    var start := perPage * (page - 1);
    if start < 0 || perPage <= 0 || start >= |s| then []
    else s[start..Min(start + perPage, |s|)]
  }

  /**
    `getPageOfAttributes`: walks the indexes from `perPage * (reqPage - 1)`
    up to, not including, `perPage * reqPage`, stopping at the first index
    that holds no entry (every stored entry is an object, so only an index
    out of range stops it).
   */
  method PageOfAttributes<T>(attributes: seq<T>, reqPage: int, perPage: int) returns (attributesPage: seq<T>)
    ensures attributesPage == PageSlice(attributes, reqPage, perPage)
  {
    attributesPage := [];
    var first := perPage * (reqPage - 1);
    var last := first + perPage;
    var n := first;
    while n < last
      invariant first <= n
      invariant n == first ==> attributesPage == []
      invariant n > first ==> 0 <= first && n <= last && n <= |attributes| && attributesPage == attributes[first..n]
      decreases last - n
    {
      if !(0 <= n < |attributes|) {
        break;
      }
      attributesPage := attributesPage + [attributes[n]];
      n := n + 1;
    }
  }

  /**
    `Math.ceil(total / perPage)`: the fewest pages of `perPage` entries
    that hold `total` entries.
   */
  function PageCount(total: nat, perPage: nat): (r: nat)
    requires perPage >= 1
    ensures total <= r * perPage
    ensures r > 0 ==> (r - 1) * perPage < total
  {
    if total == 0 then 0 else 1 + PageCount(if total <= perPage then 0 else total - perPage, perPage)
  }
}
