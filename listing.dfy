/**
 * The property records and the pure selections the listing pages take of
 * them: the featured strip, the sale/rent tabs, the search filter, the page
 * of the full listing and the pagination window.
 */
module Listing {
  import opened Wrappers
  import opened Text

  /** One listing as the remote endpoint delivers it; never modified by the client. */
  datatype Property = Property(
    id: string,
    name: string,
    buildingNumber: string,
    city: string,
    state: string,
    country: string,
    ownerName: string,
    contactNumber: string,
    image: Option<string>)

  /** Records shown on one page of the full listing. */
  const PropertiesPerPage: nat := 12
  /** Records shown in the featured strip. */
  const FeaturedCount: nat := 6
  /** Records shown in one sale/rent tab. */
  const TabCount: nat := 8
  /** With a type filter set, a record survives when its random draw exceeds this. */
  const TypeKeepThreshold: real := 0.3

  function Min(a: int, b: int): int { if a <= b then a else b }
  function Max(a: int, b: int): int { if a >= b then a else b }

  /** `Array.prototype.slice(start, end)`, with JavaScript's treatment of negative and out-of-range bounds. */
  function JsSlice<T>(s: seq<T>, start: int, end: int): (r: seq<T>)
    ensures 0 <= start <= end ==>
      r == if start >= |s| then [] else s[start..Min(end, |s|)]
  {
    var lo := if start < 0 then Max(|s| + start, 0) else Min(start, |s|);
    var hi := if end < 0 then Max(|s| + end, 0) else Min(end, |s|);
    if hi <= lo then [] else s[lo..hi]
  }

  // ---------------------------------------------------------------------------
  // Read-only selections of the loaded records

  /** `allProperties.slice(0, 6)`: the featured strip. */
  function Featured(all: seq<Property>): (r: seq<Property>)
    ensures |r| == Min(FeaturedCount, |all|)
    ensures r <= all
  {
    JsSlice(all, 0, FeaturedCount)
  }

  /** The index parity a tab selects: even for 'sale', odd for anything else. */
  function TabParity(tab: string): (k: nat)
  {
    if tab == "sale" then 0 else 1
  }

  /** The index in `allProperties` of the `i`th record of tab `tab`. */
  function TabSource(tab: string, i: nat): nat
  {
    2 * i + TabParity(tab)
  }

  /** `s.filter((_, index) => index % 2 === parity)` over the indices from `from` on. */
  function WithParity<T>(s: seq<T>, parity: nat, from: nat): (r: seq<T>)
    requires parity < 2 && from <= |s|
    ensures var first := if from % 2 == parity then from else from + 1;
      && |r| == (if first < |s| then (|s| - first + 1) / 2 else 0)
      && forall i :: 0 <= i < |r| ==> r[i] == s[first + 2 * i]
    decreases |s| - from
  {
    if from == |s| then []
    else (if from % 2 == parity then [s[from]] else []) + WithParity(s, parity, from + 1)
  }

  /** The sale/rent tab: records at the tab's index parity, at most 8 of them, in order. */
  function ByType(all: seq<Property>, tab: string): (r: seq<Property>)
    ensures |r| == Min(TabCount, (|all| + 1 - TabParity(tab)) / 2)
    ensures forall i :: 0 <= i < |r| ==> TabSource(tab, i) < |all| && r[i] == all[TabSource(tab, i)]
  {
    JsSlice(WithParity(all, TabParity(tab), 0), 0, TabCount)
  }

  /** The sale and rent tabs never draw on the same index of `allProperties`. */
  lemma TabsDisjoint(i: nat, j: nat)
    ensures TabSource("sale", i) != TabSource("rent", j)
  {
  }

  /** Among the first 16 records, each lands in exactly one tab, at half its index. */
  lemma TabsPartition(all: seq<Property>, k: nat)
    requires k < |all| && k < 2 * TabCount
    ensures var tab := if k % 2 == 0 then "sale" else "rent";
      k / 2 < |ByType(all, tab)| && ByType(all, tab)[k / 2] == all[k]
  {
    var tab := if k % 2 == 0 then "sale" else "rent";
    assert TabSource(tab, k / 2) == k;
  }

  // ---------------------------------------------------------------------------
  // Search and type filtering (`applyFilters`)

  /**
   * The search predicate: an empty term matches everything; otherwise the
   * (already lower-cased) term must occur in the lower-cased name, city,
   * state, country or owner name.
   */
  predicate MatchesSearch(p: Property, term: string)
  {
    || term == ""
    || Includes(Lower(p.name), term)
    || Includes(Lower(p.city), term)
    || Includes(Lower(p.state), term)
    || Includes(Lower(p.country), term)
    || Includes(Lower(p.ownerName), term)
  }

  /** The type predicate: no type selected keeps the record; otherwise its random draw decides. */
  predicate MatchesType(typeValue: string, draw: real)
  {
    typeValue == "" || draw > TypeKeepThreshold
  }

  /** `ps.filter(p => MatchesSearch(p, term))`. */
  function SearchMatches(ps: seq<Property>, term: string): (r: seq<Property>)
    ensures |r| <= |ps|
    ensures forall i :: 0 <= i < |r| ==> MatchesSearch(r[i], term)
  {
    if ps == [] then []
    else (if MatchesSearch(ps[0], term) then [ps[0]] else []) + SearchMatches(ps[1..], term)
  }

  /** The whole filter of `applyFilters`; `draws[i]` is the `Math.random()` drawn for record `i`. */
  function FilterProperties(ps: seq<Property>, term: string, typeValue: string, draws: seq<real>): (r: seq<Property>)
    requires |draws| == |ps|
    ensures |r| <= |ps|
    ensures forall i :: 0 <= i < |r| ==> MatchesSearch(r[i], term)
    ensures typeValue == "" ==> |r| == |SearchMatches(ps, term)|
  {
    if ps == [] then []
    else
      (if MatchesSearch(ps[0], term) && MatchesType(typeValue, draws[0]) then [ps[0]] else [])
      + FilterProperties(ps[1..], term, typeValue, draws[1..])
  }

  /** `a` is `b` with some elements removed, the rest in their original order. */
  predicate IsSubsequence<T(==)>(a: seq<T>, b: seq<T>)
    decreases |b|
  {
    if a == [] then true
    else if b == [] then false
    else (a[0] == b[0] && IsSubsequence(a[1..], b[1..])) || IsSubsequence(a, b[1..])
  }

  lemma {:induction false} SubsequenceReflexive<T>(s: seq<T>)
    ensures IsSubsequence(s, s)
    decreases |s|
  {
    if s != [] {
      SubsequenceReflexive(s[1..]);
    }
  }

  /** Every element of a subsequence is an element of the sequence it was taken from. */
  lemma {:induction false} SubsequenceMembers<T>(a: seq<T>, b: seq<T>, x: T)
    requires IsSubsequence(a, b) && x in a
    ensures x in b
    decreases |b|
  {
    if a[0] == b[0] && IsSubsequence(a[1..], b[1..]) {
      if x != a[0] {
        SubsequenceMembers(a[1..], b[1..], x);
      }
    } else {
      SubsequenceMembers(a, b[1..], x);
    }
  }

  /** The search matches keep the order of the records they come from. */
  lemma {:induction false} SearchMatchesSubsequence(ps: seq<Property>, term: string)
    ensures IsSubsequence(SearchMatches(ps, term), ps)
    decreases |ps|
  {
    if ps != [] {
      SearchMatchesSubsequence(ps[1..], term);
      if !MatchesSearch(ps[0], term) {
        assert SearchMatches(ps, term) == SearchMatches(ps[1..], term);
        SubsequenceDropHead(SearchMatches(ps[1..], term), ps);
      }
    }
  }

  /** A subsequence of the tail is a subsequence of the whole. */
  lemma SubsequenceDropHead<T>(a: seq<T>, b: seq<T>)
    requires b != [] && IsSubsequence(a, b[1..])
    ensures IsSubsequence(a, b)
  {
  }

  /**
   * The search matches hold every occurrence of every matching record and no
   * occurrence of any other.
   */
  lemma {:induction false} SearchMatchesCounts(ps: seq<Property>, term: string, x: Property)
    ensures multiset(SearchMatches(ps, term))[x] == if MatchesSearch(x, term) then multiset(ps)[x] else 0
    decreases |ps|
  {
    if ps != [] {
      SearchMatchesCounts(ps[1..], term, x);
      assert ps == [ps[0]] + ps[1..];
      assert multiset(ps) == multiset([ps[0]]) + multiset(ps[1..]);
    }
  }

  /** A record is among the search matches exactly when it is loaded and matches. */
  lemma SearchMatchesMembers(ps: seq<Property>, term: string, x: Property)
    ensures x in SearchMatches(ps, term) <==> x in ps && MatchesSearch(x, term)
  {
    SearchMatchesCounts(ps, term, x);
    assert x in SearchMatches(ps, term) <==> multiset(SearchMatches(ps, term))[x] > 0;
    assert x in ps <==> multiset(ps)[x] > 0;
  }

  /** An empty search term matches every record. */
  lemma {:induction false} EmptySearchKeepsAll(ps: seq<Property>)
    ensures SearchMatches(ps, "") == ps
    decreases |ps|
  {
    if ps != [] {
      EmptySearchKeepsAll(ps[1..]);
    }
  }

  /** With no type selected the filter is exactly the search filter. */
  lemma {:induction false} FilterWithoutType(ps: seq<Property>, term: string, draws: seq<real>)
    requires |draws| == |ps|
    ensures FilterProperties(ps, term, "", draws) == SearchMatches(ps, term)
    decreases |ps|
  {
    if ps != [] {
      FilterWithoutType(ps[1..], term, draws[1..]);
    }
  }

  /** Whatever the draws, the filter result is an order-preserving selection of the search matches. */
  lemma {:induction false} FilterWithinSearch(ps: seq<Property>, term: string, typeValue: string, draws: seq<real>)
    requires |draws| == |ps|
    ensures IsSubsequence(FilterProperties(ps, term, typeValue, draws), SearchMatches(ps, term))
    decreases |ps|
  {
    if ps != [] {
      var rest := FilterProperties(ps[1..], term, typeValue, draws[1..]);
      var matches := SearchMatches(ps[1..], term);
      FilterWithinSearch(ps[1..], term, typeValue, draws[1..]);
      if MatchesSearch(ps[0], term) {
        assert SearchMatches(ps, term) == [ps[0]] + matches;
        assert SearchMatches(ps, term)[1..] == matches;
        if MatchesType(typeValue, draws[0]) {
          assert FilterProperties(ps, term, typeValue, draws) == [ps[0]] + rest;
          assert ([ps[0]] + rest)[1..] == rest;
        } else {
          assert FilterProperties(ps, term, typeValue, draws) == rest;
          SubsequenceDropHead(rest, SearchMatches(ps, term));
        }
      } else {
        assert SearchMatches(ps, term) == matches;
        assert FilterProperties(ps, term, typeValue, draws) == rest;
      }
    }
  }

  /** Whatever the draws, the filter result is an order-preserving selection of the loaded records. */
  lemma {:induction false} FilterWithinAll(ps: seq<Property>, term: string, typeValue: string, draws: seq<real>)
    requires |draws| == |ps|
    ensures IsSubsequence(FilterProperties(ps, term, typeValue, draws), ps)
    decreases |ps|
  {
    if ps != [] {
      var rest := FilterProperties(ps[1..], term, typeValue, draws[1..]);
      FilterWithinAll(ps[1..], term, typeValue, draws[1..]);
      if MatchesSearch(ps[0], term) && MatchesType(typeValue, draws[0]) {
        assert FilterProperties(ps, term, typeValue, draws) == [ps[0]] + rest;
        assert ([ps[0]] + rest)[1..] == rest;
      } else {
        assert FilterProperties(ps, term, typeValue, draws) == rest;
        SubsequenceDropHead(rest, ps);
      }
    }
  }

  /** Every record the filter keeps matches the search term. */
  lemma FilteredMatchSearch(ps: seq<Property>, term: string, typeValue: string, draws: seq<real>, x: Property)
    requires |draws| == |ps|
    requires x in FilterProperties(ps, term, typeValue, draws)
    ensures x in ps && MatchesSearch(x, term)
  {
    FilterWithinSearch(ps, term, typeValue, draws);
    SubsequenceMembers(FilterProperties(ps, term, typeValue, draws), SearchMatches(ps, term), x);
    SearchMatchesMembers(ps, term, x);
  }

  // ---------------------------------------------------------------------------
  // Paging of the full listing

  /** `Math.ceil(n / 12)`. */
  function TotalPages(n: nat): (r: nat)
    ensures r == 0 <==> n == 0
    ensures n <= r * 12 && (r == 0 || (r - 1) * 12 < n)
  {
    (n + 11) / 12
  }

  /** The records `displayAllProperties` shows for page `page`. */
  function PageSlice(filtered: seq<Property>, page: int): (r: seq<Property>)
    requires page >= 1
    ensures |r| <= PropertiesPerPage
    ensures r == [] <==> (page - 1) * 12 >= |filtered|
    ensures (page - 1) * 12 < |filtered| ==>
      r == filtered[(page - 1) * 12..Min(page * 12, |filtered|)]
  {
    var start := (page - 1) * PropertiesPerPage;
    JsSlice(filtered, start, start + PropertiesPerPage)
  }

  /** `changePage`'s guard: the pages it accepts. */
  predicate PageAccepted(page: int, totalPages: nat)
  {
    !(page < 1 || page > totalPages)
  }

  /** Pages `page` to `last`, concatenated. */
  function PagesFrom(filtered: seq<Property>, page: int, last: int): seq<Property>
    requires page >= 1
    decreases last - page + 1
  {
    if page > last then [] else PageSlice(filtered, page) + PagesFrom(filtered, page + 1, last)
  }

  /** From page `page` to the last page, the pages show the rest of the records in order. */
  lemma {:induction false} PagesFromCover(filtered: seq<Property>, page: int)
    requires page >= 1
    ensures PagesFrom(filtered, page, TotalPages(|filtered|)) == filtered[Min((page - 1) * 12, |filtered|)..]
    decreases TotalPages(|filtered|) - page + 1
  {
    var n := |filtered|;
    if page <= TotalPages(n) {
      PagesFromCover(filtered, page + 1);
      assert (page - 1) * 12 < n;
    }
  }

  /** The pages 1 to `totalPages` partition the filtered records: none skipped, none repeated, order kept. */
  lemma PagesCover(filtered: seq<Property>)
    ensures PagesFrom(filtered, 1, TotalPages(|filtered|)) == filtered
  {
    PagesFromCover(filtered, 1);
  }

  // ---------------------------------------------------------------------------
  // The pagination controls (`updatePagination`)

  /** Previous/Next: the page its click asks for, and whether it is disabled. */
  datatype NavButton = NavButton(target: int, disabled: bool)
  /** A numbered button and whether it is the active one. */
  datatype PageButton = PageButton(page: int, active: bool)
  /** No controls at all, or Previous, the numbered buttons and Next. */
  datatype PaginationView =
    | NoControls
    | Controls(previous: NavButton, numbers: seq<PageButton>, next: NavButton)

  /** The numbered buttons from `lo` to `hi`, the one for `current` active. */
  function PageRange(lo: int, hi: int, current: int): (r: seq<PageButton>)
    ensures |r| == if lo <= hi then hi - lo + 1 else 0
    ensures forall k :: 0 <= k < |r| ==> lo <= r[k].page <= hi && (r[k].active <==> r[k].page == current)
  {
    seq(if lo <= hi then hi - lo + 1 else 0, k => PageButton(lo + k, lo + k == current))
  }

  /** The controls for page `current` of `totalPages`. */
  function Pagination(current: int, totalPages: nat): (v: PaginationView)
    ensures v.Controls? <==> totalPages > 1
    ensures v.Controls? ==> v.previous.disabled == (current == 1) && v.next.disabled == (current == totalPages)
  {
    if totalPages <= 1 then NoControls
    else Controls(
      NavButton(current - 1, current == 1),
      PageRange(Max(1, current - 2), Min(totalPages, current + 2), current),
      NavButton(current + 1, current == totalPages))
  }

  /** There are controls exactly when there is more than one page. */
  lemma PaginationShown(current: int, totalPages: nat)
    ensures Pagination(current, totalPages).Controls? <==> totalPages > 1
  {
  }

  /**
   * The window of numbered buttons: at most five, consecutive, all of them
   * pages that exist, containing the current page exactly when it exists,
   * and with only the current page's button active.
   */
  lemma PaginationWindow(current: int, totalPages: nat)
    requires totalPages > 1
    ensures var nums := Pagination(current, totalPages).numbers;
      && |nums| <= 5
      && (forall k :: 0 <= k < |nums| ==> 1 <= nums[k].page <= totalPages)
      && (forall k :: 0 < k < |nums| ==> nums[k].page == nums[k - 1].page + 1)
      && (forall k :: 0 <= k < |nums| ==> (nums[k].active <==> nums[k].page == current))
      && ((exists k :: 0 <= k < |nums| && nums[k].page == current) <==> 1 <= current <= totalPages)
  {
    var nums := Pagination(current, totalPages).numbers;
    var lo := Max(1, current - 2);
    if 1 <= current <= totalPages {
      assert nums[current - lo].page == current;
    }
  }

  /**
   * On an existing page, Previous and Next are disabled exactly when
   * `changePage` would ignore the page they ask for, and every numbered
   * button asks for a page it accepts.
   */
  lemma DisabledMatchesGuard(current: int, totalPages: nat)
    requires 1 <= current <= totalPages && totalPages > 1
    ensures var v := Pagination(current, totalPages);
      && (v.previous.disabled <==> !PageAccepted(v.previous.target, totalPages))
      && (v.next.disabled <==> !PageAccepted(v.next.target, totalPages))
      && forall k :: 0 <= k < |v.numbers| ==> PageAccepted(v.numbers[k].page, totalPages)
  {
  }
}
