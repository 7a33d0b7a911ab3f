/**
 * The property store: the loaded records, the filtered view over them and
 * the current page of the full listing, updated in place by loading,
 * filtering, clearing the filters and changing page.
 */
module Store {
  import opened Wrappers
  import opened Text
  import opened Listing

  /** What `displayAllProperties` renders: the "no properties found" placeholder, or a page of records with its controls. */
  datatype ListingView =
    | NoMatches
    | Page(records: seq<Property>, pagination: PaginationView)

  class PropertyStore {
    /** `allProperties`: the records as fetched, in their order. */
    var all: seq<Property>
    /** `filteredProperties`: the records the active search keeps. */
    var filtered: seq<Property>
    /** `currentPage`: the 1-based page of `filtered` on display. */
    var currentPage: int

    /** The page index is positive and the filtered view is an order-preserving selection of the loaded records. */
    ghost predicate Valid()
      reads this
    {
      currentPage >= 1 && IsSubsequence(filtered, all)
    }

    /** The state before anything is loaded. */
    constructor ()
      ensures Valid()
      ensures all == [] && filtered == [] && currentPage == 1
    {
      all := [];
      filtered := [];
      currentPage := 1;
    }

    /**
     * `updatePagination`: no controls for at most one page, otherwise
     * Previous, the numbered buttons around the current page, and Next.
     */
    method UpdatePagination() returns (v: PaginationView)
      ensures v == Pagination(currentPage, TotalPages(|filtered|))
      ensures TotalPages(|filtered|) <= 1 <==> v == NoControls
    {
      var totalPages := TotalPages(|filtered|);
      if totalPages <= 1 {
        return NoControls;
      }
      var startPage := Max(1, currentPage - 2);
      var endPage := Min(totalPages, currentPage + 2);
      var numbers: seq<PageButton> := [];
      var i := startPage;
      while i <= endPage
        invariant startPage <= i <= Max(startPage, endPage + 1)
        invariant |numbers| == i - startPage
        invariant forall k :: 0 <= k < |numbers| ==>
          numbers[k] == PageButton(startPage + k, startPage + k == currentPage)
      {
        numbers := numbers + [PageButton(i, i == currentPage)];
        i := i + 1;
      }
      v := Controls(
        NavButton(currentPage - 1, currentPage == 1),
        numbers,
        NavButton(currentPage + 1, currentPage == totalPages));
    }

    /**
     * `displayAllProperties`: the current page's records and the controls,
     * or the placeholder when the page is empty (the controls are then left
     * as they were).
     */
    method DisplayAllProperties() returns (v: ListingView)
      requires currentPage >= 1
      ensures PageSlice(filtered, currentPage) == [] ==> v == NoMatches
      ensures PageSlice(filtered, currentPage) != [] ==>
        v == Page(PageSlice(filtered, currentPage), Pagination(currentPage, TotalPages(|filtered|)))
    {
      var startIndex := (currentPage - 1) * PropertiesPerPage;
      var endIndex := startIndex + PropertiesPerPage;
      var paginated := JsSlice(filtered, startIndex, endIndex);
      if |paginated| == 0 {
        return NoMatches;
      }
      var controls := UpdatePagination();
      v := Page(paginated, controls);
    }

    /**
     * The success path of `loadProperties`: the fetched records replace
     * `all` and `filtered`; the page index is kept as it was. The featured
     * strip and the sale tab are rendered from the new records.
     */
    method Load(records: seq<Property>) returns (featured: seq<Property>, saleTab: seq<Property>)
      requires Valid()
      modifies this
      ensures Valid()
      ensures all == records && filtered == records && currentPage == old(currentPage)
      ensures featured == Featured(records) && saleTab == ByType(records, "sale")
    {
      all := records;
      filtered := all;
      SubsequenceReflexive(all);
      featured := Featured(all);
      saleTab := ByType(all, "sale");
    }

    /**
     * `applyFilters`: `filtered` becomes the records of `all` that match the
     * lower-cased search value and survive the type filter, and the first
     * page is shown. `draws[i]` is the random number drawn for `all[i]`.
     */
    method ApplyFilters(searchValue: string, typeValue: string, draws: seq<real>) returns (v: ListingView)
      requires Valid() && |draws| == |all|
      modifies this
      ensures Valid()
      ensures all == old(all) && currentPage == 1
      ensures filtered == FilterProperties(all, Lower(searchValue), typeValue, draws)
      ensures IsSubsequence(filtered, SearchMatches(all, Lower(searchValue)))
      ensures typeValue == "" ==> filtered == SearchMatches(all, Lower(searchValue))
      ensures v == if filtered == [] then NoMatches
                   else Page(PageSlice(filtered, 1), Pagination(1, TotalPages(|filtered|)))
    {
      var searchTerm := Lower(searchValue);
      filtered := FilterProperties(all, searchTerm, typeValue, draws);
      FilterWithinAll(all, searchTerm, typeValue, draws);
      FilterWithinSearch(all, searchTerm, typeValue, draws);
      FilterWithoutType(all, searchTerm, draws);
      currentPage := 1;
      v := DisplayAllProperties();
    }

    /** `clearFilters`: whatever the prior state, `filtered` is `all` again and the first page is shown. */
    method ClearFilters() returns (v: ListingView)
      requires Valid()
      modifies this
      ensures Valid()
      ensures all == old(all) && filtered == all && currentPage == 1
      ensures v == if all == [] then NoMatches
                   else Page(PageSlice(all, 1), Pagination(1, TotalPages(|all|)))
    {
      filtered := all;
      SubsequenceReflexive(all);
      currentPage := 1;
      v := DisplayAllProperties();
    }

    /**
     * `changePage`: a page outside 1..totalPages is ignored (so every call is
     * ignored while `filtered` is empty); any other becomes the current page
     * and is shown.
     */
    method ChangePage(page: int) returns (v: Option<ListingView>)
      requires Valid()
      modifies this
      ensures Valid()
      ensures all == old(all) && filtered == old(filtered)
      ensures !PageAccepted(page, TotalPages(|filtered|)) ==> currentPage == old(currentPage) && v == None
      ensures PageAccepted(page, TotalPages(|filtered|)) ==>
        && currentPage == page
        && v == Some(Page(PageSlice(filtered, page), Pagination(page, TotalPages(|filtered|))))
    {
      var totalPages := TotalPages(|filtered|);
      if page < 1 || page > totalPages {
        return None;
      }
      currentPage := page;
      var shown := DisplayAllProperties();
      v := Some(shown);
    }
  }

  /** Clearing the filters gives what applying an empty search with no type gives, whatever the draws. */
  lemma ClearEqualsEmptyFilter(all: seq<Property>, draws: seq<real>)
    requires |draws| == |all|
    ensures FilterProperties(all, Lower(""), "", draws) == all
  {
    assert Lower("") == "";
    FilterWithoutType(all, "", draws);
    EmptySearchKeepsAll(all);
  }
}
