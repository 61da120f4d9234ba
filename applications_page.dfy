/**
 * The applications page keeps its filter, sort and search in the URL:
 * statuses as repeated `status` parameters, the sort as `sortBy` and
 * `sortOrder`, the search as `q`. Pages of results are fetched while the
 * last page is not the final one.
 */
module ApplicationsPage {
  import opened Wrappers
  import opened UrlParams
  import opened ListingsTable

  /** `handleStatusesChange`: every `status` parameter goes, then the new ones are appended in order. */
  method HandleStatusesChange(p: SearchParams, statuses: seq<string>)
    modifies p
    ensures p.entries == Without(old(p.entries), "status") + Under("status", statuses)
  {
    p.Delete("status");
    p.AppendAll("status", statuses);
  }

  /** Afterwards the `status` parameters are exactly the new statuses, and nothing else changed. */
  lemma StatusesWritten(es: Entries, statuses: seq<string>, k: string)
    ensures All(Without(es, "status") + Under("status", statuses), k) == if k == "status" then statuses else All(es, k)
  {
    AllAppend(Without(es, "status"), Under("status", statuses), k);
    AllWithout(es, "status", k);
    AllUnder("status", statuses, k);
  }

  /** The parameters after `handleSortChange`: only the first entry is kept. */
  function SortParams(es: Entries, newSorting: seq<SortEntry>): Entries
  {
    if newSorting == [] then Without(Without(es, "sortBy"), "sortOrder")
    else Replaced(Replaced(es, "sortBy", newSorting[0].id), "sortOrder", OrderText(newSorting[0].desc))
  }

  method HandleSortChange(p: SearchParams, newSorting: seq<SortEntry>)
    modifies p
    ensures p.entries == SortParams(old(p.entries), newSorting)
  {
    if newSorting == [] {
      p.Delete("sortBy");
      p.Delete("sortOrder");
    } else {
      p.Set("sortBy", newSorting[0].id);
      p.Set("sortOrder", OrderText(newSorting[0].desc));
    }
  }

  /** `sorting`: none without a (non-empty) `sortBy`; `desc` exactly when `sortOrder` is `desc`. */
  function PageSorting(sortBy: Option<string>, sortOrder: Option<string>): (r: seq<SortEntry>)
    ensures sortBy.None? || sortBy == Some("") ==> r == []
    ensures r != [] ==> |r| == 1 && r[0].id == sortBy.value && (r[0].desc <==> sortOrder == Some("desc"))
  {
    if sortBy.Some? && sortBy.value != "" then [SortEntry(sortBy.value, sortOrder == Some("desc"))] else []
  }

  /**
   * A sort written by `handleSortChange` is what the page reads back, as long
   * as the column id is not empty; an empty sort clears both parameters.
   */
  lemma SortRoundTrip(es: Entries, newSorting: seq<SortEntry>)
    ensures newSorting == [] ==> PageSorting(First(SortParams(es, newSorting), "sortBy"), First(SortParams(es, newSorting), "sortOrder")) == []
    ensures newSorting != [] && newSorting[0].id != "" ==>
      PageSorting(First(SortParams(es, newSorting), "sortBy"), First(SortParams(es, newSorting), "sortOrder")) == [newSorting[0]]
  {
    var after := SortParams(es, newSorting);
    FirstAll(after, "sortBy");
    FirstAll(after, "sortOrder");
    if newSorting == [] {
      AllWithout(Without(es, "sortBy"), "sortOrder", "sortBy");
      AllWithout(es, "sortBy", "sortBy");
    } else {
      var mid := Replaced(es, "sortBy", newSorting[0].id);
      AllReplaced(mid, "sortOrder", OrderText(newSorting[0].desc), "sortBy");
      AllReplaced(es, "sortBy", newSorting[0].id, "sortBy");
      AllReplaced(mid, "sortOrder", OrderText(newSorting[0].desc), "sortOrder");
    }
  }

  /** `getNextPageParam`. */
  function NextPage(page: int, pages: int): (r: Option<int>)
    ensures r.Some? <==> page < pages
    ensures r.Some? ==> r.value == page + 1
  {
    if page < pages then Some(page + 1) else None
  }

  /** `searchParams.get('q') || ''`. */
  function Search(es: Entries): string
  {
    var q := First(es, "q");
    if q.Some? then q.value else ""
  }

  /** The URL after the debounced search settles: untouched when it already matches; an empty search removes `q`. */
  function SearchParamsAfter(es: Entries, debounced: string): Entries
  {
    if debounced == Search(es) then es
    else if debounced != "" then Replaced(es, "q", debounced)
    else Without(es, "q")
  }

  method SyncSearch(p: SearchParams, debounced: string)
    modifies p
    ensures p.entries == SearchParamsAfter(old(p.entries), debounced)
  {
    if debounced == Search(p.entries) {
      return;
    }
    if debounced != "" {
      p.Set("q", debounced);
    } else {
      p.Delete("q");
    }
  }

  /** After the sync the URL's search is the debounced input, and no other parameter changed. */
  lemma SearchSynced(es: Entries, debounced: string, k: string)
    ensures Search(SearchParamsAfter(es, debounced)) == debounced
    ensures k != "q" ==> All(SearchParamsAfter(es, debounced), k) == All(es, k)
  {
    FirstAll(SearchParamsAfter(es, debounced), "q");
    if debounced != Search(es) {
      if debounced != "" {
        AllReplaced(es, "q", debounced, "q");
        AllReplaced(es, "q", debounced, k);
      } else {
        AllWithout(es, "q", "q");
        AllWithout(es, "q", k);
      }
    }
  }
}
