/** The Global Search page: the results of the last search and the bounded,
    most-recent-first history of the queries searched. */
module GlobalSearch {
  import opened JsBuiltins

  type Record = map<string, string>

  datatype SearchResults = SearchResults(requests: seq<Record>, customers: seq<Record>, spareParts: seq<Record>)

  const NoResults := SearchResults([], [], [])

  /** The most queries the history keeps. */
  const HistoryLimit := 10

  /** `getTotalResults`: the number of hits over the three result lists. */
  function TotalResults(r: SearchResults): (n: nat)
    ensures n == 0 <==> r == NoResults
    ensures n >= |r.requests| && n >= |r.customers| && n >= |r.spareParts|
  {
    |r.requests| + |r.customers| + |r.spareParts|
  }

  /** The history update of `performSearch`: a query not yet in the history
      goes in front of the first nine previous queries; a known query changes nothing. */
  function RecordQuery(history: seq<string>, query: string): seq<string> {
    if query in history then history
    else [query] + Slice(history, 0, HistoryLimit - 1)
  }

  predicate Distinct(s: seq<string>) {
    forall i, j :: 0 <= i < j < |s| ==> s[i] != s[j]
  }

  /** A new query heads the history, followed by the most recent previous
      queries in their old order, at most ten in all. */
  lemma RecordNewQuery(history: seq<string>, query: string)
    requires query !in history
    ensures var r := RecordQuery(history, query);
      && r[0] == query
      && r[1..] == history[..if |history| < HistoryLimit - 1 then |history| else HistoryLimit - 1]
      && |r| <= HistoryLimit
  {
  }

  /** Searching again for a query already in the history leaves it unchanged. */
  lemma RecordKnownQuery(history: seq<string>, query: string)
    requires query in history
    ensures RecordQuery(history, query) == history
  {
  }

  /** After a search the query is in the history, the history stays within
      ten queries, and no query is listed twice. */
  lemma RecordQueryKeepsInvariant(history: seq<string>, query: string)
    requires |history| <= HistoryLimit && Distinct(history)
    ensures query in RecordQuery(history, query)
    ensures |RecordQuery(history, query)| <= HistoryLimit
    ensures Distinct(RecordQuery(history, query))
  {
    var r := RecordQuery(history, query);
    if query !in history {
      RecordNewQuery(history, query);
      var kept := r[1..];
      forall i, j | 0 <= i < j < |r| ensures r[i] != r[j] {
        assert r[j] == kept[j - 1] && kept[j - 1] in history;
        if i > 0 {
          assert r[i] == history[i - 1] && r[j] == history[j - 1];
        }
      }
    }
  }

  class SearchPage {
    var query: string
    var results: SearchResults
    var searchHistory: seq<string>
    var loading: bool

    predicate Valid()
      reads this
    {
      |searchHistory| <= HistoryLimit && Distinct(searchHistory) && !loading
    }

    constructor ()
      ensures Valid()
      ensures query == "" && results == NoResults && searchHistory == []
    {
      query := "";
      results := NoResults;
      searchHistory := [];
      loading := false;
    }

    /** `performSearch(searchQuery)`. The outcome of `api.globalSearch` is a
        parameter: `None` when the call fails, which leaves results and history
        as they were. A query that is blank after trimming does nothing. */
    method PerformSearch(searchQuery: string, fetched: Option<SearchResults>)
      requires Valid()
      modifies this
      ensures Valid()
      ensures query == old(query)
      ensures Trim(searchQuery) == "" || fetched.None? ==>
        results == old(results) && searchHistory == old(searchHistory)
      ensures Trim(searchQuery) != "" && fetched.Some? ==>
        results == fetched.value && searchHistory == RecordQuery(old(searchHistory), searchQuery)
    {
      if Trim(searchQuery) == "" {
        return;
      }
      loading := true;
      match fetched {
        case Some(found) =>
          results := found;
          RecordQueryKeepsInvariant(searchHistory, searchQuery);
          if searchQuery !in searchHistory {
            searchHistory := [searchQuery] + Slice(searchHistory, 0, HistoryLimit - 1);
          }
        case None =>
      }
      loading := false;
    }

    /** The timer callback of the debounced search: a blank query clears the
        results instead of searching. */
    method DebouncedFire(searchQuery: string, fetched: Option<SearchResults>)
      requires Valid()
      modifies this
      ensures Valid()
      ensures query == old(query)
      ensures Trim(searchQuery) == "" ==> results == NoResults && searchHistory == old(searchHistory)
      ensures Trim(searchQuery) != "" && fetched.None? ==>
        results == old(results) && searchHistory == old(searchHistory)
      ensures Trim(searchQuery) != "" && fetched.Some? ==>
        results == fetched.value && searchHistory == RecordQuery(old(searchHistory), searchQuery)
    {
      if Trim(searchQuery) != "" {
        PerformSearch(searchQuery, fetched);
      } else {
        results := NoResults;
      }
    }

    /** `handleSearch`: the form submits the current query unless it is blank. */
    method HandleSearch(fetched: Option<SearchResults>)
      requires Valid()
      modifies this
      ensures Valid()
      ensures query == old(query)
      ensures Trim(query) == "" || fetched.None? ==>
        results == old(results) && searchHistory == old(searchHistory)
      ensures Trim(query) != "" && fetched.Some? ==>
        results == fetched.value && searchHistory == RecordQuery(old(searchHistory), query)
    {
      if Trim(query) != "" {
        PerformSearch(query, fetched);
      }
    }

    /** `handleHistoryClick`: puts a past query back in the box and searches it. */
    method HandleHistoryClick(historyQuery: string, fetched: Option<SearchResults>)
      requires Valid()
      modifies this
      ensures Valid()
      ensures query == historyQuery
      ensures Trim(historyQuery) == "" || fetched.None? ==>
        results == old(results) && searchHistory == old(searchHistory)
      ensures Trim(historyQuery) != "" && fetched.Some? ==>
        results == fetched.value && searchHistory == RecordQuery(old(searchHistory), historyQuery)
    {
      query := historyQuery;
      PerformSearch(historyQuery, fetched);
    }

    /** `clearHistory`. */
    method ClearHistory()
      requires Valid()
      modifies this
      ensures Valid()
      ensures searchHistory == []
      ensures query == old(query) && results == old(results)
    {
      searchHistory := [];
    }
  }
}
