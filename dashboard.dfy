/** The list page of src/components/Dashboard.tsx: the status filter and
    text search over the fetched requests, and its copy of the badge
    colours. Fetching the list is not modelled. */
module Dashboard {
  import opened Types
  import opened Text
  import opened Sequences
  import RequestDetails

  /** The value of the "All Status" option. */
  const AllFilter: string := "all"

  /** `filter === 'all' || request.status.toLowerCase() === filter` */
  predicate MatchesFilter(request: ChangeRequest, filter: string)
  {
    filter == AllFilter || Lower(request.status) == filter
  }

  /** Case-insensitive search in the title or the description. */
  predicate MatchesSearch(request: ChangeRequest, search: string)
  {
    Includes(Lower(request.title), Lower(search)) || Includes(Lower(request.description), Lower(search))
  }

  function Criterion(filter: string, search: string): ChangeRequest -> bool
  {
    (request: ChangeRequest) => MatchesFilter(request, filter) && MatchesSearch(request, search)
  }

  /** `filteredRequests` */
  function FilteredRequests(requests: seq<ChangeRequest>, filter: string, search: string): (shown: seq<ChangeRequest>)
    ensures |shown| <= |requests|
    ensures IsSubsequence(shown, requests)
    ensures forall r :: r in shown <==> r in requests && MatchesFilter(r, filter) && MatchesSearch(r, search)
    ensures |shown| + CountRejected(requests, Criterion(filter, search)) == |requests|
  {
    FilterIsSubsequence(requests, Criterion(filter, search));
    FilterLength(requests, Criterion(filter, search));
    forall r {
      FilterMembership(requests, Criterion(filter, search), r);
    }
    Filter(requests, Criterion(filter, search))
  }

  /** Filtering the shown list again shows the same list. */
  lemma FilterTwice(requests: seq<ChangeRequest>, filter: string, search: string)
    ensures FilteredRequests(FilteredRequests(requests, filter, search), filter, search)
            == FilteredRequests(requests, filter, search)
  {
    FilterIdempotent(requests, Criterion(filter, search));
  }

  /** The "all" filter with an empty search shows every request, in order. */
  lemma NoCriteriaShowsAll(requests: seq<ChangeRequest>)
    ensures FilteredRequests(requests, AllFilter, "") == requests
  {
    forall r | r in requests ensures Criterion(AllFilter, "")(r) {
      IncludesEmpty(Lower(r.title));
    }
    FilterAll(requests, Criterion(AllFilter, ""));
  }

  /** An empty search constrains nothing; a status filter keeps exactly the
      requests whose lower-cased status is the filter text. */
  lemma CriteriaMeaning(request: ChangeRequest, filter: string)
    ensures MatchesSearch(request, "")
    ensures filter != AllFilter ==> (MatchesFilter(request, filter) <==> Lower(request.status) == filter)
  {
    IncludesEmpty(Lower(request.title));
  }

  /** The filter text is not lower-cased: a filter other than "all" that holds
      an upper-case letter shows nothing. */
  lemma UppercaseFilterShowsNothing(requests: seq<ChangeRequest>, filter: string, search: string)
    requires filter != AllFilter
    requires exists i :: 0 <= i < |filter| && IsUpper(filter[i])
    ensures FilteredRequests(requests, filter, search) == []
  {
    var shown := FilteredRequests(requests, filter, search);
    if shown != [] {
      var r := shown[0];
      assert r in shown;
      UpperNeverLower(r.status, filter);
    }
  }

  /** The dashboard's own `getStatusColor`. */
  function StatusColor(status: string): (c: string)
    ensures c == RequestDetails.StatusColor(status)
  {
    var key := Lower(status);
    if key == "pending" then "bg-yellow-100 text-yellow-800"
    else if key == "approved" then "bg-green-100 text-green-800"
    else if key == "denied" then "bg-red-100 text-red-800"
    else if key == "implemented" then "bg-blue-100 text-blue-800"
    else if key == "completed" then "bg-purple-100 text-purple-800"
    else "bg-gray-100 text-gray-800"
  }
}
