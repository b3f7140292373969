/** The state src/pages/SearchPage.tsx keeps beside the results view: the
    confirmation step before a search, the stage list shown while a search runs and
    the flag that says one is running. */
module SearchPage {
  import opened Common
  import opened CandidateTypes
  import CandidateResults

  /** Credits one search costs, as the page tells the confirmation modal. */
  const SearchCost := 10

  /** The stages a new search shows before the first status reply. */
  const InitialStages: seq<SearchStage> := [
    SearchStage("Fetching profile data from multiple sources", Pending, None, None),
    SearchStage("Running semantic search and LLM matching", Pending, None, None),
    SearchStage("Ranking candidates using weighted scoring", Pending, None, None),
    SearchStage("Preparing insights and match list", Pending, None, None)
  ]

  /** Every stage has completed (`every` over the stage list), checked front to back. */
  function AllCompleted(stages: seq<SearchStage>): bool
    decreases |stages|
  {
    stages == [] || (stages[0].status == Completed && AllCompleted(stages[1..]))
  }

  /** A search is finished exactly when no stage is pending, loading or failed; an
      empty stage list counts as finished. */
  lemma {:induction false} AllCompletedIff(stages: seq<SearchStage>)
    ensures AllCompleted(stages) <==> forall i :: 0 <= i < |stages| ==> stages[i].status == Completed
    decreases |stages|
  {
    if stages != [] {
      AllCompletedIff(stages[1..]);
      assert forall i :: 1 <= i < |stages| ==> stages[i] == stages[1..][i - 1];
    }
  }

  /** A new search starts with exactly four stages, all pending, so it is not finished. */
  lemma InitialStagesPending()
    ensures |InitialStages| == 4
    ensures forall i :: 0 <= i < |InitialStages| ==> InitialStages[i].status == Pending
    ensures !AllCompleted(InitialStages)
  {
  }

  class SearchSession {
    var isSearching: bool
    var searchId: Option<int>
    var stages: seq<SearchStage>
    var pendingQuery: string
    var lastQuery: string
    var isConfirmModalOpen: bool

    constructor ()
      ensures !isSearching && searchId.None? && stages == []
      ensures pendingQuery == [] && lastQuery == [] && !isConfirmModalOpen
    {
      isSearching, searchId, stages := false, None, [];
      pendingQuery, lastQuery, isConfirmModalOpen := [], [], false;
    }

    /** `handleSearch(query)`: keep the query and ask for confirmation. */
    method HandleSearch(query: string)
      modifies this`pendingQuery, this`isConfirmModalOpen
      ensures pendingQuery == query && isConfirmModalOpen
    {
      pendingQuery := query;
      isConfirmModalOpen := true;
    }

    /** `confirmSearch()` once `search(query, filters)` has replied: the modal closes,
        the visible list is emptied, four pending stages are shown and the page is
        searching; a successful reply gives the search id, and an exception ends the
        search. A reply without success leaves the page searching. Returns the query
        and filters that were sent. */
    method ConfirmSearch(view: CandidateResults.ResultsView, reply: Response<int>)
      returns (sentQuery: string, sentFilters: SearchFilters)
      modifies this, view`candidates
      ensures !isConfirmModalOpen
      ensures sentQuery == old(pendingQuery) && lastQuery == old(pendingQuery)
      ensures pendingQuery == old(pendingQuery)
      ensures sentFilters == view.filters
      ensures view.candidates == []
      ensures stages == InitialStages
      ensures isSearching <==> !reply.Thrown?
      ensures searchId == if Succeeded(reply) then Some(reply.data) else old(searchId)
    {
      isConfirmModalOpen := false;
      var query := pendingQuery;
      lastQuery := query;
      isSearching := true;
      view.candidates := [];
      stages := InitialStages;
      sentQuery, sentFilters := query, view.filters;
      if Succeeded(reply) {
        searchId := Some(reply.data);
      } else if reply.Thrown? {
        isSearching := false;
      }
    }

    /** One tick of the status poll, given the reply to `getSearchStatus`: a
        successful reply replaces the stages, and once every stage is completed the
        search ends; an exception ends it too. `stop` says whether polling stops. */
    method HandleStatus(reply: Response<seq<SearchStage>>) returns (stop: bool)
      modifies this`stages, this`isSearching
      ensures stop <==> reply.Thrown? || (Succeeded(reply) && AllCompleted(reply.data))
      ensures stages == if Succeeded(reply) then reply.data else old(stages)
      ensures isSearching == (!stop && old(isSearching))
    {
      stop := false;
      if Succeeded(reply) {
        stages := reply.data;
        if AllCompleted(reply.data) {
          stop := true;
          isSearching := false;
        }
      } else if reply.Thrown? {
        stop := true;
        isSearching := false;
      }
    }
  }
}
