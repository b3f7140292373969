/** The candidate results view that src/pages/SearchPage.tsx and
    src/pages/ResultsPage.tsx both keep (the two copies of the handlers are the same):
    the loaded list, the filtered list, the visible page and the pagination record,
    and the handlers that replace them. */
module CandidateResults {
  import opened Common
  import opened JsString
  import opened JsArray
  import opened CandidateTypes

  /** Candidates per page. */
  const PageSize := 12

  /** Rows requested from `getSearchResults`. */
  const FetchLimit := 1000

  // ---------------------------------------------------------------------------
  // The filter predicate

  /** The experience in years, a missing value counting as 0. */
  function YearsOrZero(c: Candidate): int {
    if c.experience_years.Some? then c.experience_years.value else 0
  }

  /** The candidate's skills, none when the field is absent. */
  function SkillsOrEmpty(c: Candidate): seq<string> {
    if c.skills.Some? then c.skills.value else []
  }

  /** Some wanted skill, lower-cased, occurs inside some lower-cased skill the candidate has. */
  predicate SkillsMatch(wanted: seq<string>, have: seq<string>) {
    exists i, j :: 0 <= i < |wanted| && 0 <= j < |have| && Includes(ToLower(have[j]), ToLower(wanted[i]))
  }

  /** The test `handleFilterChange` applies to each loaded candidate: each early
      rejection becomes one conjunct, guarded by the truthiness of its filter field. */
  predicate Matches(f: SearchFilters, c: Candidate) {
    && (NonEmpty(f.role) ==> c.title.Some? && Includes(ToLower(c.title.value), ToLower(f.role.value)))
    && (NonEmpty(f.location) ==> c.location.Some? && Includes(ToLower(c.location.value), ToLower(f.location.value)))
    && (NonZero(f.experience_min) ==> YearsOrZero(c) >= f.experience_min.value)
    && (f.skills.Some? && |f.skills.value| > 0 ==> SkillsMatch(f.skills.value, SkillsOrEmpty(c)))
  }

  /** The loaded list filtered with the test above. */
  function FilterCandidates(all: seq<Candidate>, f: SearchFilters): seq<Candidate> {
    Filter(all, c => Matches(f, c))
  }

  /** `t` is a piece of `s` once both are lower-cased. */
  ghost predicate ContainsIgnoringCase(s: string, t: string) {
    Occurs(ToLower(s), ToLower(t))
  }

  /** What the filter means, stated without the scanning functions:
      - a non-empty role (location) needs a present title (location) containing it,
        ignoring case;
      - a non-zero minimum needs the experience, a missing value counting as 0, to
        reach it;
      - a non-empty skills list needs some wanted skill inside some skill the
        candidate has, so a candidate without skills is rejected. */
  ghost predicate Admitted(f: SearchFilters, c: Candidate) {
    && (NonEmpty(f.role) ==> c.title.Some? && ContainsIgnoringCase(c.title.value, f.role.value))
    && (NonEmpty(f.location) ==> c.location.Some? && ContainsIgnoringCase(c.location.value, f.location.value))
    && (NonZero(f.experience_min) ==> YearsOrZero(c) >= f.experience_min.value)
    && (f.skills.Some? && f.skills.value != [] ==>
          c.skills.Some? &&
          exists w, h :: w in f.skills.value && h in c.skills.value && ContainsIgnoringCase(h, w))
  }

  /** The filter callback decides exactly what `Admitted` says. */
  lemma MatchesIff(f: SearchFilters, c: Candidate)
    ensures Matches(f, c) <==> Admitted(f, c)
  {
    if c.title.Some? && f.role.Some? {
      IncludesIff(ToLower(c.title.value), ToLower(f.role.value));
    }
    if c.location.Some? && f.location.Some? {
      IncludesIff(ToLower(c.location.value), ToLower(f.location.value));
    }
    if f.skills.Some? && c.skills.Some? {
      var wanted, have := f.skills.value, c.skills.value;
      forall i, j | 0 <= i < |wanted| && 0 <= j < |have|
        ensures Includes(ToLower(have[j]), ToLower(wanted[i])) <==> ContainsIgnoringCase(have[j], wanted[i])
      {
        IncludesIff(ToLower(have[j]), ToLower(wanted[i]));
      }
      if SkillsMatch(wanted, have) {
        var i, j :| 0 <= i < |wanted| && 0 <= j < |have| && Includes(ToLower(have[j]), ToLower(wanted[i]));
        assert wanted[i] in wanted && have[j] in have;
      }
    }
  }

  /** The filtered list is an order-preserving selection of the loaded list that keeps
      every copy of an admitted candidate and nothing else. */
  lemma FilterSelection(all: seq<Candidate>, f: SearchFilters)
    ensures IsSubsequence(FilterCandidates(all, f), all)
    ensures forall c :: multiset(FilterCandidates(all, f))[c] == if Admitted(f, c) then multiset(all)[c] else 0
    ensures forall c :: c in FilterCandidates(all, f) <==> c in all && Admitted(f, c)
  {
    var keep := c => Matches(f, c);
    FilterIsSubsequence(all, keep);
    FilterCounts(all, keep);
    forall c ensures Matches(f, c) <==> Admitted(f, c) {
      MatchesIff(f, c);
    }
    forall c ensures c in FilterCandidates(all, f) <==> c in all && Admitted(f, c) {
      FilterMembership(all, keep, c);
    }
  }

  /** The empty filter object `{}` keeps every candidate, in order. */
  lemma NoFiltersKeepAll(all: seq<Candidate>)
    ensures FilterCandidates(all, NoFilters) == all
  {
    FilterKeepsAll(all, c => Matches(NoFilters, c));
  }

  // ---------------------------------------------------------------------------
  // Pages

  /** The page count: `n / 12` rounded up, the fewest pages of twelve that hold `n` candidates. */
  function TotalPages(n: nat): (r: nat)
    ensures 12 * (r - 1) < n <= 12 * r
  {
    (n + 11) / 12
  }

  /** Page `p` of a list: the JavaScript slice from `(p - 1) * 12` to `p * 12`. */
  function Page(list: seq<Candidate>, p: int): seq<Candidate> {
    Slice(list, (p - 1) * 12, p * 12)
  }

  /** For `p >= 1` page `p` holds the candidates at positions `(p - 1) * 12` up to
      `p * 12`, cut at the end of the list; it is non-empty exactly for
      `p <= TotalPages(n)`. */
  lemma PageContents(list: seq<Candidate>, p: int)
    requires p >= 1
    ensures Page(list, p) == list[Min((p - 1) * 12, |list|)..Min(p * 12, |list|)]
    ensures |Page(list, p)| <= PageSize
    ensures Page(list, p) != [] <==> p <= TotalPages(|list|)
  {
    SliceNonNegative(list, (p - 1) * 12, p * 12);
  }

  /** Pages `p`, `p + 1`, ..., `TotalPages(n)` laid end to end. */
  function PagesFrom(list: seq<Candidate>, p: int): seq<Candidate>
    requires p >= 1
    decreases TotalPages(|list|) + 1 - p
  {
    if p > TotalPages(|list|) then [] else Page(list, p) + PagesFrom(list, p + 1)
  }

  lemma {:induction false} PagesFromSuffix(list: seq<Candidate>, p: int)
    requires p >= 1
    ensures PagesFrom(list, p) == list[Min((p - 1) * 12, |list|)..]
    decreases TotalPages(|list|) + 1 - p
  {
    PageContents(list, p);
    if p <= TotalPages(|list|) {
      PagesFromSuffix(list, p + 1);
      assert list[Min((p - 1) * 12, |list|)..] ==
        list[Min((p - 1) * 12, |list|)..Min(p * 12, |list|)] + list[Min(p * 12, |list|)..];
    }
  }

  /** Reading pages 1 to `TotalPages(n)` in order gives back the whole list: the pages
      partition it. */
  lemma PagesPartition(list: seq<Candidate>)
    ensures PagesFrom(list, 1) == list
  {
    PagesFromSuffix(list, 1);
  }

  // ---------------------------------------------------------------------------
  // Shortlist and dislike

  /** The candidate with its shortlist flag negated; a missing flag counts as false. */
  function Toggled(c: Candidate): Candidate {
    c.(is_shortlisted := Some(!IsTrue(c.is_shortlisted)))
  }

  /** The visible list after a shortlist toggle for `id`. */
  function ToggleShortlisted(cs: seq<Candidate>, id: int): (r: seq<Candidate>)
    ensures |r| == |cs|
    ensures forall i :: 0 <= i < |cs| ==> r[i].(is_shortlisted := cs[i].is_shortlisted) == cs[i]
    ensures forall i :: 0 <= i < |cs| ==>
              (IsTrue(r[i].is_shortlisted) != IsTrue(cs[i].is_shortlisted) <==> cs[i].id == id)
    ensures forall i :: 0 <= i < |cs| && cs[i].id != id ==> r[i] == cs[i]
    ensures forall i :: 0 <= i < |cs| && cs[i].id == id ==>
              r[i].is_shortlisted == Some(!IsTrue(cs[i].is_shortlisted))
  {
    seq(|cs|, i requires 0 <= i < |cs| => if cs[i].id == id then Toggled(cs[i]) else cs[i])
  }

  /** The visible list without the candidates that have `id`. */
  function WithoutId(cs: seq<Candidate>, id: int): (r: seq<Candidate>)
    ensures IsSubsequence(r, cs)
    ensures forall c :: c in r <==> c in cs && c.id != id
    ensures forall c: Candidate :: c.id != id ==> multiset(r)[c] == multiset(cs)[c]
  {
    var keep := (c: Candidate) => c.id != id;
    FilterIsSubsequence(cs, keep);
    FilterCounts(cs, keep);
    forall c ensures c in Filter(cs, keep) <==> c in cs && c.id != id {
      FilterMembership(cs, keep, c);
    }
    Filter(cs, keep)
  }

  /** The search, page and limit a results request asks for; no filters are sent. */
  datatype ResultsRequest = ResultsRequest(searchId: int, page: int, limit: int)

  // ---------------------------------------------------------------------------
  // The state

  class ResultsView {
    var filters: SearchFilters
    var allCandidates: seq<Candidate>
    var filteredCandidates: seq<Candidate>
    var candidates: seq<Candidate>
    var pagination: Pagination
    var isResultsLoading: bool
    var selectedCandidate: Option<CandidateDetail>
    var isModalOpen: bool

    /** The filtered list is always an order-preserving selection of the loaded list. */
    ghost predicate Valid()
      reads this
    {
      IsSubsequence(filteredCandidates, allCandidates)
    }

    /** The initial `useState` values; SearchPage starts not loading, ResultsPage
        starts loading. */
    constructor (loading: bool)
      ensures Valid()
      ensures filters == NoFilters
      ensures allCandidates == [] && filteredCandidates == [] && candidates == []
      ensures pagination == Pagination(1, PageSize, 0, 0)
      ensures isResultsLoading == loading && selectedCandidate.None? && !isModalOpen
    {
      filters := NoFilters;
      allCandidates, filteredCandidates, candidates := [], [], [];
      pagination := Pagination(1, PageSize, 0, 0);
      isResultsLoading := loading;
      selectedCandidate, isModalOpen := None, false;
    }

    /** A fetch starts: the view shows it is loading. */
    method StartLoading()
      modifies this`isResultsLoading
      ensures isResultsLoading
    {
      isResultsLoading := true;
    }

    /** `fetchResults(sid, page)` once the reply to the request for the first 1000
        results has arrived: on success the whole reply becomes both the loaded and the
        filtered list (whatever `filters` holds), page `page` of it is shown and the
        pagination record is rebuilt; the loading flag is cleared in every case. */
    method FetchResults(sid: int, page: int, reply: Response<seq<Candidate>>) returns (request: ResultsRequest)
      requires Valid()
      modifies this
      ensures Valid()
      ensures request == ResultsRequest(sid, 1, FetchLimit)
      ensures !isResultsLoading
      ensures Succeeded(reply) ==>
        && allCandidates == reply.data && filteredCandidates == reply.data
        && candidates == Page(reply.data, page)
        && pagination == Pagination(page, PageSize, |reply.data|, TotalPages(|reply.data|))
      ensures !Succeeded(reply) ==>
        && allCandidates == old(allCandidates) && filteredCandidates == old(filteredCandidates)
        && candidates == old(candidates) && pagination == old(pagination)
      ensures filters == old(filters)
      ensures selectedCandidate == old(selectedCandidate) && isModalOpen == old(isModalOpen)
    {
      request := ResultsRequest(sid, 1, FetchLimit);
      if Succeeded(reply) {
        var all := reply.data;
        allCandidates := all;
        filteredCandidates := all;
        candidates := Slice(all, (page - 1) * 12, page * 12);
        pagination := Pagination(page, 12, |all|, (|all| + 11) / 12);
        SubsequenceOfItself(all);
      }
      isResultsLoading := false;
    }

    /** `fetchShortlist()` once the reply to `getShortlisted()` has arrived: on success
        the shortlist is shown as one page whose limit and total are its length. The
        loaded and filtered lists are left as they were. */
    method FetchShortlist(reply: Response<seq<Candidate>>)
      requires Valid()
      modifies this
      ensures Valid()
      ensures !isResultsLoading
      ensures candidates == (if Succeeded(reply) then reply.data else old(candidates))
      ensures pagination == if Succeeded(reply)
        then Pagination(1, |reply.data|, |reply.data|, 1) else old(pagination)
      ensures allCandidates == old(allCandidates) && filteredCandidates == old(filteredCandidates)
      ensures filters == old(filters)
      ensures selectedCandidate == old(selectedCandidate) && isModalOpen == old(isModalOpen)
    {
      if Succeeded(reply) {
        candidates := reply.data;
        pagination := Pagination(1, |reply.data|, |reply.data|, 1);
      }
      isResultsLoading := false;
    }

    /** `handleFilterChange(newFilters)`: filter the loaded list, show its first page,
        go back to page 1 and recount; the limit is kept. */
    method HandleFilterChange(newFilters: SearchFilters)
      requires Valid()
      modifies this
      ensures Valid()
      ensures filters == newFilters
      ensures filteredCandidates == FilterCandidates(allCandidates, newFilters)
      ensures candidates == filteredCandidates[..Min(PageSize, |filteredCandidates|)]
      ensures pagination == old(pagination).(page := 1, total := |filteredCandidates|,
                                             totalPages := TotalPages(|filteredCandidates|))
      ensures allCandidates == old(allCandidates)
      ensures isResultsLoading == old(isResultsLoading)
      ensures selectedCandidate == old(selectedCandidate) && isModalOpen == old(isModalOpen)
    {
      filters := newFilters;
      var filtered := Filter(allCandidates, c => Matches(newFilters, c));
      FilterSelection(allCandidates, newFilters);
      filteredCandidates := filtered;
      candidates := Slice(filtered, 0, 12);
      SliceNonNegative(filtered, 0, 12);
      pagination := pagination.(page := 1, total := |filtered|, totalPages := (|filtered| + 11) / 12);
    }

    /** `handlePageChange(p)`: show page `p` of the filtered list and record `p`;
        nothing else changes. */
    method HandlePageChange(p: int)
      requires Valid()
      modifies this
      ensures Valid()
      ensures candidates == Page(filteredCandidates, p)
      ensures p >= 1 ==>
                candidates == filteredCandidates[Min((p - 1) * 12, |filteredCandidates|)..Min(p * 12, |filteredCandidates|)]
      ensures pagination == old(pagination).(page := p)
      ensures filters == old(filters) && allCandidates == old(allCandidates)
      ensures filteredCandidates == old(filteredCandidates)
      ensures isResultsLoading == old(isResultsLoading)
      ensures selectedCandidate == old(selectedCandidate) && isModalOpen == old(isModalOpen)
    {
      pagination := pagination.(page := p);
      candidates := Slice(filteredCandidates, (p - 1) * 12, p * 12);
      if p >= 1 {
        PageContents(filteredCandidates, p);
      }
    }

    /** `handleShortlist(target)` once `addToShortlist(target.id)` has replied: on
        success every visible candidate with that id has its shortlist flag flipped. */
    method HandleShortlist(target: Candidate, reply: Response<()>)
      requires Valid()
      modifies this`candidates
      ensures Valid()
      ensures candidates == if Succeeded(reply)
        then ToggleShortlisted(old(candidates), target.id) else old(candidates)
    {
      if Succeeded(reply) {
        candidates := ToggleShortlisted(candidates, target.id);
      }
    }

    /** `handleLike(target)`: shortlists through `handleShortlist` only when the
        candidate is not already shortlisted; `requested` says whether it did. */
    method HandleLike(target: Candidate, reply: Response<()>) returns (requested: bool)
      requires Valid()
      modifies this`candidates
      ensures Valid()
      ensures requested <==> !IsTrue(target.is_shortlisted)
      ensures candidates == if requested && Succeeded(reply)
        then ToggleShortlisted(old(candidates), target.id) else old(candidates)
    {
      requested := !IsTrue(target.is_shortlisted);
      if requested {
        HandleShortlist(target, reply);
      }
    }

    /** `handleDislike(target)`: drops every visible candidate with that id. */
    method HandleDislike(target: Candidate)
      requires Valid()
      modifies this`candidates
      ensures Valid()
      ensures candidates == WithoutId(old(candidates), target.id)
    {
      candidates := WithoutId(candidates, target.id);
    }

    /** `handleCandidateClick(c)` once `getCandidateDetails(c.id)` has replied: the
        details on success, otherwise the card's own record; the modal opens. */
    method HandleCandidateClick(c: Candidate, reply: Response<CandidateDetail>)
      modifies this`selectedCandidate, this`isModalOpen
      ensures selectedCandidate == Some(if Succeeded(reply) then reply.data else AsDetail(c))
      ensures isModalOpen
    {
      if Succeeded(reply) {
        selectedCandidate := Some(reply.data);
      } else {
        selectedCandidate := Some(AsDetail(c));
      }
      isModalOpen := true;
    }

    /** The modal's `onClose`. */
    method CloseModal()
      modifies this`isModalOpen
      ensures !isModalOpen
    {
      isModalOpen := false;
    }
  }
}
