/** The records of src/types/candidate.ts. Optional TypeScript fields (`x?: T`) are
    `Option`s; the string-literal unions are datatypes, with their wire spelling. */
module CandidateTypes {
  import opened Common

  /** `availability_status: 'available' | 'unavailable' | 'open_to_work'`. */
  datatype Availability = Available | Unavailable | OpenToWork

  function AvailabilityName(a: Availability): string {
    match a
    case Available => "available"
    case Unavailable => "unavailable"
    case OpenToWork => "open_to_work"
  }

  /** Reads the wire spelling of an availability status; any other string is not one. */
  function ParseAvailability(s: string): (r: Option<Availability>)
    ensures r.Some? ==> AvailabilityName(r.value) == s
    ensures forall a :: AvailabilityName(a) == s ==> r == Some(a)
  {
    if s == "available" then Some(Available)
    else if s == "unavailable" then Some(Unavailable)
    else if s == "open_to_work" then Some(OpenToWork)
    else None
  }

  /** A candidate record. `skills` and `is_shortlisted` are not declared in the
      TypeScript interface but are read by the pages, so they are optional fields here. */
  datatype Candidate = Candidate(
    id: int,
    name: string,
    email: string,
    title: Option<string>,
    company: Option<string>,
    experience_years: Option<int>,
    location: Option<string>,
    availability_status: Availability,
    image_url: Option<string>,
    about: Option<string>,
    contact_locked: bool,
    match_percent: Option<int>,
    created_at: string,
    updated_at: string,
    skills: Option<seq<string>>,
    is_shortlisted: Option<bool>)

  datatype CandidateExperience = CandidateExperience(
    id: int,
    candidate_id: int,
    company: string,
    position: string,
    start_date: string,
    end_date: Option<string>,
    description: Option<string>,
    order_index: int)

  datatype CandidateEducation = CandidateEducation(
    id: int,
    candidate_id: int,
    institution: string,
    degree: string,
    field_of_study: string,
    graduation_year: int,
    order_index: int)

  /** `SearchFilters`: every field optional. */
  datatype SearchFilters = SearchFilters(
    role: Option<string>,
    location: Option<string>,
    experience_min: Option<int>,
    skills: Option<seq<string>>)

  /** The empty filter object `{}`. */
  const NoFilters := SearchFilters(None, None, None, None)

  /** `status: 'pending' | 'loading' | 'completed' | 'failed'`. */
  datatype StageStatus = Pending | Loading | Completed | Failed

  function StageStatusName(s: StageStatus): string {
    match s
    case Pending => "pending"
    case Loading => "loading"
    case Completed => "completed"
    case Failed => "failed"
  }

  /** Reads the wire spelling of a stage status; any other string is not one. */
  function ParseStageStatus(s: string): (r: Option<StageStatus>)
    ensures r.Some? ==> StageStatusName(r.value) == s
    ensures forall st :: StageStatusName(st) == s ==> r == Some(st)
  {
    if s == "pending" then Some(Pending)
    else if s == "loading" then Some(Loading)
    else if s == "completed" then Some(Completed)
    else if s == "failed" then Some(Failed)
    else None
  }

  datatype SearchStage = SearchStage(
    name: string,
    status: StageStatus,
    started_at: Option<string>,
    completed_at: Option<string>)

  /** The `pagination` record of `SearchResult` and of the pages' state. */
  datatype Pagination = Pagination(page: int, limit: int, total: int, totalPages: int)

  datatype SearchResult = SearchResult(
    searchId: int,
    results: seq<Candidate>,
    stages: seq<SearchStage>,
    pagination: Pagination,
    creditsUsed: int)

  /** `CandidateDetail extends Candidate`: the candidate's own fields (in `base`)
      plus the optional detail sections. */
  datatype CandidateDetail = CandidateDetail(
    base: Candidate,
    strengths: Option<seq<string>>,
    areas_to_probe: Option<seq<string>>,
    ai_verdict: Option<string>,
    experience: Option<seq<CandidateExperience>>,
    education: Option<seq<CandidateEducation>>)

  /** `candidate as CandidateDetail`, the fallback when the details request fails:
      the same candidate, with every detail section absent. */
  function AsDetail(c: Candidate): (d: CandidateDetail)
    ensures d.base == c
    ensures d.strengths.None? && d.areas_to_probe.None? && d.ai_verdict.None?
    ensures d.experience.None? && d.education.None?
  {
    CandidateDetail(c, None, None, None, None, None)
  }
}
