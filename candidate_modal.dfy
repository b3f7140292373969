/** src/components/CandidateModal.tsx: what the candidate detail modal shows, given
    whether it is open and the candidate it holds. */
module CandidateModal {
  import opened Common
  import opened JsString
  import opened CandidateTypes
  import CandidateCard

  /** The year shown on the career timeline: the start date up to its first `-`, or
      the whole date when it has none. */
  function TimelineYear(startDate: string): (r: string)
    ensures |r| <= |startDate| && r == startDate[..|r|]
    ensures '-' !in r
    ensures |r| == |startDate| || startDate[|r|] == '-'
  {
    SplitFirstPiece(startDate, '-');
    Split(startDate, '-')[0]
  }

  /** The text after the start date of an experience: its end date, or `Present` when
      the end date is absent or empty. */
  function EndDateText(endDate: Option<string>): (r: string)
    ensures NonEmpty(endDate) ==> r == endDate.value
    ensures !NonEmpty(endDate) ==> r == "Present"
  {
    if NonEmpty(endDate) then endDate.value else "Present"
  }

  /** A list section (strengths, areas to probe, work experience, education) is shown
      only when its list is present and holds something. */
  predicate SectionShown<T>(items: Option<seq<T>>) {
    items.Some? && |items.value| > 0
  }

  /** One timeline entry: the year and the company. */
  datatype TimelineEntry = TimelineEntry(year: string, company: string)

  /** One work-experience line: position, company, the date range, and the
      description paragraph when there is one. */
  datatype ExperienceLine = ExperienceLine(position: string, company: string, dates: string, description: Option<string>)

  /** The description paragraph of an experience: shown only for a present, non-empty
      description. */
  function DescriptionShown(description: Option<string>): (r: Option<string>)
    ensures r.Some? <==> NonEmpty(description)
    ensures r.Some? ==> r.value == description.value && r.value != []
  {
    if NonEmpty(description) then description else None
  }

  /** Everything the open modal decides from the candidate's data. */
  datatype ModalContent = ModalContent(
    matchSlot: CandidateCard.MatchSlot,
    showVerdict: bool,
    showStrengths: bool,
    showAreas: bool,
    timeline: seq<TimelineEntry>,
    showExperience: bool,
    experience: seq<ExperienceLine>,
    showAbout: bool,
    showContactLocked: bool,
    showEducation: bool)

  function ExperienceOrEmpty(d: CandidateDetail): seq<CandidateExperience> {
    if d.experience.Some? then d.experience.value else []
  }

  /** The modal: nothing unless it is open and holds a candidate; otherwise the match
      label in the card's colour bands, one timeline entry and one experience line per
      experience, in order, and each optional section only when it has content. */
  function Render(isOpen: bool, candidate: Option<CandidateDetail>): (r: Option<ModalContent>)
    ensures r.Some? <==> isOpen && candidate.Some?
    ensures r.Some? ==> var d := candidate.value; var m := r.value;
      && m.matchSlot == CandidateCard.MatchSlotFor(d.base.match_percent)
      && (m.showVerdict <==> NonEmpty(d.ai_verdict))
      && (m.showStrengths <==> SectionShown(d.strengths))
      && (m.showAreas <==> SectionShown(d.areas_to_probe))
      && (m.showExperience <==> SectionShown(d.experience))
      && (m.showAbout <==> NonEmpty(d.base.about))
      && (m.showContactLocked <==> d.base.contact_locked)
      && (m.showEducation <==> SectionShown(d.education))
    ensures r.Some? ==> var xs := ExperienceOrEmpty(candidate.value);
      && |r.value.timeline| == |xs| == |r.value.experience|
      && (forall i :: 0 <= i < |xs| ==>
            r.value.timeline[i] == TimelineEntry(TimelineYear(xs[i].start_date), xs[i].company))
      && (forall i :: 0 <= i < |xs| ==>
            r.value.experience[i].position == xs[i].position
            && r.value.experience[i].company == xs[i].company
            && r.value.experience[i].description == DescriptionShown(xs[i].description)
            && r.value.experience[i].dates == xs[i].start_date + " - " + EndDateText(xs[i].end_date))
  {
    if !isOpen || candidate.None? then None
    else
      var d := candidate.value;
      var xs := ExperienceOrEmpty(d);
      Some(ModalContent(
        CandidateCard.MatchSlotFor(d.base.match_percent),
        NonEmpty(d.ai_verdict),
        SectionShown(d.strengths),
        SectionShown(d.areas_to_probe),
        seq(|xs|, i requires 0 <= i < |xs| => TimelineEntry(TimelineYear(xs[i].start_date), xs[i].company)),
        SectionShown(d.experience),
        seq(|xs|, i requires 0 <= i < |xs| =>
          ExperienceLine(xs[i].position, xs[i].company, xs[i].start_date + " - " + EndDateText(xs[i].end_date),
            DescriptionShown(xs[i].description))),
        NonEmpty(d.base.about),
        d.base.contact_locked,
        SectionShown(d.education)))
  }

  /** The timeline is drawn even when the work-experience section is hidden, and it is
      then empty: entries exist exactly when the section is shown. */
  lemma TimelineMatchesSection(d: CandidateDetail)
    ensures Render(true, Some(d)).Some?
    ensures |Render(true, Some(d)).value.timeline| > 0 <==> Render(true, Some(d)).value.showExperience
  {
  }
}
