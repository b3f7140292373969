/** src/components/CandidateGrid.tsx: the grid holds no state of its own. Each filter
    input builds a new filter object from the old one, the skills field is parsed
    from and displayed as comma-separated text, and the pager's buttons follow the
    pagination record. */
module CandidateGrid {
  import opened Common
  import opened JsString
  import opened CandidateTypes

  // ---------------------------------------------------------------------------
  // grid body

  /** Placeholders while loading, otherwise one card per candidate. */
  datatype GridBody = Placeholders(count: nat) | Cards(cards: seq<Candidate>)

  /** The grid body: exactly eight placeholders and no candidate while loading, and
      the candidates in the given order otherwise. */
  function Body(isLoading: Option<bool>, candidates: seq<Candidate>): (r: GridBody)
    ensures r.Placeholders? <==> IsTrue(isLoading)
    ensures r.Placeholders? ==> r.count == 8
    ensures r.Cards? ==> r.cards == candidates
  {
    if IsTrue(isLoading) then Placeholders(8) else Cards(candidates)
  }

  // ---------------------------------------------------------------------------
  // filter inputs

  /** The experience select's current value: the threshold when it is set and
      non-zero, otherwise the empty "any" option. */
  function ExperienceValue(f: SearchFilters): (r: Option<int>)
    ensures r.Some? <==> NonZero(f.experience_min)
    ensures r.Some? ==> r == f.experience_min
  {
    if NonZero(f.experience_min) then f.experience_min else None
  }

  /** A change of the experience select; the empty option (`None`) makes the
      threshold absent. */
  function SelectExperience(f: SearchFilters, value: Option<int>): (r: SearchFilters)
    ensures r.experience_min == value
    ensures r.role == f.role && r.location == f.location && r.skills == f.skills
  {
    f.(experience_min := value)
  }

  /** Choosing the option the select already shows gives back the same filters,
      except that a zero threshold, shown as "any", becomes absent. */
  lemma SelectShownExperience(f: SearchFilters)
    ensures SelectExperience(f, ExperienceValue(f)) == f <==> f.experience_min != Some(0)
  {
  }

  /** A keystroke in the role input. */
  function InputRole(f: SearchFilters, text: string): (r: SearchFilters)
    ensures r.role == Some(text)
    ensures r.location == f.location && r.experience_min == f.experience_min && r.skills == f.skills
  {
    f.(role := Some(text))
  }

  /** A keystroke in the location input. */
  function InputLocation(f: SearchFilters, text: string): (r: SearchFilters)
    ensures r.location == Some(text)
    ensures r.role == f.role && r.experience_min == f.experience_min && r.skills == f.skills
  {
    f.(location := Some(text))
  }

  /** The text a free-text input shows for an optional field: the text, or empty. */
  function TextValue(field: Option<string>): (r: string)
    ensures field.Some? ==> r == field.value
    ensures field.None? ==> r == []
  {
    if field.Some? then field.value else []
  }

  /** Typing the text the role input shows changes nothing once the role is set. */
  lemma RoleInputStable(f: SearchFilters)
    requires f.role.Some?
    ensures InputRole(f, TextValue(f.role)) == f
  {
  }

  // ---------------------------------------------------------------------------
  // skills

  /** The skills input's text read as a skill list: empty text gives no list, any
      other text is split on commas and every piece trimmed. */
  function ParseSkills(text: string): Option<seq<string>> {
    if text == [] then None else Some(TrimAll(Split(text, ',')))
  }

  /** Every piece trimmed. */
  function TrimAll(pieces: seq<string>): seq<string> {
    seq(|pieces|, i requires 0 <= i < |pieces| => Trim(pieces[i]))
  }

  /** The text the skills input shows: the skills joined with ", ", or empty. */
  function SkillsText(f: SearchFilters): (r: string)
    ensures f.skills.None? ==> r == []
    ensures f.skills.Some? ==> r == Join(f.skills.value, ", ")
  {
    if f.skills.Some? then Join(f.skills.value, ", ") else []
  }

  /** A keystroke in the skills input. */
  function InputSkills(f: SearchFilters, text: string): (r: SearchFilters)
    ensures r.skills == ParseSkills(text)
    ensures r.role == f.role && r.location == f.location && r.experience_min == f.experience_min
  {
    f.(skills := ParseSkills(text))
  }

  /** A skill as the parser leaves it: trimmed, and without a comma. */
  predicate CleanSkill(s: string) {
    ',' !in s && Trim(s) == s
  }

  /** Empty text, and only empty text, gives no list; otherwise there is one skill per
      comma-separated piece, each one clean. */
  lemma ParseSkillsShape(text: string)
    ensures ParseSkills(text).None? <==> text == []
    ensures ParseSkills(text).Some? ==>
      |ParseSkills(text).value| == |Split(text, ',')| &&
      forall i :: 0 <= i < |ParseSkills(text).value| ==> CleanSkill(ParseSkills(text).value[i])
  {
    if text != [] {
      var pieces := Split(text, ',');
      SplitPiecesWithoutSeparator(text, ',');
      forall i | 0 <= i < |pieces| ensures CleanSkill(Trim(pieces[i])) {
        TrimKeepsPiece(pieces[i], ',');
        TrimIdempotent(pieces[i]);
      }
    }
  }

  /** Trimming the pieces a split of a joined list leaves gives back the clean list:
      the first piece is already trimmed and the others only gain a leading space. */
  lemma TrimAllSpaced(xs: seq<string>)
    requires |xs| > 0
    requires forall i :: 0 <= i < |xs| ==> CleanSkill(xs[i])
    ensures TrimAll([xs[0]] + Spaced(xs[1..])) == xs
  {
    var pieces := [xs[0]] + Spaced(xs[1..]);
    var trimmed := TrimAll(pieces);
    forall i | 0 <= i < |xs| ensures trimmed[i] == xs[i] {
      if i > 0 {
        assert pieces[i] == " " + xs[i];
        TrimLeadingSpace(xs[i]);
      }
    }
  }

  /** Round trip: parsing the displayed text of a list of clean skills whose display
      is not empty gives back the same list. */
  lemma SkillsRoundTrip(xs: seq<string>)
    requires forall i :: 0 <= i < |xs| ==> CleanSkill(xs[i])
    requires Join(xs, ", ") != []
    ensures ParseSkills(Join(xs, ", ")) == Some(xs)
  {
    assert |xs| > 0;
    var none: string := [];
    SplitJoined(none, xs);
    assert none + Join(xs, ", ") == Join(xs, ", ") && none + xs[0] == xs[0];
    TrimAllSpaced(xs);
  }

  /** The skills field is stable: once some text has been parsed, showing the result
      and parsing that again gives the same skills, unless the shown text is empty. */
  lemma SkillsInputStable(f: SearchFilters, text: string)
    requires SkillsText(InputSkills(f, text)) != []
    ensures InputSkills(f, SkillsText(InputSkills(f, text))) == InputSkills(f, text)
  {
    ParseSkillsShape(text);
    SkillsRoundTrip(ParseSkills(text).value);
  }

  // ---------------------------------------------------------------------------
  // pager

  /** The pager: absent, or the two buttons with their disabled flags and the page
      each would request. */
  datatype Pager = NoPager | Pager(prevDisabled: bool, nextDisabled: bool, prevTarget: int, nextTarget: int)

  /** The pager for a pagination record: shown only with more than one page;
      Previous is disabled on the first page and Next on the last. */
  function PagerFor(p: Pagination): (r: Pager)
    ensures r.Pager? <==> p.totalPages > 1
    ensures r.Pager? ==> (r.prevDisabled <==> p.page == 1) && (r.nextDisabled <==> p.page == p.totalPages)
    ensures r.Pager? ==> r.prevTarget == p.page - 1 && r.nextTarget == p.page + 1
  {
    if p.totalPages > 1 then Pager(p.page == 1, p.page == p.totalPages, p.page - 1, p.page + 1)
    else NoPager
  }

  /** From a page within range, an enabled button only requests a page within range. */
  lemma PagerStaysInRange(p: Pagination)
    requires 1 <= p.page <= p.totalPages
    ensures PagerFor(p).Pager? && !PagerFor(p).prevDisabled ==> 1 <= PagerFor(p).prevTarget <= p.totalPages
    ensures PagerFor(p).Pager? && !PagerFor(p).nextDisabled ==> 1 <= PagerFor(p).nextTarget <= p.totalPages
  {
  }
}
