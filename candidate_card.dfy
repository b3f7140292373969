/** The classification functions of src/components/CandidateCard.tsx: the colour of a
    match percentage, the colour of the availability dot and whether the match label
    is shown. The candidate modal uses the same colour bands. */
module CandidateCard {
  import opened Common
  import opened CandidateTypes

  const Grey := "#999"
  const Green := "#10b981"
  const Blue := "#3b82f6"
  const Amber := "#f59e0b"
  const Red := "#ef4444"

  /** `getMatchColor`: grey for an absent or zero percentage, then green from 90,
      blue from 75, amber from 60 and red below. Exactly one band holds for every
      input, so the colour names the band. */
  function MatchColor(percent: Option<int>): (r: string)
    ensures r == Grey <==> !NonZero(percent)
    ensures r == Green <==> NonZero(percent) && percent.value >= 90
    ensures r == Blue <==> NonZero(percent) && 75 <= percent.value < 90
    ensures r == Amber <==> NonZero(percent) && 60 <= percent.value < 75
    ensures r == Red <==> NonZero(percent) && percent.value < 60
  {
    if !NonZero(percent) then Grey
    else if percent.value >= 90 then Green
    else if percent.value >= 75 then Blue
    else if percent.value >= 60 then Amber
    else Red
  }

  /** `getAvailabilityDot(status)`: the colour table has an entry for each of the three
      statuses; any other string falls back to grey. */
  function AvailabilityDot(status: string): (r: string)
    ensures status == "available" ==> r == Green
    ensures status == "open_to_work" ==> r == Blue
    ensures status == "unavailable" ==> r == Red
    ensures r == Grey <==> ParseAvailability(status).None?
  {
    if status == "available" then Green
    else if status == "open_to_work" then Blue
    else if status == "unavailable" then Red
    else Grey
  }

  /** Every status a candidate can have gets its own colour, and none is grey. */
  lemma AvailabilityDotsDistinct(a: Availability, b: Availability)
    ensures AvailabilityDot(AvailabilityName(a)) != Grey
    ensures AvailabilityDot(AvailabilityName(a)) == AvailabilityDot(AvailabilityName(b)) <==> a == b
  {
  }

  /** What the card renders where the match label goes. */
  datatype MatchSlot =
    | NoLabel
    | NumberText(n: int)                         // a bare number, as React renders one
    | MatchLabel(percent: int, color: string)    // "<percent>% Match" in the band's colour

  /** The slot as the card and the modal render it: the label is guarded by the
      percentage itself, so an absent percentage renders nothing and a zero one, which
      is falsy and is the guard's value, renders as the text `0`. */
  function RenderedMatchSlot(percent: Option<int>): MatchSlot {
    if percent.None? then NoLabel
    else if percent.value == 0 then NumberText(0)
    else MatchLabel(percent.value, MatchColor(percent))
  }

  /** A candidate with a zero match percentage shows a stray `0` on its card. */
  lemma ZeroPercentRendersZero()
    ensures RenderedMatchSlot(Some(0)) == NumberText(0)
  {
  }

  /** The slot as intended: the label exactly for a present, non-zero percentage, in
      one of the four non-grey colours, and nothing otherwise. */
  function MatchSlotFor(percent: Option<int>): (r: MatchSlot)
    ensures r.MatchLabel? <==> NonZero(percent)
    ensures !r.NumberText?
    ensures r.MatchLabel? ==> r.percent == percent.value && r.color == MatchColor(percent) && r.color != Grey
  {
    if NonZero(percent) then MatchLabel(percent.value, MatchColor(percent)) else NoLabel
  }

  /** The intended slot agrees with the rendered one everywhere except at zero. */
  lemma MatchSlotDiffersOnlyAtZero(percent: Option<int>)
    ensures MatchSlotFor(percent) == RenderedMatchSlot(percent) <==> percent != Some(0)
  {
  }
}
