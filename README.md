# headsin-saral-ai client core, modelled in Dafny

The headsin-saral-ai web client lets a recruiter search for candidates and work
through the results. The recruiter:

- describes a candidate in a search bar and confirms that the search may spend credits;
- watches the search stages complete;
- filters and pages through the returned candidates, 12 to a page;
- shortlists, likes or dislikes candidates, and opens a candidate's detail modal.

A second page lists outreach campaigns by channel and opens a sequence builder of
email and delay steps. Search, ranking, credits and sending all happen on the server.
This project models the client-side logic that shapes the data. That logic is:

- the results view's filter predicate, its pages and its list handlers;
- the search session's stage tracking;
- the sequence builder's step list;
- the parsing in the filter form and the pager's buttons;
- the small classification functions the components use.

Layout:

- `common.dfy`: `Option`, the server's `Response` envelope (a reply with a success
  flag and data, or an exception), and JavaScript truthiness for optional fields.
- `js_string.dfy` and `js_array.dfy`: the string and array methods the components
  call (`includes`, `trim`, `split`, `join`, `filter`, `slice`), written out with
  their meaning proved.
- `candidate_types.dfy`: the records of `src/types/candidate.ts`.
- One module per component or page. Code that keeps state becomes a class: the
  results view, the search session, the sequence builder, the search bar and the
  campaigns page. Every other component becomes functions and lemmas.

The server's replies are parameters of the methods that consume them. A method
returns what it would send, for example the request it makes or whether it asks
for the list again.

## Model

| member | source | states |
|---|---|---|
| CandidateTypes.ParseAvailability | src/types/candidate.ts:10 | reading a status gives the one availability whose wire name it is, and nothing for any other string |
| CandidateTypes.ParseStageStatus | src/types/candidate.ts:49 | reading a status gives the one stage status whose wire name it is, and nothing for any other string |
| JsString.IncludesIff | src/pages/SearchPage.tsx:183-184 | the substring scan behind `includes` succeeds exactly when the text occurs contiguously |
| JsString.TrimEmptyIff | src/components/SearchBar.tsx:16 | `trim` leaves nothing exactly when every character is JavaScript whitespace |
| JsString.TrimIdempotent | src/components/CandidateGrid.tsx:102 | trimming a trimmed piece changes nothing |
| JsString.SplitPiecesWithoutSeparator | src/components/CandidateGrid.tsx:102 | no piece of a split holds the separator |
| JsString.SplitFirstPiece | src/components/CandidateModal.tsx:103 | the first piece of a split is the text before the first separator, or the whole string |
| JsString.SplitJoined | src/components/CandidateGrid.tsx:101-102 | splitting a `", "`-joined list on `,` gives back the elements, each after the first with one leading space |
| JsArray.SliceNonNegative | src/pages/SearchPage.tsx:205 | for non-negative bounds, `slice` is the sub-sequence between the bounds, each cut at the length |
| CandidateResults.MatchesIff | src/pages/SearchPage.tsx:182-191 | the filter test keeps a candidate exactly when the stated filter meaning admits it. A non-empty role or location needs a present title or location containing it, ignoring case. A non-zero minimum needs the experience, a missing value counting as 0, to reach it. A non-empty skills list needs some wanted skill inside some skill the candidate has |
| CandidateResults.FilterSelection | src/pages/ResultsPage.tsx:87-96 | the filtered list is an order-preserving subsequence of the loaded list. It holds every copy of each admitted candidate and nothing else |
| CandidateResults.NoFiltersKeepAll | src/pages/SearchPage.tsx:182-191 | the empty filter object keeps the whole list in order |
| CandidateResults.TotalPages | src/pages/SearchPage.tsx:198 | the page count is the fewest pages of 12 that hold n candidates: 12(r-1) < n <= 12r |
| CandidateResults.PageContents | src/pages/SearchPage.tsx:203-206 | page p >= 1 is the filtered list from (p-1)*12 to min(p*12, n). It holds at most 12 candidates and is non-empty exactly for p <= totalPages |
| CandidateResults.PagesPartition | src/pages/SearchPage.tsx:88-94 | pages 1..totalPages laid end to end give back the whole list |
| CandidateResults.ToggleShortlisted | src/pages/SearchPage.tsx:227-229 | the list keeps its length and order. Every candidate without the id is returned unchanged. A candidate with the id gets the boolean negation of its flag, a missing flag counting as false, and keeps every other field. The truthiness flips exactly for the candidates with the id |
| CandidateResults.WithoutId | src/pages/SearchPage.tsx:242-245 | the result is an order-preserving subsequence that holds no candidate with the id and every copy of every other candidate |
| CandidateResults.ResultsView.constructor | src/pages/ResultsPage.tsx:22-35 | empty lists, no filters, page 1 of 0 with limit 12, modal closed |
| CandidateResults.ResultsView.StartLoading | src/pages/ResultsPage.tsx:39 | a fetch sets the loading flag |
| CandidateResults.ResultsView.FetchResults | src/pages/ResultsPage.tsx:38-60 | asks for page 1 of the given search id with limit 1000 and no filters. On success the reply becomes both lists, the requested page is shown, and total = n with totalPages = ceil(n/12). Loading ends in every case |
| CandidateResults.ResultsView.FetchShortlist | src/pages/ResultsPage.tsx:62-75 | on success the shortlist is shown with page 1, limit = total = its length and totalPages = 1, even when it is empty |
| CandidateResults.ResultsView.HandleFilterChange | src/pages/ResultsPage.tsx:85-106 | the filtered list is the loaded list filtered, and the first min(12, n) are shown. Page becomes 1, total and totalPages are recomputed, the limit is kept, and the loaded list is untouched |
| CandidateResults.ResultsView.HandlePageChange | src/pages/SearchPage.tsx:203-207 | shows the page's slice of the filtered list and changes only the page number |
| CandidateResults.ResultsView.HandleShortlist | src/pages/ResultsPage.tsx:128-139 | on success only the visible list changes, by the shortlist toggle. The filtered list and pagination stay as they were |
| CandidateResults.ResultsView.HandleLike | src/pages/SearchPage.tsx:236-240 | a shortlist request is made exactly when the candidate is not already shortlisted |
| CandidateResults.ResultsView.HandleDislike | src/pages/ResultsPage.tsx:147-149 | removes the candidates with that id from the visible list only |
| CandidateResults.ResultsView.HandleCandidateClick | src/pages/SearchPage.tsx:209-221 | selects the fetched details, or the card's own record when the request fails, and opens the modal |
| CandidateResults.ResultsView.CloseModal | src/pages/SearchPage.tsx:353 | closes the detail modal |
| SearchPage.AllCompletedIff | src/pages/SearchPage.tsx:123-125 | a search is finished exactly when every stage is completed, which holds vacuously for no stages |
| SearchPage.InitialStagesPending | src/pages/SearchPage.tsx:162-167 | a new search starts with exactly four pending stages, so it is not finished |
| SearchPage.SearchSession.constructor | src/pages/SearchPage.tsx:21-41 | not searching, no search id, no stages, empty queries, confirmation closed |
| SearchPage.SearchSession.HandleSearch | src/pages/SearchPage.tsx:151-154 | keeps the query and opens the confirmation |
| SearchPage.SearchSession.ConfirmSearch | src/pages/SearchPage.tsx:156-178 | closes the confirmation, sends the pending query with the current filters, empties the visible list and shows the four pending stages. The id is recorded on success. An exception ends the search |
| SearchPage.SearchSession.HandleStatus | src/pages/SearchPage.tsx:117-146 | a successful reply replaces the stages. Polling stops, and the search ends, exactly on an exception or when every stage in the reply is completed |
| CandidateGrid.Body | src/components/CandidateGrid.tsx:38-48 | while loading, exactly 8 placeholders and no candidate; otherwise the candidates in order |
| CandidateGrid.ExperienceValue | src/components/CandidateGrid.tsx:66 | the select shows the threshold exactly when it is present and non-zero |
| CandidateGrid.SelectExperience | src/components/CandidateGrid.tsx:67 | the empty option makes the threshold absent, any other option sets it, and the other fields are carried over |
| CandidateGrid.SelectShownExperience | src/components/CandidateGrid.tsx:66-67 | choosing the shown option leaves the filters unchanged unless the threshold is 0 |
| CandidateGrid.InputRole | src/components/CandidateGrid.tsx:82 | sets the role to the typed text and nothing else |
| CandidateGrid.InputLocation | src/components/CandidateGrid.tsx:92 | sets the location to the typed text and nothing else |
| CandidateGrid.TextValue | src/components/CandidateGrid.tsx:81 | a text input shows its field, or empty when it is absent |
| CandidateGrid.RoleInputStable | src/components/CandidateGrid.tsx:81-82 | re-typing the shown role changes nothing |
| CandidateGrid.SkillsText | src/components/CandidateGrid.tsx:101 | the skills input shows the skills joined with `", "`, or empty when they are absent |
| CandidateGrid.InputSkills | src/components/CandidateGrid.tsx:102 | the typed text is parsed into the skills field and the other fields are kept |
| CandidateGrid.ParseSkillsShape | src/components/CandidateGrid.tsx:102 | empty text, and only empty text, makes skills absent. Otherwise there is one skill per comma-separated piece, each trimmed and comma-free |
| CandidateGrid.TrimAllSpaced | src/components/CandidateGrid.tsx:102 | trimming the pieces of a split `", "`-join of clean skills gives back the skills |
| CandidateGrid.SkillsRoundTrip | src/components/CandidateGrid.tsx:101-102 | parsing the displayed join of trimmed, comma-free skills gives back the same list when the join is not empty |
| CandidateGrid.SkillsInputStable | src/components/CandidateGrid.tsx:101-102 | once text has been parsed, re-parsing the displayed skills gives the same filters, unless the display is empty |
| CandidateGrid.PagerFor | src/components/CandidateGrid.tsx:126-146 | the pager shows only with more than one page. Previous is disabled exactly at page 1 and Next exactly at the last page. They request page-1 and page+1 |
| CandidateGrid.PagerStaysInRange | src/components/CandidateGrid.tsx:126-146 | from a page within range, an enabled button requests a page within 1..totalPages |
| CandidateCard.MatchColor | src/components/CandidateCard.tsx:21-27 | grey exactly for an absent or zero percent. Otherwise green from 90, blue for 75-89, amber for 60-74 and red below 60, and each colour holds for exactly its band |
| CandidateCard.AvailabilityDot | src/components/CandidateCard.tsx:29-36 | the three statuses map to green, blue and red. Grey appears exactly for a string that is not a status |
| CandidateCard.AvailabilityDotsDistinct | src/components/CandidateCard.tsx:29-36 | different statuses get different dot colours, none of them grey |
| CandidateCard.ZeroPercentRendersZero | src/components/CandidateCard.tsx:70 | as written, a zero match percent renders the bare text `0` |
| CandidateCard.MatchSlotFor | src/components/CandidateModal.tsx:45 | the match label appears exactly for a present, non-zero percent, in a non-grey band colour; nothing is rendered otherwise |
| CandidateCard.MatchSlotDiffersOnlyAtZero | src/components/CandidateCard.tsx:70-74 | the intended label and the as-written rendering differ exactly at a zero percent |
| CandidateModal.TimelineYear | src/components/CandidateModal.tsx:103 | the year is the longest prefix of the start date without `-`: the text before the first `-`, or the whole date |
| CandidateModal.EndDateText | src/components/CandidateModal.tsx:119 | the end date, or `Present` when it is absent or empty |
| CandidateModal.DescriptionShown | src/components/CandidateModal.tsx:121 | an experience's description paragraph is drawn exactly when the description is present and non-empty, with its text |
| CandidateModal.Render | src/components/CandidateModal.tsx:19-158 | nothing unless open with a candidate. The match label is the corrected `CandidateCard.MatchSlotFor`, not the stray `0` of line 45 (see Findings). Each list section shows exactly when its list is present and non-empty. There is one timeline entry per experience, with its year and company, and one experience line per experience, with its position, company, date range and description paragraph, in order |
| CandidateModal.TimelineMatchesSection | src/components/CandidateModal.tsx:99-111 | the timeline has entries exactly when the work-experience section is shown |
| CreditConfirmModal.Render | src/components/CreditConfirmModal.tsx:13-58 | nothing when closed. The warning shows and the button is disabled exactly when credits < cost. The label is `Confirm & Search` exactly when credits >= cost, otherwise `Low Credits` |
| CreditConfirmModal.LabelMatchesButton | src/components/CreditConfirmModal.tsx:45-58 | the label reads `Confirm & Search` exactly when the button is enabled |
| SearchStages.StatusIcon | src/components/SearchStages.tsx:11-22 | completed gives ✓, loading ⟳ and failed ✗. Any other string gives ○ |
| SearchStages.StatusIconReadsStatus | src/components/SearchStages.tsx:11-22 | read through the stage status type, the icon is ○ exactly for `pending` and for a string that names no status, and otherwise the icon of the status named |
| SearchStages.StatusIconsDistinct | src/components/SearchStages.tsx:11-22 | the four stage statuses get four different icons, and pending gets ○ |
| SearchStages.Rows | src/components/SearchStages.tsx:26-33 | one row per stage, in order, with its name and icon, and a loader exactly on loading stages |
| SearchStages.LoaderOnlyWithSpinner | src/components/SearchStages.tsx:28-31 | a row has a loader exactly when its icon is the spinner |
| SearchBar.HasTextIff | src/components/SearchBar.tsx:16 | the query counts as non-blank exactly when some character is not whitespace |
| SearchBar.SearchDisabled | src/components/SearchBar.tsx:64 | the button is disabled exactly when loading or when the query is all whitespace |
| SearchBar.ChipsHaveText | src/components/SearchBar.tsx:21-26 | every popular search is a non-blank query |
| SearchBar.ShownChipEnablesSearch | src/components/SearchBar.tsx:86-98 | while the chips are on screen (manual tab, not loading), clicking any chip leaves the search button enabled |
| SearchBar.Bar.constructor | src/components/SearchBar.tsx:11-12 | empty query, manual tab |
| SearchBar.Bar.SetQuery | src/components/SearchBar.tsx:57 | typing replaces the query |
| SearchBar.Bar.SetTab | src/components/SearchBar.tsx:35 | a tab click selects that tab |
| SearchBar.Bar.ChoosePopular | src/components/SearchBar.tsx:94 | a chip click sets the query to exactly that chip's text, which is non-blank |
| SearchBar.Bar.Submit | src/components/SearchBar.tsx:14-19 | the search is called exactly when the query has a non-whitespace character, with the query untrimmed |
| CampaignModal.FindStep | src/components/CampaignModal.tsx:30 | finds the first step with the id, or reports that no step has it |
| CampaignModal.ActiveStepOf | src/components/CampaignModal.tsx:30 | the active step is a step with the active id, or the first step when none has it |
| CampaignModal.ActiveStepUnique | src/components/CampaignModal.tsx:30 | with distinct ids the active step is the one step carrying the active id |
| CampaignModal.Merge | src/components/CampaignModal.tsx:33 | each field the update gives replaces the step's own. The id, the type and the other fields are kept |
| CampaignModal.UpdateSteps | src/components/CampaignModal.tsx:32-34 | same length and order. Steps with the id get the update merged in, and every other step is unchanged |
| CampaignModal.UpdateKeepsIds | src/components/CampaignModal.tsx:32-34 | an update keeps every id in place, so ids stay distinct and the same ids stay present |
| CampaignModal.NewStep | src/components/CampaignModal.tsx:38-40 | a new email step has empty subject and content. A new delay step waits 2 days |
| CampaignModal.AppendKeepsDistinct | src/components/CampaignModal.tsx:36-44 | appending a step with an unused id keeps ids distinct |
| CampaignModal.RemoveById | src/components/CampaignModal.tsx:48 | the remaining steps are an order-preserving subsequence: exactly the steps without the id |
| CampaignModal.FilterKeepsDistinct | src/components/CampaignModal.tsx:48 | filtering steps with distinct ids keeps them distinct |
| CampaignModal.RemoveLeavesSteps | src/components/CampaignModal.tsx:46-53 | removing from two or more distinct steps leaves a non-empty list without the removed id |
| CampaignModal.RemoveOneLength | src/components/CampaignModal.tsx:48 | removing a listed id from steps with distinct ids removes exactly one step |
| CampaignModal.RemoveButtonGuard | src/components/CampaignModal.tsx:46-53 | the remove button (line 96) and the removal agree. Where the button is hidden (one step) a removal changes nothing. Where it is shown, a removal is the filter, leaves a non-empty list with distinct ids without the id, and for a listed id takes away exactly one step |
| CampaignModal.RemoveKeepsOthers | src/components/CampaignModal.tsx:48-52 | every other id is still present after a removal |
| CampaignModal.StepLabel | src/components/CampaignModal.tsx:92 | an email is labelled with its subject, or `New Email` when the subject is empty. A delay is labelled `Wait N days` |
| CampaignModal.SequenceBuilder.constructor | src/components/CampaignModal.tsx:22-26 | one email step with id `1`, which is active, and an empty name |
| CampaignModal.SequenceBuilder.SetName | src/components/CampaignModal.tsx:64 | typing replaces the name |
| CampaignModal.SequenceBuilder.SelectStep | src/components/CampaignModal.tsx:87 | a click makes that step's id active |
| CampaignModal.SequenceBuilder.UpdateStep | src/components/CampaignModal.tsx:32-34 | replaces the steps with the merged list, keeping the ids distinct and the active id listed |
| CampaignModal.SequenceBuilder.AddStep | src/components/CampaignModal.tsx:36-44 | appends exactly the new step at the end and makes it active. Earlier steps are unchanged and ids stay distinct |
| CampaignModal.SequenceBuilder.RemoveStep | src/components/CampaignModal.tsx:46-53 | the new list is `AfterRemove` of the old one: a no-op with one step, so the list is never empty. Otherwise the steps with the id go, and a removed active step hands over to the first remaining step. Ids stay distinct and the active id stays listed |
| CampaignModal.SequenceBuilder.Save | src/components/CampaignModal.tsx:156 | hands over the name and steps as they are |
| CampaignsPage.FilterByType | src/pages/CampaignsPage.tsx:67 | the listed campaigns are exactly those of the active tab's type, in fetched order |
| CampaignsPage.TabsPartition | src/pages/CampaignsPage.tsx:67 | the two tabs together list every fetched campaign once per copy |
| CampaignsPage.Capitalize | src/pages/CampaignsPage.tsx:165 | the first character is upper-cased and the rest kept |
| CampaignsPage.StatusLabels | src/pages/CampaignsPage.tsx:165 | the status labels read `Active`, `Paused` and `Draft` |
| CampaignsPage.ListFor | src/pages/CampaignsPage.tsx:149-188 | three placeholders while loading. Otherwise the empty-state message naming the tab appears exactly when no campaign has the tab's type, and the filtered rows appear in every other case |
| CampaignsPage.Page.constructor | src/pages/CampaignsPage.tsx:27-31 | no campaigns, email tab, no analytics, modal closed, loading |
| CampaignsPage.Page.FetchCampaigns | src/pages/CampaignsPage.tsx:33-49 | a successful list replaces the campaigns. Analytics are requested exactly when that list is non-empty, for its first campaign, and their data is kept on any reply. Loading ends in every case |
| CampaignsPage.Page.HandleCreateCampaign | src/pages/CampaignsPage.tsx:55-65 | sends the name with the active tab as type. The list is refetched, and the modal closed, exactly on success |
| CampaignsPage.Page.SetTab | src/pages/CampaignsPage.tsx:128 | a tab click selects that channel |
| CampaignsPage.Page.OpenModal | src/pages/CampaignsPage.tsx:142 | opens the sequence builder |
| CampaignsPage.Page.CloseModal | src/pages/CampaignsPage.tsx:195 | closes the sequence builder |

The search page and the results page hold the same results-view handlers. The
class `CandidateResults.ResultsView` models both, and its rows cite one copy or
the other. In SearchPage.tsx, `fetchResults` is rebuilt whenever `filters`
changes, and the effect that loads results depends on it. So each filter change
on the search page is followed by a fresh load. That load replaces the filtered
list with the full reply, because the results request does not apply the filters
it is passed. `FetchResults` models that load as written.

An experience end date of the empty string also shows `Present`, because the
fallback tests truthiness. In the skills input, text such as `a,` parses to
`["a", ""]`. The empty skill then matches every candidate that has at least one
skill.

## Findings

| source | as written | input that shows it | evidently intended | confidence | as-written member | corrected member |
|---|---|---|---|---|---|---|
| src/components/CandidateCard.tsx:70 | the match label is guarded by the percentage itself. A zero percentage is the guard's value, and React renders it as the text `0`. The modal repeats this at src/components/CandidateModal.tsx:45 | a candidate with `match_percent` 0 | render nothing for a zero or absent percentage | high; not executed | CandidateCard.ZeroPercentRendersZero | CandidateCard.MatchSlotFor |

The modal's `CandidateModal.Render` uses the corrected `CandidateCard.MatchSlotFor`. The card's own markup is not modelled beyond its match slot and colours, and both readings of that slot are given.
`CandidateCard.RenderedMatchSlot` is the as-written rendering.
`CandidateCard.MatchSlotDiffersOnlyAtZero` relates the two.

## Left out

- HTTP calls, `async`/`await`, the one-second status polling timer and the credit refresh after a search. Each reply is a method parameter and each poll tick is one `HandleStatus` call.
- Navigation callbacks (`onSearchComplete`, sidebar visibility and search-state notifications), `lastUpdated` and every `Date` or locale formatting.
- JSX markup, CSS, inline styles, the charts and the fixed statistic cards. Only the decisions that drive the markup are modelled.
- Math.random step ids. `AddStep` takes the new id as a parameter and requires that no step already uses it.
- Floating point: percentages, experience years and credits are integers, so NaN from `parseInt` and fractional values are not modelled. The experience select and the delay input take already-parsed integers.
- Character case: `ToLower` and `UpperChar` change ASCII letters only, not the full Unicode case mapping of `toLowerCase` and `toUpperCase`.
- CandidateCard.AvailabilityDot: keys that every JavaScript object inherits, such as `toString`, are not modelled. The colour table lookup would return a function for them, where the model gives grey.
- The search id is an `Option`, so a search id of 0, which the page treats as falsy, is not distinguished.
- The score select of the grid has no handler and no effect, so it is not modelled.
- The job-description tab of the search bar has no logic beyond markup.
- src/components/Sidebar.tsx, src/pages/LandingPage.tsx, src/components/Skeleton.tsx and src/App.tsx hold static markup only and are not part of this model. Neither is src/services/api.ts, the HTTP client.
