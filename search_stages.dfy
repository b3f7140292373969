/** src/components/SearchStages.tsx: the icon for a stage's status and the list of
    stage rows shown while a search runs. */
module SearchStages {
  import opened Common
  import opened CandidateTypes

  const Tick := "✓"
  const Spinner := "⟳"
  const Cross := "✗"
  const Circle := "○"

  /** `getStatusIcon(status)`: a tick for completed, a spinner for loading, a cross
      for failed and a circle for anything else. */
  function StatusIcon(status: string): (r: string)
    ensures status == "completed" ==> r == Tick
    ensures status == "loading" ==> r == Spinner
    ensures status == "failed" ==> r == Cross
    ensures r == Circle <==> status != "completed" && status != "loading" && status != "failed"
  {
    if status == "completed" then Tick
    else if status == "loading" then Spinner
    else if status == "failed" then Cross
    else Circle
  }

  /** The four statuses a stage can have get four different icons; `pending` is the
      one that falls through to the circle. */
  lemma StatusIconsDistinct(a: StageStatus, b: StageStatus)
    ensures StatusIcon(StageStatusName(Pending)) == Circle
    ensures StatusIcon(StageStatusName(a)) == StatusIcon(StageStatusName(b)) <==> a == b
  {
  }

  /** The icon read through the stage status type: the circle exactly for `pending`
      and for a string that is no status, and otherwise the icon of the status the
      string names. */
  lemma StatusIconReadsStatus(status: string)
    ensures StatusIcon(status) == Circle <==>
      ParseStageStatus(status).None? || ParseStageStatus(status) == Some(Pending)
    ensures ParseStageStatus(status).Some? ==>
      StatusIcon(status) == StatusIcon(StageStatusName(ParseStageStatus(status).value))
  {
  }

  /** One row of the list: the icon, the stage name and whether a loader is drawn. */
  datatype StageRow = StageRow(icon: string, name: string, showLoader: bool)

  /** One row per stage, in the order of the stages, with a loader only on the
      stages that are loading. */
  function Rows(stages: seq<SearchStage>): (rows: seq<StageRow>)
    ensures |rows| == |stages|
    ensures forall i :: 0 <= i < |stages| ==>
      rows[i].name == stages[i].name && rows[i].icon == StatusIcon(StageStatusName(stages[i].status))
    ensures forall i :: 0 <= i < |stages| ==> (rows[i].showLoader <==> stages[i].status == Loading)
  {
    seq(|stages|, i requires 0 <= i < |stages| =>
      StageRow(StatusIcon(StageStatusName(stages[i].status)), stages[i].name, stages[i].status == Loading))
  }

  /** Rows only carry a loader where the icon is the spinner. */
  lemma LoaderOnlyWithSpinner(stages: seq<SearchStage>, i: int)
    requires 0 <= i < |stages|
    ensures Rows(stages)[i].showLoader <==> Rows(stages)[i].icon == Spinner
  {
    assert StageStatusName(stages[i].status) == "loading" <==> stages[i].status == Loading;
  }
}
