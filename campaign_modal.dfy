/** src/components/CampaignModal.tsx: the sequence builder. It keeps a campaign name,
    an ordered list of email and delay steps with distinct ids, and the id of the
    step being edited. */
module CampaignModal {
  import opened Common
  import opened JsString
  import opened JsArray

  datatype StepType = Email | Delay

  /** `SequenceStep`: an email step uses subject and content, a delay step uses
      `delayDays`; all three are optional. */
  datatype Step = Step(
    id: string,
    kind: StepType,
    subject: Option<string>,
    content: Option<string>,
    delayDays: Option<int>)

  /** The fields an edit may set (`Partial<SequenceStep>` as the editor builds it):
      a present field replaces the step's own. */
  datatype StepUpdate = StepUpdate(subject: Option<string>, content: Option<string>, delayDays: Option<int>)

  /** What saving hands over. */
  datatype Draft = Draft(name: string, steps: seq<Step>)

  /** The step the builder starts with. */
  const FirstStep := Step("1", Email, Some("Initial Outreach"), Some("Hi {{name}}, ..."), None)

  predicate HasId(steps: seq<Step>, id: string) {
    exists i :: 0 <= i < |steps| && steps[i].id == id
  }

  /** No two steps share an id. */
  predicate DistinctIds(steps: seq<Step>) {
    forall i, j :: 0 <= i < j < |steps| ==> steps[i].id != steps[j].id
  }

  // ---------------------------------------------------------------------------
  // lookup

  /** The index `find` stops at: the first step with the id, if any. */
  function FindStep(steps: seq<Step>, id: string): (r: Option<nat>)
    ensures r.Some? ==> r.value < |steps| && steps[r.value].id == id
    ensures r.Some? ==> forall j :: 0 <= j < r.value ==> steps[j].id != id
    ensures r.None? <==> !HasId(steps, id)
    decreases |steps|
  {
    if steps == [] then None
    else if steps[0].id == id then Some(0)
    else
      match FindStep(steps[1..], id)
      case None => (assert forall j :: 1 <= j < |steps| ==> steps[j] == steps[1..][j - 1]; None)
      case Some(k) => Some(k + 1)
  }

  /** `activeStep`: the step with the active id, or the first step when no step has
      it. */
  function ActiveStepOf(steps: seq<Step>, activeId: string): (r: Step)
    requires |steps| > 0
    ensures HasId(steps, activeId) ==> r.id == activeId && r in steps
    ensures !HasId(steps, activeId) ==> r == steps[0]
  {
    match FindStep(steps, activeId)
    case Some(i) => steps[i]
    case None => steps[0]
  }

  /** With distinct ids the active step is the only step with the active id. */
  lemma ActiveStepUnique(steps: seq<Step>, activeId: string, i: int)
    requires |steps| > 0 && DistinctIds(steps)
    requires 0 <= i < |steps| && steps[i].id == activeId
    ensures ActiveStepOf(steps, activeId) == steps[i]
  {
    var k := FindStep(steps, activeId).value;
    assert !(k < i) && !(i < k);
  }

  // ---------------------------------------------------------------------------
  // update

  function Merge(s: Step, u: StepUpdate): (r: Step)
    ensures r.id == s.id && r.kind == s.kind
    ensures r.subject == (if u.subject.Some? then u.subject else s.subject)
    ensures r.content == (if u.content.Some? then u.content else s.content)
    ensures r.delayDays == (if u.delayDays.Some? then u.delayDays else s.delayDays)
  {
    s.(subject := if u.subject.Some? then u.subject else s.subject,
       content := if u.content.Some? then u.content else s.content,
       delayDays := if u.delayDays.Some? then u.delayDays else s.delayDays)
  }

  /** `updateStep`'s new list: the update merged into the steps with the id, every
      other step as it was, in the same order. */
  function UpdateSteps(steps: seq<Step>, id: string, u: StepUpdate): (r: seq<Step>)
    ensures |r| == |steps|
    ensures forall i :: 0 <= i < |steps| && steps[i].id != id ==> r[i] == steps[i]
    ensures forall i :: 0 <= i < |steps| && steps[i].id == id ==> r[i] == Merge(steps[i], u)
  {
    seq(|steps|, i requires 0 <= i < |steps| => if steps[i].id == id then Merge(steps[i], u) else steps[i])
  }

  /** An update keeps every id in its place, so it keeps the ids distinct and the
      same ids present. */
  lemma UpdateKeepsIds(steps: seq<Step>, id: string, u: StepUpdate, other: string)
    ensures forall i :: 0 <= i < |steps| ==> UpdateSteps(steps, id, u)[i].id == steps[i].id
    ensures DistinctIds(steps) ==> DistinctIds(UpdateSteps(steps, id, u))
    ensures HasId(UpdateSteps(steps, id, u), other) <==> HasId(steps, other)
  {
    var r := UpdateSteps(steps, id, u);
    assert forall i :: 0 <= i < |steps| ==> r[i].id == steps[i].id;
  }

  // ---------------------------------------------------------------------------
  // add

  /** The step `addStep` appends: an empty email, or a two-day delay. */
  function NewStep(kind: StepType, newId: string): (r: Step)
    ensures r.id == newId && r.kind == kind
    ensures kind == Email ==> r.subject == Some([]) && r.content == Some([]) && r.delayDays.None?
    ensures kind == Delay ==> r.delayDays == Some(2) && r.subject.None? && r.content.None?
  {
    match kind
    case Email => Step(newId, Email, Some([]), Some([]), None)
    case Delay => Step(newId, Delay, None, None, Some(2))
  }

  /** Appending a step with an unused id keeps the ids distinct. */
  lemma AppendKeepsDistinct(steps: seq<Step>, s: Step)
    requires DistinctIds(steps) && !HasId(steps, s.id)
    ensures DistinctIds(steps + [s])
  {
  }

  // ---------------------------------------------------------------------------
  // remove

  function Keep(id: string): Step -> bool {
    (s: Step) => s.id != id
  }

  /** The steps without those that have `id`, in their order. */
  function RemoveById(steps: seq<Step>, id: string): (r: seq<Step>)
    ensures IsSubsequence(r, steps)
    ensures forall s :: s in r <==> s in steps && s.id != id
  {
    FilterIsSubsequence(steps, Keep(id));
    forall s ensures s in Filter(steps, Keep(id)) <==> s in steps && s.id != id {
      FilterMembership(steps, Keep(id), s);
    }
    Filter(steps, Keep(id))
  }

  /** A filter of a list with distinct ids has distinct ids. */
  lemma {:induction false} FilterKeepsDistinct(steps: seq<Step>, keep: Step -> bool)
    requires DistinctIds(steps)
    ensures DistinctIds(Filter(steps, keep))
    decreases |steps|
  {
    if steps != [] {
      var rest := Filter(steps[1..], keep);
      FilterKeepsDistinct(steps[1..], keep);
      if keep(steps[0]) {
        forall k | 0 <= k < |rest| ensures rest[k].id != steps[0].id {
          FilterMembership(steps[1..], keep, rest[k]);
          var j :| 0 <= j < |steps[1..]| && steps[1..][j] == rest[k];
          assert steps[j + 1] == rest[k];
        }
        var r := Filter(steps, keep);
        assert r == [steps[0]] + rest;
        forall i, j | 0 <= i < j < |r| ensures r[i].id != r[j].id {
          if i == 0 {
            assert r[j] == rest[j - 1];
          } else {
            assert r[i] == rest[i - 1] && r[j] == rest[j - 1];
          }
        }
      }
    }
  }

  /** Removing one id from two or more steps with distinct ids leaves a non-empty
      list with distinct ids, none of which is the removed one. */
  lemma RemoveLeavesSteps(steps: seq<Step>, id: string)
    requires |steps| >= 2 && DistinctIds(steps)
    ensures |RemoveById(steps, id)| > 0
    ensures DistinctIds(RemoveById(steps, id))
    ensures !HasId(RemoveById(steps, id), id)
  {
    FilterKeepsDistinct(steps, Keep(id));
    var kept := if steps[0].id != id then steps[0] else steps[1];
    assert kept in RemoveById(steps, id);
    var r := RemoveById(steps, id);
    forall i | 0 <= i < |r| ensures r[i].id != id {
      assert r[i] in r;
    }
  }

  /** A step that stays is still found after the removal. */
  lemma RemoveKeepsOthers(steps: seq<Step>, id: string, other: string)
    requires other != id
    ensures HasId(RemoveById(steps, id), other) <==> HasId(steps, other)
  {
    var r := RemoveById(steps, id);
    if HasId(steps, other) {
      var i :| 0 <= i < |steps| && steps[i].id == other;
      assert steps[i] in r;
      var j :| 0 <= j < |r| && r[j] == steps[i];
    }
    if HasId(r, other) {
      var j :| 0 <= j < |r| && r[j].id == other;
      assert r[j] in steps;
      var i :| 0 <= i < |steps| && steps[i] == r[j];
    }
  }

  // ---------------------------------------------------------------------------
  // labels

  /** The number in a delay label; an absent value prints as `undefined`. */
  function DelayText(days: Option<int>): string {
    if days.Some? then NumberToString(days.value) else "undefined"
  }

  /** The name a step has in the step list: an email's subject, or `New Email` while
      the subject is empty; a delay as `Wait N days`. */
  function StepLabel(s: Step): (r: string)
    ensures s.kind == Email && NonEmpty(s.subject) ==> r == s.subject.value
    ensures s.kind == Email && !NonEmpty(s.subject) ==> r == "New Email"
    ensures s.kind == Delay ==>
      |r| >= 10 && r[..5] == "Wait " && r[|r| - 5..] == " days" && r[5..|r| - 5] == DelayText(s.delayDays)
  {
    match s.kind
    case Email => if NonEmpty(s.subject) then s.subject.value else "New Email"
    case Delay => "Wait " + DelayText(s.delayDays) + " days"
  }

  /** The remove button is offered only while there is more than one step. */
  predicate ShowRemove(steps: seq<Step>) {
    |steps| > 1
  }

  /** `removeStep`'s new list: a single step stays; otherwise the steps with the id
      go. */
  function AfterRemove(steps: seq<Step>, id: string): seq<Step> {
    if |steps| == 1 then steps else RemoveById(steps, id)
  }

  /** Removing a listed id from steps with distinct ids removes exactly one step. */
  lemma {:induction false} RemoveOneLength(steps: seq<Step>, id: string)
    requires DistinctIds(steps) && HasId(steps, id)
    ensures |RemoveById(steps, id)| == |steps| - 1
    decreases |steps|
  {
    var rest := steps[1..];
    assert forall j :: 0 <= j < |rest| ==> rest[j] == steps[j + 1];
    if steps[0].id == id {
      FilterKeepsAll(rest, Keep(id));
    } else {
      var i :| 0 <= i < |steps| && steps[i].id == id;
      assert rest[i - 1].id == id;
      RemoveOneLength(rest, id);
      assert RemoveById(steps, id) == [steps[0]] + RemoveById(rest, id);
    }
  }

  /** The remove button and `removeStep` agree: where the button is not offered a
      removal changes nothing, and where it is, clicking it on a listed step takes
      away exactly that step and leaves a non-empty list with distinct ids. */
  lemma RemoveButtonGuard(steps: seq<Step>, id: string)
    requires |steps| > 0 && DistinctIds(steps)
    ensures !ShowRemove(steps) ==> AfterRemove(steps, id) == steps
    ensures ShowRemove(steps) ==> AfterRemove(steps, id) == RemoveById(steps, id)
    ensures ShowRemove(steps) ==>
      |AfterRemove(steps, id)| > 0 && DistinctIds(AfterRemove(steps, id)) && !HasId(AfterRemove(steps, id), id)
    ensures ShowRemove(steps) && HasId(steps, id) ==> |AfterRemove(steps, id)| == |steps| - 1
  {
    if ShowRemove(steps) {
      RemoveLeavesSteps(steps, id);
      if HasId(steps, id) {
        RemoveOneLength(steps, id);
      }
    }
  }

  // ---------------------------------------------------------------------------
  // the builder

  class SequenceBuilder {
    var name: string
    var steps: seq<Step>
    var activeStepId: string

    /** There is always a step, and ids are distinct. */
    ghost predicate Valid()
      reads this
    {
      |steps| > 0 && DistinctIds(steps)
    }

    /** The active id names one of the steps. */
    ghost predicate ActiveListed()
      reads this
    {
      HasId(steps, activeStepId)
    }

    /** A new builder: no name, the single initial email step, which is active. */
    constructor ()
      ensures Valid() && ActiveListed()
      ensures name == [] && steps == [FirstStep] && activeStepId == "1"
    {
      name := [];
      steps := [FirstStep];
      activeStepId := "1";
      new;
      assert steps[0].id == activeStepId;
    }

    /** The step shown in the editor. */
    function ActiveStep(): Step
      reads this
      requires Valid()
    {
      ActiveStepOf(steps, activeStepId)
    }

    method SetName(newName: string)
      modifies this`name
      ensures name == newName
    {
      name := newName;
    }

    /** A click on a step in the list makes it active. */
    method SelectStep(id: string)
      modifies this`activeStepId
      ensures activeStepId == id
      ensures ActiveListed() <==> HasId(steps, id)
    {
      activeStepId := id;
    }

    /** `updateStep(id, updates)`. */
    method UpdateStep(id: string, u: StepUpdate)
      requires Valid()
      modifies this`steps
      ensures steps == UpdateSteps(old(steps), id, u)
      ensures Valid()
      ensures ActiveListed() <==> old(ActiveListed())
    {
      UpdateKeepsIds(steps, id, u, activeStepId);
      steps := UpdateSteps(steps, id, u);
    }

    /** `addStep(kind)`, with the fresh id given: the new step goes at the end and
        becomes active. */
    method AddStep(kind: StepType, newId: string)
      requires Valid() && !HasId(steps, newId)
      modifies this`steps, this`activeStepId
      ensures steps == old(steps) + [NewStep(kind, newId)]
      ensures activeStepId == newId
      ensures Valid() && ActiveListed()
    {
      AppendKeepsDistinct(steps, NewStep(kind, newId));
      steps := steps + [NewStep(kind, newId)];
      activeStepId := newId;
      assert steps[|steps| - 1].id == newId;
    }

    /** `removeStep(id)`: nothing happens to a single step; otherwise the steps with
        the id go, and if the active step went the first remaining step becomes
        active. */
    method RemoveStep(id: string)
      requires Valid()
      modifies this`steps, this`activeStepId
      ensures Valid()
      ensures steps == AfterRemove(old(steps), id)
      ensures |old(steps)| == 1 ==> steps == old(steps) && activeStepId == old(activeStepId)
      ensures |old(steps)| > 1 ==> steps == RemoveById(old(steps), id)
      ensures |old(steps)| > 1 ==>
        activeStepId == if old(activeStepId) == id then steps[0].id else old(activeStepId)
      ensures old(ActiveListed()) ==> ActiveListed()
    {
      if |steps| == 1 {
        return;
      }
      RemoveLeavesSteps(steps, id);
      if activeStepId != id {
        RemoveKeepsOthers(steps, id, activeStepId);
      }
      var newSteps := RemoveById(steps, id);
      steps := newSteps;
      if activeStepId == id {
        activeStepId := newSteps[0].id;
        assert steps[0].id == activeStepId;
      }
    }

    /** "Save Sequence": the name and the steps as they are. */
    method Save() returns (draft: Draft)
      ensures draft.name == name && draft.steps == steps
    {
      draft := Draft(name, steps);
    }
  }
}
