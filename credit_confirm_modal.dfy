/** src/components/CreditConfirmModal.tsx: one comparison, whether the available
    credits cover the cost, decides the warning, the confirm button and its label. */
module CreditConfirmModal {
  import opened Common

  /** What the open modal shows. */
  datatype Prompt = Prompt(showWarning: bool, confirmDisabled: bool, confirmLabel: string)

  const ConfirmText := "Confirm & Search"
  const LowCreditsText := "Low Credits"

  /** `hasEnough`. */
  predicate HasEnough(cost: int, availableCredits: int) {
    availableCredits >= cost
  }

  /** The modal: nothing when closed; otherwise the insufficient-credits warning and a
      disabled "Low Credits" button exactly when the credits do not cover the cost,
      and an enabled "Confirm & Search" button exactly when they do. */
  function Render(isOpen: bool, cost: int, availableCredits: int): (r: Option<Prompt>)
    ensures r.Some? <==> isOpen
    ensures r.Some? ==> (r.value.showWarning <==> availableCredits < cost)
    ensures r.Some? ==> (r.value.confirmDisabled <==> availableCredits < cost)
    ensures r.Some? ==> (r.value.confirmLabel == ConfirmText <==> availableCredits >= cost)
    ensures r.Some? ==> (r.value.confirmLabel == LowCreditsText <==> availableCredits < cost)
  {
    if !isOpen then None
    else
      var enough := HasEnough(cost, availableCredits);
      Some(Prompt(!enough, !enough, if enough then ConfirmText else LowCreditsText))
  }

  /** The label always tells the truth about the button: it reads "Confirm & Search"
      exactly when the button can be pressed. */
  lemma LabelMatchesButton(isOpen: bool, cost: int, availableCredits: int)
    requires isOpen
    ensures var p := Render(isOpen, cost, availableCredits).value;
      p.confirmLabel == ConfirmText <==> !p.confirmDisabled
  {
  }
}
