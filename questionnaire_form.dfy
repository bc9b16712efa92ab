/** The questionnaire page's form: when the action's reply raises an error
    toast, when the result panel replaces the placeholder, the submit
    button while the action is pending, and the copy button's `copied`
    flag with its reset timer. */
module QuestionnaireForm {
  import opened Text
  import opened Actions

  /** The state before the first reply. */
  const InitialState: QuestionnaireState := QuestionnaireState("", None)

  datatype Toast = Toast(title: string, description: string, destructive: bool)

  /** The toast effect, run for each new state: a destructive toast with the
      message, unless the message is empty or 'success'. */
  function ToastFor(state: QuestionnaireState): (t: Option<Toast>)
    ensures t.Some? <==> state.message != "" && state.message != Success
    ensures t.Some? ==> t.value == Toast("Error", state.message, true)
  {
    if state.message != "" && state.message != Success then Some(Toast("Error", state.message, true))
    else None
  }

  /** `state.questionnaire ?`: the result panel is shown for a present,
      non-empty questionnaire, the placeholder otherwise. */
  predicate PanelShown(state: QuestionnaireState) {
    state.questionnaire.Some? && state.questionnaire.value != ""
  }

  /** The first render shows the placeholder and no toast. */
  lemma InitialQuiet()
    ensures ToastFor(InitialState).None? && !PanelShown(InitialState)
  {
  }

  /** For every reply of the action, exactly one of the two happens: an
      error toast carrying the reply's message, or the result panel with the
      generated text. */
  lemma ToastOrPanel(prev: QuestionnaireState, entry: FormEntry, generator: QuestionnaireOutcome)
    ensures var state := HandleGenerateQuestionnaire(prev, entry, generator).state;
            (ToastFor(state).Some? <==> !PanelShown(state)) &&
            (ToastFor(state).Some? ==> StartsWith(ToastFor(state).value.description, ErrorPrefix)) &&
            (PanelShown(state) <==> generator.Generated? && generator.questionnaire != [] &&
                                    ParseJobDescription(entry).Valid?)
  {
    ReplyShape(prev, entry, generator);
  }

  /** The submit button: disabled, and reading 'Generating...', exactly
      while the form's action is pending. */
  datatype SubmitButton = SubmitButton(disabled: bool, caption: string)

  function SubmitButtonFor(pending: bool): (b: SubmitButton)
    ensures b.disabled <==> pending
    ensures b.caption == (if pending then "Generating..." else "Generate Questionnaire")
  {
    SubmitButton(pending, if pending then "Generating..." else "Generate Questionnaire")
  }

  /** The copy button's state: the flag, the reset timers not yet fired,
      and the texts written to the clipboard. */
  datatype CopyState = CopyState(copied: bool, pendingResets: nat, clipboard: seq<string>)

  /** `onCopy`: writes the text, sets the flag and schedules a reset. */
  function Copy(s: CopyState, text: string): (r: CopyState)
    ensures r.copied && r.pendingResets == s.pendingResets + 1 && r.clipboard == s.clipboard + [text]
  {
    CopyState(true, s.pendingResets + 1, s.clipboard + [text])
  }

  /** A scheduled reset fires and clears the flag. */
  function ResetFires(s: CopyState): (r: CopyState)
    ensures s.pendingResets > 0 ==> !r.copied && r.pendingResets == s.pendingResets - 1
    ensures s.pendingResets == 0 ==> r == s
    ensures r.clipboard == s.clipboard
  {
    if s.pendingResets > 0 then s.(copied := false, pendingResets := s.pendingResets - 1) else s
  }

  /** A copy followed by its reset leaves the flag cleared and the timers as
      before. */
  lemma CopyThenReset(s: CopyState, text: string)
    ensures ResetFires(Copy(s, text)) == CopyState(false, s.pendingResets, s.clipboard + [text])
  {
  }

  /** Two copies in quick succession: the first copy's reset clears the
      flag although the second copy's timer has not fired. */
  lemma EarlyReset(text: string)
    ensures var s := ResetFires(Copy(Copy(CopyState(false, 0, []), text), text));
            !s.copied && s.pendingResets == 1
  {
  }

  /** The copy button as a component instance. */
  class CopyButton {
    var copied: bool
    var pendingResets: nat
    var clipboard: seq<string>

    function Snapshot(): CopyState
      reads this
    {
      CopyState(copied, pendingResets, clipboard)
    }

    constructor ()
      ensures Snapshot() == CopyState(false, 0, [])
    {
      copied, pendingResets, clipboard := false, 0, [];
    }

    /** `onCopy`, writing the `textToCopy` prop as it is at the click: the
        prop follows the latest questionnaire while the mounted button keeps
        its flag and its timers. */
    method OnCopy(textToCopy: string)
      modifies this
      ensures Snapshot() == Copy(old(Snapshot()), textToCopy)
    {
      clipboard := clipboard + [textToCopy];
      copied := true;
      pendingResets := pendingResets + 1;
    }

    method ResetTimerFires()
      modifies this
      ensures Snapshot() == ResetFires(old(Snapshot()))
    {
      if pendingResets > 0 {
        copied := false;
        pendingResets := pendingResets - 1;
      }
    }
  }
}
