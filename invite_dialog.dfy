/**
 * The invite-code dialog (src/components/inviteCodeDialog.jsx): its two
 * state fields and the submit, close and edit handlers. `onSubmit` is
 * replaced by its outcome; the dialog's state lives on while it is closed.
 */
module InviteDialog {
  import opened Wrappers
  import opened JsText

  const EmptyCodeError: string := "请输入邀请码"
  const DefaultError: string := "邀请码验证失败"
  const HomePath: string := "/"

  /** How the awaited `onSubmit` ended: resolved, or threw an error with this `message`. */
  datatype SubmitOutcome = Accepted | Refused(message: string)

  /** What the dialog shows: nothing when closed, otherwise the input and the error line. */
  datatype View = View(inviteCode: string, error: string)

  function Render(isOpen: bool, inviteCode: string, error: string): (r: Option<View>)
    ensures r.None? <==> !isOpen
    ensures r.Some? ==> r.value == View(inviteCode, error)
  {
    if isOpen then Some(View(inviteCode, error)) else None
  }

  /** `err.message || '邀请码验证失败'`. */
  function RefusalText(message: string): (r: string)
    ensures r != ""
    ensures message != "" ==> r == message
  {
    if message != "" then message else DefaultError
  }

  class Dialog {
    var inviteCode: string
    var error: string

    constructor()
      ensures inviteCode == "" && error == ""
    {
      inviteCode, error := "", "";
    }

    /**
     * `handleSubmit`: a blank code only shows the empty-code error and calls
     * nothing; otherwise `onSubmit` gets the trimmed code, success clears the
     * input and a refusal shows its message, keeping the input.
     */
    method HandleSubmit(outcome: SubmitOutcome) returns (submitted: Option<string>)
      modifies this
      ensures submitted.None? <==> IsBlank(old(inviteCode))
      ensures submitted.None? ==> error == EmptyCodeError && inviteCode == old(inviteCode)
      ensures submitted.Some? ==> submitted.value == Trim(old(inviteCode))
      ensures submitted.Some? && outcome.Accepted? ==> inviteCode == "" && error == ""
      ensures submitted.Some? && outcome.Refused? ==>
        inviteCode == old(inviteCode) && error == RefusalText(outcome.message)
    {
      error := "";
      TrimEmptyIffBlank(inviteCode);
      if Trim(inviteCode) == "" {
        error := EmptyCodeError;
        return None;
      }
      submitted := Some(Trim(inviteCode));
      match outcome {
        case Accepted =>
          inviteCode := "";
        case Refused(message) =>
          error := RefusalText(message);
      }
    }

    /** `handleClose`: both fields are cleared, `onClose` runs and the app goes home. */
    method HandleClose() returns (closeCalled: bool, navigateTo: string)
      modifies this
      ensures inviteCode == "" && error == ""
      ensures closeCalled && navigateTo == HomePath
    {
      inviteCode, error := "", "";
      closeCalled, navigateTo := true, HomePath;
    }

    /** The input's `onChange`: the typed text is stored as is and the error is cleared. */
    method OnChange(value: string)
      modifies this
      ensures inviteCode == value && error == ""
    {
      inviteCode, error := value, "";
    }
  }

  /** What reaches `onSubmit` is never blank and carries no surrounding whitespace. */
  lemma SubmittedCodeTrimmed(code: string)
    requires !IsBlank(code)
    ensures var t := Trim(code); t != [] && !IsSpace(t[0]) && !IsSpace(t[|t| - 1])
  {
    TrimEmptyIffBlank(code);
    var lo, hi := TrimIsSlice(code);
  }
}
