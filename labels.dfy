/**
 * What each input shows: its label is the error message when the active error
 * is tagged with that input's action, and its fixed caption otherwise; the
 * four text inputs also turn red.
 */
module Labels {
  import opened Wrappers
  import opened SignUpState
  import opened Validation

  /** The caption an input shows when no error is about it (the typo in the confirmation caption is the page's). */
  function DefaultLabel(f: Input): string {
    match f
    case NameInput => "Full name"
    case EmailInput => "Email"
    case PasswordInput => "Password"
    case ConfirmPasswordInput => "Confrim Password"
    case ProfileInput => "User Profile[Optional]"
  }

  /** `error.status && error.type === <the input's action>`. */
  predicate Flags(e: SignUpError, f: Input) {
    e.status && e.kind == Some(f.Action())
  }

  /** The input's `labelText`. */
  function Label(e: SignUpError, f: Input): (l: string)
    ensures Flags(e, f) ==> l == e.message
    ensures !Flags(e, f) ==> l == DefaultLabel(f)
  {
    if e.status && e.kind == Some(f.Action()) then e.message else DefaultLabel(f)
  }

  /** A text input's `color`; the profile uploader has none. */
  function Color(e: SignUpError, f: Input): (c: string)
    requires f.IsText()
    ensures c == "red" <==> Flags(e, f)
    ensures c == "" <==> !Flags(e, f)
  {
    if e.status && e.kind == Some(f.Action()) then "red" else ""
  }

  /** A text input's `borderBottomColor`. */
  function BorderColor(e: SignUpError, f: Input): (c: string)
    requires f.IsText()
    ensures c == "border-b-red-400" <==> Flags(e, f)
    ensures c == "" <==> !Flags(e, f)
  {
    if e.status && e.kind == Some(f.Action()) then "border-b-red-400" else ""
  }

  /** Inputs are told apart by their actions, so one error flags at most one input. */
  lemma AtMostOneInputFlagged(e: SignUpError, f: Input, g: Input)
    requires Flags(e, f) && Flags(e, g)
    ensures f == g
  {
  }

  /** The error the edit handlers dispatch flags no input: every label is its caption and nothing is red. */
  lemma ClearedErrorShowsCaptions(f: Input)
    ensures Label(NoError, f) == DefaultLabel(f)
    ensures f.IsText() ==> Color(NoError, f) == "" && BorderColor(NoError, f) == ""
  {
  }

  /** The input whose value a rule checks. */
  function InputOf(rule: Rule): (f: Input)
    ensures f.Action() == rule.Field()
  {
    match rule
    case NameRule => NameInput
    case EmailRule => EmailInput
    case ProfileRule => ProfileInput
    case PasswordRule => PasswordInput
    case ConfirmRule => ConfirmPasswordInput
  }

  /**
   * On the form a submit leaves after stopping at the first broken rule of
   * `s`, the input that rule checks shows the rule's message and every other
   * input shows its caption.
   */
  lemma FailedSubmitFlagsOnlyRuleInput(s: FormState, f: Input)
    requires FirstBroken(s).Some?
    ensures var rule := FirstBroken(s).value;
      Label(s.(error := ErrorFor(rule)).error, f) == if f == InputOf(rule) then rule.Message() else DefaultLabel(f)
  {
    var rule := FirstBroken(s).value;
    if f != InputOf(rule) {
      assert f.Action() != rule.Field();
    }
  }
}
