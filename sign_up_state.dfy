/**
 * The sign-up form's state, its action enum and its reducer: a pure update
 * `(state, action) -> state` that checks the payload's kind before copying
 * the state with one field replaced.
 */
module SignUpState {
  import opened Wrappers

  /** The SignUpActions enum. TypeScript numbers its members 0 to 5 in declaration order. */
  datatype SignUpAction = SetName | SetEmail | SetProfile | SetPassword | SetConfirmPassword | SetError {
    function Code(): nat {
      match this
      case SetName => 0
      case SetEmail => 1
      case SetProfile => 2
      case SetPassword => 3
      case SetConfirmPassword => 4
      case SetError => 5
    }
  }

  /** The enum member a number stands for; a numeric enum type admits any number, so there may be none. */
  function ActionOfCode(n: int): (r: Option<SignUpAction>)
    ensures r.Some? <==> 0 <= n < 6
    ensures r.Some? ==> r.value.Code() == n
  {
    if n == 0 then Some(SetName)
    else if n == 1 then Some(SetEmail)
    else if n == 2 then Some(SetProfile)
    else if n == 3 then Some(SetPassword)
    else if n == 4 then Some(SetConfirmPassword)
    else if n == 5 then Some(SetError)
    else None
  }

  /** Every enum member is found again from its number. */
  lemma CodeRoundTrip(a: SignUpAction)
    ensures ActionOfCode(a.Code()) == Some(a)
  {
  }

  /** A browser `File`, known only by its identity. */
  datatype File = File(handle: nat)

  /** A SignUpError: the field it is about (if any), its message, and whether it is active. */
  datatype SignUpError = SignUpError(kind: Option<SignUpAction>, message: string, status: bool)

  /** `new SignUpError(undefined, "", false)`, which the edit handlers dispatch to clear the error. */
  const NoError := SignUpError(None, "", false)

  /** ISignUpUser; the profile is `null` or a File. */
  datatype FormState = FormState(
    name: string,
    email: string,
    profile: Option<File>,
    password: string,
    confirmPassword: string,
    error: SignUpError)

  /** The reducer's initial state. */
  const Initial := FormState("", "", None, "", "", NoError)

  /** The payload union `string | SignUpError | File`. */
  datatype Payload = TextPayload(text: string) | FilePayload(file: File) | ErrorPayload(error: SignUpError)

  datatype Action = Action(code: int, payload: Payload)

  const UnimplementedMessage := "Unimplemented method"

  /** The payload kind each known action takes: a File for SET_PROFILE, a SignUpError for SET_ERROR, a string otherwise. */
  predicate Accepts(kind: SignUpAction, p: Payload) {
    match kind
    case SetProfile => p.FilePayload?
    case SetError => p.ErrorPayload?
    case _ => p.TextPayload?
  }

  /** The reducer. Its `default` branch throws, which is the Failure here. */
  function Reduce(s: FormState, a: Action): (r: Result<FormState, string>)
    ensures r.Failure? <==> !(0 <= a.code < 6)
    ensures r.Failure? ==> r.error == UnimplementedMessage
    ensures r.Success? && !Accepts(ActionOfCode(a.code).value, a.payload) ==> r.value == s
  {
    match ActionOfCode(a.code)
    case None => Failure(UnimplementedMessage)
    case Some(SetName) =>
      if a.payload.TextPayload? then Success(s.(name := a.payload.text)) else Success(s)
    case Some(SetEmail) =>
      if a.payload.TextPayload? then Success(s.(email := a.payload.text)) else Success(s)
    case Some(SetProfile) =>
      if a.payload.FilePayload? then Success(s.(profile := Some(a.payload.file))) else Success(s)
    case Some(SetPassword) =>
      if a.payload.TextPayload? then Success(s.(password := a.payload.text)) else Success(s)
    case Some(SetConfirmPassword) =>
      if a.payload.TextPayload? then Success(s.(confirmPassword := a.payload.text)) else Success(s)
    case Some(SetError) =>
      if a.payload.ErrorPayload? then Success(s.(error := a.payload.error)) else Success(s)
  }

  /** The form's inputs. Each is edited by, and its label reacts to errors tagged with, one action. */
  datatype Input = NameInput | EmailInput | ProfileInput | PasswordInput | ConfirmPasswordInput {
    function Action(): (k: SignUpAction)
      ensures k != SetError
    {
      match this
      case NameInput => SetName
      case EmailInput => SetEmail
      case ProfileInput => SetProfile
      case PasswordInput => SetPassword
      case ConfirmPasswordInput => SetConfirmPassword
    }

    predicate IsText() {
      this != ProfileInput
    }
  }

  /** The text an input holds. */
  function TextOf(s: FormState, f: Input): string
    requires f.IsText()
  {
    match f
    case NameInput => s.name
    case EmailInput => s.email
    case PasswordInput => s.password
    case ConfirmPasswordInput => s.confirmPassword
  }

  /** The action an input dispatches with a string payload. */
  function SetText(f: Input, v: string): Action {
    Action(f.Action().Code(), TextPayload(v))
  }

  /**
   * A string payload for a text field's action sets exactly that field: every
   * other text field, the profile and the error are left as they were.
   */
  lemma SetTextChangesOnlyThatField(s: FormState, f: Input, v: string)
    requires f.IsText()
    ensures Reduce(s, SetText(f, v)).Success?
    ensures var t := Reduce(s, SetText(f, v)).value;
      && TextOf(t, f) == v
      && (forall g: Input :: g.IsText() && g != f ==> TextOf(t, g) == TextOf(s, g))
      && t.profile == s.profile
      && t.error == s.error
  {
  }

  /** A File for SET_PROFILE sets the profile and nothing else. */
  lemma SetProfileChangesOnlyProfile(s: FormState, file: File)
    ensures Reduce(s, Action(SetProfile.Code(), FilePayload(file))) == Success(s.(profile := Some(file)))
  {
  }

  /** A SignUpError for SET_ERROR replaces the error wholesale and nothing else. */
  lemma SetErrorReplacesError(s: FormState, e: SignUpError)
    ensures Reduce(s, Action(SetError.Code(), ErrorPayload(e))) == Success(s.(error := e))
  {
  }

  /** Dispatching the same action twice is the same as dispatching it once. */
  lemma ReduceIdempotent(s: FormState, a: Action)
    requires Reduce(s, a).Success?
    ensures Reduce(Reduce(s, a).value, a) == Reduce(s, a)
  {
  }
}
