/**
 * The sign-up page as an object: the reducer-held form state, the request's
 * async state, the requests sent and the token written to local storage. Its
 * methods are the page's event handlers; `signUpHandler`, which awaits the
 * HTTP call, is split at the `await` into Submit and Settle.
 */
module SignUpForm {
  import opened Wrappers
  import opened SignUpState
  import opened Validation

  /** ASYNC_STATE as the page uses it (the source spells the first member IDEL). */
  datatype AsyncState = Idle | Loading | Redirect | Error

  /**
   * How the sign-up request ended: a response whose body carries a session
   * token, or anything that reaches the `catch` (an HTTP error, or a body
   * that does not destructure).
   */
  datatype Response = Accepted(token: string) | Rejected

  /** The action the edit handlers dispatch first, to clear the error. */
  const ClearError := Action(SetError.Code(), ErrorPayload(NoError))

  /** The action a failed submit dispatches. */
  function ReportError(e: SignUpError): Action {
    Action(SetError.Code(), ErrorPayload(e))
  }

  class SignUpPage {
    var form: FormState
    var asyncState: AsyncState
    /** The bodies posted to the sign-up endpoint, oldest first. */
    var sent: seq<FormData>
    /** localStorage's `token` entry. */
    var storedToken: Option<string>
    /** Every action dispatched to the reducer, oldest first. */
    ghost var dispatched: seq<Action>

    /**
     * The page is idle exactly until its first request, it redirects exactly
     * when a token has been stored, every body sent is the four-field one, and
     * an active error is the one the current form's first broken rule reports
     * (only a failed submit raises an error, and every edit clears it).
     */
    ghost predicate Valid()
      reads this
    {
      && (asyncState == Idle <==> sent == [])
      && (asyncState == Redirect <==> storedToken.Some?)
      && (forall j :: 0 <= j < |sent| ==> Keys(sent[j]) == PayloadKeys)
      && (form.error.status ==> FirstBroken(form).Some? && form.error == ErrorFor(FirstBroken(form).value))
    }

    constructor ()
      ensures Valid()
      ensures form == Initial && asyncState == Idle && sent == [] && storedToken == None
      ensures dispatched == []
    {
      form := Initial;
      asyncState := Idle;
      sent := [];
      storedToken := None;
      dispatched := [];
    }

    /** `dispatch`: the page only dispatches members of the enum, so the reducer never throws here. */
    method Dispatch(a: Action)
      requires ActionOfCode(a.code).Some?
      modifies this`form, this`dispatched
      ensures form == Reduce(old(form), a).value
      ensures dispatched == old(dispatched) + [a]
    {
      var r := Reduce(form, a);
      form := r.value;
      dispatched := dispatched + [a];
    }

    /** A text input's `onInputChangeHandler`: clear the error, then set the field. */
    method EditText(f: Input, v: string)
      requires Valid() && f.IsText()
      modifies this`form, this`dispatched
      ensures Valid()
      ensures form.error == NoError
      ensures TextOf(form, f) == v
      ensures forall g: Input :: g.IsText() && g != f ==> TextOf(form, g) == TextOf(old(form), g)
      ensures form.profile == old(form.profile)
      ensures dispatched == old(dispatched) + [ClearError, SetText(f, v)]
    {
      SetErrorReplacesError(form, NoError);
      Dispatch(ClearError);
      SetTextChangesOnlyThatField(form, f, v);
      Dispatch(SetText(f, v));
    }

    /** The uploader's `imageUploadHandler`: clear the error, then set the profile. */
    method UploadProfile(file: File)
      requires Valid()
      modifies this`form, this`dispatched
      ensures Valid()
      ensures form == old(form).(profile := Some(file), error := NoError)
      ensures dispatched == old(dispatched) + [ClearError, Action(SetProfile.Code(), FilePayload(file))]
    {
      SetErrorReplacesError(form, NoError);
      Dispatch(ClearError);
      SetProfileChangesOnlyProfile(form, file);
      Dispatch(Action(SetProfile.Code(), FilePayload(file)));
    }

    /**
     * `signUpHandler` up to its `await`. The button is disabled while loading
     * and the page is replaced by a redirect once it redirects, so it runs
     * only from Idle or Error. A broken rule reports its error and changes
     * nothing else; otherwise the body is built, the page goes to Loading and
     * the request is sent.
     */
    method Submit() returns (request: Option<FormData>)
      requires Valid() && (asyncState == Idle || asyncState == Error)
      modifies this
      ensures Valid()
      ensures storedToken == old(storedToken)
      ensures old(form.error.status) ==> request.None? && sent == old(sent) && asyncState == old(asyncState)
      ensures FirstBroken(old(form)).Some? ==>
        && form == old(form).(error := ErrorFor(FirstBroken(old(form)).value))
        && dispatched == old(dispatched) + [ReportError(ErrorFor(FirstBroken(old(form)).value))]
        && asyncState == old(asyncState)
        && sent == old(sent)
        && request.None?
      ensures FirstBroken(old(form)).None? ==>
        && form == old(form)
        && dispatched == old(dispatched)
        && asyncState == Loading
        && request.Some? && CarriesForm(request.value, old(form))
        && sent == old(sent) + [request.value]
    {
      var broken := FirstBroken(form);
      if broken.Some? {
        var error := ErrorFor(broken.value);
        SetErrorReplacesError(form, error);
        assert forall r: Rule :: Violates(form.(error := error), r) == Violates(form, r);
        Dispatch(ReportError(error));
        return None;
      }
      PassingFormHasProfile(form);
      var body := BuildFormData(form);
      asyncState := Loading;
      sent := sent + [body];
      request := Some(body);
    }

    /** `signUpHandler` after its `await`: store the token and redirect, or fall to the error state. */
    method Settle(response: Response)
      requires Valid() && asyncState == Loading
      modifies this
      ensures Valid()
      ensures form == old(form) && sent == old(sent) && dispatched == old(dispatched)
      ensures response.Accepted? ==> asyncState == Redirect && storedToken == Some(response.token)
      ensures response.Rejected? ==> asyncState == Error && storedToken == old(storedToken)
    {
      match response
      case Accepted(token) =>
        storedToken := Some(token);
        asyncState := Redirect;
      case Rejected =>
        asyncState := Error;
    }
  }

  /**
   * A full sign-up through the handlers: the form passes every rule, exactly one request is sent, and on success the token is stored and
   * the page redirects.
   */
  method WorkedExample(file: File, token: string)
  {
    var page := new SignUpPage();
    page.EditText(NameInput, "Jane Doe Smith");
    page.EditText(EmailInput, "jane@gmail.com");
    page.EditText(PasswordInput, "secret1");
    page.EditText(ConfirmPasswordInput, "secret1");
    page.UploadProfile(file);
    assert page.form == FormState("Jane Doe Smith", "jane@gmail.com", Some(file), "secret1", "secret1", NoError);
    WorkedExamplePasses(file);
    var request := page.Submit();
    assert request.Some? && |page.sent| == 1 && page.asyncState == Loading;
    page.Settle(Accepted(token));
    assert page.asyncState == Redirect && page.storedToken == Some(token);
  }
}
