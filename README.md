# Sign-up form controller

This project models the sign-up page of a team/task collaboration front-end
(`src/pages/Sign-Up.tsx`). It covers these parts of the page:

- **Form state.** A controlled form holds name, email, profile file, password,
  confirmation and the current `SignUpError`. A reducer updates that state,
  keyed by the `SignUpActions` enum.
- **Submit validation.** The submit handler checks five rules in a fixed order
  and reports the first one that fails as a field-tagged error.
- **Multipart body.** When every rule passes, the handler builds the request
  body.
- **Async state.** The page moves IDLE → LOADING → REDIRECT or ERROR around
  the request.
- **Edit handlers.** Each input's handler clears the error, then sets its
  field.
- **Labels.** Each input shows the error message only when the active error is
  tagged with that input.

The Dafny modules follow these pieces:

- `Wrappers` (`wrappers.dfy`): `Option` stands for `null`/`undefined`, and
  `Result` stands for a thrown error.
- `JsString` (`js_string.dfy`): `String.prototype.trim` and the JavaScript
  `length`. `trim` removes ECMAScript WhiteSpace and LineTerminator code points
  from both ends. `length` counts UTF-16 code units, so a code point above
  U+FFFF counts twice.
- `EmailPattern` (`email_pattern.dfy`): the email rule's regular expression
  `/\b\D+\w*@gmail.com/` as an existential predicate over match positions.
  Because `test` is unanchored, the match may start and end anywhere. The
  unescaped `.` matches any single UTF-16 code unit except a line terminator,
  so it matches a character only if that character is in the Basic
  Multilingual Plane. We keep this permissive pattern exactly as written and
  make it no stricter.
- `SignUpState` (`sign_up_state.dfy`): `SignUpActions`, `SignUpError`,
  `ISignUpUser`, `initial` and the reducer. The action type is the enum's
  number, because TypeScript numeric enums admit any number; a number outside
  the enum is the reducer's `throw`, modelled as `Failure`. The payload union
  `string | SignUpError | File` is a datatype. A `File` is an opaque handle.
- `Validation` (`validation.dfy`): the five rules, their messages, the
  early-return chain, and the `FormData` body. The body is an ordered list of
  appended entries, and `Lookup` is `FormData.get`.
- `Labels` (`labels.dfy`): `labelText`, `color` and `borderBottomColor` of
  each input.
- `SignUpForm` (`sign_up_form.dfy`): the page as a class. It holds the form
  state, `asyncState`, the bodies sent, the stored token, and a ghost log of
  dispatched actions. `signUpHandler` awaits the HTTP call, so it is split at
  its `await`:
  - `Submit` validates and then either reports the error or goes to LOADING
    and sends the body.
  - `Settle` takes the abstract outcome of the call.

  A `WorkedExample` client method calls each handler once, in order, and asserts
  the outcome.

Four behaviours of the code worth knowing:

- Submit works from ERROR as well as IDLE, which is how the retry works.
- The email rule is the unanchored pattern above, not a `local@gmail.com`
  shape.
- Lengths are those of the trimmed strings.
- The confirmation check compares the untrimmed strings.

Two things about the page stand out:

- The profile uploader's caption reads "User Profile[Optional]", but the third
  rule rejects a form without a profile.
- The confirmation caption is spelled "Confrim Password".

Both are modelled as written.

## Model

| member | source | states |
|---|---|---|
| `SignUpState.ActionOfCode` | src/pages/Sign-Up.tsx:28-35 | a number names an enum member exactly when it is 0..5, and that member's number is the given one |
| `SignUpState.CodeRoundTrip` | src/pages/Sign-Up.tsx:28-35 | every enum member is recovered from its number |
| `SignUpState.Reduce` | src/pages/Sign-Up.tsx:46-103 | the reducer throws, with "Unimplemented method", if and only if the action number is outside 0..5; for a known action, a payload of the wrong kind (a non-string for a text action, a non-File for SET_PROFILE, a non-SignUpError for SET_ERROR) returns the state unchanged |
| `SignUpState.SetTextChangesOnlyThatField` | src/pages/Sign-Up.tsx:55-90 | for SET_NAME, SET_EMAIL, SET_PASSWORD and SET_CONFIRM_PASSWORD with a string, that field gets the string; every other text field, the profile and the error are unchanged |
| `SignUpState.SetProfileChangesOnlyProfile` | src/pages/Sign-Up.tsx:70-75 | SET_PROFILE with a File sets the profile and nothing else |
| `SignUpState.SetErrorReplacesError` | src/pages/Sign-Up.tsx:92-98 | SET_ERROR with a SignUpError replaces the whole error and nothing else |
| `SignUpState.ReduceIdempotent` | src/pages/Sign-Up.tsx:46-103 | dispatching the same accepted action twice gives the same state as once |
| `JsString.TrimStart` | src/pages/Sign-Up.tsx:125 | the result is no longer than the input and does not start with a trimmable code point |
| `JsString.TrimEnd` | src/pages/Sign-Up.tsx:125 | the result is no longer than the input and does not end with a trimmable code point |
| `JsString.TrimStartIsSuffix` | src/pages/Sign-Up.tsx:125 | the leading trim keeps a suffix of the input and drops only trimmable code points |
| `JsString.TrimEndIsPrefix` | src/pages/Sign-Up.tsx:125 | the trailing trim keeps a prefix of the input and drops only trimmable code points |
| `JsString.Trim` | src/pages/Sign-Up.tsx:125 | `trim()` gives a string with no trimmable code point at either end, no longer than the input |
| `JsString.TrimEmptyIffBlank` | src/pages/Sign-Up.tsx:125 | `trim()` is empty if and only if every code point of the input is trimmable |
| `JsString.TrimOfPadded` | src/pages/Sign-Up.tsx:125 | a core with non-trimmable ends, surrounded by trimmable code points, trims to exactly that core |
| `JsString.TrimIgnoresPadding` | src/pages/Sign-Up.tsx:155 | adding trimmable code points around any string does not change its `trim()` |
| `JsString.TrimIdempotent` | src/pages/Sign-Up.tsx:155 | trimming twice is trimming once |
| `JsString.Utf16Length` | src/pages/Sign-Up.tsx:125 | the JavaScript length lies between the number of code points and twice that |
| `JsString.Utf16LengthIsLengthIffBmp` | src/pages/Sign-Up.tsx:155 | the JavaScript length equals the number of code points if and only if no code point is above U+FFFF |
| `EmailPattern.MatchNeedsGmail` | src/pages/Sign-Up.tsx:134 | a matching string is at least 11 characters long and holds `@gmail`, a wildcard character and `com` after at least one character |
| `EmailPattern.EmptyNeverMatches` | src/pages/Sign-Up.tsx:134 | the empty string does not match, so the extra `!email` test never changes the rule's outcome |
| `EmailPattern.MatchExtendsRight` | src/pages/Sign-Up.tsx:134 | the pattern is unanchored at the end: appending anything to a matching string keeps it matching |
| `EmailPattern.AcceptsPlainGmail` | src/pages/Sign-Up.tsx:134 | `jane@gmail.com` matches |
| `EmailPattern.AcceptsAnyDotChar` | src/pages/Sign-Up.tsx:134 | the unescaped dot accepts `jane@gmailxcom` |
| `EmailPattern.AcceptsSurroundingText` | src/pages/Sign-Up.tsx:134 | text before and after an address is accepted (`to: jane@gmail.com.evil`) |
| `EmailPattern.RejectsDigitLocalPart` | src/pages/Sign-Up.tsx:134 | `123@gmail.com` does not match |
| `Validation.ErrorFor` | src/pages/Sign-Up.tsx:125-173 | each rule reports an active error tagged with its field's action and carrying that rule's message |
| `Validation.DistinctRulesReportDistinctErrors` | src/pages/Sign-Up.tsx:125-173 | two different rules never report the same field or the same message |
| `Validation.FirstBroken` | src/pages/Sign-Up.tsx:125-173 | no rule is reported exactly when the form breaks none; a reported rule is broken and every rule checked before it holds |
| `Validation.ReportsFirstBrokenRule` | src/pages/Sign-Up.tsx:125-173 | a broken rule is the one reported if and only if every earlier rule holds |
| `Validation.PassingFormHasProfile` | src/pages/Sign-Up.tsx:145-154 | a form that passes every rule has a profile, so `formData.append("profile", profile)` gets a File |
| `Validation.PaddingDoesNotMatterForLengthRules` | src/pages/Sign-Up.tsx:155 | whitespace around the name or the password never changes the outcome of the name and password length rules |
| `Validation.ConfirmComparesUntrimmed` | src/pages/Sign-Up.tsx:155-173 | with name and email valid and a profile present, password `"abcdef "` and confirmation `"abcdef"` pass the length rule but stop at the confirmation rule |
| `Validation.WorkedExamplePasses` | src/pages/Sign-Up.tsx:125-173 | name "Jane Doe Smith", email "jane@gmail.com", a profile and "secret1" twice pass every rule |
| `Validation.CarriedFormOmitsConfirmAndError` | src/pages/Sign-Up.tsx:175-179 | the request body has no `confirmPassword` and no `error` entry |
| `Validation.CarriedFormIsUnique` | src/pages/Sign-Up.tsx:175-179 | the body is determined by the form: two bodies that carry the same form are equal |
| `Validation.BuildFormData` | src/pages/Sign-Up.tsx:175-179 | the appended body has exactly the keys name, email, profile, password in that order, each holding the form's value |
| `Labels.Label` | src/pages/Sign-Up.tsx:232-236 | an input's label is the error message when the error is active and tagged with that input's action, and its fixed caption otherwise (the same at 259-263, 287-292, 317-322, 351-356) |
| `Labels.Color` | src/pages/Sign-Up.tsx:237-241 | a text input is red if and only if the error is active and tagged with it |
| `Labels.BorderColor` | src/pages/Sign-Up.tsx:242-246 | a text input has the red bottom border if and only if the error is active and tagged with it |
| `Labels.AtMostOneInputFlagged` | src/pages/Sign-Up.tsx:232-236 | one error flags at most one input |
| `Labels.ClearedErrorShowsCaptions` | src/pages/Sign-Up.tsx:248-252 | after the edit handlers' clearing error, every input shows its caption and none is red |
| `Labels.FailedSubmitFlagsOnlyRuleInput` | src/pages/Sign-Up.tsx:125-173 | after a submit stopped at a rule, that rule's input shows the rule's message and every other input shows its caption |
| `SignUpForm.SignUpPage.constructor` | src/pages/Sign-Up.tsx:111-115 | the page starts with the initial form, IDLE, nothing sent and no token |
| `SignUpForm.SignUpPage.Dispatch` | src/pages/Sign-Up.tsx:111 | `dispatch` replaces the form state by the reducer's result and logs the action |
| `SignUpForm.SignUpPage.EditText` | src/pages/Sign-Up.tsx:248-254 | a text input's handler dispatches the clearing error and then the field's action: afterwards the error is cleared, the field holds the new value and the other fields are unchanged (the same at 275-281, 306-312, 336-345) |
| `SignUpForm.SignUpPage.UploadProfile` | src/pages/Sign-Up.tsx:357-363 | the uploader's handler clears the error, then sets the profile, and changes nothing else |
| `SignUpForm.SignUpPage.Submit` | src/pages/Sign-Up.tsx:119-184 | if a rule fails, its error is dispatched and nothing else changes: asyncState stays, no request is sent; otherwise the form is unchanged, asyncState becomes LOADING and exactly one body carrying the form is sent; while an error is active no request is sent, since the page keeps any active error equal to the one the form's first broken rule reports |
| `SignUpForm.SignUpPage.Settle` | src/pages/Sign-Up.tsx:183-204 | from LOADING, a success stores the token and goes to REDIRECT, a failure goes to ERROR; the form and the requests are unchanged |

`SignUpPage.Valid` is established by the constructor and kept by `EditText`,
`UploadProfile`, `Submit` and `Settle`. `Dispatch`, the raw reducer call they
use, promises nothing about it. It says four things:

- The page is IDLE exactly until its first request.
- It is in REDIRECT exactly when a token has been stored.
- Every body sent has the four payload keys.
- An active error is the one the current form's first broken rule reports.

## Left out

- src/pages/TeamBox.tsx and src/components/TaskMember.tsx: presentational markup with no state or rules (a `slice(0, 4)`, a string fallback and an image/placeholder branch).
- The HTTP call: `axios.post`, its URL, headers and multipart encoding, and the response's shape. They are replaced by the abstract `Response` passed to `Settle`.
- `userDispatch(setUser(...))` and the `userData.loggedIn` redirect (src/pages/Sign-Up.tsx:116): the global store is not part of this model.
- `<Navigate>` rendering (src/pages/Sign-Up.tsx:116-117): REDIRECT is a state, and nothing is rendered.
- React plumbing (`useId`, `useReducer`, `useState`), `e.preventDefault()`, `console.log` and `console.warn`, CSS class strings, and the Google button, which has no handler.
- The `Input` and `ImageUploader` components are not part of this model. `UploadProfile` takes a File, because what the uploader passes to its handler cannot be seen.
- Strings are sequences of Unicode scalar values, so JavaScript strings holding lone surrogates cannot be expressed.
- The rest of the regular-expression engine: only this one pattern is modelled, by its match positions.
- SignUpForm.SignUpPage.Submit: requires that the page is IDLE or ERROR. While LOADING the submit button is disabled (src/pages/Sign-Up.tsx:368), and in REDIRECT the form is not rendered (src/pages/Sign-Up.tsx:117). A second submit during a request is therefore not modelled.
- SignUpForm.SignUpPage.Dispatch: requires a number inside the enum. The page's handlers dispatch only enum members, and the reducer's throw is modelled by `SignUpState.Reduce` alone.
- Interleaving: React batches the two dispatches of an edit handler and the state snapshot that `signUpHandler` reads. The model applies each handler atomically to the current state.
