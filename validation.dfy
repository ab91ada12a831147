/**
 * The checks `signUpHandler` runs before sending anything, and the multipart
 * payload it builds when they all pass.
 */
module Validation {
  import opened Wrappers
  import opened JsString
  import opened EmailPattern
  import opened SignUpState

  /** The five submit rules, in the order the handler checks them. */
  datatype Rule = NameRule | EmailRule | ProfileRule | PasswordRule | ConfirmRule {
    function Rank(): nat {
      match this
      case NameRule => 0
      case EmailRule => 1
      case ProfileRule => 2
      case PasswordRule => 3
      case ConfirmRule => 4
    }

    /** The action the rule's error is tagged with. */
    function Field(): SignUpAction {
      match this
      case NameRule => SetName
      case EmailRule => SetEmail
      case ProfileRule => SetProfile
      case PasswordRule => SetPassword
      case ConfirmRule => SetConfirmPassword
    }

    function Message(): string {
      match this
      case NameRule => "User full name can't be less that 7 characters!"
      case EmailRule => "Please provide valid email!"
      case ProfileRule => "Please provide profile!"
      case PasswordRule => "Please provide strong password greater than 5 symbols!"
      case ConfirmRule => "Please confirm your password"
    }
  }

  /**
   * Whether the form breaks a rule. Lengths are JavaScript lengths of the
   * trimmed text; the confirmation is compared with the password untrimmed.
   */
  predicate Violates(s: FormState, rule: Rule) {
    match rule
    case NameRule => Utf16Length(Trim(s.name)) < 7
    case EmailRule => !Matches(s.email) || s.email == ""
    case ProfileRule => s.profile.None?
    case PasswordRule => Utf16Length(Trim(s.password)) < 6
    case ConfirmRule => s.password != s.confirmPassword
  }

  /** The active, field-tagged error a broken rule reports. */
  function ErrorFor(rule: Rule): (e: SignUpError)
    ensures e.status && e.kind == Some(rule.Field()) && e.message == rule.Message()
  {
    SignUpError(Some(rule.Field()), rule.Message(), true)
  }

  /** Each rule signals its own error: no two rules report the same field or the same message. */
  lemma DistinctRulesReportDistinctErrors(r1: Rule, r2: Rule)
    requires r1 != r2
    ensures ErrorFor(r1).kind != ErrorFor(r2).kind
    ensures ErrorFor(r1).message != ErrorFor(r2).message
  {
  }

  /**
   * The early-return chain of `signUpHandler`: the first rule the form breaks,
   * in checking order, or None when it breaks none.
   */
  function FirstBroken(s: FormState): (r: Option<Rule>)
    ensures r.None? <==> forall rule: Rule :: !Violates(s, rule)
    ensures r.Some? ==> Violates(s, r.value)
    ensures r.Some? ==> forall earlier: Rule :: earlier.Rank() < r.value.Rank() ==> !Violates(s, earlier)
  {
    if Violates(s, NameRule) then Some(NameRule)
    else if Violates(s, EmailRule) then Some(EmailRule)
    else if Violates(s, ProfileRule) then Some(ProfileRule)
    else if Violates(s, PasswordRule) then Some(PasswordRule)
    else if Violates(s, ConfirmRule) then Some(ConfirmRule)
    else None
  }

  /** A form that passes every rule has a profile, so its body can be built. */
  lemma PassingFormHasProfile(s: FormState)
    requires FirstBroken(s).None?
    ensures s.profile.Some?
  {
    assert !Violates(s, ProfileRule);
  }

  /** A broken rule is the one reported exactly when every earlier rule holds. */
  lemma ReportsFirstBrokenRule(s: FormState, rule: Rule)
    requires Violates(s, rule)
    ensures FirstBroken(s) == Some(rule) <==>
      forall earlier: Rule :: earlier.Rank() < rule.Rank() ==> !Violates(s, earlier)
  {
  }

  /** Whitespace around the name or the password never changes the outcome of the name and password length rules. */
  lemma PaddingDoesNotMatterForLengthRules(s: FormState, a: string, c: string)
    requires AllTrimmable(a) && AllTrimmable(c)
    ensures Violates(s.(name := a + s.name + c), NameRule) == Violates(s, NameRule)
    ensures Violates(s.(password := a + s.password + c), PasswordRule) == Violates(s, PasswordRule)
  {
    TrimIgnoresPadding(a, s.name, c);
    TrimIgnoresPadding(a, s.password, c);
  }

  /**
   * The confirmation is compared untrimmed: "abcdef " passes the password length
   * rule but is not confirmed by "abcdef".
   */
  lemma ConfirmComparesUntrimmed(s: FormState)
    requires !Violates(s, NameRule) && !Violates(s, EmailRule) && s.profile.Some?
    requires s.password == "abcdef " && s.confirmPassword == "abcdef"
    ensures FirstBroken(s) == Some(ConfirmRule)
  {
    TrimKeepsTrimmed("abcdef", " ");
    assert "abcdef" + " " == "abcdef ";
    assert !Violates(s, PasswordRule);
  }

  /** A trimmed string followed by trimmable code points trims back to itself. */
  lemma TrimKeepsTrimmed(b: string, c: string)
    requires IsTrimmed(b) && AllTrimmable(c)
    ensures Trim(b + c) == b
  {
    assert [] + b + c == b + c;
    TrimOfPadded([], b, c);
  }

  /** A filled-in form (name "Jane Doe Smith", email "jane@gmail.com", a profile, "secret1" twice) passes every rule. */
  lemma WorkedExamplePasses(file: File)
    ensures FirstBroken(FormState("Jane Doe Smith", "jane@gmail.com", Some(file), "secret1", "secret1", NoError)).None?
  {
    var s := FormState("Jane Doe Smith", "jane@gmail.com", Some(file), "secret1", "secret1", NoError);
    NameRuleOfTrimmed(s);
    EmailRuleOfExample(s);
    PasswordRuleOfTrimmed(s);
  }

  lemma NameRuleOfTrimmed(s: FormState)
    requires s.name == "Jane Doe Smith"
    ensures !Violates(s, NameRule)
  {
    TrimKeepsTrimmed(s.name, "");
    assert s.name + "" == s.name;
  }

  lemma EmailRuleOfExample(s: FormState)
    requires s.email == "jane@gmail.com"
    ensures !Violates(s, EmailRule)
  {
    AcceptsPlainGmail();
  }

  lemma PasswordRuleOfTrimmed(s: FormState)
    requires s.password == "secret1"
    ensures !Violates(s, PasswordRule)
  {
    TrimKeepsTrimmed(s.password, "");
    assert s.password + "" == s.password;
  }

  /** One value of a multipart body: text, or a file. */
  datatype FormValue = TextValue(text: string) | FileValue(file: File)

  /** A FormData as its entries in the order they were appended. */
  type FormData = seq<(string, FormValue)>

  function Keys(d: FormData): (ks: seq<string>)
    ensures |ks| == |d| && forall j :: 0 <= j < |d| ==> ks[j] == d[j].0
  {
    if d == [] then [] else [d[0].0] + Keys(d[1..])
  }

  /** `FormData.get`: the first value stored under `key`. */
  function Lookup(d: FormData, key: string): (v: Option<FormValue>)
    ensures v.None? <==> key !in Keys(d)
  {
    if d == [] then None else if d[0].0 == key then Some(d[0].1) else Lookup(d[1..], key)
  }

  /** The fields the request carries, in order. */
  const PayloadKeys := ["name", "email", "profile", "password"]

  /** `d` is the body built from form `s`: its four fields in order, each holding the form's value. */
  predicate CarriesForm(d: FormData, s: FormState) {
    && Keys(d) == PayloadKeys
    && Lookup(d, "name") == Some(TextValue(s.name))
    && Lookup(d, "email") == Some(TextValue(s.email))
    && s.profile.Some? && Lookup(d, "profile") == Some(FileValue(s.profile.value))
    && Lookup(d, "password") == Some(TextValue(s.password))
  }

  /** The confirmation and the error never leave the form. */
  lemma CarriedFormOmitsConfirmAndError(d: FormData, s: FormState)
    requires CarriesForm(d, s)
    ensures Lookup(d, "confirmPassword").None? && Lookup(d, "error").None?
  {
    assert "confirmPassword" !in PayloadKeys;
    assert "error" !in PayloadKeys;
  }

  /** The body is determined by the form. */
  lemma CarriedFormIsUnique(d1: FormData, d2: FormData, s: FormState)
    requires CarriesForm(d1, s) && CarriesForm(d2, s)
    ensures d1 == d2
  {
    forall j | 0 <= j < |d1|
      ensures d1[j] == d2[j]
    {
      assert d1[j].0 == d2[j].0 == PayloadKeys[j];
      LookupAtDistinctKey(d1, j);
      LookupAtDistinctKey(d2, j);
    }
  }

  /** Entries before position `n` whose keys differ from `key` are passed over by `Lookup`. */
  lemma {:induction false} LookupSkips(d: FormData, key: string, n: nat)
    requires n <= |d|
    requires forall i :: 0 <= i < n ==> d[i].0 != key
    ensures Lookup(d, key) == Lookup(d[n..], key)
  {
    if n > 0 {
      assert d[1..][n - 1..] == d[n..];
      LookupSkips(d[1..], key, n - 1);
    }
  }

  /** With the payload's keys, which are distinct, looking up the key at position `j` finds the value at `j`. */
  lemma LookupAtDistinctKey(d: FormData, j: nat)
    requires Keys(d) == PayloadKeys && j < |d|
    ensures Lookup(d, d[j].0) == Some(d[j].1)
  {
    assert forall i :: 0 <= i < |d| ==> d[i].0 == PayloadKeys[i];
    LookupSkips(d, d[j].0, j);
    assert d[j..][0] == d[j];
  }

  /** The successive `formData.append` calls of a submit that passed validation. */
  method BuildFormData(s: FormState) returns (d: FormData)
    requires s.profile.Some?
    ensures CarriesForm(d, s)
  {
    d := [];
    d := d + [("name", TextValue(s.name))];
    d := d + [("email", TextValue(s.email))];
    d := d + [("profile", FileValue(s.profile.value))];
    d := d + [("password", TextValue(s.password))];
    assert Keys(d) == PayloadKeys by {
      assert forall j :: 0 <= j < |d| ==> Keys(d)[j] == PayloadKeys[j];
    }
    LookupAtDistinctKey(d, 0);
    LookupAtDistinctKey(d, 1);
    LookupAtDistinctKey(d, 2);
    LookupAtDistinctKey(d, 3);
  }
}
