/**
 * The sign-up form (frontend/screens/SignUp.js): the five text fields, the field-by-field
 * error map that `validateForm` rebuilds on every submission, the "clear this field's error"
 * update of `handleChange`, and the gating of `handleSubmit`.
 */
module SignUp {
  import opened Wrappers
  import opened Strings

  datatype Field = FirstName | LastName | Email | Password | ConfirmPassword

  const AllFields: set<Field> := {FirstName, LastName, Email, Password, ConfirmPassword}

  /** `formData`: every field holds the text of its input. */
  datatype SignUpForm = SignUpForm(
    firstName: string, lastName: string, email: string, password: string, confirmPassword: string)
  {
    function Get(f: Field): string {
      match f
      case FirstName => firstName
      case LastName => lastName
      case Email => email
      case Password => password
      case ConfirmPassword => confirmPassword
    }

    /** The form with field `f` replaced by `v` and every other field kept. */
    function With(f: Field, v: string): (r: SignUpForm)
      ensures r.Get(f) == v
      ensures forall g :: g != f ==> r.Get(g) == Get(g)
    {
      match f
      case FirstName => this.(firstName := v)
      case LastName => this.(lastName := v)
      case Email => this.(email := v)
      case Password => this.(password := v)
      case ConfirmPassword => this.(confirmPassword := v)
    }
  }

  const EmptyForm := SignUpForm("", "", "", "", "")

  const FirstNameRequired := "First name is required"
  const LastNameRequired := "Last name is required"
  const EmailRequired := "Email is required"
  const EmailInvalid := "Email is invalid"
  const PasswordRequired := "Password is required"
  const PasswordTooShort := "Password must be at least 6 characters"
  const PasswordsDiffer := "Passwords do not match"

  const MinPasswordLength := 6

  // ---------------------------------------------------------------------------------------
  // The e-mail pattern `\S+@\S+\.\S+`, tested unanchored.

  ghost predicate AllNonWhitespace(s: string) {
    forall i | 0 <= i < |s| :: !IsJsWhitespace(s[i])
  }

  /** `t` splits as `\S+`, `@`, `\S+`, `.`, `\S+` with the `@` at `a` and the `.` at `d`. */
  ghost predicate EmailPartsAt(t: string, a: int, d: int) {
    && 0 < a && a + 1 < d && d + 1 < |t|
    && t[a] == '@' && t[d] == '.'
    && AllNonWhitespace(t[..a]) && AllNonWhitespace(t[a + 1..d]) && AllNonWhitespace(t[d + 1..])
  }

  /** `t` is in the language of `\S+@\S+\.\S+` as a whole. */
  ghost predicate InEmailLanguage(t: string) {
    exists a, d :: EmailPartsAt(t, a, d)
  }

  /** `regex.test(s)` for the unanchored pattern: some substring of `s` is in its language. */
  ghost predicate EmailRegexMatches(s: string) {
    exists i, j | 0 <= i <= j <= |s| :: InEmailLanguage(s[i..j])
  }

  /** The test at one `@` position `a` and one `.` position `d` of `s`: a non-space character
      before the `@`, only non-space characters between the two, and one after the `.`. */
  predicate EmailShapeAt(s: string, a: int, d: int) {
    && 1 <= a && a + 1 < d && d + 1 < |s|
    && s[a] == '@' && s[d] == '.'
    && !IsJsWhitespace(s[a - 1]) && !IsJsWhitespace(s[d + 1])
    && forall k | a < k < d :: !IsJsWhitespace(s[k])
  }

  /** The test the form applies, stated by positions. */
  predicate EmailLooksValid(s: string) {
    exists a, d | 1 <= a < |s| && a + 1 < d < |s| - 1 :: EmailShapeAt(s, a, d)
  }

  lemma EmailShapeGivesMatch(s: string, a: int, d: int)
    requires EmailShapeAt(s, a, d)
    ensures EmailRegexMatches(s)
  {
    var t := s[a - 1..d + 2];
    var a', d' := 1, d - a + 1;
    assert t[a'] == '@' && t[d'] == '.';
    assert AllNonWhitespace(t[..a']) by {
      assert t[..a'] == [s[a - 1]];
    }
    assert AllNonWhitespace(t[d' + 1..]) by {
      assert t[d' + 1..] == [s[d + 1]];
    }
    assert AllNonWhitespace(t[a' + 1..d']) by {
      var mid := t[a' + 1..d'];
      forall k | 0 <= k < |mid| ensures !IsJsWhitespace(mid[k]) {
        assert mid[k] == s[a + 1 + k];
      }
    }
    assert EmailPartsAt(t, a', d');
    assert InEmailLanguage(s[a - 1..d + 2]);
  }

  lemma MatchGivesEmailShape(s: string, i: int, j: int, a': int, d': int)
    requires 0 <= i <= j <= |s| && EmailPartsAt(s[i..j], a', d')
    ensures EmailShapeAt(s, i + a', i + d')
  {
    var t := s[i..j];
    var a, d := i + a', i + d';
    assert s[a - 1] == t[..a'][a' - 1];
    assert s[d + 1] == t[d' + 1..][0];
    forall k | a < k < d
      ensures !IsJsWhitespace(s[k])
    {
      assert s[k] == t[a' + 1..d'][k - a - 1];
    }
  }

  /** The positional test is exactly the regular expression's unanchored match. */
  lemma EmailCheckIsRegexTest(s: string)
    ensures EmailLooksValid(s) <==> EmailRegexMatches(s)
  {
    if EmailLooksValid(s) {
      var a, d :| 1 <= a < |s| && a + 1 < d < |s| - 1 && EmailShapeAt(s, a, d);
      EmailShapeGivesMatch(s, a, d);
    }
    if EmailRegexMatches(s) {
      var i, j :| 0 <= i <= j <= |s| && InEmailLanguage(s[i..j]);
      var a', d' :| EmailPartsAt(s[i..j], a', d');
      MatchGivesEmailShape(s, i, j, a', d');
      assert EmailShapeAt(s, i + a', i + d');
    }
  }

  /** The pattern is not anchored: an address with a space before the local part passes, one
      without a dot after the `@` does not. */
  lemma EmailCheckExamples()
    ensures EmailLooksValid("a b@c.d")
    ensures !EmailLooksValid("john@example")
  {
    assert EmailShapeAt("a b@c.d", 3, 5);
  }

  // ---------------------------------------------------------------------------------------
  // Validation.

  /** The error `validateForm` records for one field, if any. */
  function FieldError(form: SignUpForm, field: Field): (error: Option<string>)
    ensures error.Some? ==> error.value != ""
  {
    match field
    case FirstName => if Trim(form.firstName) == "" then Some(FirstNameRequired) else None
    case LastName => if Trim(form.lastName) == "" then Some(LastNameRequired) else None
    case Email =>
      if form.email == "" then Some(EmailRequired)
      else if !EmailLooksValid(form.email) then Some(EmailInvalid)
      else None
    case Password =>
      if form.password == "" then Some(PasswordRequired)
      else if Utf16Length(form.password) < MinPasswordLength then Some(PasswordTooShort)
      else None
    case ConfirmPassword => if form.password != form.confirmPassword then Some(PasswordsDiffer) else None
  }

  /** `newErrors`: one entry per field that has an error. */
  function FormErrors(form: SignUpForm): (errs: map<Field, string>)
    ensures forall f :: f in errs <==> FieldError(form, f).Some?
    ensures forall f | f in errs :: errs[f] == FieldError(form, f).value
  {
    map f | f in AllFields && FieldError(form, f).Some? :: FieldError(form, f).value
  }

  /** A name field has an error exactly when it is empty or all whitespace. */
  lemma NameErrorIffBlank(form: SignUpForm)
    ensures FirstName in FormErrors(form) <==> AllWhitespace(form.firstName)
    ensures LastName in FormErrors(form) <==> AllWhitespace(form.lastName)
  {
    TrimEmptyIffAllWhitespace(form.firstName);
    TrimEmptyIffAllWhitespace(form.lastName);
  }

  /** An empty address is "required"; any other is "invalid" exactly when the pattern finds no
      match in it. */
  lemma EmailErrorRules(form: SignUpForm)
    ensures form.email == "" ==> FieldError(form, Email) == Some(EmailRequired)
    ensures form.email != "" ==>
      (FieldError(form, Email) == Some(EmailInvalid) <==> !EmailRegexMatches(form.email))
    ensures form.email != "" ==> FieldError(form, Email) != Some(EmailRequired)
  {
    EmailCheckIsRegexTest(form.email);
  }

  /** A character that JavaScript stores as one UTF-16 code unit. */
  predicate InBasicPlane(c: char) {
    c as int <= 0xFFFF
  }

  lemma {:induction false} Utf16LengthOfBasicPlane(s: string)
    requires forall i | 0 <= i < |s| :: InBasicPlane(s[i])
    ensures Utf16Length(s) == |s|
  {
    if |s| > 0 {
      Utf16LengthOfBasicPlane(s[1..]);
    }
  }

  /** Among passwords of Basic Multilingual Plane characters, the empty one is "required", one
      of one to five characters is too short, and one of six or more is accepted. */
  lemma PasswordErrorRules(form: SignUpForm)
    requires forall i | 0 <= i < |form.password| :: InBasicPlane(form.password[i])
    ensures form.password == "" ==> FieldError(form, Password) == Some(PasswordRequired)
    ensures 0 < |form.password| < 6 ==> FieldError(form, Password) == Some(PasswordTooShort)
    ensures |form.password| >= 6 ==> FieldError(form, Password) == None
  {
    Utf16LengthOfBasicPlane(form.password);
  }

  /** The confirmation error depends on the two password fields alone: it is present exactly
      when they differ, whatever the other fields hold. */
  lemma ConfirmErrorIffDiffer(form: SignUpForm, other: SignUpForm)
    requires other.password == form.password && other.confirmPassword == form.confirmPassword
    ensures ConfirmPassword in FormErrors(form) <==> form.password != form.confirmPassword
    ensures ConfirmPassword in FormErrors(form) <==> ConfirmPassword in FormErrors(other)
  {
  }

  /** A form filled in correctly has no error at all. */
  lemma CompleteFormHasNoErrors(form: SignUpForm)
    requires !AllWhitespace(form.firstName) && !AllWhitespace(form.lastName)
    requires EmailRegexMatches(form.email)
    requires |form.password| >= 6 && forall i | 0 <= i < |form.password| :: InBasicPlane(form.password[i])
    requires form.confirmPassword == form.password
    ensures FormErrors(form) == map[]
  {
    NameErrorIffBlank(form);
    EmailErrorRules(form);
    PasswordErrorRules(form);
    forall f | f in FormErrors(form)
      ensures false
    {
    }
  }

  /** `m` holds exactly the errors of the fields in `done`. */
  ghost predicate ErrorsOf(form: SignUpForm, done: set<Field>, m: map<Field, string>) {
    && EntryAgrees(form, done, m, FirstName) && EntryAgrees(form, done, m, LastName)
    && EntryAgrees(form, done, m, Email) && EntryAgrees(form, done, m, Password)
    && EntryAgrees(form, done, m, ConfirmPassword)
  }

  /** The entry of `m` for `f` is that field's error when `f` is in `done`, and absent
      otherwise. */
  ghost predicate EntryAgrees(form: SignUpForm, done: set<Field>, m: map<Field, string>, f: Field) {
    && (f in m <==> f in done && FieldError(form, f).Some?)
    && (f in m ==> m[f] == FieldError(form, f).value)
  }

  /** `m` after the check of `f`: its error, if it has one, is recorded. */
  function WithFieldError(m: map<Field, string>, form: SignUpForm, f: Field): map<Field, string> {
    if FieldError(form, f).Some? then m[f := FieldError(form, f).value] else m
  }

  /** The five checks of `validateForm`, in their order, applied to an empty map. */
  function ChecksInOrder(form: SignUpForm): map<Field, string> {
    var m1 := WithFieldError(map[], form, FirstName);
    var m2 := WithFieldError(m1, form, LastName);
    var m3 := WithFieldError(m2, form, Email);
    var m4 := WithFieldError(m3, form, Password);
    WithFieldError(m4, form, ConfirmPassword)
  }

  /** Running the checks one after another builds exactly the error map. */
  lemma ChecksInOrderGiveFormErrors(form: SignUpForm)
    ensures ChecksInOrder(form) == FormErrors(form)
  {
    ChecksInOrderRecordAll(form);
    SameErrors(form, ChecksInOrder(form));
  }

  /** After the five checks, every field's entry is its error. */
  lemma ChecksInOrderRecordAll(form: SignUpForm)
    ensures ErrorsOf(form, AllFields, ChecksInOrder(form))
  {
    var m1 := WithFieldError(map[], form, FirstName);
    var m2 := WithFieldError(m1, form, LastName);
    var m3 := WithFieldError(m2, form, Email);
    var m4 := WithFieldError(m3, form, Password);
    assert ErrorsOf(form, {FirstName}, m1) by {
      RecordedError(form, {}, map[], FirstName, {FirstName});
    }
    assert ErrorsOf(form, {FirstName, LastName}, m2) by {
      RecordedError(form, {FirstName}, m1, LastName, {FirstName, LastName});
    }
    assert ErrorsOf(form, {FirstName, LastName, Email}, m3) by {
      RecordedError(form, {FirstName, LastName}, m2, Email, {FirstName, LastName, Email});
    }
    assert ErrorsOf(form, {FirstName, LastName, Email, Password}, m4) by {
      RecordedError(form, {FirstName, LastName, Email}, m3, Password, {FirstName, LastName, Email, Password});
    }
    RecordedError(form, {FirstName, LastName, Email, Password}, m4, ConfirmPassword, AllFields);
  }

  /** One `if` block of `validateForm`: the check of field `f`. */
  method RecordCheck(form: SignUpForm, f: Field, errs: map<Field, string>)
    returns (errs': map<Field, string>)
    ensures errs' == WithFieldError(errs, form, f)
  {
    errs' := errs;
    match f {
      case FirstName =>
        if Trim(form.firstName) == "" {
          errs' := errs[FirstName := FirstNameRequired];
        }
      case LastName =>
        if Trim(form.lastName) == "" {
          errs' := errs[LastName := LastNameRequired];
        }
      case Email =>
        if form.email == "" {
          errs' := errs[Email := EmailRequired];
        } else if !EmailLooksValid(form.email) {
          errs' := errs[Email := EmailInvalid];
        }
      case Password =>
        if form.password == "" {
          errs' := errs[Password := PasswordRequired];
        } else if Utf16Length(form.password) < MinPasswordLength {
          errs' := errs[Password := PasswordTooShort];
        }
      case ConfirmPassword =>
        if form.password != form.confirmPassword {
          errs' := errs[ConfirmPassword := PasswordsDiffer];
        }
    }
  }

  /** The body of `validateForm` up to `setErrors`: fills `newErrors` check by check. */
  method CollectErrors(form: SignUpForm) returns (newErrors: map<Field, string>)
    ensures newErrors == FormErrors(form)
  {
    newErrors := map[];
    newErrors := RecordCheck(form, FirstName, newErrors);
    newErrors := RecordCheck(form, LastName, newErrors);
    newErrors := RecordCheck(form, Email, newErrors);
    newErrors := RecordCheck(form, Password, newErrors);
    newErrors := RecordCheck(form, ConfirmPassword, newErrors);
    ChecksInOrderGiveFormErrors(form);
  }

  /** One more check done: its error, if any, is added and the other entries are kept. */
  lemma RecordedError(form: SignUpForm, done: set<Field>, m: map<Field, string>, f: Field, done': set<Field>)
    requires ErrorsOf(form, done, m) && f !in done && done' == done + {f}
    ensures ErrorsOf(form, done', WithFieldError(m, form, f))
  {
  }

  /** A map that agrees with every field's error is the error map. */
  lemma SameErrors(form: SignUpForm, m: map<Field, string>)
    requires ErrorsOf(form, AllFields, m)
    ensures m == FormErrors(form)
  {
    var e := FormErrors(form);
    forall f ensures (f in m <==> f in e) && (f in m ==> m[f] == e[f]) {
      assert EntryAgrees(form, AllFields, m, f) by {
        match f
        case FirstName =>
        case LastName =>
        case Email =>
        case Password =>
        case ConfirmPassword =>
      }
    }
    assert m.Keys == e.Keys;
  }

  /** The stored `errors` state: an entry is a message or `null`. */
  type ErrorState = map<Field, Option<string>>

  function Stored(errs: map<Field, string>): (r: ErrorState)
    ensures r.Keys == errs.Keys
    ensures forall f | f in r :: r[f] == Some(errs[f])
  {
    map f | f in errs :: Some(errs[f])
  }

  /** `errors[name]` is truthy: a non-empty message is stored for it. */
  predicate ErrorShown(errors: ErrorState, f: Field) {
    f in errors && errors[f].Some? && errors[f].value != ""
  }

  /** What `handleChange` does to the errors: the field's error becomes `null` when one is
      shown, and nothing else changes. */
  function ClearedError(errors: ErrorState, f: Field): (r: ErrorState)
    ensures !ErrorShown(r, f)
    ensures forall g | g != f :: (g in r <==> g in errors) && (g in r ==> r[g] == errors[g])
    ensures f in r <==> f in errors
    ensures !ErrorShown(errors, f) ==> r == errors
    ensures ErrorShown(errors, f) ==> r == errors[f := None]
  {
    if ErrorShown(errors, f) then errors[f := None] else errors
  }

  /** Typing into a field never brings an error back: a field whose error is not shown stays
      so after any edit of any field. */
  lemma EditsOnlyHideErrors(errors: ErrorState, f: Field, g: Field)
    requires !ErrorShown(errors, g)
    ensures !ErrorShown(ClearedError(errors, f), g)
  {
  }

  /** The result of pressing "Create Account". */
  datatype SubmitStart =
    | Disabled     // the button is disabled while a submission is in progress
    | Rejected     // validation failed; the errors are now shown
    | Submitting   // the simulated request has started

  /** How the simulated request ends: navigation to 'MainTabs', or the error alert when that
      navigation throws. */
  datatype SubmitEffect = NavigateMainTabs | ErrorAlert(message: string)

  const SignUpFailed := "An error occurred during sign up"

  class SignUpScreen {
    var formData: SignUpForm
    var errors: ErrorState
    var isLoading: bool

    constructor ()
      ensures formData == EmptyForm && errors == map[] && !isLoading
    {
      formData := EmptyForm;
      errors := map[];
      isLoading := false;
    }

    /** `validateForm`: the stored errors are replaced wholesale by the new map, and the form is
        valid exactly when that map is empty. */
    method ValidateForm() returns (valid: bool)
      modifies this
      ensures errors == Stored(FormErrors(formData))
      ensures valid <==> FormErrors(formData) == map[]
      ensures formData == old(formData) && isLoading == old(isLoading)
    {
      var newErrors := CollectErrors(formData);
      errors := Stored(newErrors);
      valid := |newErrors| == 0;
    }

    /** `handleChange(name, value)`. */
    method HandleChange(name: Field, value: string)
      modifies this
      ensures formData == old(formData).With(name, value)
      ensures errors == ClearedError(old(errors), name)
      ensures isLoading == old(isLoading)
    {
      formData := formData.With(name, value);
      if ErrorShown(errors, name) {
        errors := errors[name := None];
      }
    }

    /** `handleSubmit` up to its `await`: nothing while disabled, only the validation when it
        fails, and otherwise `isLoading` is set. */
    method PressSubmit() returns (start: SubmitStart)
      modifies this
      ensures old(isLoading) ==> start == Disabled && errors == old(errors) && isLoading
      ensures !old(isLoading) ==> errors == Stored(FormErrors(formData))
      ensures !old(isLoading) ==>
        (start == Submitting <==> FormErrors(formData) == map[]) && start != Disabled
      ensures isLoading == (old(isLoading) || start == Submitting)
      ensures formData == old(formData)
    {
      if isLoading {
        return Disabled;
      }
      var valid := ValidateForm();
      if !valid {
        return Rejected;
      }
      isLoading := true;
      start := Submitting;
    }

    /** The end of `handleSubmit`: the `finally` block always clears `isLoading`. */
    method FinishSubmit(navigationThrew: bool) returns (effect: SubmitEffect)
      modifies this
      ensures effect == (if navigationThrew then ErrorAlert(SignUpFailed) else NavigateMainTabs)
      ensures !isLoading && formData == old(formData) && errors == old(errors)
    {
      effect := if navigationThrew then ErrorAlert(SignUpFailed) else NavigateMainTabs;
      isLoading := false;
    }
  }
}
