/**
 * The admin's add/edit user form: prefill from the edited record, validate name, email and
 * password, and hand on the form data with an empty password removed.
 */
module AddEditUserModal {
  import opened Optional
  import opened Text
  import opened Entities

  datatype UserForm = UserForm(name: string, email: string, password: string, role: string)

  /** The form for a new user: empty fields, role preset to customer. */
  const NewUserForm := UserForm("", "", "", CustomerRole)

  /**
   * The prefill effect. Editing copies name, email and role (an empty role falls back to
   * customer); the password is never prefilled.
   */
  function Prefill(user: Option<User>): (f: UserForm)
    ensures f.password == ""
    ensures f.role != ""
    ensures user.None? ==> f == NewUserForm
    ensures user.Some? ==>
              && f.name == user.value.name && f.email == user.value.email
              && (user.value.role != "" ==> f.role == user.value.role)
              && (user.value.role == "" ==> f.role == CustomerRole)
  {
    match user
    case None => NewUserForm
    case Some(u) => UserForm(u.name, u.email, "", if u.role != "" then u.role else CustomerRole)
  }

  /** Position `a` holds an '@' preceded by a non-space character. */
  ghost predicate AtCandidate(s: string, a: int) {
    0 < a < |s| && s[a] == '@' && !IsSpace(s[a - 1])
  }

  /** No whitespace strictly between positions `a` and `d`. */
  ghost predicate NoSpaceBetween(s: string, a: int, d: int) {
    forall k | a < k < d && 0 <= k < |s| :: !IsSpace(s[k])
  }

  /**
   * `\S+@\S+\.\S+` matches with its '@' at `a` and its '.' at `d`: one non-space before the '@',
   * a non-empty run of non-space between them, one non-space after the '.'.
   */
  ghost predicate EmailMatchAt(s: string, a: int, d: int) {
    && AtCandidate(s, a) && a + 1 < d && d + 1 < |s|
    && s[d] == '.' && !IsSpace(s[d + 1]) && NoSpaceBetween(s, a, d)
  }

  /** `/\S+@\S+\.\S+/.test(s)`: the pattern matches somewhere in `s`. */
  ghost predicate EmailPattern(s: string) {
    exists a, d :: EmailMatchAt(s, a, d)
  }

  /**
   * One left-to-right pass deciding the email pattern: `at` is the earliest usable '@' in the
   * current run of non-space characters, and a '.' closes a match when it follows that '@' by at
   * least two positions and is itself followed by a non-space character.
   */
  method TestEmailPattern(s: string) returns (b: bool)
    ensures b <==> EmailPattern(s)
  {
    var at := -1;
    var i := 0;
    while i < |s|
      invariant 0 <= i <= |s|
      invariant at != -1 ==> AtCandidate(s, at) && at < i && NoSpaceBetween(s, at, i)
      invariant forall a | 0 < a < i && AtCandidate(s, a) && NoSpaceBetween(s, a, i) :: at != -1 && at <= a
      invariant forall a, d | d < i :: !EmailMatchAt(s, a, d)
    {
      if IsSpace(s[i]) {
        at := -1;
      } else if s[i] == '@' && at == -1 && i > 0 && !IsSpace(s[i - 1]) {
        at := i;
      } else if s[i] == '.' && at != -1 && at + 1 < i && i + 1 < |s| && !IsSpace(s[i + 1]) {
        assert EmailMatchAt(s, at, i);
        return true;
      }
      i := i + 1;
    }
    return false;
  }

  const NameRequired := "Name is required."
  const EmailRequired := "Email is required."
  const EmailInvalid := "Email is invalid."
  const PasswordRequired := "Password is required."
  const PasswordTooShort := "Password must be at least 6 characters."

  /** The error map; a None field is a key the map does not have. */
  datatype FormErrors = FormErrors(name: Option<string>, email: Option<string>, password: Option<string>)

  predicate NoErrors(e: FormErrors) {
    e.name.None? && e.email.None? && e.password.None?
  }

  /** The password rule: blank only when editing, otherwise at least six characters. */
  predicate PasswordAcceptable(password: string, editing: bool) {
    if password == "" then editing else |password| >= 6
  }

  /** What an acceptable form is, independent of how the errors are collected. */
  ghost predicate Acceptable(form: UserForm, editing: bool) {
    && !IsBlank(form.name)
    && !IsBlank(form.email) && EmailPattern(form.email)
    && PasswordAcceptable(form.password, editing)
  }

  /**
   * The error map the rules call for, field by field: the name's one rule; the email's emptiness
   * rule before its pattern rule; the password's requiredness rule before its length rule.
   */
  ghost function ExpectedErrors(form: UserForm, editing: bool): FormErrors {
    FormErrors(
      if IsBlank(form.name) then Some(NameRequired) else None,
      if IsBlank(form.email) then Some(EmailRequired)
      else if EmailPattern(form.email) then None
      else Some(EmailInvalid),
      if !editing && form.password == "" then Some(PasswordRequired)
      else if form.password != "" && |form.password| < 6 then Some(PasswordTooShort)
      else None)
  }

  /**
   * `validateForm`. The name and the email must be non-blank after trimming; the untrimmed email
   * must match the pattern; a new user needs a password, and any non-empty password needs six
   * characters. The form is valid exactly when no error is recorded.
   */
  method ValidateForm(form: UserForm, editing: bool) returns (errors: FormErrors)
    ensures NoErrors(errors) <==> Acceptable(form, editing)
    ensures errors.name.Some? <==> IsBlank(form.name)
    ensures errors.name.Some? ==> errors.name == Some(NameRequired)
    ensures IsBlank(form.email) ==> errors.email == Some(EmailRequired)
    ensures !IsBlank(form.email) ==>
              errors.email == (if EmailPattern(form.email) then None else Some(EmailInvalid))
    ensures !editing && form.password == "" ==> errors.password == Some(PasswordRequired)
    ensures form.password != "" && |form.password| < 6 ==> errors.password == Some(PasswordTooShort)
    ensures editing && form.password == "" ==> errors.password == None
    ensures errors.password.None? <==> PasswordAcceptable(form.password, editing)
    ensures errors == ExpectedErrors(form, editing)
  {
    TrimEmptyIffBlank(form.name);
    TrimEmptyIffBlank(form.email);
    var nameError := if Trim(form.name) == "" then Some(NameRequired) else None;
    var emailError := None;
    if Trim(form.email) == "" {
      emailError := Some(EmailRequired);
    } else {
      var ok := TestEmailPattern(form.email);
      if !ok {
        emailError := Some(EmailInvalid);
      }
    }
    var passwordError := None;
    if !editing && form.password == "" {
      passwordError := Some(PasswordRequired);
    } else if form.password != "" && |form.password| < 6 {
      passwordError := Some(PasswordTooShort);
    }
    errors := FormErrors(nameError, emailError, passwordError);
    ghost var expected := ExpectedErrors(form, editing);
    assert errors.name == expected.name && errors.email == expected.email;
  }

  /** The data handed to `onSave`; `password` is absent when the field was left empty. */
  datatype UserPatch = UserPatch(name: string, email: string, password: Option<string>, role: string)

  datatype SubmitResult = ValidationError(errors: FormErrors) | Save(data: UserPatch)

  /**
   * `handleSubmit`: an invalid form never reaches `onSave` and reports the errors `validateForm`
   * recorded; a valid one is passed on unchanged except that an empty password is dropped.
   */
  method HandleSubmit(form: UserForm, editing: bool) returns (r: SubmitResult)
    ensures r.Save? <==> Acceptable(form, editing)
    ensures r.ValidationError? ==> !NoErrors(r.errors) && r.errors == ExpectedErrors(form, editing)
    ensures r.Save? ==>
              && r.data.name == form.name && r.data.email == form.email && r.data.role == form.role
              && (r.data.password.None? <==> form.password == "")
              && (r.data.password.Some? ==> r.data.password.value == form.password)
  {
    var errors := ValidateForm(form, editing);
    if NoErrors(errors) {
      var password := if form.password == "" then None else Some(form.password);
      r := Save(UserPatch(form.name, form.email, password, form.role));
    } else {
      r := ValidationError(errors);
    }
  }
}
