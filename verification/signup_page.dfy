/** The sign-up form: every field is required, and only customers are verified on creation. */
module SignUpPage {
  import opened Optional
  import opened Entities

  datatype SignUpForm = SignUpForm(name: string, email: string, password: string, role: string)

  /** The form as first rendered: every field empty, no role chosen. */
  const InitialForm := SignUpForm("", "", "", "")

  datatype SubmitResult =
    | MissingInformation            // destructive toast, `onSignUp` not called
    | SignUp(user: User)            // `onSignUp(user)` called once

  /**
   * `handleSubmit`. `randomId` stands for `Math.random().toString(36).substr(2, 9)`; the
   * record handed on carries the four form fields unchanged.
   */
  function HandleSubmit(form: SignUpForm, randomId: string): (r: SubmitResult)
    ensures r.MissingInformation? <==>
              form.name == "" || form.email == "" || form.password == "" || form.role == ""
    ensures r.SignUp? ==>
              && r.user.name == form.name && r.user.email == form.email
              && r.user.password == Some(form.password) && r.user.role == form.role
              && r.user.id == randomId
              && r.user.verified.Some?
              && (r.user.verified.value <==> form.role == CustomerRole)
  {
    if form.name == "" || form.email == "" || form.password == "" || form.role == "" then
      MissingInformation
    else
      SignUp(User(randomId, form.name, form.email, Some(form.password), form.role,
                  Some(form.role == CustomerRole)))
  }

  /** The form as rendered first is always rejected. */
  lemma InitialFormRejected(randomId: string)
    ensures HandleSubmit(InitialForm, randomId) == MissingInformation
  {
  }
}
