/** The sign-in form of src/pages/auth/Login.tsx: the field check, the
    rule that the sign-in call is made only for a form that passes it, and
    where the page goes afterwards. */
module Login {
  import opened Wrappers
  import opened Text

  /** The error record `validate` fills in: one optional message per field. */
  datatype Errors = Errors(email: Option<string>, password: Option<string>)

  /** `validate`'s record. An empty e-mail is required and its format is not
      looked at; a non-empty one the pattern rejects is invalid; an empty
      password is required, whatever happened to the e-mail. */
  function ValidationErrors(email: string, password: string): (r: Errors)
    ensures email == "" ==> r.email == Some("Email is required")
    ensures email != "" && !EmailShaped(email) ==> r.email == Some("Email is invalid")
    ensures r.email.None? <==> EmailShaped(email)
    ensures r.password.None? <==> password != ""
    ensures r.password.Some? ==> r.password == Some("Password is required")
  {
    var emailError :=
      if email == "" then Some("Email is required")
      else if !EmailShaped(email) then Some("Email is invalid")
      else None;
    var passwordError := if password == "" then Some("Password is required") else None;
    Errors(emailError, passwordError)
  }

  /** `validate`'s result: `Object.keys(newErrors).length === 0`. */
  predicate Validate(email: string, password: string) {
    var errors := ValidationErrors(email, password);
    errors.email.None? && errors.password.None?
  }

  /** The form passes exactly when the e-mail has the expected shape and a
      password is given. */
  lemma ValidateIffWellFormed(email: string, password: string)
    ensures Validate(email, password) <==> EmailShaped(email) && password != ""
  {
  }

  /** The password message does not depend on the e-mail, nor the e-mail
      message on the password. */
  lemma ErrorsIndependent(email1: string, email2: string, password1: string, password2: string)
    ensures ValidationErrors(email1, password1).password == ValidationErrors(email2, password1).password
    ensures ValidationErrors(email1, password1).email == ValidationErrors(email1, password2).email
  {
  }

  /** `location.state?.from || '/'`: where the page goes after signing in. */
  function RedirectTarget(from: Option<string>): (target: string)
    ensures from.Some? && from.value != "" ==> target == from.value
    ensures from.None? || from.value == "" ==> target == "/"
    ensures target != ""
  {
    if from.Some? && from.value != "" then from.value else "/"
  }

  /** What a submit does. The sign-in call itself is a network call; its
      outcome is the parameter `loginSucceeds`. */
  datatype SubmitOutcome =
    | Rejected(errors: Errors)
    | SignedIn(target: string)
    | SignInFailed

  /** `handleSubmit`: a form that fails `validate` shows its errors and the
      sign-in call is never made; otherwise a successful sign-in navigates
      to the target and a failed one only shows a toast. */
  function HandleSubmit(email: string, password: string, from: Option<string>, loginSucceeds: bool): (r: SubmitOutcome)
    ensures r.Rejected? <==> !(EmailShaped(email) && password != "")
    ensures r.Rejected? ==> r.errors == ValidationErrors(email, password)
    ensures r.SignedIn? <==> EmailShaped(email) && password != "" && loginSucceeds
    ensures r.SignedIn? ==> r.target == RedirectTarget(from)
  {
    ValidateIffWellFormed(email, password);
    if !Validate(email, password) then Rejected(ValidationErrors(email, password))
    else if loginSucceeds then SignedIn(RedirectTarget(from))
    else SignInFailed
  }
}
