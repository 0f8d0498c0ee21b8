/**
 * The registration form of the web client: the username rule, the email and
 * password rules it shares with the login form, the confirmation rule, and
 * the guard that lets a valid form dispatch `register`.
 */
module RegisterForm {
  import opened Wrappers
  import opened Text
  import LoginForm

  const UsernameRequired := "Username is required"
  const PasswordsDiffer := "Passwords do not match"

  /** The four field values. */
  datatype RegisterFields = RegisterFields(username: string, email: string, password: string, confirmPassword: string)

  /** The credentials `register` is dispatched with. */
  datatype RegisterCredentials = RegisterCredentials(username: string, email: string, password: string)

  /** `formErrors`: at most one message per field. */
  datatype RegisterErrors = RegisterErrors(
    username: Option<string>,
    email: Option<string>,
    password: Option<string>,
    confirmPassword: Option<string>)

  /** `validateForm`. */
  function ValidateForm(f: RegisterFields): (errors: RegisterErrors)
    ensures errors.username.None? <==> !IsBlank(f.username)
    ensures errors.username.Some? ==> errors.username.value == UsernameRequired
    ensures errors.email == LoginForm.EmailError(f.email)
    ensures errors.password == LoginForm.PasswordError(f.password)
    ensures errors.confirmPassword.None? <==> f.password == f.confirmPassword
    ensures errors.confirmPassword.Some? ==> errors.confirmPassword.value == PasswordsDiffer
  {
    RegisterErrors(
      if IsBlank(f.username) then Some(UsernameRequired) else None,
      LoginForm.EmailError(f.email),
      LoginForm.PasswordError(f.password),
      if f.password != f.confirmPassword then Some(PasswordsDiffer) else None)
  }

  /** The form is valid when no field has a message. */
  predicate NoErrors(errors: RegisterErrors) {
    errors.username.None? && errors.email.None? && errors.password.None? && errors.confirmPassword.None?
  }

  /** `handleSubmit`: a valid form dispatches `register` with the fields as typed; otherwise nothing is sent. */
  function HandleSubmit(f: RegisterFields): (r: Option<RegisterCredentials>)
    ensures r.Some? <==> && !IsBlank(f.username) && EmailPattern(f.email)
                         && Utf16Length(f.password) >= LoginForm.MinPasswordLength
                         && f.password == f.confirmPassword
    ensures r.Some? ==> r.value == RegisterCredentials(f.username, f.email, f.password)
  {
    if NoErrors(ValidateForm(f)) then Some(RegisterCredentials(f.username, f.email, f.password)) else None
  }

  /** The confirmation message is shown beside the password message: an empty password and a typed confirmation give both. */
  lemma ConfirmIndependentOfPassword(confirm: string)
    requires confirm != []
    ensures ValidateForm(RegisterFields("u", "a@b.c", "", confirm)).password == Some(LoginForm.PasswordRequired)
    ensures ValidateForm(RegisterFields("u", "a@b.c", "", confirm)).confirmPassword == Some(PasswordsDiffer)
  {
  }

  /** Whatever the register form lets through, the login form accepts with the same email and password. */
  lemma RegisteredCredentialsPassLogin(f: RegisterFields)
    requires HandleSubmit(f).Some?
    ensures LoginForm.HandleSubmit(LoginForm.Credentials(f.email, f.password)).Some?
  {
  }
}
