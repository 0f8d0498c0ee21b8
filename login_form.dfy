/**
 * The login form of the web client: the email and password rules shown under
 * the fields, and the guard that lets a valid form dispatch `login`.
 */
module LoginForm {
  import opened Wrappers
  import opened Text

  const EmailRequired := "Email is required"
  const EmailInvalid := "Email is invalid"
  const PasswordRequired := "Password is required"
  const PasswordTooShort := "Password must be at least 6 characters"
  const MinPasswordLength := 6

  /** The credentials `login` is dispatched with. */
  datatype Credentials = Credentials(email: string, password: string)

  /** `formErrors`: at most one message per field. */
  datatype LoginErrors = LoginErrors(email: Option<string>, password: Option<string>)

  /** The email rule: required after trimming, then the unanchored pattern on the value as typed. */
  function EmailError(email: string): (e: Option<string>)
    ensures e.None? <==> EmailPattern(email)
    ensures e == Some(EmailRequired) <==> IsBlank(email)
    ensures e == Some(EmailInvalid) <==> !IsBlank(email) && !EmailPattern(email)
  {
    assert EmailPattern(email) ==> !IsBlank(email) by {
      if EmailPattern(email) {
        EmailPatternNotBlank(email);
      }
    }
    if IsBlank(email) then Some(EmailRequired)
    else if !EmailPattern(email) then Some(EmailInvalid)
    else None
  }

  /**
   * The password rule: required, then at least six UTF-16 code units; the
   * password is not trimmed.
   */
  function PasswordError(password: string): (e: Option<string>)
    ensures e.None? <==> Utf16Length(password) >= MinPasswordLength
    ensures e == Some(PasswordRequired) <==> password == []
    ensures e == Some(PasswordTooShort) <==> password != [] && Utf16Length(password) < MinPasswordLength
  {
    if password == [] then Some(PasswordRequired)
    else if Utf16Length(password) < MinPasswordLength then Some(PasswordTooShort)
    else None
  }

  /** Six spaces make an acceptable password. */
  lemma SpacesPassword()
    ensures PasswordError("      ") == None
  {
  }

  /** Three characters outside the Basic Multilingual Plane count as six. */
  lemma AstralPassword()
    ensures PasswordError("\U{1F600}\U{1F600}\U{1F600}") == None
  {
    var s := "\U{1F600}\U{1F600}\U{1F600}";
    assert s[1..][1..][1..] == [];
  }

  /** `validateForm`: the record of messages. */
  function ValidateForm(c: Credentials): (errors: LoginErrors)
    ensures errors.email.None? <==> EmailPattern(c.email)
    ensures errors.password.None? <==> Utf16Length(c.password) >= MinPasswordLength
  {
    LoginErrors(EmailError(c.email), PasswordError(c.password))
  }

  /** The form is valid when no field has a message. */
  predicate NoErrors(errors: LoginErrors) {
    errors.email.None? && errors.password.None?
  }

  /** `handleSubmit`: a valid form dispatches `login` with the fields as typed; otherwise nothing is sent. */
  function HandleSubmit(c: Credentials): (r: Option<Credentials>)
    ensures r.Some? <==> EmailPattern(c.email) && Utf16Length(c.password) >= MinPasswordLength
    ensures r.Some? ==> r.value == c
  {
    if NoErrors(ValidateForm(c)) then Some(c) else None
  }

  /** Surrounding white space does not stop a valid email from being dispatched, untrimmed. */
  lemma UntrimmedEmailDispatched(email: string, password: string)
    requires EmailPattern(Trim(email)) && Utf16Length(password) >= MinPasswordLength
    ensures HandleSubmit(Credentials(email, password)) == Some(Credentials(email, password))
  {
    EmailPatternFromTrim(email);
  }
}
