/**
 * The share form of the web client: the owner collects a list of email
 * addresses one at a time, may drop entries, and submits the list.
 */
module SharePlaylistForm {
  import opened Wrappers
  import opened Text

  const EnterEmail := "Please enter an email address"
  const InvalidEmail := "Please enter a valid email address"
  const AlreadyListed := "This email is already in the list"
  const AddOneEmail := "Please add at least one email address"

  /** An entry `addEmail` accepts: trimmed, non-empty and matching the email pattern. */
  predicate Acceptable(email: string) {
    email != [] && Trimmed(email) && EmailPattern(email)
  }

  /** `emails.filter(email => email !== e)`. */
  function Without(emails: seq<string>, e: string): (r: seq<string>)
    ensures |r| <= |emails|
    ensures forall x :: x in r <==> x in emails && x != e
  {
    if emails == [] then []
    else if emails[0] == e then Without(emails[1..], e)
    else [emails[0]] + Without(emails[1..], e)
  }

  /** Dropping an address keeps the list free of duplicates. */
  lemma {:induction false} WithoutNoDuplicates(emails: seq<string>, e: string)
    requires NoDuplicates(emails)
    ensures NoDuplicates(Without(emails, e))
  {
    if emails != [] {
      assert NoDuplicates(emails[1..]) by {
        forall i, j | 0 <= i < j < |emails[1..]| ensures emails[1..][i] != emails[1..][j] {
          assert emails[1..][i] == emails[i + 1] && emails[1..][j] == emails[j + 1];
        }
      }
      WithoutNoDuplicates(emails[1..], e);
      if emails[0] != e {
        assert emails[0] !in emails[1..];
        assert emails[0] !in Without(emails[1..], e);
      }
    }
  }

  /** The form's state. */
  class SharePlaylistForm {
    var emailInput: string
    var emails: seq<string>
    var formError: Option<string>

    /** The list holds acceptable addresses, each once. */
    ghost predicate Valid()
      reads this
    {
      NoDuplicates(emails) && forall e :: e in emails ==> Acceptable(e)
    }

    constructor ()
      ensures Valid() && emailInput == [] && emails == [] && formError == None
    {
      emailInput := [];
      emails := [];
      formError := None;
    }

    /**
     * `addEmail`: the trimmed input is rejected when blank, when it does not
     * match the pattern, or when it is listed already; otherwise it is
     * appended and the input cleared.
     */
    method AddEmail()
      requires Valid()
      modifies this
      ensures Valid()
      ensures var t := Trim(old(emailInput));
              if t == [] then
                formError == Some(EnterEmail) && emails == old(emails) && emailInput == old(emailInput)
              else if !EmailPattern(t) then
                formError == Some(InvalidEmail) && emails == old(emails) && emailInput == old(emailInput)
              else if t in old(emails) then
                formError == Some(AlreadyListed) && emails == old(emails) && emailInput == old(emailInput)
              else
                formError == None && emails == old(emails) + [t] && emailInput == []
    {
      var trimmedEmail := Trim(emailInput);
      if trimmedEmail == [] {
        formError := Some(EnterEmail);
        return;
      }
      if !EmailPattern(trimmedEmail) {
        formError := Some(InvalidEmail);
        return;
      }
      if trimmedEmail in emails {
        formError := Some(AlreadyListed);
        return;
      }
      emails := emails + [trimmedEmail];
      emailInput := [];
      formError := None;
    }

    /** `removeEmail`: every entry equal to the address goes; the rest stay in order. */
    method RemoveEmail(emailToRemove: string)
      requires Valid()
      modifies this
      ensures Valid()
      ensures emails == Without(old(emails), emailToRemove)
      ensures emailToRemove !in emails
      ensures emailInput == old(emailInput) && formError == old(formError)
    {
      WithoutNoDuplicates(emails, emailToRemove);
      emails := Without(emails, emailToRemove);
    }

    /**
     * `handleSubmit`: an empty list is refused with an error; otherwise the
     * list is handed to `onShare`.
     */
    method HandleSubmit() returns (shared: Option<seq<string>>)
      requires Valid()
      modifies this
      ensures Valid() && emails == old(emails) && emailInput == old(emailInput)
      ensures emails == [] ==> shared == None && formError == Some(AddOneEmail)
      ensures emails != [] ==> shared == Some(emails) && formError == old(formError)
      ensures shared.Some? ==> NoDuplicates(shared.value) && forall e :: e in shared.value ==> Acceptable(e)
    {
      if |emails| == 0 {
        formError := Some(AddOneEmail);
        return None;
      }
      shared := Some(emails);
    }
  }
}
