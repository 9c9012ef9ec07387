/**
  * The set-new-password form reached from a recovery link: the checks made
  * before the new password is sent.
  */
module PasswordReset {
  import opened JsValues
  import LoginPage
  import AuthErrors

  const MismatchText := "Passwords do not match"
  const ShortPasswordText := "Password must be at least 6 characters"

  /** The fewest UTF-16 code units a new password may have on this form. */
  const MinPasswordLength := 6

  /** The ordered checks of the update handler: the error they set, or None
      when both pass. */
  function UpdateError(newPassword: string, confirmPassword: string): (e: Option<string>)
    ensures e.None? <==> newPassword == confirmPassword && Utf16Length(newPassword) >= MinPasswordLength
    ensures e.Some? ==> e.value == MismatchText || e.value == ShortPasswordText
  {
    if newPassword != confirmPassword then Some(MismatchText)
    else if Utf16Length(newPassword) < MinPasswordLength then Some(ShortPasswordText)
    else None
  }

  /** The mismatch is reported first, even for a password that is also too short. */
  lemma MismatchCheckedFirst(newPassword: string, confirmPassword: string)
    requires newPassword != confirmPassword
    ensures UpdateError(newPassword, confirmPassword) == Some(MismatchText)
  {
  }

  /** This form and the sign-up form disagree on the minimum: a password of
      six or seven characters is accepted as a new password but refused at
      sign-up. */
  lemma MinimumsDisagree(email: string, password: string)
    requires '@' in email
    requires |password| == 6 || |password| == 7
    requires forall i :: 0 <= i < |password| ==> password[i] as int <= 0xFFFF
    ensures UpdateError(password, password).None?
    ensures LoginPage.SubmitError(email, password) == Some(LoginPage.ShortPasswordText)
  {
    LoginPage.Utf16LengthOfBmp(password);
  }

  /** The length error here is the text the error table gives for the
      service's own six-character complaint. */
  lemma SameTextAsServiceError()
    ensures exists i :: 0 <= i < |AuthErrors.AuthErrorMessages| && AuthErrors.AuthErrorMessages[i].1 == ShortPasswordText
  {
    assert AuthErrors.AuthErrorMessages[4].1 == ShortPasswordText;
  }

  /** The form's state. `sent` is the sequence of new passwords passed to
      the password update call. */
  class ResetForm {
    var newPassword: string
    var confirmPassword: string
    var error: string
    var message: string
    var loading: bool
    var sent: seq<string>

    /** The form as first rendered. */
    constructor ()
      ensures newPassword == "" && confirmPassword == "" && error == "" && message == "" && !loading
      ensures sent == []
    {
      newPassword, confirmPassword, error, message, loading := "", "", "", "", false;
      sent := [];
    }

    /** `handleUpdatePassword`, up to the call it makes: the messages are
        cleared, the checks run in order, and only when both pass is
        `loading` set and the new password sent. */
    method HandleUpdatePassword()
      modifies this
      ensures newPassword == old(newPassword) && confirmPassword == old(confirmPassword)
      ensures message == ""
      ensures UpdateError(newPassword, confirmPassword).Some? ==>
        error == UpdateError(newPassword, confirmPassword).value && loading == old(loading) && sent == old(sent)
      ensures UpdateError(newPassword, confirmPassword).None? ==>
        error == "" && loading && sent == old(sent) + [newPassword]
    {
      error := "";
      message := "";
      if newPassword != confirmPassword {
        error := MismatchText;
        return;
      }
      if Utf16Length(newPassword) < MinPasswordLength {
        error := ShortPasswordText;
        return;
      }
      loading := true;
      sent := sent + [newPassword];
    }
  }
}
