/**
  * The sign-in / sign-up form: the client-side checks made before a request
  * is sent, and the switch between the two modes.
  */
module LoginPage {
  import opened JsValues

  const InvalidEmailText := "Please enter a valid email address"
  const ShortPasswordText := "Password must be at least 8 characters"

  /** The fewest UTF-16 code units a password may have on this form. */
  const MinPasswordLength := 8

  /** A request issued to the authentication service. */
  datatype AuthRequest = SignIn(email: string, password: string) | SignUp(email: string, password: string)

  /** The ordered checks of the submit handler: the error they set, or None
      when both pass. An empty email has no `@` and an empty password is
      shorter than the minimum, so the emptiness tests need no case of their own. */
  function SubmitError(email: string, password: string): (e: Option<string>)
    ensures e.None? <==> '@' in email && Utf16Length(password) >= MinPasswordLength
    ensures e.Some? ==> e.value == InvalidEmailText || e.value == ShortPasswordText
  {
    if email == "" || '@' !in email then Some(InvalidEmailText)
    else if password == "" || Utf16Length(password) < MinPasswordLength then Some(ShortPasswordText)
    else None
  }

  /** The email is checked first: with both fields wrong, only the email
      error is shown. */
  lemma EmailCheckedFirst(email: string, password: string)
    requires '@' !in email
    ensures SubmitError(email, password) == Some(InvalidEmailText)
  {
  }

  /** A password of six or seven characters satisfies the field's own
      `minLength` of 6 but is refused here. */
  lemma StricterThanFieldMinimum(email: string, password: string)
    requires '@' in email
    requires |password| == 6 || |password| == 7
    requires forall i :: 0 <= i < |password| ==> password[i] as int <= 0xFFFF
    ensures SubmitError(email, password) == Some(ShortPasswordText)
  {
    Utf16LengthOfBmp(password);
  }

  /** Length is counted in UTF-16 code units: four characters outside the
      Basic Multilingual Plane make an acceptable password. */
  lemma AstralCharactersCountTwice(email: string, password: string)
    requires '@' in email
    requires |password| == 4
    requires forall i :: 0 <= i < |password| ==> password[i] as int > 0xFFFF
    ensures SubmitError(email, password) == None
  {
    Utf16LengthOfAstral(password);
  }

  /** A string of Basic Multilingual Plane characters has one unit each. */
  lemma {:induction false} Utf16LengthOfBmp(s: string)
    requires forall i :: 0 <= i < |s| ==> s[i] as int <= 0xFFFF
    ensures Utf16Length(s) == |s|
  {
    if s != [] {
      assert forall i :: 0 <= i < |s| - 1 ==> s[1..][i] == s[i + 1];
      Utf16LengthOfBmp(s[1..]);
    }
  }

  /** A string of characters outside the Basic Multilingual Plane has two
      units each. */
  lemma {:induction false} Utf16LengthOfAstral(s: string)
    requires forall i :: 0 <= i < |s| ==> s[i] as int > 0xFFFF
    ensures Utf16Length(s) == 2 * |s|
  {
    if s != [] {
      assert forall i :: 0 <= i < |s| - 1 ==> s[1..][i] == s[i + 1];
      Utf16LengthOfAstral(s[1..]);
    }
  }

  /** The form's state. `requests` is the sequence of calls made to the
      authentication service. */
  class LoginForm {
    var isLogin: bool
    var email: string
    var password: string
    var error: string
    var loading: bool
    var message: string
    var requests: seq<AuthRequest>

    /** The form as first rendered: sign-in mode, every field empty. */
    constructor ()
      ensures isLogin && email == "" && password == "" && error == "" && !loading && message == ""
      ensures requests == []
    {
      isLogin, email, password, error, loading, message := true, "", "", "", false, "";
      requests := [];
    }

    /** `handleSubmit`, up to the request it sends: the messages are cleared,
        the checks run in order, and only when both pass is `loading` set and
        a sign-in or sign-up request issued, as the mode says. */
    method HandleSubmit()
      modifies this
      ensures isLogin == old(isLogin) && email == old(email) && password == old(password)
      ensures message == ""
      ensures SubmitError(email, password).Some? ==>
        error == SubmitError(email, password).value && loading == old(loading) && requests == old(requests)
      ensures SubmitError(email, password).None? ==>
        error == "" && loading
        && requests == old(requests) + [if isLogin then SignIn(email, password) else SignUp(email, password)]
    {
      error := "";
      message := "";
      if email == "" || '@' !in email {
        error := InvalidEmailText;
        return;
      }
      if password == "" || Utf16Length(password) < MinPasswordLength {
        error := ShortPasswordText;
        return;
      }
      loading := true;
      if isLogin {
        requests := requests + [SignIn(email, password)];
      } else {
        requests := requests + [SignUp(email, password)];
      }
    }

    /** The "Sign up" / "Sign in" link: flips the mode and clears both messages. */
    method ToggleMode()
      modifies this
      ensures isLogin == !old(isLogin) && error == "" && message == ""
      ensures email == old(email) && password == old(password) && loading == old(loading)
      ensures requests == old(requests)
    {
      isLogin := !isLogin;
      error := "";
      message := "";
    }
  }
}
