/**
  * The mapping from the authentication service's technical error messages
  * to the texts the login pages show.
  */
module AuthErrors {
  import opened JsValues

  /** `AUTH_ERROR_MESSAGES`, in declaration order: technical key, friendly text. */
  const AuthErrorMessages: seq<(string, string)> := [
    ("Invalid login credentials", "Invalid email or password"),
    ("User not found", "Invalid email or password"),
    ("Email not confirmed", "Please confirm your email address"),
    ("Invalid email", "Please enter a valid email address"),
    ("Password should be at least 6 characters", "Password must be at least 6 characters"),
    ("User already registered", "An account with this email already exists")
  ]

  /** The text for a falsy error. */
  const NoErrorText := "An error occurred"
  /** The text for an error no key matches. */
  const UnknownErrorText := "An error occurred. Please try again."

  /** `s.includes(sub)`: `sub` occurs in `s` at some position. */
  predicate Includes(s: string, sub: string)
    ensures Includes(s, sub) ==> |sub| <= |s|
    ensures sub == [] ==> Includes(s, sub)
  {
    if |sub| > |s| then false
    else sub == s[..|sub|] || Includes(s[1..], sub)
  }

  /** `sub` occurs in `s` starting at index `i`. */
  predicate OccursAt(s: string, sub: string, i: int)
  {
    0 <= i <= |s| - |sub| && s[i..i + |sub|] == sub
  }

  /** Includes means an occurrence at some position, and nothing else. */
  lemma {:induction false} IncludesAt(s: string, sub: string)
    ensures Includes(s, sub) <==> exists i :: OccursAt(s, sub, i)
  {
    if |sub| <= |s| && sub != s[..|sub|] {
      IncludesAt(s[1..], sub);
      if i :| OccursAt(s, sub, i) {
        assert i != 0;
        assert s[1..][i - 1..i - 1 + |sub|] == sub;
        assert OccursAt(s[1..], sub, i - 1);
      }
      if i :| OccursAt(s[1..], sub, i) {
        assert s[i + 1..i + 1 + |sub|] == sub;
        assert OccursAt(s, sub, i + 1);
      }
    } else if |sub| <= |s| {
      assert OccursAt(s, sub, 0);
    }
  }

  /** A key whose first character the message lacks is not included. */
  lemma {:induction false} NotIncludedFirstChar(s: string, key: string)
    requires key != [] && key[0] !in s
    ensures !Includes(s, key)
  {
    if |key| <= |s| {
      assert s[0] in s;
      NotIncludedFirstChar(s[1..], key);
    }
  }

  /** The loop over the table: the index of the first entry whose key the
      message includes, or -1 when there is none. */
  function FirstMatch(table: seq<(string, string)>, message: string): (i: int)
    ensures -1 <= i < |table|
    ensures 0 <= i ==> Includes(message, table[i].0)
    ensures forall j :: 0 <= j < |table| && (i == -1 || j < i) ==> !Includes(message, table[j].0)
  {
    if table == [] then -1
    else if Includes(message, table[0].0) then 0
    else
      var k := FirstMatch(table[1..], message);
      assert forall j :: 1 <= j < |table| ==> table[j] == table[1..][j - 1];
      if k == -1 then -1 else k + 1
  }

  /** `error.message || error.toString()`; `shown` is what the error's
      `toString` returns. */
  function MessageOf(error: JsValue, shown: string): (m: JsValue)
    ensures m == Get(error, "message") || m == Str(shown)
    ensures Truthy(m) <==> Truthy(Get(error, "message")) || shown != ""
  {
    var message := Get(error, "message");
    if Truthy(message) then message else Str(shown)
  }

  /** `getErrorMessage(error)`. A truthy `message` must be a string, since
      `includes` is called on it. */
  function GetErrorMessage(error: JsValue, shown: string): (text: string)
    requires MessageOf(error, shown).Str?
    ensures !Truthy(error) ==> text == NoErrorText
  {
    if !Truthy(error) then NoErrorText
    else
      var i := FirstMatch(AuthErrorMessages, MessageOf(error, shown).s);
      if i == -1 then UnknownErrorText else AuthErrorMessages[i].1
  }

  /** The friendly text of the first entry, in declaration order, whose key
      the message includes; the fixed fallback when no key matches. */
  lemma FirstEntryWins(error: JsValue, shown: string, i: nat)
    requires MessageOf(error, shown).Str? && Truthy(error)
    requires i < |AuthErrorMessages| && Includes(MessageOf(error, shown).s, AuthErrorMessages[i].0)
    requires forall j :: 0 <= j < i ==> !Includes(MessageOf(error, shown).s, AuthErrorMessages[j].0)
    ensures GetErrorMessage(error, shown) == AuthErrorMessages[i].1
  {
  }

  /** No key in the message: the generic retry text. */
  lemma NoKeyMatches(error: JsValue, shown: string)
    requires MessageOf(error, shown).Str? && Truthy(error)
    requires forall j :: 0 <= j < |AuthErrorMessages| ==> !Includes(MessageOf(error, shown).s, AuthErrorMessages[j].0)
    ensures GetErrorMessage(error, shown) == UnknownErrorText
  {
  }

  /** The raw message is never shown: the result is a friendly text of the
      table or one of the two fallbacks. */
  lemma NeverEchoesMessage(error: JsValue, shown: string)
    requires MessageOf(error, shown).Str?
    ensures var text := GetErrorMessage(error, shown);
      text == NoErrorText || text == UnknownErrorText
      || exists i :: 0 <= i < |AuthErrorMessages| && text == AuthErrorMessages[i].1
  {
  }

  /** A non-empty `message` is what is matched; `toString` is not consulted. */
  lemma MessageBeforeToString(error: JsValue, shown1: string, shown2: string)
    requires Get(error, "message").Str? && Get(error, "message").s != ""
    ensures GetErrorMessage(error, shown1) == GetErrorMessage(error, shown2)
  {
  }

  /** 'Invalid login credentials' and 'User not found' are reported alike. */
  lemma UnknownUserLikeBadPassword(error1: JsValue, error2: JsValue)
    requires Get(error1, "message") == Str("Invalid login credentials")
    requires Get(error2, "message") == Str("User not found")
    ensures GetErrorMessage(error1, "") == GetErrorMessage(error2, "") == "Invalid email or password"
  {
    IncludesItself("Invalid login credentials");
    FirstEntryWins(error1, "", 0);
    IncludesItself("User not found");
    FirstEntryWins(error2, "", 1);
  }

  /** Every string includes itself. */
  lemma IncludesItself(s: string)
    ensures Includes(s, s)
  {
    assert s[..|s|] == s;
  }

  /** A message that carries a key inside a longer text is still recognised:
      the service's "Email not confirmed" arrives with a prefix. */
  lemma KeyInsideLongerMessage(error: JsValue, message: string)
    requires message == "AuthApiError: Email not confirmed"
    requires Get(error, "message") == Str(message)
    ensures GetErrorMessage(error, "") == "Please confirm your email address"
  {
    PrefixedKeyIncluded(message);
    PrefixedMessageLacksEarlierKeys(message);
    ThirdKeyWins(error, message);
  }

  /** The third key wins when the first two are absent. */
  lemma ThirdKeyWins(error: JsValue, message: string)
    requires Get(error, "message") == Str(message) && message != ""
    requires Includes(message, "Email not confirmed")
    requires !Includes(message, "Invalid login credentials") && !Includes(message, "User not found")
    ensures GetErrorMessage(error, "") == "Please confirm your email address"
  {
    FirstEntryWins(error, "", 2);
  }

  /** The key occurs after the 14-character prefix. */
  lemma PrefixedKeyIncluded(message: string)
    requires message == "AuthApiError: Email not confirmed"
    ensures Includes(message, "Email not confirmed")
  {
    assert OccursAt(message, "Email not confirmed", 14);
    IncludesAt(message, "Email not confirmed");
  }

  /** Neither earlier key's first letter is in the message. */
  lemma PrefixedMessageLacksEarlierKeys(message: string)
    requires message == "AuthApiError: Email not confirmed"
    ensures !Includes(message, "Invalid login credentials") && !Includes(message, "User not found")
  {
    LacksLetter(message, 'I');
    NotIncludedFirstChar(message, "Invalid login credentials");
    LacksLetter(message, 'U');
    NotIncludedFirstChar(message, "User not found");
  }

  /** The message has no capital I and no capital U. */
  lemma LacksLetter(message: string, c: char)
    requires message == "AuthApiError: Email not confirmed"
    requires c == 'I' || c == 'U'
    ensures c !in message
  {
  }
}
