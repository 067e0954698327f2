/** What the two sign-in pages share, src/pages/Register.js and
    src/pages/Login.js: the way a typed username becomes the identifier sent to
    the authentication provider, and the provider's answer. */
module Accounts {
  import opened Wrappers

  /** The domain a bare username is completed with. */
  const Domain := "@axlist.pw"

  /** `email.includes('@') ? email : `${email}@axlist.pw``: the result always
      holds an '@', starts with what was typed, and equals it exactly when the
      input already held an '@'; otherwise what follows the input is the domain. */
  function Normalize(email: string): (r: string)
    ensures '@' in r
    ensures |email| <= |r| && r[..|email|] == email
    ensures r == email <==> '@' in email
    ensures '@' !in email ==> r[|email|..] == Domain
  {
    if '@' in email then email
    else
      assert Domain[0] == '@';
      assert (email + Domain)[|email|] == '@';
      email + Domain
  }

  /** Normalising an identifier twice changes nothing more. */
  lemma NormalizeIdempotent(email: string)
    ensures Normalize(Normalize(email)) == Normalize(email)
  {
  }

  /** A bare username and the same username typed with the domain reach the
      same account. */
  lemma BareAndFullNameAgree(name: string)
    requires '@' !in name
    ensures Normalize(name) == Normalize(name + Domain)
  {
    assert Domain[0] == '@';
    assert (name + Domain)[|name|] == '@';
  }

  /** Two different bare usernames never reach the same account. */
  lemma BareNamesStayDistinct(a: string, b: string)
    requires '@' !in a && '@' !in b
    requires Normalize(a) == Normalize(b)
    ensures a == b
  {
    assert |a| == |Normalize(a)| - |Domain| == |b|;
  }

  /** The settled promise of the provider call: the signed-in user's id, or
      the rejection's `code` (None when the error carries none). */
  datatype AuthOutcome = SignedIn(uid: string) | Rejected(code: Option<string>)

  /** The provider call itself, `createUserWithEmailAndPassword` or
      `signInWithEmailAndPassword`, from identifier and password to outcome. */
  type Provider = (string, string) -> AuthOutcome
}

/** The registration page, src/pages/Register.js. */
module RegisterPage {
  import opened Wrappers
  import opened Accounts

  /** The message shown for each rejection code the page recognises. */
  const Messages: map<string, string> := map[
    "auth/email-already-in-use" := "This email is already in use.",
    "auth/invalid-email" := "Please enter a valid email address.",
    "auth/weak-password" := "Password should be at least 6 characters."]

  /** The message for any other code, or none. */
  const Fallback := "Registration failed. Please try again."

  /** The `switch (err.code)` of handleRegister: a recognised code gets its
      own message, anything else the fallback. */
  function ErrorMessage(code: Option<string>): (m: string)
    ensures code.Some? && code.value in Messages ==> m == Messages[code.value]
    ensures !(code.Some? && code.value in Messages) ==> m == Fallback
    ensures m == Fallback <==> !(code.Some? && code.value in Messages)
  {
    match code
    case Some("auth/email-already-in-use") => "This email is already in use."
    case Some("auth/invalid-email") => "Please enter a valid email address."
    case Some("auth/weak-password") => "Password should be at least 6 characters."
    case _ => "Registration failed. Please try again."
  }

  /** Different recognised codes are told apart by their messages. */
  lemma MessagesDistinct(c: string, d: string)
    requires c != d
    requires ErrorMessage(Some(c)) == ErrorMessage(Some(d))
    ensures c !in Messages && d !in Messages
  {
  }

  /** The `Register` component's state, with the user handed to `setUser` and
      the route passed to `navigate`. */
  class RegisterForm {
    var email: string
    var password: string
    var error: string
    var loading: bool
    var user: Option<string>
    var route: string

    constructor (route: string)
      ensures email == "" && password == "" && error == "" && !loading
      ensures user == None && this.route == route
    {
      email, password, error, loading := "", "", "", false;
      user, this.route := None, route;
    }

    method TypeEmail(text: string)
      modifies this`email
      ensures email == text
    {
      email := text;
    }

    method TypePassword(text: string)
      modifies this`password
      ensures password == text
    {
      password := text;
    }

    /** The part of handleRegister before the provider call: the loading flag
        goes up and the identifier to send is computed. */
    method Begin() returns (identifier: string)
      modifies this`loading
      ensures loading
      ensures identifier == Normalize(email)
    {
      loading := true;
      identifier := Normalize(email);
    }

    /** The part after the call settles: on success the user is set and the
        app route entered, on rejection the code's message is shown; in both
        cases (`finally`) the loading flag comes down. */
    method Settle(outcome: AuthOutcome)
      modifies this`error, this`loading, this`user, this`route
      ensures !loading
      ensures outcome.SignedIn? ==>
        user == Some(outcome.uid) && route == "/" && error == old(error)
      ensures outcome.Rejected? ==>
        error == ErrorMessage(outcome.code) && user == old(user) && route == old(route)
    {
      match outcome {
        case SignedIn(uid) =>
          user := Some(uid);
          route := "/";
        case Rejected(code) =>
          error := ErrorMessage(code);
      }
      loading := false;
    }

    /** handleRegister: the provider sees the normalised identifier and the
        password; afterwards the loading flag is down whatever the outcome. */
    method HandleRegister(provider: Provider)
      modifies this`error, this`loading, this`user, this`route
      ensures !loading
      ensures var outcome := provider(Normalize(old(email)), old(password));
        && (outcome.SignedIn? ==> user == Some(outcome.uid) && route == "/" && error == old(error))
        && (outcome.Rejected? ==> error == ErrorMessage(outcome.code) && user == old(user) && route == old(route))
    {
      var identifier := Begin();
      Settle(provider(identifier, password));
    }
  }
}

/** The sign-in page, src/pages/Login.js. */
module LoginPage {
  import opened Wrappers
  import opened Accounts

  /** The message shown for each rejection code the page recognises. */
  const Messages: map<string, string> := map[
    "auth/wrong-password" := "Incorrect password.",
    "auth/user-not-found" := "No account found with this email.",
    "auth/invalid-email" := "Please enter a valid email."]

  /** The message for any other code, or none. */
  const Fallback := "Login failed. Please try again."

  /** The `switch (err.code)` of handleLogin: a recognised code gets its own
      message, anything else the fallback. */
  function ErrorMessage(code: Option<string>): (m: string)
    ensures code.Some? && code.value in Messages ==> m == Messages[code.value]
    ensures !(code.Some? && code.value in Messages) ==> m == Fallback
    ensures m == Fallback <==> !(code.Some? && code.value in Messages)
  {
    match code
    case Some("auth/wrong-password") => "Incorrect password."
    case Some("auth/user-not-found") => "No account found with this email."
    case Some("auth/invalid-email") => "Please enter a valid email."
    case _ => "Login failed. Please try again."
  }

  /** Different recognised codes are told apart by their messages. */
  lemma MessagesDistinct(c: string, d: string)
    requires c != d
    requires ErrorMessage(Some(c)) == ErrorMessage(Some(d))
    ensures c !in Messages && d !in Messages
  {
  }

  /** The `Login` component's state, with the user handed to `setUser` and
      the route passed to `navigate`. */
  class LoginForm {
    var email: string
    var password: string
    var error: string
    var loading: bool
    var user: Option<string>
    var route: string

    constructor (route: string)
      ensures email == "" && password == "" && error == "" && !loading
      ensures user == None && this.route == route
    {
      email, password, error, loading := "", "", "", false;
      user, this.route := None, route;
    }

    method TypeEmail(text: string)
      modifies this`email
      ensures email == text
    {
      email := text;
    }

    method TypePassword(text: string)
      modifies this`password
      ensures password == text
    {
      password := text;
    }

    /** The part of handleLogin before the provider call. */
    method Begin() returns (identifier: string)
      modifies this`loading
      ensures loading
      ensures identifier == Normalize(email)
    {
      loading := true;
      identifier := Normalize(email);
    }

    /** The part after the call settles; the loading flag comes down either way. */
    method Settle(outcome: AuthOutcome)
      modifies this`error, this`loading, this`user, this`route
      ensures !loading
      ensures outcome.SignedIn? ==>
        user == Some(outcome.uid) && route == "/" && error == old(error)
      ensures outcome.Rejected? ==>
        error == ErrorMessage(outcome.code) && user == old(user) && route == old(route)
    {
      match outcome {
        case SignedIn(uid) =>
          user := Some(uid);
          route := "/";
        case Rejected(code) =>
          error := ErrorMessage(code);
      }
      loading := false;
    }

    /** handleLogin: the provider sees the normalised identifier and the
        password; afterwards the loading flag is down whatever the outcome. */
    method HandleLogin(provider: Provider)
      modifies this`error, this`loading, this`user, this`route
      ensures !loading
      ensures var outcome := provider(Normalize(old(email)), old(password));
        && (outcome.SignedIn? ==> user == Some(outcome.uid) && route == "/" && error == old(error))
        && (outcome.Rejected? ==> error == ErrorMessage(outcome.code) && user == old(user) && route == old(route))
    {
      var identifier := Begin();
      Settle(provider(identifier, password));
    }
  }
}
