/** The login page, `src/pages/Login.jsx`: it looks the submitted email up
    among the stored users, checks the decrypted password and, only on
    success, writes the session. */
module Login {
  import opened Wrappers
  import opened Accounts
  import Signup
  import Js

  /** `validationSchema`: the email is required and the password is at least
      six UTF-16 code units long. */
  predicate FormValid(email: string, password: string): (ok: bool)
    ensures ok ==> email != "" && |password| >= 3
    ensures (forall i :: 0 <= i < |password| ==> password[i] as int < 0x10000) ==>
              (ok <==> email != "" && |password| >= 6)
  {
    email != "" && Js.Utf16Length(password) >= 6
  }

  /** The password length is counted in UTF-16 code units, so three
      characters outside the Basic Multilingual Plane already pass, while
      five ASCII characters do not. */
  lemma AstralPasswordAccepted()
    ensures FormValid("a@b.c", "\U{1F600}\U{1F600}\U{1F600}")
    ensures !FormValid("a@b.c", "abcde")
  {
    Js.Utf16LengthConcat("\U{1F600}", "\U{1F600}\U{1F600}");
    Js.Utf16LengthConcat("\U{1F600}", "\U{1F600}");
  }

  /** How the checks in `onSubmit` end. `DecryptThrew`: decrypting the stored
      password threw, which the `catch` block turns into a generic error. */
  datatype AuthResult = NoSuchEmail | WrongPassword | DecryptThrew | Authenticated(user: User)

  /** The checks of `onSubmit`: the record compared is the first one in list
      order with the submitted email; login succeeds exactly when its
      password decrypts to the submitted one, and then yields that record
      unchanged, encrypted password included. */
  function Authenticate(users: seq<User>, cipher: Cipher, email: string, password: string): (r: AuthResult)
    ensures r == NoSuchEmail <==> forall j :: 0 <= j < |users| ==> users[j].email != email
    ensures r.Authenticated? ==>
              && FirstWithEmail(users, email).Some?
              && r.user == users[FirstWithEmail(users, email).value]
              && r.user.email == email
              && r.user.password.Some?
              && cipher.decrypt(r.user.password.value) == Some(password)
    ensures FirstWithEmail(users, email).Some? ==>
              var u := users[FirstWithEmail(users, email).value];
              && (r.Authenticated? <==> u.password.Some? && cipher.decrypt(u.password.value) == Some(password))
              && (r == DecryptThrew <==> u.password.None? || cipher.decrypt(u.password.value).None?)
    ensures r == WrongPassword ==>
              exists j :: 0 <= j < |users| && users[j].email == email
                          && users[j].password.Some?
                          && cipher.decrypt(users[j].password.value).Some?
                          && cipher.decrypt(users[j].password.value) != Some(password)
  {
    match FirstWithEmail(users, email)
    case None => NoSuchEmail
    case Some(i) =>
      var u := users[i];
      if u.password.None? then DecryptThrew
      else
        match cipher.decrypt(u.password.value)
        case None => DecryptThrew
        case Some(plain) => if plain == password then Authenticated(u) else WrongPassword
  }

  /** Only the first record with an email takes part in login: a later record
      with the same email, whatever its password, changes nothing. */
  lemma FirstRecordDecides(users: seq<User>, later: User, cipher: Cipher, email: string, password: string)
    requires later.email == email
    requires exists j :: 0 <= j < |users| && users[j].email == email
    ensures Authenticate(users + [later], cipher, email, password) == Authenticate(users, cipher, email, password)
  {
    FirstWithEmailPrefix(users, [later], email);
  }

  lemma {:induction false} FirstWithEmailPrefix(users: seq<User>, more: seq<User>, email: string)
    requires FirstWithEmail(users, email).Some?
    ensures FirstWithEmail(users + more, email) == FirstWithEmail(users, email)
  {
    if users[0].email != email {
      assert (users + more)[1..] == users[1..] + more;
      FirstWithEmailPrefix(users[1..], more, email);
    }
  }

  /** The message `onSubmit` shows for a failed check. */
  function ErrorFor(r: AuthResult): (o: Outcome)
    requires !r.Authenticated?
    ensures o.FieldError? && o.message != ""
    ensures o.field == PasswordField <==> r == WrongPassword
  {
    match r
    case NoSuchEmail => FieldError(EmailField, "Email does not exist")
    case WrongPassword => FieldError(PasswordField, "Incorrect password")
    case DecryptThrew => FieldError(EmailField, "An error occurred while logging in")
  }

  /** `onSubmit`: the session is written with the matched record when, and
      only when, the checks pass; the users list is never written. */
  method OnSubmit(store: Storage, cipher: Cipher, email: string, password: string) returns (outcome: Outcome)
    modifies store`session
    ensures store.users == old(store.users)
    ensures var r := Authenticate(old(store.StoredUsers()), cipher, email, password);
            && (r.Authenticated? ==> outcome == Done && store.session == Some(r.user))
            && (!r.Authenticated? ==> outcome == ErrorFor(r) && store.session == old(store.session))
  {
    var users := store.StoredUsers();
    var r := Authenticate(users, cipher, email, password);
    if !r.Authenticated? {
      return ErrorFor(r);
    }
    store.SetSession(r.user);
    outcome := Done;
  }

  /** The form's submit: values the schema rejects never reach `onSubmit`. */
  method Submit(store: Storage, cipher: Cipher, email: string, password: string) returns (outcome: Outcome)
    modifies store`session
    ensures store.users == old(store.users)
    ensures !FormValid(email, password) ==> outcome == InvalidForm && store.session == old(store.session)
    ensures FormValid(email, password) ==>
              var r := Authenticate(old(store.StoredUsers()), cipher, email, password);
              && (r.Authenticated? ==> outcome == Done && store.session == Some(r.user))
              && (!r.Authenticated? ==> outcome == ErrorFor(r) && store.session == old(store.session))
  {
    if !FormValid(email, password) {
      return InvalidForm;
    }
    outcome := OnSubmit(store, cipher, email, password);
  }

  /** A user who has just signed up can log in with the same email and plain
      text password: the form passes the login schema and the check finds
      the new record, whatever the signup evicted. */
  lemma SignupThenLogin(users: seq<User>, cipher: Cipher, form: Signup.SignupForm)
    requires RoundTrips(cipher)
    requires Signup.FormValid(form)
    requires FirstWithEmail(users, form.email).None?
    ensures FormValid(form.email, form.password)
    ensures Authenticate(Signup.Registered(users, Signup.NewUser(cipher, form)), cipher, form.email, form.password)
            == Authenticated(Signup.NewUser(cipher, form))
  {
    var u := Signup.NewUser(cipher, form);
    var r := Signup.Registered(users, u);
    forall k | 0 <= k < |r| - 1
      ensures r[k].email != form.email
    {
      if |users| >= Signup.MaxUsers {
        assert r[k] == users[k + 1];
      } else {
        assert r[k] == users[k];
      }
    }
    assert FirstWithEmail(r, form.email) == Some(|r| - 1);
  }
}
