/** What the account pages (`Signup.jsx`, `Login.jsx`, `Profile.jsx`) share:
    the user record, the two local-storage entries they read and write, the
    email lookup that `users.find` performs, and the cipher they call. */
module Accounts {
  import opened Wrappers
  import Js

  /** A stored user record. `password` holds the cipher text; it is `None`
      only for a session record built by the profile merge from an empty
      object, which has no `password` property. */
  datatype User = User(
    firstName: string,
    lastName: string,
    email: string,
    mobile: string,
    password: Option<string>)

  /** The AES cipher with the application's fixed key, a foreign library.
      `decrypt` is `None` where decryption throws (malformed UTF-8 output,
      a missing cipher text). */
  datatype Cipher = Cipher(encrypt: string -> string, decrypt: string -> Option<string>)

  /** The law the pages rely on: decrypting an encryption gives back the
      plain text. */
  ghost predicate RoundTrips(c: Cipher) {
    forall p :: c.decrypt(c.encrypt(p)) == Some(p)
  }

  /** The browser's local storage, reduced to the two entries the application
      uses, with JSON (de)serialisation left implicit. */
  class Storage {
    /** The `users` entry; `None` when the key is absent. */
    var users: Option<seq<User>>
    /** The `loggedInUser` entry; `None` when nobody is logged in. */
    var session: Option<User>

    constructor ()
      ensures users == None && session == None
    {
      users, session := None, None;
    }

    /** `getUsersFromLocalStorage`: the stored list, and the empty list when
        the key is absent. */
    function StoredUsers(): (us: seq<User>)
      reads this
      ensures users.None? ==> us == []
      ensures users.Some? ==> us == users.value
    {
      users.GetOr([])
    }

    /** `setUsersToLocalStorage`: overwrites the list wholesale. */
    method SetUsers(us: seq<User>)
      modifies this`users
      ensures users == Some(us)
    {
      users := Some(us);
    }

    /** `setLoggedInUserToLocalStorage` of the signup and login pages. */
    method SetSession(u: User)
      modifies this`session
      ensures session == Some(u)
    {
      session := Some(u);
    }
  }

  /** `users.find(user => user.email === email)`, as the index of the record
      found: the first record in list order with that email, and `None`
      exactly when no record has it. */
  function FirstWithEmail(users: seq<User>, email: string): (r: Option<nat>)
    ensures r.Some? ==> r.value < |users| && users[r.value].email == email
    ensures r.Some? ==> forall j :: 0 <= j < r.value ==> users[j].email != email
    ensures r.None? <==> forall j :: 0 <= j < |users| ==> users[j].email != email
  {
    if users == [] then None
    else if users[0].email == email then Some(0)
    else
      match FirstWithEmail(users[1..], email)
      case None => None
      case Some(i) => Some(i + 1)
  }

  /** The invariant the signup page aims at: no two stored records share an
      email. */
  ghost predicate UniqueEmails(users: seq<User>) {
    forall i, j :: 0 <= i < j < |users| ==> users[i].email != users[j].email
  }

  /** Yup's `.matches(/^[0-9]{10}$/)` on the mobile number. */
  predicate IsMobile(s: string) {
    |s| == 10 && Js.IsDigits(s)
  }

  /** The form field an error message is attached to. */
  datatype Field = EmailField | PasswordField

  /** What a form submission leads to. `InvalidForm`: the schema rejected the
      values and the submit handler did not run. `NotSignedIn`: the profile
      page redirected to the sign-in page. */
  datatype Outcome =
    | Done
    | FieldError(field: Field, message: string)
    | InvalidForm
    | NotSignedIn
}
