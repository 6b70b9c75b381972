/** The signup page, `src/pages/Signup.jsx`: its form schema and its submit
    handler, which registers a new user in local storage and logs them in. */
module Signup {
  import opened Wrappers
  import opened Accounts
  import Js

  /** The values of the signup form. */
  datatype SignupForm = SignupForm(
    firstName: string,
    lastName: string,
    email: string,
    mobile: string,
    password: string,
    confirmPassword: string)

  /** `validationSchema`: every field is required, the mobile number is ten
      ASCII digits, the password is at least six UTF-16 code units long and the
      confirmation repeats it. The submit handler runs only on values that
      pass. */
  predicate FormValid(f: SignupForm): (ok: bool)
    ensures ok ==> f.email != "" && |f.mobile| == 10 && |f.password| >= 3
    ensures ok ==> f.confirmPassword == f.password
  {
    && f.firstName != ""
    && f.lastName != ""
    && f.email != ""
    && IsMobile(f.mobile)
    && Js.Utf16Length(f.password) >= 6
    && f.confirmPassword == f.password
  }

  /** The most records the page keeps. */
  const MaxUsers := 5

  /** `newUser`: the four profile fields copied and the password encrypted. */
  function NewUser(cipher: Cipher, f: SignupForm): (u: User)
    ensures u.firstName == f.firstName && u.lastName == f.lastName
    ensures u.email == f.email && u.mobile == f.mobile
    ensures u.password == Some(cipher.encrypt(f.password))
  {
    User(f.firstName, f.lastName, f.email, f.mobile, Some(cipher.encrypt(f.password)))
  }

  /** With a cipher that round-trips, the stored password decrypts to the
      password typed into the form. */
  lemma NewUserPasswordRecoverable(cipher: Cipher, f: SignupForm)
    requires RoundTrips(cipher)
    ensures NewUser(cipher, f).password.Some?
    ensures cipher.decrypt(NewUser(cipher, f).password.value) == Some(f.password)
  {
  }

  /** The list the page stores after a successful signup: when it already
      holds five or more records the oldest one (index 0) is dropped, and the
      new record goes last. */
  function Registered(users: seq<User>, u: User): (r: seq<User>)
    ensures |users| >= MaxUsers ==> |r| == |users|
    ensures |users| < MaxUsers ==> |r| == |users| + 1
    ensures r[|r| - 1] == u
    ensures |users| >= MaxUsers ==> forall k :: 0 <= k < |r| - 1 ==> r[k] == users[k + 1]
    ensures |users| < MaxUsers ==> forall k :: 0 <= k < |r| - 1 ==> r[k] == users[k]
  {
    (if |users| >= MaxUsers then users[1..] else users) + [u]
  }

  /** Signing up a fresh email keeps the registry at most five records long
      with unique emails. */
  lemma SignupKeepsRegistry(users: seq<User>, u: User)
    requires |users| <= MaxUsers && UniqueEmails(users)
    requires FirstWithEmail(users, u.email).None?
    ensures |Registered(users, u)| <= MaxUsers
    ensures UniqueEmails(Registered(users, u))
  {
    var r := Registered(users, u);
    forall i, j | 0 <= i < j < |r|
      ensures r[i].email != r[j].email
    {
      var shift := if |users| >= MaxUsers then 1 else 0;
      assert r[i] == users[i + shift];
      if j < |r| - 1 {
        assert r[j] == users[j + shift];
      }
    }
  }

  /** Signing up a sixth distinct user evicts exactly the oldest: the list
      stays five long and no longer holds the first record. */
  lemma SixthUserEvictsOldest(users: seq<User>, u: User)
    requires |users| == MaxUsers && UniqueEmails(users)
    requires FirstWithEmail(users, u.email).None?
    ensures Registered(users, u) == users[1..] + [u]
    ensures |Registered(users, u)| == MaxUsers
    ensures users[0] !in Registered(users, u)
  {
  }

  /** `onSubmit`. A stored record with the submitted email makes the page
      report `Email already exists` on the email field and write nothing.
      Otherwise the list read from storage loses its first record when it
      already holds five, gains the new record at its end, is written back,
      and the new record becomes the session. */
  method OnSubmit(store: Storage, cipher: Cipher, form: SignupForm) returns (outcome: Outcome)
    modifies store
    ensures FirstWithEmail(old(store.StoredUsers()), form.email).Some? ==>
              && outcome == FieldError(EmailField, "Email already exists")
              && store.users == old(store.users)
              && store.session == old(store.session)
    ensures FirstWithEmail(old(store.StoredUsers()), form.email).None? ==>
              && outcome == Done
              && store.users == Some(Registered(old(store.StoredUsers()), NewUser(cipher, form)))
              && store.session == Some(NewUser(cipher, form))
  {
    var users := store.StoredUsers();
    if FirstWithEmail(users, form.email).Some? {
      outcome := FieldError(EmailField, "Email already exists");
      return;
    }
    var newUser := NewUser(cipher, form);
    if |users| >= MaxUsers {
      users := users[1..];
    }
    users := users + [newUser];
    store.SetUsers(users);
    store.SetSession(newUser);
    outcome := Done;
  }

  /** The form's submit: values the schema rejects never reach `onSubmit`,
      and then storage is untouched. */
  method Submit(store: Storage, cipher: Cipher, form: SignupForm) returns (outcome: Outcome)
    modifies store
    ensures !FormValid(form) ==>
              outcome == InvalidForm && store.users == old(store.users) && store.session == old(store.session)
    ensures FormValid(form) && FirstWithEmail(old(store.StoredUsers()), form.email).Some? ==>
              && outcome == FieldError(EmailField, "Email already exists")
              && store.users == old(store.users)
              && store.session == old(store.session)
    ensures FormValid(form) && FirstWithEmail(old(store.StoredUsers()), form.email).None? ==>
              && outcome == Done
              && store.users == Some(Registered(old(store.StoredUsers()), NewUser(cipher, form)))
              && store.session == Some(NewUser(cipher, form))
  {
    if !FormValid(form) {
      return InvalidForm;
    }
    outcome := OnSubmit(store, cipher, form);
  }
}
