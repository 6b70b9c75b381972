/** The profile page, `src/pages/Profile.jsx`: only reachable with a session,
    it overlays the edited fields onto every stored record with the session's
    email and merges them into the session. */
module Profile {
  import opened Wrappers
  import opened Accounts

  /** The values of the profile form. */
  datatype Edit = Edit(firstName: string, lastName: string, email: string, mobile: string)

  /** `validationSchema`: all four fields are required and the mobile number
      is ten ASCII digits. */
  predicate FormValid(e: Edit): (ok: bool)
    ensures ok ==> e.firstName != "" && e.lastName != ""
    ensures ok ==> e.email != "" && |e.mobile| == 10
    ensures ok ==> forall i :: 0 <= i < |e.mobile| ==> '0' <= e.mobile[i] <= '9'
  {
    e.firstName != "" && e.lastName != "" && e.email != "" && IsMobile(e.mobile)
  }

  /** `{ ...user, ...edit }`: the edited fields replace the record's, the
      password is the record's. */
  function Overlay(u: User, e: Edit): (r: User)
    ensures r.password == u.password
    ensures r.firstName == e.firstName && r.lastName == e.lastName
    ensures r.email == e.email && r.mobile == e.mobile
  {
    u.(firstName := e.firstName, lastName := e.lastName, email := e.email, mobile := e.mobile)
  }

  /** The `users.map` of `onSubmit`: every record whose email is `email` gets
      the edit overlaid, every other record stays as it was, and the list
      keeps its length and order. No record loses its password. */
  function OverlayMatching(users: seq<User>, email: string, e: Edit): (r: seq<User>)
    ensures |r| == |users|
    ensures forall i :: 0 <= i < |users| && users[i].email == email ==> r[i] == Overlay(users[i], e)
    ensures forall i :: 0 <= i < |users| && users[i].email != email ==> r[i] == users[i]
    ensures forall i :: 0 <= i < |users| ==> r[i].password == users[i].password
  {
    if users == [] then []
    else
      var head := if users[0].email == email then Overlay(users[0], e) else users[0];
      [head] + OverlayMatching(users[1..], email, e)
  }

  /** The object `JSON.parse(null) || {}` gives when the session is missing:
      it has no properties, so after the overlay only `password` is missing. */
  const EmptyRecord := User("", "", "", "", None)

  /** The session `setLoggedInUserToLocalStorage` writes: the stored session,
      or an empty object when there is none, with the edit overlaid. The
      password survives; without a stored session there is none. */
  function MergedSession(session: Option<User>, e: Edit): (r: User)
    ensures r.firstName == e.firstName && r.lastName == e.lastName
    ensures r.email == e.email && r.mobile == e.mobile
    ensures session.Some? ==> r.password == session.value.password
    ensures session.None? ==> r.password.None?
  {
    Overlay(session.GetOr(EmptyRecord), e)
  }

  /** `setLoggedInUserToLocalStorage` of the profile page: it reads the
      session again at the time of writing and merges the edit into it. */
  method SetLoggedInUser(store: Storage, e: Edit)
    modifies store`session
    ensures store.session == Some(MergedSession(old(store.session), e))
  {
    var loggedInUser := store.session.GetOr(EmptyRecord);
    store.session := Some(Overlay(loggedInUser, e));
  }

  /** `onSubmit`, with `authUser` the session read when the page rendered:
      the users list is written back with the edit overlaid on the records of
      `authUser`'s email, then the edit is merged into the current session.
      There is no check that the new email is free. */
  method OnSubmit(store: Storage, authUser: User, e: Edit)
    modifies store
    ensures store.users == Some(OverlayMatching(old(store.StoredUsers()), authUser.email, e))
    ensures store.session == Some(MergedSession(old(store.session), e))
  {
    var users := store.StoredUsers();
    var updatedUsers := OverlayMatching(users, authUser.email, e);
    store.SetUsers(updatedUsers);
    SetLoggedInUser(store, e);
  }

  /** A visit to the page ending in a submit. Without a session the page
      redirects to sign-in and nothing is written; a form the schema rejects
      writes nothing; otherwise the records of the session's email and the
      session itself get the edit. */
  method Visit(store: Storage, e: Edit) returns (outcome: Outcome)
    modifies store
    ensures old(store.session).None? ==>
              outcome == NotSignedIn && store.users == old(store.users) && store.session == old(store.session)
    ensures old(store.session).Some? && !FormValid(e) ==>
              outcome == InvalidForm && store.users == old(store.users) && store.session == old(store.session)
    ensures old(store.session).Some? && FormValid(e) ==>
              && outcome == Done
              && store.users == Some(OverlayMatching(old(store.StoredUsers()), old(store.session).value.email, e))
              && store.session == Some(Overlay(old(store.session).value, e))
  {
    var authUser := store.session;
    if authUser.None? {
      return NotSignedIn;
    }
    if !FormValid(e) {
      return InvalidForm;
    }
    OnSubmit(store, authUser.value, e);
    outcome := Done;
  }

  /** When the new email is the old one or belongs to no stored record, an
      update keeps the stored emails unique. */
  lemma UpdateKeepsUniqueEmails(users: seq<User>, email: string, e: Edit)
    requires UniqueEmails(users)
    requires e.email == email || forall k :: 0 <= k < |users| ==> users[k].email != e.email
    ensures UniqueEmails(OverlayMatching(users, email, e))
  {
    var r := OverlayMatching(users, email, e);
    forall i, j | 0 <= i < j < |r|
      ensures r[i].email != r[j].email
    {
      if users[i].email == email {
        assert users[j].email != email;
        assert r[i].email == e.email && r[j] == users[j];
      } else if users[j].email == email {
        assert r[j].email == e.email && r[i] == users[i];
      } else {
        assert r[i] == users[i] && r[j] == users[j];
      }
    }
  }

  /** Nothing stops an update from taking another user's email: from two
      records with distinct emails, renaming the first to the second's email
      leaves two records with the same email. */
  lemma UpdateCanDuplicateEmail()
    ensures var a := User("Ada", "L", "a@x.io", "0123456789", Some("c1"));
            var b := User("Bob", "M", "b@x.io", "9876543210", Some("c2"));
            var e := Edit("Ada", "L", "b@x.io", "0123456789");
            && UniqueEmails([a, b])
            && FormValid(e)
            && !UniqueEmails(OverlayMatching([a, b], a.email, e))
  {
    var a := User("Ada", "L", "a@x.io", "0123456789", Some("c1"));
    var b := User("Bob", "M", "b@x.io", "9876543210", Some("c2"));
    var e := Edit("Ada", "L", "b@x.io", "0123456789");
    var r := OverlayMatching([a, b], a.email, e);
    assert r[0].email == r[1].email;
  }
}
