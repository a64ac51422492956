/** The account registry: users, lookups by identifier, and the uniqueness invariant. */
module Accounts {
  import opened Wrappers

  /** A registered user; `createdAt` is epoch milliseconds. */
  datatype User = User(id: string, username: string, email: string, displayName: Option<string>, createdAt: int)

  datatype AuthError = PasswordMismatch | AccountExists | UserNotFound

  /** The record sign-up creates; the display name is the username. */
  function NewUser(id: string, username: string, email: string, now: int): User {
    User(id, username, email, Some(username), now)
  }

  /** The sign-in test: the identifier is either the email or the username. */
  predicate Matches(u: User, identifier: string) {
    u.email == identifier || u.username == identifier
  }

  /** The sign-up test: same email or same username. */
  predicate Clashes(u: User, email: string, username: string) {
    u.email == email || u.username == username
  }

  /** The first user the identifier designates, as `find` returns it. */
  function FindUser(users: seq<User>, identifier: string): (r: Option<User>)
    ensures r.None? <==> forall i :: 0 <= i < |users| ==> !Matches(users[i], identifier)
    ensures r.Some? ==> exists i :: 0 <= i < |users| && users[i] == r.value && Matches(r.value, identifier) &&
                                    forall j :: 0 <= j < i ==> !Matches(users[j], identifier)
  {
    if users == [] then None
    else if Matches(users[0], identifier) then Some(users[0])
    else
      var r := FindUser(users[1..], identifier);
      assert forall i :: 1 <= i < |users| ==> users[i] == users[1..][i - 1];
      r
  }

  /** The first registered user that a new `(email, username)` clashes with. */
  function FindClash(users: seq<User>, email: string, username: string): (r: Option<User>)
    ensures r.None? <==> forall i :: 0 <= i < |users| ==> !Clashes(users[i], email, username)
    ensures r.Some? ==> exists i :: 0 <= i < |users| && users[i] == r.value && Clashes(r.value, email, username)
  {
    if users == [] then None
    else if Clashes(users[0], email, username) then Some(users[0])
    else
      var r := FindClash(users[1..], email, username);
      assert forall i :: 1 <= i < |users| ==> users[i] == users[1..][i - 1];
      r
  }

  /** The registry invariant: no two users share an email or a username. */
  predicate AccountsUnique(users: seq<User>) {
    forall i, j :: 0 <= i < j < |users| ==>
      users[i].email != users[j].email && users[i].username != users[j].username
  }

  /** Appending a user that clashes with nobody keeps the registry unique. */
  lemma SignUpKeepsUnique(users: seq<User>, u: User)
    requires AccountsUnique(users)
    requires FindClash(users, u.email, u.username).None?
    ensures AccountsUnique(users + [u])
  {
    var us := users + [u];
    forall i, j | 0 <= i < j < |us|
      ensures us[i].email != us[j].email && us[i].username != us[j].username
    {
      if j == |users| {
        assert !Clashes(users[i], u.email, u.username);
      }
    }
  }

  /** After a sign-up, signing in with the new email or the new username finds a user;
      it is the new user exactly when no earlier user has that identifier in the other field. */
  lemma SignInAfterSignUp(users: seq<User>, u: User)
    requires FindClash(users, u.email, u.username).None?
    ensures FindUser(users + [u], u.email).Some? && FindUser(users + [u], u.username).Some?
    ensures FindUser(users + [u], u.email) == Some(u) <==> forall i :: 0 <= i < |users| ==> users[i].username != u.email
    ensures FindUser(users + [u], u.username) == Some(u) <==> forall i :: 0 <= i < |users| ==> users[i].email != u.username
  {
    FindUserAppend(users, u, u.email);
    FindUserAppend(users, u, u.username);
  }

  /** Looking up in `users + [u]`: an earlier match wins, else `u` if it matches. */
  lemma {:induction false} FindUserAppend(users: seq<User>, u: User, identifier: string)
    ensures FindUser(users + [u], identifier) ==
      if FindUser(users, identifier).Some? then FindUser(users, identifier)
      else if Matches(u, identifier) then Some(u) else None
  {
    if users != [] {
      assert (users + [u])[1..] == users[1..] + [u];
      FindUserAppend(users[1..], u, identifier);
    }
  }

  /** The cross-field case: an earlier user's email equal to the new username is not a
      conflict at sign-up, and signing in with that username then finds the earlier user. */
  lemma SignInShadowedByEarlierEmail()
    ensures var alice := User("user_1", "alice", "carol@example.com", Some("alice"), 0);
      var carol := NewUser("user_2", "carol@example.com", "bob@example.com", 1);
      && FindClash([alice], carol.email, carol.username).None?
      && FindUser([alice, carol], "carol@example.com") == Some(alice)
  {
    var alice := User("user_1", "alice", "carol@example.com", Some("alice"), 0);
    var carol := NewUser("user_2", "carol@example.com", "bob@example.com", 1);
    assert FindUser([alice, carol], "carol@example.com") == Some(alice);
  }
}
