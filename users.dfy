/**
 * The hard-coded staff accounts, credential lookup and the two capability
 * checks. A missing user (`null`) is the read-only guest.
 */
module Users {
  import opened Wrappers
  import opened Strings

  // ROLES
  const ADMIN: string := "admin"
  const STAFF: string := "staff"

  datatype User = User(id: string, password: string, role: string, displayName: string)

  const USERS: seq<User> := [
    User("admin", "admin1234", ADMIN, "Admin"),
    User("user1", "user1234", STAFF, "พนักงาน 1"),
    User("user2", "user2234", STAFF, "พนักงาน 2")
  ]

  predicate Matches(u: User, username: string, password: string)
  {
    u.id == username && u.password == password
  }

  /** `users.find(u => u.id === username && u.password === password) || null`. */
  function FindUser(users: seq<User>, username: string, password: string): (r: Option<User>)
    ensures r.Some? ==> r.value in users && Matches(r.value, username, password)
    ensures r.None? <==> forall u :: u in users ==> !Matches(u, username, password)
  {
    if |users| == 0 then None
    else if Matches(users[0], username, password) then Some(users[0])
    else FindUser(users[1..], username, password)
  }

  ghost predicate DistinctIds(users: seq<User>)
  {
    forall i, j :: 0 <= i < j < |users| ==> users[i].id != users[j].id
  }

  /** With distinct ids the matching account, when there is one, is the one found. */
  lemma {:induction false} FindUserUnique(users: seq<User>, u: User, password: string)
    requires DistinctIds(users) && u in users && u.password == password
    ensures FindUser(users, u.id, password) == Some(u)
  {
    if users[0] != u {
      assert users[0].id != u.id by {
        var k :| 0 <= k < |users| && users[k] == u;
        assert k > 0;
      }
      assert DistinctIds(users[1..]) by {
        forall i, j | 0 <= i < j < |users| - 1 ensures users[1..][i].id != users[1..][j].id {
          assert users[1..][i] == users[i + 1] && users[1..][j] == users[j + 1];
        }
      }
      FindUserUnique(users[1..], u, password);
    }
  }

  lemma UsersDistinctIds()
    ensures DistinctIds(USERS)
  {
    assert USERS[0].id[0] != USERS[1].id[0] && USERS[0].id[0] != USERS[2].id[0];
    assert USERS[1].id[4] != USERS[2].id[4];
  }

  /** `authenticate(username, password)`. */
  function Authenticate(username: string, password: string): Option<User>
  {
    FindUser(USERS, username, password)
  }

  /**
   * A login succeeds only with an account's own id and password, yields that
   * account, and succeeds for every account given its own credentials.
   */
  lemma AuthenticateSound(username: string, password: string)
    ensures Authenticate(username, password).Some? ==>
      var u := Authenticate(username, password).value;
      u in USERS && u.id == username && u.password == password
    ensures Authenticate(username, password).None? <==>
      forall u :: u in USERS ==> !(u.id == username && u.password == password)
  {
  }

  lemma AuthenticateComplete(u: User)
    requires u in USERS
    ensures Authenticate(u.id, u.password) == Some(u)
  {
    UsersDistinctIds();
    FindUserUnique(USERS, u, u.password);
  }

  /** The login form's submit: the username is trimmed, the password is not. */
  function Login(username: string, password: string): (r: Option<User>)
    ensures r.Some? ==> r.value in USERS && r.value.id == Trim(username) && r.value.password == password
    ensures forall u :: u in USERS && u.id == Trim(username) && u.password == password ==> r == Some(u)
  {
    UsersDistinctIds();
    forall u | u in USERS && u.id == Trim(username) && u.password == password {
      FindUserUnique(USERS, u, password);
    }
    Authenticate(Trim(username), password)
  }

  /** `canEdit(user)`. */
  predicate CanEdit(user: Option<User>)
  {
    user.Some? && (user.value.role == ADMIN || user.value.role == STAFF)
  }

  /** `canCancel(user)`. */
  predicate CanCancel(user: Option<User>)
  {
    user.Some? && user.value.role == ADMIN
  }

  /**
   * The guest can neither edit nor cancel, cancelling implies editing,
   * staff accounts edit but do not cancel, and the admin does both.
   */
  lemma Capabilities(user: Option<User>)
    ensures !CanEdit(None) && !CanCancel(None)
    ensures CanCancel(user) ==> CanEdit(user)
    ensures user.Some? && user.value.role == STAFF ==> CanEdit(user) && !CanCancel(user)
    ensures user.Some? && user.value.role == ADMIN ==> CanEdit(user) && CanCancel(user)
  {
    assert ADMIN[0] != STAFF[0];
  }

  /** Every account that can log in may edit; only the admin account may cancel. */
  lemma LoggedInCapabilities(username: string, password: string)
    ensures Authenticate(username, password).Some? ==> CanEdit(Authenticate(username, password))
    ensures CanCancel(Authenticate(username, password)) ==> username == "admin"
  {
    assert ADMIN[0] != STAFF[0];
  }
}
