/**
 The login service: an in-memory table from user id to user. Logging in
 with a non-empty username creates (or overwrites) the entry whose id is the
 username behind a fixed prefix; lookups return the entry or nothing; the
 table can be emptied.
 */
module Auth {
  import opened Models

  const USER_ID_PREFIX := "user_"
  const USERNAME_REQUIRED_MSG := "Username is required."

  /** The id a username is stored under: the prefix followed by the raw username. */
  function UserIdFor(username: string): (id: string)
    ensures |id| == |USER_ID_PREFIX| + |username|
    ensures id[..|USER_ID_PREFIX|] == USER_ID_PREFIX && id[|USER_ID_PREFIX|..] == username
  {
    USER_ID_PREFIX + username
  }

  /** Distinct usernames get distinct ids, so a login never overwrites another user's entry. */
  lemma UserIdInjective(a: string, b: string)
    requires UserIdFor(a) == UserIdFor(b)
    ensures a == b
  {
  }

  class AuthService {
    var users: map<string, User>

    /** Every entry is the user its key was made from: a non-empty username behind the prefix. */
    ghost predicate Valid()
      reads this
    {
      forall id :: id in users ==>
        users[id].id == id && id == UserIdFor(users[id].username) && users[id].username != ""
    }

    constructor ()
      ensures users == map[] && Valid()
    {
      users := map[];
    }

    /**
     Logs `username` in. An empty username fails with the "required" message
     and leaves the table alone; otherwise the user with the derived id is
     stored under that id, replacing any earlier entry, and every other entry
     is unchanged. The password is accepted without being checked.
     */
    method Login(username: string, password: string) returns (r: Result<User>)
      modifies this
      ensures username == "" ==> r == Failure(USERNAME_REQUIRED_MSG) && users == old(users)
      ensures username != "" ==> r == Success(User(UserIdFor(username), username))
      ensures username != "" ==> users == old(users)[UserIdFor(username) := r.value]
      ensures r.Success? ==> GetUserById(r.value.id) == Some(r.value)
      ensures forall id :: id != UserIdFor(username) ==> GetUserById(id) == old(GetUserById(id))
      ensures old(Valid()) ==> Valid()
    {
      if username == "" {
        return Failure(USERNAME_REQUIRED_MSG);
      }
      var userId := UserIdFor(username);
      var user := User(userId, username);
      users := users[userId := user];
      r := Success(user);
    }

    /**
     The user stored under `id`, or nothing. Under the table's invariant a
     user found this way has exactly that id and logged in under the
     username the id was made from.
     */
    function GetUserById(id: string): (u: Option<User>)
      reads this
      ensures u.Some? <==> id in users
      ensures u.Some? ==> u.value == users[id]
      ensures Valid() && u.Some? ==> u.value.id == id && UserIdFor(u.value.username) == id
    {
      if id in users then Some(users[id]) else None
    }

    /** Empties the table: every lookup finds nothing until the next login. */
    method ClearUsers()
      modifies this
      ensures users == map[] && Valid()
      ensures forall id :: GetUserById(id) == None
    {
      users := map[];
    }
  }
}
