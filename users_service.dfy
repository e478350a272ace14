/**
 * `UsersService` of src/users/users.service.ts: an in-memory list of users with an id counter.
 * The password hash (bcrypt with cost 10 and a random salt) is passed in as a function.
 */
module Users {
  import opened Wrappers
  import opened Exceptions
  import Seqs

  datatype User = User(id: nat, username: string, password: string, email: Option<string>)

  /** Ids are 1, 2, 3, … in list order. */
  ghost predicate NumberedFromOne(users: seq<User>) {
    forall i :: 0 <= i < |users| ==> users[i].id == i + 1
  }

  /** `users.find(user => user.username === username)`. */
  function FirstWithUsername(users: seq<User>, username: string): (r: Option<User>)
    ensures r.None? <==> forall i :: 0 <= i < |users| ==> users[i].username != username
    ensures r.Some? ==> exists i :: 0 <= i < |users| && users[i] == r.value &&
                          r.value.username == username &&
                          forall j :: 0 <= j < i ==> users[j].username != username
  {
    var i := Seqs.FirstIndex(users, (u: User) => u.username == username);
    if i < |users| then Some(users[i]) else None
  }

  /** `users.find(user => user.email === email)`. */
  function FirstWithEmail(users: seq<User>, email: string): (r: Option<User>)
    ensures r.None? <==> forall i :: 0 <= i < |users| ==> users[i].email != Some(email)
    ensures r.Some? ==> exists i :: 0 <= i < |users| && users[i] == r.value &&
                          r.value.email == Some(email) &&
                          forall j :: 0 <= j < i ==> users[j].email != Some(email)
  {
    var i := Seqs.FirstIndex(users, (u: User) => u.email == Some(email));
    if i < |users| then Some(users[i]) else None
  }

  /**
   * The duplicate check of `create`: it runs only for a truthy email, so an absent or empty email is
   * never taken; a non-empty one is taken exactly when some stored user holds it.
   */
  function EmailTaken(users: seq<User>, email: Option<string>): (r: bool)
    ensures email.None? || email == Some("") ==> !r
    ensures email.Some? && email.value != "" ==> (r <==> exists i :: 0 <= i < |users| && users[i].email == email)
  {
    email.Some? && email.value != "" && FirstWithEmail(users, email.value).Some?
  }

  /** In a list numbered from one, ids strictly increase with position, so no two users share one. */
  lemma IdsIncrease(users: seq<User>, i: nat, j: nat)
    requires NumberedFromOne(users)
    requires i < j < |users|
    ensures users[i].id < users[j].id
  {
  }

  /** Appending the user a successful `create` builds keeps the list numbered from one. */
  lemma AppendKeepsNumbering(users: seq<User>, u: User)
    requires NumberedFromOne(users) && u.id == |users| + 1
    ensures NumberedFromOne(users + [u])
  {
  }

  /**
   * Usernames are not unique: appending a user whose name is already taken, as `create` does when
   * only the email is checked, leaves two users with that name, and `findOne` keeps returning the
   * earlier one.
   */
  lemma UsernameNotUnique(users: seq<User>, u: User)
    requires FirstWithUsername(users, u.username).Some?
    ensures FirstWithUsername(users + [u], u.username) == FirstWithUsername(users, u.username)
    ensures exists i :: 0 <= i < |users| && (users + [u])[i].username == (users + [u])[|users|].username
  {
    var name := u.username;
    var s := users + [u];
    var r := FirstWithUsername(users, name);
    var i :| 0 <= i < |users| && users[i] == r.value && r.value.username == name &&
             forall j :: 0 <= j < i ==> users[j].username != name;
    assert s[i] == users[i] && s[|users|] == u;
    var r' := FirstWithUsername(s, name);
    assert r'.Some?;
    var k :| 0 <= k < |s| && s[k] == r'.value && r'.value.username == name &&
             forall j :: 0 <= j < k ==> s[j].username != name;
  }

  class UsersService {
    var users: seq<User>
    var idCounter: nat

    ghost predicate Valid()
      reads this
    {
      NumberedFromOne(users) && idCounter == |users| + 1
    }

    constructor ()
      ensures Valid() && users == [] && idCounter == 1
    {
      users := [];
      idCounter := 1;
    }

    function FindOne(username: string): Option<User>
      reads this
    {
      FirstWithUsername(users, username)
    }

    function FindByEmail(email: string): Option<User>
      reads this
    {
      FirstWithEmail(users, email)
    }

    /**
     * `create`: Conflict, with nothing changed, when a truthy email is already held; otherwise the
     * user gets the next id, the hashed password and the email as given, and is appended.
     */
    method Create(username: string, password: string, email: Option<string>, hash: string -> string)
      returns (r: Result<User>)
      requires Valid()
      modifies this
      ensures Valid()
      ensures EmailTaken(old(users), email) ==> r == Failure(Conflict) && users == old(users) && idCounter == old(idCounter)
      ensures !EmailTaken(old(users), email) ==>
                r == Success(User(old(idCounter), username, hash(password), email)) &&
                users == old(users) + [r.value] && idCounter == old(idCounter) + 1
      ensures r.Success? ==> FindOne(username).Some? && FindOne(username).value.username == username
    {
      if email.Some? && email.value != "" {
        var existing := FindByEmail(email.value);
        if existing.Some? {
          return Failure(Conflict);
        }
      }
      var user := User(idCounter, username, hash(password), email);
      idCounter := idCounter + 1;
      AppendKeepsNumbering(users, user);
      users := users + [user];
      assert users[|users| - 1].username == username;
      r := Success(user);
    }
  }
}
