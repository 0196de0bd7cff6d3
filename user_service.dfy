/** UserService.java over the users table. The password encoder is a parameter (a function from
    raw to encoded password); ids come from a counter that starts at 1. */
module UserAccounts {
  import opened Wrappers
  import opened Text
  import opened Entities
  import opened UserQueries

  datatype UserError =
    | EmailTaken
    | UserNotFound(id: int)
    | UserConstraintViolation(message: string)

  function UserErrorMessage(e: UserError): (m: string)
    ensures e.EmailTaken? ==> m == "Error: Email is already taken!"
    ensures e.UserNotFound? ==> m == "User not found with id: " + IntToString(e.id)
    ensures e.UserConstraintViolation? ==> m == e.message
  {
    match e
    case EmailTaken => "Error: Email is already taken!"
    case UserNotFound(id) => "User not found with id: " + IntToString(id)
    case UserConstraintViolation(message) => message
  }

  /** What the users table always satisfies: ids unique and below the next id, emails unique,
      every row valid. */
  predicate AccountsValid(users: seq<User>, nextUserId: int)
  {
    && 1 <= nextUserId
    && (forall i :: 0 <= i < |users| ==> 1 <= users[i].id < nextUserId)
    && (forall i, j :: 0 <= i < j < |users| ==> users[i].id != users[j].id)
    && UniqueEmails(users)
    && RowsValid(users)
  }

  /** Every row passes the entity's validation. Written by recursion, so that a proof about one
      row does not unfold the validation of every other row. */
  predicate RowsValid(users: seq<User>)
  {
    |users| == 0 || (ValidUser(users[0]) && RowsValid(users[1..]))
  }

  /** Each stored row is valid. */
  lemma {:induction false} RowsValidAt(users: seq<User>, k: nat)
    requires RowsValid(users) && k < |users|
    ensures ValidUser(users[k])
  {
    if k > 0 {
      RowsValidAt(users[1..], k - 1);
    }
  }

  /** Replacing a row by a valid one keeps every row valid. */
  lemma {:induction false} RowsValidUpdate(users: seq<User>, k: nat, u: User)
    requires RowsValid(users) && k < |users| && ValidUser(u)
    ensures RowsValid(users[k := u])
  {
    if k == 0 {
      assert users[k := u][1..] == users[1..];
    } else {
      RowsValidUpdate(users[1..], k - 1, u);
      assert users[k := u][1..] == users[1..][k - 1 := u];
    }
  }

  /** Appending a valid row keeps every row valid. */
  lemma {:induction false} RowsValidAppend(users: seq<User>, u: User)
    requires RowsValid(users) && ValidUser(u)
    ensures RowsValid(users + [u])
  {
    if |users| > 0 {
      RowsValidAppend(users[1..], u);
      assert (users + [u])[1..] == users[1..] + [u];
    }
  }

  /** The user createUser builds. */
  function RegisteredUser(name: string, email: string, password: string, encode: string -> string,
                          id: int, now: int): (u: User)
    ensures u == NewUser(name, email, encode(password)).(id := id, createdAt := now)
    ensures HasUserDefaults(u) && u.name == name && u.email == email && u.password == encode(password)
  {
    User(id, name, email, encode(password), Contributor, 0, true, now)
  }

  /** A change to role, points or isActive of a stored user keeps the table valid: ids, emails
      and the validated fields stay as they were. */
  lemma RowUpdateKeepsAccountsValid(users: seq<User>, nextUserId: int, k: nat, u: User)
    requires AccountsValid(users, nextUserId) && k < |users|
    requires u.id == users[k].id && u.name == users[k].name && u.email == users[k].email
    requires u.password == users[k].password
    ensures AccountsValid(users[k := u], nextUserId)
  {
    RowsValidAt(users, k);
    RowsValidUpdate(users, k, u);
  }

  /** findById on the id of a stored user finds that user's row, ids being unique. */
  lemma StoredUserIsFound(users: seq<User>, nextUserId: int, k: nat)
    requires AccountsValid(users, nextUserId) && k < |users|
    ensures FindUserIndex(users, users[k].id) == Some(k)
  {
  }

  class UserService {
    var users: seq<User>
    var nextUserId: int

    ghost predicate Valid()
      reads this
    {
      AccountsValid(users, nextUserId)
    }

    constructor()
      ensures Valid() && users == []
    {
      users := [];
      nextUserId := 1;
    }

    /** createUser: an email already registered fails and stores nothing; otherwise the user is
        stored with the next id, role CONTRIBUTOR, 0 points, active, and the encoded password. */
    method CreateUser(name: string, email: string, password: string, encode: string -> string, now: int)
      returns (result: Result<User, UserError>)
      requires Valid()
      modifies this
      ensures Valid()
      ensures ExistsByEmail(old(users), email) ==> result == Err(EmailTaken) && users == old(users)
      ensures !ExistsByEmail(old(users), email) ==>
                var u := RegisteredUser(name, email, password, encode, old(nextUserId), now);
                if ValidUser(u) then result == Ok(u) && users == old(users) + [u]
                else result.Err? && result.error.UserConstraintViolation? && users == old(users)
    {
      if ExistsByEmail(users, email) {
        return Err(EmailTaken);
      }
      var u := RegisteredUser(name, email, password, encode, nextUserId, now);
      if !ValidUser(u) {
        return Err(UserConstraintViolation("name, email or password violates its constraint"));
      }
      RowsValidAppend(users, u);
      users := users + [u];
      nextUserId := nextUserId + 1;
      result := Ok(u);
    }

    /** updateUserPoints: the caller's copy of the user, with pointsToAdd added (no floor, no
        cap), is saved over the stored row. Only the points of that row change. */
    method UpdateUserPoints(user: User, pointsToAdd: int) returns (saved: User)
      requires Valid()
      requires FindUserIndex(users, user.id).Some?
      requires var k := FindUserIndex(users, user.id).value;
               user.name == users[k].name && user.email == users[k].email && user.password == users[k].password
      modifies this
      ensures Valid()
      ensures saved == user.(points := user.points + pointsToAdd)
      ensures users == old(users)[FindUserIndex(old(users), user.id).value := saved]
      ensures nextUserId == old(nextUserId)
    {
      var k := FindUserIndex(users, user.id).value;
      saved := user.(points := user.points + pointsToAdd);
      RowUpdateKeepsAccountsValid(users, nextUserId, k, saved);
      users := users[k := saved];
    }

    /** promoteToModerator: only the role changes; an unknown id fails and changes nothing. */
    method PromoteToModerator(userId: int) returns (result: Result<User, UserError>)
      requires Valid()
      modifies this
      ensures Valid()
      ensures nextUserId == old(nextUserId)
      ensures match FindUserIndex(old(users), userId)
              case None => result == Err(UserNotFound(userId)) && users == old(users)
              case Some(k) =>
                var u := old(users)[k].(role := Moderator);
                result == Ok(u) && users == old(users)[k := u]
    {
      var found := FindUserIndex(users, userId);
      if found.None? {
        return Err(UserNotFound(userId));
      }
      var k := found.value;
      var u := users[k].(role := Moderator);
      RowUpdateKeepsAccountsValid(users, nextUserId, k, u);
      users := users[k := u];
      result := Ok(u);
    }

    /** deactivateUser: only isActive changes, to false; an unknown id fails and changes
        nothing. */
    method DeactivateUser(userId: int) returns (result: Result<User, UserError>)
      requires Valid()
      modifies this
      ensures Valid()
      ensures nextUserId == old(nextUserId)
      ensures match FindUserIndex(old(users), userId)
              case None => result == Err(UserNotFound(userId)) && users == old(users)
              case Some(k) =>
                var u := old(users)[k].(isActive := false);
                result == Ok(u) && users == old(users)[k := u]
    {
      var found := FindUserIndex(users, userId);
      if found.None? {
        return Err(UserNotFound(userId));
      }
      var k := found.value;
      var u := users[k].(isActive := false);
      RowUpdateKeepsAccountsValid(users, nextUserId, k, u);
      users := users[k := u];
      result := Ok(u);
    }
  }
}
