/** UserRepository's queries over the users table, a sequence in insertion order. `ORDER BY
    points DESC` is the stable sort on points, so users with equal points keep table order (one
    of the orders the database may use). */
module UserQueries {
  import opened Wrappers
  import opened Ordering
  import opened Tables
  import opened Entities

  function HasEmail(email: string): User -> bool
  {
    (u: User) => u.email == email
  }

  function HasRole(role: Role): User -> bool
  {
    (u: User) => u.role == role
  }

  function IsActiveUser(): User -> bool
  {
    (u: User) => u.isActive
  }

  function ActiveWithRole(role: Role): User -> bool
  {
    (u: User) => u.role == role && u.isActive
  }

  function AtLeastPoints(minPoints: int): User -> bool
  {
    (u: User) => u.points >= minPoints
  }

  /** ORDER BY points DESC. */
  predicate MorePointsOrSame(a: User, b: User)
  {
    a.points >= b.points
  }

  lemma MorePointsOrSameIsTotalPreorder()
    ensures TotalPreorder(MorePointsOrSame)
  {
  }

  /** The users' emails are pairwise distinct (the unique constraint on email). */
  predicate UniqueEmails(users: seq<User>)
  {
    forall i, j :: 0 <= i < j < |users| ==> users[i].email != users[j].email
  }

  /** findByEmail: the user with that email, if any; under the unique constraint it is the only
      one. */
  function FindByEmail(users: seq<User>, email: string): (r: Option<User>)
    ensures r.Some? ==> r.value in users && r.value.email == email
    ensures r.None? <==> forall i :: 0 <= i < |users| ==> users[i].email != email
    ensures r.Some? && UniqueEmails(users) ==>
              forall i :: 0 <= i < |users| && users[i].email == email ==> users[i] == r.value
  {
    match FirstIndex(users, HasEmail(email))
    case None => None
    case Some(k) => Some(users[k])
  }

  /** existsByEmail */
  predicate ExistsByEmail(users: seq<User>, email: string)
  {
    exists i :: 0 <= i < |users| && users[i].email == email
  }

  /** existsByEmail is true exactly when findByEmail finds a user. */
  lemma ExistsByEmailIffFound(users: seq<User>, email: string)
    ensures ExistsByEmail(users, email) <==> FindByEmail(users, email).Some?
  {
  }

  /** findById: the position of the user with that id. */
  function FindUserIndex(users: seq<User>, id: int): (r: Option<nat>)
    ensures r.Some? ==> r.value < |users| && users[r.value].id == id
    ensures r.None? <==> forall i :: 0 <= i < |users| ==> users[i].id != id
  {
    FirstIndex(users, (u: User) => u.id == id)
  }

  /** findByRole */
  function FindByRole(users: seq<User>, role: Role): seq<User>
  {
    Filter(users, HasRole(role))
  }

  /** findByIsActiveTrue */
  function FindByIsActiveTrue(users: seq<User>): seq<User>
  {
    Filter(users, IsActiveUser())
  }

  /** findByRole and findByIsActiveTrue return exactly the users with that attribute, in table
      order. */
  lemma AttributeQueries(users: seq<User>, role: Role)
    ensures forall u :: u in FindByRole(users, role) <==> u in users && u.role == role
    ensures forall u :: u in FindByIsActiveTrue(users) <==> u in users && u.isActive
    ensures SubsequenceOf(FindByRole(users, role), users)
    ensures SubsequenceOf(FindByIsActiveTrue(users), users)
  {
    FilterKeepsOrder(users, HasRole(role));
    FilterKeepsOrder(users, IsActiveUser());
  }

  /** findTopContributorsByPoints: the active users, most points first. */
  function FindTopContributorsByPoints(users: seq<User>): (r: seq<User>)
    ensures forall u :: u in r <==> u in users && u.isActive
    ensures multiset(r) == multiset(FindByIsActiveTrue(users))
    ensures Sorted(r, MorePointsOrSame)
  {
    var active := FindByIsActiveTrue(users);
    MorePointsOrSameIsTotalPreorder();
    SortBySorted(active, MorePointsOrSame);
    SortByKeepsMembers(active, MorePointsOrSame);
    SortBy(active, MorePointsOrSame)
  }

  /** findUsersByMinPoints: users with at least minPoints points, active or not. */
  function FindUsersByMinPoints(users: seq<User>, minPoints: int): (r: seq<User>)
    ensures forall u :: u in r <==> u in users && u.points >= minPoints
  {
    Filter(users, AtLeastPoints(minPoints))
  }

  /** countActiveUsersByRole */
  function CountActiveUsersByRole(users: seq<User>, role: Role): nat
  {
    Count(users, ActiveWithRole(role))
  }

  /** Every active user is a CONTRIBUTOR or a MODERATOR: the two role counts add up to the
      number of active users, and each is that role's share of findByRole. */
  lemma {:induction false} RoleCountsPartitionActiveUsers(users: seq<User>)
    ensures CountActiveUsersByRole(users, Contributor) + CountActiveUsersByRole(users, Moderator)
            == |FindByIsActiveTrue(users)|
    ensures CountActiveUsersByRole(users, Contributor) <= |FindByRole(users, Contributor)|
    ensures CountActiveUsersByRole(users, Moderator) <= |FindByRole(users, Moderator)|
  {
    if |users| > 0 {
      RoleCountsPartitionActiveUsers(users[1..]);
    }
  }
}
