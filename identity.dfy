/** The account store the controller talks to (ASP.NET Identity's UserManager),
    reduced to what the controller uses: the account list, the roles held by
    each account, lookup by user name and account creation. Password hashing
    and verification live in the store and are not modelled here. */
module Identity {

  datatype Option<T> = None | Some(value: T)

  /** An account record. DateOfBirth is a point in time in whole seconds. */
  datatype ApplicationUser = ApplicationUser(
    userName: string,
    email: string,
    dateOfBirth: int,
    name: string,
    neptunCode: string,
    department: string,
    isUser: bool)

  /** No two accounts share a user name, and no two share an email. */
  predicate UniqueCredentials(users: seq<ApplicationUser>)
  {
    forall i, j :: 0 <= i < j < |users| ==>
      users[i].userName != users[j].userName && users[i].email != users[j].email
  }

  /** Position of the first account called `userName`, or |users| if none is. */
  function IndexOfName(users: seq<ApplicationUser>, userName: string): (k: nat)
    ensures k <= |users|
    ensures forall j :: 0 <= j < k ==> users[j].userName != userName
    ensures k < |users| ==> users[k].userName == userName
  {
    if users == [] then 0
    else if users[0].userName == userName then 0
    else 1 + IndexOfName(users[1..], userName)
  }

  /** FindByNameAsync: the account with this user name, if there is one. */
  function FindByName(users: seq<ApplicationUser>, userName: string): (r: Option<ApplicationUser>)
    ensures r.None? <==> forall i :: 0 <= i < |users| ==> users[i].userName != userName
    ensures r.Some? ==> r.value in users && r.value.userName == userName
    ensures r.Some? && UniqueCredentials(users) ==>
      forall i :: 0 <= i < |users| && users[i].userName == userName ==> users[i] == r.value
  {
    var k := IndexOfName(users, userName);
    if k < |users| then Some(users[k]) else None
  }

  /** Every user name that has a roles entry belongs to a stored account. */
  predicate RolesBelongToAccounts(users: seq<ApplicationUser>, roles: map<string, seq<string>>)
  {
    forall name :: name in roles ==> exists i :: 0 <= i < |users| && users[i].userName == name
  }

  /** GetRolesAsync: the roles assigned to an account, none if it has no entry. */
  function RolesOf(roles: map<string, seq<string>>, user: ApplicationUser): (r: seq<string>)
    ensures user.userName in roles ==> r == roles[user.userName]
    ensures user.userName !in roles ==> r == []
  {
    if user.userName in roles then roles[user.userName] else []
  }

  /** The store's mutable state: the accounts and each account's roles. */
  class AccountStore {
    var users: seq<ApplicationUser>
    var roles: map<string, seq<string>>

    constructor (users0: seq<ApplicationUser>, roles0: map<string, seq<string>>)
      ensures users == users0 && roles == roles0
    {
      users := users0;
      roles := roles0;
    }

    /** CreateAsync: persists `user` when the store accepts it. Whether it does
        (password policy, storage-level constraints) is decided by the store
        and given here as `succeeds`; a refused create leaves the store as it was. */
    method Create(user: ApplicationUser, password: string, succeeds: bool) returns (ok: bool)
      modifies this
      ensures ok == succeeds
      ensures users == if succeeds then old(users) + [user] else old(users)
      ensures roles == old(roles)
    {
      if succeeds {
        users := users + [user];
      }
      ok := succeeds;
    }
  }
}
