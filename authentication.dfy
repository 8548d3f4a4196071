/** AuthenticationController: user registration and login. */
module Authentication {
  import opened Identity
  import opened Claims
  import opened Tokens

  datatype UserRegistrationDTO = UserRegistrationDTO(
    username: string,
    email: string,
    password: string,
    dateOfBirth: int,
    name: string,
    neptunCode: string,
    department: string)

  datatype UserLoginDTO = UserLoginDTO(username: string, password: string)

  /** What RegisterUser yields: a status code, or the ApplicationException it throws. */
  datatype RegisterResult = StatusCode(code: int) | ApplicationException(message: string)

  /** What Login yields: 200 with the token and its expiry, or 401. */
  datatype LoginResult = Ok(token: JwtSecurityToken, expiration: int) | Unauthorized

  const UserExistsMessage: string := "Username/Email already exists!"
  const RegistrationFailedMessage: string := "Registration failed!"

  /** The existence check of RegisterUser: some account already has the
      requested user name, or the requested email. */
  function AlreadyRegistered(users: seq<ApplicationUser>, request: UserRegistrationDTO): (b: bool)
    ensures b <==>
      (exists i :: 0 <= i < |users| &&
         (users[i].userName == request.username || users[i].email == request.email))
  {
    if users == [] then false
    else if users[0].userName == request.username || users[0].email == request.email then true
    else
      assert forall i :: 1 <= i < |users| ==> users[i] == users[1..][i - 1];
      AlreadyRegistered(users[1..], request)
  }

  /** The account RegisterUser builds from a request. IsUser is not set by
      the object initializer and keeps its default, false. */
  function NewAccount(request: UserRegistrationDTO): (u: ApplicationUser)
    ensures u.userName == request.username && u.email == request.email
    ensures u.dateOfBirth == request.dateOfBirth && u.name == request.name
    ensures u.neptunCode == request.neptunCode && u.department == request.department
    ensures !u.isUser
  {
    ApplicationUser(
      request.username,
      request.email,
      request.dateOfBirth,
      request.name,
      request.neptunCode,
      request.department,
      false)
  }

  /** The gate of Login: the account found by user name, provided the store
      accepts the password for it. `passwordMatches` stands for the store's
      CheckPasswordAsync. */
  function Authenticate(users: seq<ApplicationUser>, login: UserLoginDTO,
                        passwordMatches: (ApplicationUser, string) -> bool): (r: Option<ApplicationUser>)
    ensures r.Some? ==> r.value in users && r.value.userName == login.username
    ensures r.Some? ==> passwordMatches(r.value, login.password)
    ensures UniqueCredentials(users) ==>
      (r.Some? <==> exists i :: 0 <= i < |users| && users[i].userName == login.username &&
                               passwordMatches(users[i], login.password))
  {
    match FindByName(users, login.username)
    case None => None
    case Some(user) => if passwordMatches(user, login.password) then Some(user) else None
  }

  /** A registration that passes the existence check keeps user names and
      emails unique. */
  lemma RegistrationKeepsCredentialsUnique(users: seq<ApplicationUser>, request: UserRegistrationDTO)
    requires UniqueCredentials(users)
    requires !AlreadyRegistered(users, request)
    ensures UniqueCredentials(users + [NewAccount(request)])
  {
  }

  /** Once an account is registered, a second request with the same user
      name or the same email fails the existence check. */
  lemma DuplicateRegistrationRejected(users: seq<ApplicationUser>, first: UserRegistrationDTO,
                                      second: UserRegistrationDTO)
    requires second.username == first.username || second.email == first.email
    ensures AlreadyRegistered(users + [NewAccount(first)], second)
  {
    var after := users + [NewAccount(first)];
    assert after[|users|] == NewAccount(first);
  }

  /** When every roles entry belongs to a stored account, an account that
      passes the existence check starts without roles, and adding it keeps
      every roles entry attached to a stored account. */
  lemma NewAccountHasNoRoles(users: seq<ApplicationUser>, roles: map<string, seq<string>>,
                             request: UserRegistrationDTO)
    requires RolesBelongToAccounts(users, roles)
    requires !AlreadyRegistered(users, request)
    ensures RolesOf(roles, NewAccount(request)) == []
    ensures RolesBelongToAccounts(users + [NewAccount(request)], roles)
  {
    var after := users + [NewAccount(request)];
    forall name | name in roles
      ensures exists i :: 0 <= i < |after| && after[i].userName == name
    {
      var i :| 0 <= i < |users| && users[i].userName == name;
      assert after[i] == users[i];
    }
  }

  /** A freshly registered account is the one Login finds by its user name. */
  lemma RegisteredAccountIsFound(users: seq<ApplicationUser>, request: UserRegistrationDTO)
    requires !AlreadyRegistered(users, request)
    ensures FindByName(users + [NewAccount(request)], request.username) == Some(NewAccount(request))
  {
    var after := users + [NewAccount(request)];
    assert forall i :: 0 <= i < |users| ==> after[i] == users[i];
    assert after[|users|] == NewAccount(request);
  }

  class AuthenticationController {
    const userManager: AccountStore
    const configuration: JwtConfig

    constructor (userManager: AccountStore, configuration: JwtConfig)
      ensures this.userManager == userManager && this.configuration == configuration
    {
      this.userManager := userManager;
      this.configuration := configuration;
    }

    /** RegisterUser: rejects a request whose user name or email is taken,
        without touching the store; otherwise hands the new account to the
        store and answers 201 exactly when the store creates it. */
    method RegisterUser(request: UserRegistrationDTO, createSucceeds: bool) returns (r: RegisterResult)
      modifies userManager
      ensures AlreadyRegistered(old(userManager.users), request) ==>
        r == ApplicationException(UserExistsMessage) && userManager.users == old(userManager.users)
      ensures !AlreadyRegistered(old(userManager.users), request) ==>
        r == (if createSucceeds then StatusCode(201) else ApplicationException(RegistrationFailedMessage))
      ensures !AlreadyRegistered(old(userManager.users), request) ==>
        userManager.users == old(userManager.users) + (if createSucceeds then [NewAccount(request)] else [])
      ensures userManager.roles == old(userManager.roles)
      ensures UniqueCredentials(old(userManager.users)) ==> UniqueCredentials(userManager.users)
      ensures RolesBelongToAccounts(old(userManager.users), old(userManager.roles)) ==>
        RolesBelongToAccounts(userManager.users, userManager.roles)
      ensures RolesBelongToAccounts(old(userManager.users), old(userManager.roles)) &&
              !AlreadyRegistered(old(userManager.users), request) ==>
        RolesOf(userManager.roles, NewAccount(request)) == []
    {
      if AlreadyRegistered(userManager.users, request) {
        return ApplicationException(UserExistsMessage);
      }
      if UniqueCredentials(userManager.users) {
        RegistrationKeepsCredentialsUnique(userManager.users, request);
      }
      if RolesBelongToAccounts(userManager.users, userManager.roles) {
        NewAccountHasNoRoles(userManager.users, userManager.roles, request);
      }
      var user := NewAccount(request);
      var succeeded := userManager.Create(user, request.password, createSucceeds);
      r := if succeeded then StatusCode(201) else ApplicationException(RegistrationFailedMessage);
    }

    /** Login: an unknown user name and a wrong password both give the same
        Unauthorized; otherwise a token for the account's claims, issued at
        `now` with `freshId` as its token id. The store is only read. */
    method Login(login: UserLoginDTO, passwordMatches: (ApplicationUser, string) -> bool,
                 freshId: string, now: int) returns (r: LoginResult)
      ensures r == Unauthorized <==>
        (FindByName(userManager.users, login.username).None? ||
         !passwordMatches(FindByName(userManager.users, login.username).value, login.password))
      ensures r.Ok? ==>
        var user := Authenticate(userManager.users, login, passwordMatches).value;
        r.token == GetToken(configuration, AuthClaims(user, freshId, RolesOf(userManager.roles, user)), now) &&
        r.expiration == r.token.expires
    {
      var user := Authenticate(userManager.users, login, passwordMatches);
      if user.Some? {
        var userRoles := RolesOf(userManager.roles, user.value);
        var authClaims := BuildClaims(user.value, freshId, userRoles);
        var token := GetToken(configuration, authClaims, now);
        return Ok(token, token.expires);
      }
      return Unauthorized;
    }
  }

  /** A client of the controller: register "alice", fail to register the
      same user name again, log in with the right password and then with a
      wrong one. */
  method RegisterAndLoginScenario()
  {
    var store := new AccountStore([], map[]);
    var controller := new AuthenticationController(store, JwtConfig("secret", "issuer", "audience"));
    var alice := UserRegistrationDTO("alice", "a@x.com", "P@ssw0rd", 0, "Alice", "ABC123", "IK");
    var created := controller.RegisterUser(alice, true);
    assert created == StatusCode(201);
    assert store.users == [NewAccount(alice)];

    var sameName := alice.(email := "b@x.com");
    DuplicateRegistrationRejected([], alice, sameName);
    var rejected := controller.RegisterUser(sameName, true);
    assert rejected == ApplicationException(UserExistsMessage);
    assert store.users == [NewAccount(alice)];

    var checkPassword := (user: ApplicationUser, password: string) => password == "P@ssw0rd";
    RegisteredAccountIsFound([], alice);
    var loggedIn := controller.Login(UserLoginDTO("alice", "P@ssw0rd"), checkPassword, "id-1", 1000);
    assert loggedIn.Ok?;
    assert loggedIn.token.claims[0] == Claim(Name, "alice");
    assert |loggedIn.token.claims| == 3;
    assert loggedIn.expiration == 1000 + 4 * 3600;

    var refused := controller.Login(UserLoginDTO("alice", "wrong"), checkPassword, "id-2", 1000);
    assert refused == Unauthorized;
    assert store.users == [NewAccount(alice)];
  }
}
