# Authentication controller of the teacher/subject API

A Dafny model of `AuthenticationController`, the part of the web API that
registers accounts and logs them in with a JSON Web Token.

- **Registration** (`RegisterUser`): the request is rejected with
  "Username/Email already exists!" when some account already has the
  requested user name or email, and the store is left alone. Otherwise one
  account record is built from the request fields and handed to the account
  store; the answer is 201 exactly when the store creates it, and
  "Registration failed!" otherwise.
- **Login** (`Login`): the account is looked up by user name and its
  password checked; either failure gives the same 401 Unauthorized. On
  success the claims list is built: a Name claim with the user name, a
  `jti` claim with a fresh id, an Actor claim with `IsUser` as "True" or
  "False", then one Role claim per role in the order the store returns them.
- **Token** (`GetToken`): issuer and audience come unchanged from the
  `JWT:ValidIssuer` and `JWT:ValidAudience` settings, and the expiry is the
  issuance time plus four hours. These are the `iss`, `aud`, `exp` and
  `jti` registered claims of RFC 7519, sections 4.1.1, 4.1.3, 4.1.4 and 4.1.7.

Files and modules:

- `identity.dfy`, module `Identity`: the account record, the account store
  (a class holding the account list and a user name to roles map), lookup by
  user name (`FindByName`), role lookup (`RolesOf`, the store's
  `GetRolesAsync`; an account without an entry has no roles) and creation.
- `claims.dfy`, module `Claims`: claim types, the claims list as a function (`AuthClaims`) and as the loop the
  controller runs (`BuildClaims`), and the lemmas about its Role claims.
- `tokens.dfy`, module `Tokens`: the JWT configuration and `GetToken`.
- `authentication.dfy`, module `Authentication`: request and result types,
  the existence check, the login gate, the lemmas that tie registration to
  login, the controller class, and a client method walking through a
  register/duplicate/login/wrong-password sequence.

Inputs of the outside world become parameters: the result of the store's
`CreateAsync` is the boolean `createSucceeds`; the store's
`CheckPasswordAsync` is the function `passwordMatches`; `Guid.NewGuid()`
is the string `freshId`; `DateTime.Now` is an integer `now` in seconds.
`Login` has no `modifies` clause, so Dafny's frame rules guarantee that the
account list and role map are the same after it as before, on success and on
failure alike.

The model follows the code in two places one might expect otherwise: a
duplicate registration is a thrown `ApplicationException` (as is a refused
create), not a distinct conflict answer; and the token carries no issued-at
claim, only the expiry.

The roles map is keyed by user name. Its invariant `RolesBelongToAccounts`
says every key is the name of a stored account; `RegisterUser` preserves it,
and under it a newly registered account holds no roles, as an
`ApplicationUser` freshly created by the controller does.

## Model

| member | source | states |
|---|---|---|
| Identity.IndexOfName | zsoow6TeacherSubjApi/Controllers/AuthenticationController.cs:73 | the position found is that of the first account with the user name; every account before it has another name; it is past the end only when none matches |
| Identity.FindByName | zsoow6TeacherSubjApi/Controllers/AuthenticationController.cs:73 | the lookup finds nothing exactly when no account has the user name; what it finds is a stored account with that name, and when names are unique it is the only one |
| Identity.AccountStore.Create | zsoow6TeacherSubjApi/Controllers/AuthenticationController.cs:60 | a create the store accepts appends exactly the given account; a refused one changes nothing; the role map never changes |
| Identity.RolesOf | zsoow6TeacherSubjApi/Controllers/AuthenticationController.cs:77 | an account with a roles entry gets exactly that entry's roles, one without gets none |
| Claims.AuthClaims | zsoow6TeacherSubjApi/Controllers/AuthenticationController.cs:79-89 | the claims list of a login has 3 + (number of roles) claims: Name with the user name, Jti with the fresh id, Actor with IsUser as a string, then at index 3 + i a Role claim for the i-th role |
| Claims.BoolToString | zsoow6TeacherSubjApi/Controllers/AuthenticationController.cs:83 | the Actor value is "True" or "False", and "True" exactly when IsUser holds |
| Claims.BuildClaims | zsoow6TeacherSubjApi/Controllers/AuthenticationController.cs:79-89 | the loop that starts from the three fixed claims and appends one Role claim per role yields exactly the claims list `AuthClaims` defines, with the same layout |
| Claims.RoleValuesAppend | zsoow6TeacherSubjApi/Controllers/AuthenticationController.cs:86-89 | the Role-claim values of a concatenation are those of its parts, in order |
| Claims.RoleValuesOfRoleClaims | zsoow6TeacherSubjApi/Controllers/AuthenticationController.cs:86-89 | the Role claims appended by the loop carry the roles back unchanged |
| Claims.RoleClaimsAreExactlyTheRoles | zsoow6TeacherSubjApi/Controllers/AuthenticationController.cs:77-89 | the Role-claim values of a login's claims are exactly the account's roles, as a sequence and hence as a multiset: none missing, none extra |
| Tokens.GetToken | zsoow6TeacherSubjApi/Controllers/AuthenticationController.cs:102-115 | issuer and audience are the configured ones, the claims are those given, and the expiry is four hours after issuance, so strictly after it |
| Authentication.AlreadyRegistered | zsoow6TeacherSubjApi/Controllers/AuthenticationController.cs:48 | true exactly when some existing account has the requested user name or the requested email |
| Authentication.NewAccount | zsoow6TeacherSubjApi/Controllers/AuthenticationController.cs:52-59 | the account built from a request has the request's user name, email, date of birth, name, Neptun code and department, and IsUser false |
| Authentication.Authenticate | zsoow6TeacherSubjApi/Controllers/AuthenticationController.cs:73-75 | a login gets an account only if it is a stored account with that user name whose password the store accepts; when names are unique, it gets one exactly when such an account exists |
| Authentication.RegistrationKeepsCredentialsUnique | zsoow6TeacherSubjApi/Controllers/AuthenticationController.cs:48-60 | adding the account built from a request that passed the existence check keeps user names and emails unique |
| Authentication.DuplicateRegistrationRejected | zsoow6TeacherSubjApi/Controllers/AuthenticationController.cs:48-51 | after an account is added, any request with the same user name or the same email fails the existence check |
| Authentication.NewAccountHasNoRoles | zsoow6TeacherSubjApi/Controllers/AuthenticationController.cs:52-60 | when every roles entry belongs to a stored account, an account that passes the existence check starts with no roles, and adding it keeps every roles entry attached to a stored account |
| Authentication.RegisteredAccountIsFound | zsoow6TeacherSubjApi/Controllers/AuthenticationController.cs:52-60 | after a registration that passed the check, lookup by the new user name finds exactly the new account |
| Authentication.AuthenticationController.RegisterUser | zsoow6TeacherSubjApi/Controllers/AuthenticationController.cs:46-62 | a taken user name or email gives "Username/Email already exists!" and an unchanged store; otherwise 201 exactly when the create succeeds, else "Registration failed!", with exactly the new account appended on success; roles never change; unique credentials stay unique; roles entries stay attached to stored accounts, and then the new account holds no roles |
| Authentication.AuthenticationController.Login | zsoow6TeacherSubjApi/Controllers/AuthenticationController.cs:71-100 | Unauthorized, the same value in both cases, exactly when no account has the user name or the password is refused; otherwise the token for the account's claims and current roles, issued at the given time, with the expiration equal to the token's expiry |

## Left out

- Serialising and signing the token (`JwtSecurityTokenHandler.WriteToken`, the HMAC-SHA-256 key built from `JWT:Secret`): library code; the model stops at the claims, issuer, audience and expiry. The key-length and missing-secret failures of the signing library are not modelled either.
- Password hashing and checking inside the account store: `CheckPasswordAsync` is a parameter and the outcome of `CreateAsync` is a parameter.
- `DateTime.Now` local-time semantics and the truncation of `ValidTo` to whole seconds: the clock is a plain integer count of seconds.
- GUID generation: the token id is supplied by the caller.
- Case-insensitive matching: the user manager normalises the user name before `FindByNameAsync` looks it up, and a database collation may make the user name and email comparison of the existence check case-insensitive; the model compares names and emails as plain strings.
- The account record's `IsUser` property is not set by the registration code; the model gives new accounts the C# default, false. `ApplicationUser` is not part of this model.
- `Logout`, `InitRoles`, `InitUsers`: each only delegates to `SignInManager` or to `IUserService`, whose implementation is not part of this model.
- Async execution, HTTP routing, the `[Authorize]`/`[AllowAnonymous]` attributes and the bearer-token validation the framework performs on later requests.
- Concurrent registrations: the model runs one request at a time, so the race between the existence check and the create is not represented.
- `DBConnectionModel.cs` (returns an injected options object) and `IGenericRepository.cs` (an interface without implementation).
