/** The claims list the controller puts into a login token. */
module Claims {
  import opened Identity

  /** The claim types the controller uses: ClaimTypes.Name, the registered
      JWT claim "jti", ClaimTypes.Actor and ClaimTypes.Role. */
  datatype ClaimType = Name | Jti | Actor | Role

  datatype Claim = Claim(claimType: ClaimType, value: string)

  /** Boolean.ToString(): "True" or "False". */
  function BoolToString(b: bool): (s: string)
    ensures s == "True" || s == "False"
    ensures s == "True" <==> b
  {
    if b then "True" else "False"
  }

  /** One Role claim per role, in the order the roles are given. */
  function RoleClaims(roles: seq<string>): seq<Claim>
  {
    seq(|roles|, i requires 0 <= i < |roles| => Claim(Role, roles[i]))
  }

  /** The claims list of a login: the account's name, the fresh token id,
      the IsUser flag as a string, then the role claims. */
  function AuthClaims(user: ApplicationUser, jti: string, roles: seq<string>): (r: seq<Claim>)
    ensures |r| == 3 + |roles|
    ensures r[0] == Claim(Name, user.userName)
    ensures r[1] == Claim(Jti, jti)
    ensures r[2] == Claim(Actor, BoolToString(user.isUser))
    ensures forall i :: 0 <= i < |roles| ==> r[3 + i] == Claim(Role, roles[i])
  {
    [Claim(Name, user.userName), Claim(Jti, jti), Claim(Actor, BoolToString(user.isUser))]
      + RoleClaims(roles)
  }

  /** The values of the Role claims of a list, in list order. */
  function RoleValues(claims: seq<Claim>): seq<string>
  {
    if claims == [] then []
    else
      var first := if claims[0].claimType == Role then [claims[0].value] else [];
      first + RoleValues(claims[1..])
  }

  /** Builds the claims list as the controller does: the three fixed claims,
      then one Role claim appended per role. */
  method BuildClaims(user: ApplicationUser, jti: string, roles: seq<string>) returns (claims: seq<Claim>)
    ensures claims == AuthClaims(user, jti, roles)
    ensures |claims| == 3 + |roles|
    ensures claims[0] == Claim(Name, user.userName)
    ensures claims[1] == Claim(Jti, jti)
    ensures claims[2] == Claim(Actor, BoolToString(user.isUser))
    ensures forall i :: 0 <= i < |roles| ==> claims[3 + i] == Claim(Role, roles[i])
  {
    claims := [Claim(Name, user.userName), Claim(Jti, jti), Claim(Actor, BoolToString(user.isUser))];
    var i := 0;
    while i < |roles|
      invariant 0 <= i <= |roles|
      invariant |claims| == 3 + i
      invariant claims[..3] == AuthClaims(user, jti, roles)[..3]
      invariant forall k :: 0 <= k < i ==> claims[3 + k] == Claim(Role, roles[k])
    {
      claims := claims + [Claim(Role, roles[i])];
      i := i + 1;
    }
  }

  lemma {:induction false} RoleValuesAppend(a: seq<Claim>, b: seq<Claim>)
    ensures RoleValues(a + b) == RoleValues(a) + RoleValues(b)
  {
    if a == [] {
      assert a + b == b;
    } else {
      assert (a + b)[1..] == a[1..] + b;
      RoleValuesAppend(a[1..], b);
    }
  }

  lemma {:induction false} RoleValuesOfRoleClaims(roles: seq<string>)
    ensures RoleValues(RoleClaims(roles)) == roles
  {
    if roles != [] {
      assert RoleClaims(roles)[1..] == RoleClaims(roles[1..]);
      RoleValuesOfRoleClaims(roles[1..]);
    }
  }

  /** The Role claims of a login carry exactly the account's roles: none
      missing, none added, in the same order. */
  lemma RoleClaimsAreExactlyTheRoles(user: ApplicationUser, jti: string, roles: seq<string>)
    ensures RoleValues(AuthClaims(user, jti, roles)) == roles
    ensures multiset(RoleValues(AuthClaims(user, jti, roles))) == multiset(roles)
  {
    var head := [Claim(Name, user.userName), Claim(Jti, jti), Claim(Actor, BoolToString(user.isUser))];
    RoleValuesAppend(head, RoleClaims(roles));
    assert RoleValues(head) == [] by {
      assert RoleValues(head[2..]) == [] by { assert head[2..][1..] == []; }
      assert RoleValues(head[1..]) == [] by { assert head[1..][1..] == head[2..]; }
    }
    RoleValuesOfRoleClaims(roles);
  }
}
