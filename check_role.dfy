/** `checkRole(role)`: only a request whose user has exactly that role passes. */
module CheckRole {
  import opened Wrappers
  import opened Json
  import opened Types
  import opened Http

  const Denied := Response(403, ErrorPayload("Access denied"))

  /** The guard's decision for the user the earlier middleware attached (if any). */
  function CheckRole(role: Role, user: Option<Object>): (s: Step)
    ensures s == Next <==> user.Some? && Get(user.value, "role") == Some(Str(RoleName(role)))
    ensures s != Next ==> s == Respond(Denied)
  {
    if user.Some? && Get(user.value, "role") == Some(Str(RoleName(role))) then Next
    else Respond(Denied)
  }

  lemma {:induction false} RoleNamesDistinct(r1: Role, r2: Role)
    ensures RoleName(r1) == RoleName(r2) ==> r1 == r2
  {
    if r1 != r2 {
      match r1
      case SuperAdmin => assert RoleName(r1)[0] == 's'; assert RoleName(r2)[0] == 'a';
      case ArtistManager =>
        assert |RoleName(r1)| == 14;
        assert r2 != Artist || |RoleName(r2)| == 6;
        assert r2 != SuperAdmin || RoleName(r2)[0] == 's';
      case Artist =>
        assert |RoleName(r1)| == 6;
        assert r2 != ArtistManager || |RoleName(r2)| == 14;
        assert r2 != SuperAdmin || RoleName(r2)[0] == 's';
    }
  }

  /** A guard lets through exactly one role: two guards that both pass a request guard the same role. */
  lemma {:induction false} OneRolePerGuard(r1: Role, r2: Role, user: Option<Object>)
    requires CheckRole(r1, user) == Next && CheckRole(r2, user) == Next
    ensures r1 == r2
  {
    RoleNamesDistinct(r1, r2);
  }

  /** A request without an attached user is always refused. */
  lemma {:induction false} NoUserDenied(role: Role)
    ensures CheckRole(role, None) == Respond(Denied)
  {
  }
}
