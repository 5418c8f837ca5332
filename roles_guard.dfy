/** The role guard in front of administrative routes. */
module RolesGuard {
  import opened Wrappers

  /** The authenticated user of a request; its role may be missing. */
  datatype RequestUser = RequestUser(role: Option<string>)

  /** `requiredRoles.some(role => user.role === role)`. */
  function AnyEquals(required: seq<string>, role: string): (r: bool)
    ensures r <==> role in required
  {
    if |required| == 0 then false else required[0] == role || AnyEquals(required[1..], role)
  }

  /**
   * `canActivate`: a route with no role list, or an empty one, is open to every
   * request; otherwise the request needs a user whose role is set, non-empty and
   * one of the listed roles.
   */
  function CanActivate(required: Option<seq<string>>, user: Option<RequestUser>): (allowed: bool)
    ensures required.None? || |required.value| == 0 ==> allowed
    ensures required.Some? && |required.value| > 0 ==>
      (allowed <==> user.Some? && user.value.role.Some? && user.value.role.value != "" && user.value.role.value in required.value)
  {
    if required.None? || |required.value| == 0 then true
    else if user.None? || user.value.role.None? || user.value.role.value == "" then false
    else AnyEquals(required.value, user.value.role.value)
  }

  /**
   * Listing more roles never locks out a user a non-empty list let in (an empty
   * list admits everyone, so it is the exception), and a request without a role
   * only passes routes that list no role.
   */
  lemma MoreRolesAdmitMore(required: seq<string>, extra: seq<string>, user: Option<RequestUser>)
    ensures |required| > 0 && CanActivate(Some(required), user) ==> CanActivate(Some(required + extra), user)
    ensures (user.None? || user.value.role.None?) ==> (CanActivate(Some(required), user) <==> |required| == 0)
  {
    if CanActivate(Some(required), user) && |required| > 0 {
      assert user.value.role.value in required + extra;
    }
  }
}
