/** The authorization decision taken after a request's token has been
    checked: who may reach a route, given the rights it requires. */
module Auth {
  import opened Common
  import opened Config

  /** The authenticated user as the token strategy hands it over. */
  datatype AuthUser = AuthUser(id: Id, role: Role)

  /** The parts of a request the decision reads and writes. */
  datatype Request = Request(paramsUserId: Option<Id>, user: Option<AuthUser>)

  datatype Decision = Resolve | Reject(error: ApiError)

  const PleaseAuthenticate := ApiError(Unauthorized, "Please authenticate")
  const ForbiddenError := ApiError(Forbidden, "Forbidden")

  /** `required.every(r => held.includes(r))`, written as the source walks it. */
  function Every(required: seq<string>, held: seq<string>): (b: bool)
    ensures b <==> forall x :: x in required ==> x in held
  {
    if |required| == 0 then true
    else Includes(held, required[0]) && Every(required[1..], held)
  }

  function Includes(held: seq<string>, x: string): (b: bool)
    ensures b <==> x in held
  {
    if |held| == 0 then false
    else held[0] == x || Includes(held[1..], x)
  }

  /** The role's rights cover every required right. */
  predicate HoldsRights(role: Role, required: seq<string>) {
    forall x :: x in required ==> x in Rights(role)
  }

  /** The callback run once the token has been checked: `err`, `info` and
      `user` are what the token strategy reported. */
  function VerifyCallback(req: Request, err: bool, user: Option<AuthUser>, info: bool,
                          required: seq<string>, rightsOnly: bool): (r: (Request, Decision))
    // a failed authentication is rejected before any rights are looked at
    ensures (err || info || user.None?) ==> r == (req, Reject(PleaseAuthenticate))
    // otherwise the request carries the authenticated user from here on
    ensures !(err || info || user.None?) ==> r.0 == req.(user := user)
    ensures r.1.Reject? ==> r.1.error in {PleaseAuthenticate, ForbiddenError}
    // the decision table
    ensures !(err || info || user.None?) ==>
      (r.1.Resolve? <==>
        || |required| == 0
        || HoldsRights(user.value.role, required)
        || (!rightsOnly && req.paramsUserId == Some(user.value.id)))
  {
    if err || info || user.None? then (req, Reject(PleaseAuthenticate))
    else
      var req' := req.(user := user);
      var u := user.value;
      if |required| > 0 then
        var hasRequiredRights := Every(required, Rights(u.role));
        if rightsOnly && !hasRequiredRights then (req', Reject(ForbiddenError))
        else if !hasRequiredRights && req.paramsUserId != Some(u.id) then (req', Reject(ForbiddenError))
        else (req', Resolve)
      else (req', Resolve)
  }

  /** A rights-only route turns away a user without the rights even on
      their own resources. */
  lemma RightsOnlyIgnoresOwnership(u: AuthUser, required: seq<string>)
    requires !HoldsRights(u.role, required)
    ensures VerifyCallback(Request(Some(u.id), None), false, Some(u), false, required, true).1
            == Reject(ForbiddenError)
  {
  }

  /** No role holds "userOnly", so a route guarded by it admits exactly the
      owner of the resource, administrators included. */
  lemma UserOnlyAdmitsOnlyOwner(req: Request, u: AuthUser)
    ensures VerifyCallback(req, false, Some(u), false, ["userOnly"], false).1.Resolve?
            <==> req.paramsUserId == Some(u.id)
  {
    assert "userOnly" !in Rights(u.role);
    assert !HoldsRights(u.role, ["userOnly"]) by {
      assert "userOnly" in ["userOnly"];
    }
  }

  /** An administrator passes every route guarded by an administrator right. */
  lemma AdminHoldsAdminRights(req: Request, id: Id, right: string, rightsOnly: bool)
    requires right in ["getUsers", "manageUsers", "manageTickets", "manageCheckIns", "analytics"]
    ensures VerifyCallback(req, false, Some(AuthUser(id, AdminRole)), false, [right], rightsOnly).1.Resolve?
  {
    assert HoldsRights(AdminRole, [right]);
  }
}
