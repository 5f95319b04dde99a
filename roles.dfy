/** The role and ownership guards (backend/middleware/roleMiddleware.js). Each
    guard is a chain of checks in which the first failing check decides the
    reply and the later checks are not made. The team or resource a guard
    looks up is an input: `teams` stands for `Team.findById`, `resource` for
    the result of `Model.findById`. */
module RoleMiddleware {
  import opened Common
  import U = UserModel
  import T = TeamModel

  /** What a guard does: hand the request on with what it attached
      (`req.team`, `req.resource`), or stop with a reply. */
  datatype Guard<X> = Next(attached: X) | Stop(reply: Reply)

  /** `a || b` on two optional ids: the first one present. */
  function Or(a: Option<Id>, b: Option<Id>): (r: Option<Id>)
    ensures r.Some? <==> a.Some? || b.Some?
    ensures a.Some? ==> r == a
  {
    if a.Some? then a else b
  }

  // ---------------------------------------------------------------------------
  // authorize(...roles)

  function RoleMessage(role: U.Role): string {
    "User role '" + U.RoleName(role) + "' is not authorized to access this route"
  }

  /** `authorize(...roles)`: `None` when the request goes on. */
  function Authorize(user: Option<U.User>, roles: seq<U.Role>): (r: Option<Reply>)
    ensures user.None? <==> r == Some(Reply(401, "Not authorized to access this route"))
    ensures user.Some? ==> (r.None? <==> user.value.role in roles)
    ensures user.Some? && user.value.role !in roles ==> r == Some(Reply(403, RoleMessage(user.value.role)))
  {
    if user.None? then Some(Reply(401, "Not authorized to access this route"))
    else if user.value.role !in roles then Some(Reply(403, RoleMessage(user.value.role)))
    else None
  }

  // ---------------------------------------------------------------------------
  // isTeamLeader and isTeamMember

  /** A team id as the request body carries it: an ObjectId, or text that is
      not one. `Team.findById` throws a cast error on the latter. An empty
      text is falsy and counts as no id at all (`None`). */
  datatype IdText = Valid(id: Id) | Malformed

  /** `req.params.teamId || req.body.teamId`: a route parameter is always a
      well-formed id here; the body's id comes next. */
  function TeamIdOf(paramsTeamId: Option<Id>, bodyTeamId: Option<IdText>): (r: Option<IdText>)
    ensures r.None? <==> paramsTeamId.None? && bodyTeamId.None?
    ensures paramsTeamId.Some? ==> r == Some(Valid(paramsTeamId.value))
    ensures paramsTeamId.None? ==> r == bodyTeamId
  {
    if paramsTeamId.Some? then Some(Valid(paramsTeamId.value)) else bodyTeamId
  }

  /** `isTeamLeader`: the team id is `req.params.teamId || req.body.teamId`.
      A malformed body id makes the lookup throw, and the catch block answers
      500. */
  function IsTeamLeader(teams: map<Id, T.Team>, me: Id, paramsTeamId: Option<Id>, bodyTeamId: Option<IdText>): (g: Guard<Id>)
    ensures g.Next? ==> g.attached in teams && teams[g.attached].leader == me
    ensures g == Stop(Reply(500, "Error checking team leadership"))
            <==> TeamIdOf(paramsTeamId, bodyTeamId) == Some(Malformed)
    ensures g.Stop? && TeamIdOf(paramsTeamId, bodyTeamId) != Some(Malformed) ==> 400 <= g.reply.status <= 404
  {
    var teamId := TeamIdOf(paramsTeamId, bodyTeamId);
    if teamId.None? then Stop(Reply(400, "Team ID is required"))
    else if teamId.value.Malformed? then Stop(Reply(500, "Error checking team leadership"))
    else if teamId.value.id !in teams then Stop(Reply(404, "Team not found"))
    else if teams[teamId.value.id].leader != me then Stop(Reply(403, "Only team leader can perform this action"))
    else Next(teamId.value.id)
  }

  /** `req.params.teamId || req.body.teamId || req.user.team`: the caller's
      own team, a stored and so well-formed id, is the last resort. */
  function MemberTeamIdOf(myTeam: Option<Id>, paramsTeamId: Option<Id>, bodyTeamId: Option<IdText>): (r: Option<IdText>)
    ensures r.None? <==> paramsTeamId.None? && bodyTeamId.None? && myTeam.None?
    ensures TeamIdOf(paramsTeamId, bodyTeamId).Some? ==> r == TeamIdOf(paramsTeamId, bodyTeamId)
    ensures TeamIdOf(paramsTeamId, bodyTeamId).None? && myTeam.Some? ==> r == Some(Valid(myTeam.value))
  {
    var named := TeamIdOf(paramsTeamId, bodyTeamId);
    if named.Some? then named else if myTeam.Some? then Some(Valid(myTeam.value)) else None
  }

  /** `isTeamMember`: the team id falls back to the caller's own team; a
      malformed body id answers 500 as in the leader guard. */
  function IsTeamMember(teams: map<Id, T.Team>, me: Id, myTeam: Option<Id>, paramsTeamId: Option<Id>, bodyTeamId: Option<IdText>): (g: Guard<Id>)
    ensures g.Next? ==> g.attached in teams && T.IsMember(teams[g.attached], me)
    ensures g == Stop(Reply(500, "Error checking team membership"))
            <==> MemberTeamIdOf(myTeam, paramsTeamId, bodyTeamId) == Some(Malformed)
    ensures g.Stop? && MemberTeamIdOf(myTeam, paramsTeamId, bodyTeamId) != Some(Malformed) ==> 400 <= g.reply.status <= 404
  {
    var teamId := MemberTeamIdOf(myTeam, paramsTeamId, bodyTeamId);
    if teamId.None? then Stop(Reply(400, "Team ID is required"))
    else if teamId.value.Malformed? then Stop(Reply(500, "Error checking team membership"))
    else if teamId.value.id !in teams then Stop(Reply(404, "Team not found"))
    else if !T.IsMember(teams[teamId.value.id], me) then Stop(Reply(403, "You are not a member of this team"))
    else Next(teamId.value.id)
  }

  /** The leader guard's replies, one per failing check in order: no id, an
      id that is not an ObjectId, no such team, someone else's team; it
      passes exactly on a team the caller leads. */
  lemma LeaderGuardOrder(teams: map<Id, T.Team>, me: Id, paramsTeamId: Option<Id>, bodyTeamId: Option<IdText>)
    ensures var g, id := IsTeamLeader(teams, me, paramsTeamId, bodyTeamId), TeamIdOf(paramsTeamId, bodyTeamId);
            && (id.None? <==> g == Stop(Reply(400, "Team ID is required")))
            && (id == Some(Malformed) <==> g == Stop(Reply(500, "Error checking team leadership")))
            && (id.Some? && id.value.Valid? && id.value.id !in teams <==> g == Stop(Reply(404, "Team not found")))
            && (id.Some? && id.value.Valid? && id.value.id in teams && teams[id.value.id].leader != me
                <==> g == Stop(Reply(403, "Only team leader can perform this action")))
            && (g.Next? <==> id.Some? && id.value.Valid? && id.value.id in teams && teams[id.value.id].leader == me)
            && (g.Next? ==> g.attached == id.value.id)
  {
  }

  /** The member guard's replies in order; it passes exactly when the caller
      is a member (the leader included) of the team it settles on. */
  lemma MemberGuardOrder(teams: map<Id, T.Team>, me: Id, myTeam: Option<Id>, paramsTeamId: Option<Id>, bodyTeamId: Option<IdText>)
    ensures var g, id := IsTeamMember(teams, me, myTeam, paramsTeamId, bodyTeamId), MemberTeamIdOf(myTeam, paramsTeamId, bodyTeamId);
            && (id.None? <==> g == Stop(Reply(400, "Team ID is required")))
            && (id == Some(Malformed) <==> g == Stop(Reply(500, "Error checking team membership")))
            && (id.Some? && id.value.Valid? && id.value.id !in teams <==> g == Stop(Reply(404, "Team not found")))
            && (id.Some? && id.value.Valid? && id.value.id in teams && !T.IsMember(teams[id.value.id], me)
                <==> g == Stop(Reply(403, "You are not a member of this team")))
            && (g.Next? <==> id.Some? && id.value.Valid? && id.value.id in teams && T.IsMember(teams[id.value.id], me))
  {
  }

  /** A body such as `{"teamId": "abc"}` on a route without a team parameter
      makes both guards answer 500, whatever the caller's own team. */
  lemma MalformedBodyIdIsServerError(teams: map<Id, T.Team>, me: Id, myTeam: Option<Id>)
    ensures IsTeamLeader(teams, me, None, Some(Malformed)) == Stop(Reply(500, "Error checking team leadership"))
    ensures IsTeamMember(teams, me, myTeam, None, Some(Malformed)) == Stop(Reply(500, "Error checking team membership"))
  {
  }

  /** Whoever the leader guard lets through on a team, the member guard lets
      through on the same team: a leader is a member. */
  lemma LeaderPassesMemberGuard(teams: map<Id, T.Team>, me: Id, myTeam: Option<Id>, paramsTeamId: Option<Id>, bodyTeamId: Option<IdText>)
    requires IsTeamLeader(teams, me, paramsTeamId, bodyTeamId).Next?
    ensures IsTeamMember(teams, me, myTeam, paramsTeamId, bodyTeamId) == IsTeamLeader(teams, me, paramsTeamId, bodyTeamId)
  {
    T.LeaderIsMember(teams[IsTeamLeader(teams, me, paramsTeamId, bodyTeamId).attached]);
  }

  /** The member guard consults the caller's own team only when the request
      names none. */
  lemma MemberGuardFallback(teams: map<Id, T.Team>, me: Id, myTeam: Option<Id>, named: Id)
    ensures IsTeamMember(teams, me, myTeam, Some(named), None) == IsTeamMember(teams, me, None, Some(named), None)
    ensures IsTeamMember(teams, me, myTeam, None, None) == IsTeamMember(teams, me, None, myTeam, None)
  {
  }

  // ---------------------------------------------------------------------------
  // isOwner(model)

  /** The owner fields of a looked-up resource. */
  datatype Resource = Resource(user: Option<Id>, createdBy: Option<Id>, submittedBy: Option<Id>)

  /** `isOwner(model)`. With no owner field at all, `ownerId.toString()`
      throws and the catch block replies 500. */
  function IsOwner(model: string, resource: Option<Resource>, me: Id): (g: Guard<Resource>)
    ensures resource.None? <==> g == Stop(Reply(404, model + " not found"))
    ensures g.Next? <==> resource.Some? && Or(Or(resource.value.user, resource.value.createdBy), resource.value.submittedBy) == Some(me)
    ensures g.Next? ==> g.attached == resource.value
  {
    if resource.None? then Stop(Reply(404, model + " not found"))
    else
      var owner := Or(Or(resource.value.user, resource.value.createdBy), resource.value.submittedBy);
      if owner.None? then Stop(Reply(500, "Error checking ownership"))
      else if owner.value != me then Stop(Reply(403, "You do not have permission to access this resource"))
      else Next(resource.value)
  }

  /** Only the first present owner field counts: a resource whose `user` is
      someone else is refused even when `createdBy` names the caller. */
  lemma OwnerIsFirstPresent(model: string, other: Id, me: Id, submittedBy: Option<Id>)
    requires other != me
    ensures IsOwner(model, Some(Resource(Some(other), Some(me), submittedBy)), me)
            == Stop(Reply(403, "You do not have permission to access this resource"))
    ensures IsOwner(model, Some(Resource(None, None, Some(me))), me).Next?
    ensures IsOwner(model, Some(Resource(None, None, None)), me) == Stop(Reply(500, "Error checking ownership"))
  {
  }

  // ---------------------------------------------------------------------------
  // The leader guard on the team routes.

  /** As written: every team route that uses the leader guard names its
      parameter `:id`, so `req.params.teamId` is absent and the guard settles
      on `req.body.teamId` alone. Without a body id even the leader of the
      route's team is refused; with the id of a team the caller leads, the
      request goes on for a route team led by someone else. */
  lemma LeaderGuardIgnoresRouteTeam(teams: map<Id, T.Team>, me: Id)
    ensures IsTeamLeader(teams, me, None, None) == Stop(Reply(400, "Team ID is required"))
    ensures var routeTeam, mine := 2, 1;
            var ts := map[mine := T.Team("Alpha", me, [], "AAAAAA", 4, 0, "", true, [], None, true, 0),
                          routeTeam := T.Team("Beta", me + 1, [], "BBBBBB", 4, 0, "", true, [], None, true, 0)];
            IsTeamLeader(ts, me, None, Some(Valid(mine))).Next? && ts[routeTeam].leader != me
  {
  }

  /** The guard with the route's own team id in `req.params.teamId`: it lets
      the request go on exactly when the caller leads that team, and the team
      it attaches is the one the handler acts on. */
  function RouteLeaderGuard(teams: map<Id, T.Team>, me: Id, routeTeam: Id, bodyTeamId: Option<IdText>): (g: Guard<Id>)
    ensures g.Next? <==> routeTeam in teams && teams[routeTeam].leader == me
    ensures g.Next? ==> g.attached == routeTeam
    ensures g.Stop? ==> 400 <= g.reply.status <= 404
  {
    IsTeamLeader(teams, me, Some(routeTeam), bodyTeamId)
  }

  /** The same for the member guard: with the route's team id it passes
      exactly for members of that team, whatever the caller's own team. */
  function RouteMemberGuard(teams: map<Id, T.Team>, me: Id, myTeam: Option<Id>, routeTeam: Id, bodyTeamId: Option<IdText>): (g: Guard<Id>)
    ensures g.Next? <==> routeTeam in teams && T.IsMember(teams[routeTeam], me)
    ensures g.Next? ==> g.attached == routeTeam
    ensures g.Stop? ==> 400 <= g.reply.status <= 404
  {
    IsTeamMember(teams, me, myTeam, Some(routeTeam), bodyTeamId)
  }
}
