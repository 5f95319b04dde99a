/** The team handlers (backend/controllers/teamController.js) on the stored
    users and teams: creating a team, joining it by invite code, leaving it,
    removing a member, deleting and updating it, and listing its members.
    The caller `me` is the user `protect` found; the fresh team id, the
    random invite code and the current time are inputs. */
module TeamController {
  import opened Common
  import opened Text
  import opened Database
  import U = UserModel
  import T = TeamModel
  import RoleMiddleware
  import ErrorHandler

  // ---------------------------------------------------------------------------
  // How users and teams refer to each other.

  /** Users and teams agree: whoever a team counts as a member (the leader
      included) is a user whose team is that team, and every user's team
      exists and counts them as a member. */
  ghost predicate Linked(teams: map<Id, T.Team>, users: map<Id, U.User>) {
    (forall t, u :: t in teams && T.IsMember(teams[t], u) ==> u in users && users[u].team == Some(t))
    && (forall u :: u in users && users[u].team.Some? ==>
          users[u].team.value in teams && T.IsMember(teams[users[u].team.value], u))
  }

  /** The unique index on `inviteCode`. */
  ghost predicate UniqueCodes(teams: map<Id, T.Team>) {
    forall j, k :: j in teams && k in teams && teams[j].inviteCode == teams[k].inviteCode ==> j == k
  }

  /** `User.findByIdAndUpdate(u, {team})`: a missing user is left alone. */
  function SetTeam(users: map<Id, U.User>, u: Id, team: Option<Id>): map<Id, U.User> {
    if u in users then users[u := users[u].(team := team)] else users
  }

  /** `User.updateMany({_id: {$in: ids}}, {team: null})`. */
  function ClearTeams(users: map<Id, U.User>, ids: seq<Id>): map<Id, U.User> {
    map u | u in users :: if u in ids then users[u].(team := None) else users[u]
  }

  /** The users of the member entries, in order. */
  function UsersOf(members: seq<T.Member>): (r: seq<Id>)
    ensures |r| == |members|
    ensures forall i :: 0 <= i < |members| ==> r[i] == members[i].user
  {
    seq(|members|, i requires 0 <= i < |members| => members[i].user)
  }

  /** `[team.leader, ...team.members.map(m => m.user)]`. */
  function MemberIds(t: T.Team): (ids: seq<Id>)
    ensures |ids| == T.MemberCount(t)
  {
    [t.leader] + UsersOf(t.members)
  }

  /** The ids `deleteTeam` clears are exactly the team's members. */
  lemma MemberIdsMeans(t: T.Team, u: Id)
    ensures u in MemberIds(t) <==> T.IsMember(t, u)
  {
    var ids := MemberIds(t);
    if u in ids && u != t.leader {
      var i :| 0 <= i < |ids| && ids[i] == u;
      assert t.members[i - 1].user == u;
    }
    if u != t.leader && T.Listed(t.members, u) {
      var i :| 0 <= i < |t.members| && t.members[i].user == u;
      assert ids[i + 1] == u;
    }
  }

  lemma ListedAppend(members: seq<T.Member>, m: T.Member, u: Id)
    ensures T.Listed(members + [m], u) <==> T.Listed(members, u) || m.user == u
  {
    var ms := members + [m];
    if T.Listed(members, u) {
      var i :| 0 <= i < |members| && members[i].user == u;
      assert ms[i].user == u;
    }
    if m.user == u {
      assert ms[|members|].user == u;
    }
  }

  // ---------------------------------------------------------------------------
  // The state changes, as values.

  /** The team `createTeam` stores: the schema trims the name and the skills,
      `maxMembers || 4` fills in the default, and the leader is not among the
      members. */
  datatype CreateBody = CreateBody(
    name: string,
    category: Id,
    description: string,
    maxMembers: Option<int>,
    requiredSkills: Option<seq<string>>)

  /** `maxMembers || 4`: an absent or zero value gives the default. */
  function MaxMembersOr(m: Option<int>): int {
    if m.Some? && m.value != 0 then m.value else T.DefaultMaxMembers
  }

  function NewTeam(b: CreateBody, me: Id, code: string, now: Time): (t: T.Team)
    ensures t.leader == me && t.members == [] && t.inviteCode == code
    ensures b.maxMembers.None? ==> t.maxMembers == 4
  {
    T.Team(Trim(b.name), me, [], code, MaxMembersOr(b.maxMembers), b.category, b.description,
           true, TrimAll(b.requiredSkills.GetOr([])), None, true, now)
  }

  /** What the route's validators let through to `createTeam`: a trimmed name
      of 3 to 50 characters, a description of at most 500 and, when given, a
      maximum of 1 to 6 members. */
  predicate RouteAcceptsCreate(b: CreateBody) {
    Trimmed(b.name) && 3 <= |b.name| <= 50 && |b.description| <= 500
    && (b.maxMembers.Some? ==> 1 <= b.maxMembers.value <= 6)
  }

  /** Some team other than `except` already has the name (the unique index). */
  predicate NameTaken(teams: map<Id, T.Team>, name: string, except: Option<Id>) {
    exists k :: k in teams && Some(k) != except && teams[k].name == name
  }

  /** The team `joinTeam` saves: one entry for the caller at the end. */
  function Joined(t: T.Team, me: Id, now: Time): (r: T.Team)
    ensures r == t.(members := t.members + [T.Member(me, "member", now)])
  {
    t.(members := t.members + [T.Member(me, "member", now)])
  }

  /** The teams after `u`'s entries are filtered out of team `t`. */
  function Dropped(teams: map<Id, T.Team>, t: Id, u: Id): map<Id, T.Team>
    requires t in teams
  {
    teams[t := teams[t].(members := T.Without(teams[t].members, u))]
  }

  /** The active team holding invite code `code`, if any. */
  ghost function Holder(teams: map<Id, T.Team>, code: string): (r: Option<Id>)
    requires UniqueCodes(teams)
    ensures r.Some? <==> exists k :: k in teams && teams[k].inviteCode == code && teams[k].isActive
    ensures r.Some? ==> r.value in teams && teams[r.value].inviteCode == code && teams[r.value].isActive
  {
    if exists k :: k in teams && teams[k].inviteCode == code && teams[k].isActive then
      var k :| k in teams && teams[k].inviteCode == code && teams[k].isActive; Some(k)
    else None
  }

  // ---------------------------------------------------------------------------
  // The handlers.

  /** The reply to a taken team name. */
  function DuplicateName(): Reply {
    Reply(400, "name already exists")
  }

  /** It is the error handler's reply to a breach of the unique index on the
      name. */
  lemma DuplicateNameHandled()
    ensures ErrorHandler.Handle(ErrorHandler.DuplicateKey(["name"])) == DuplicateName()
  {
    var keys := ["name"];
    ErrorHandler.DuplicateKeyNamesField(keys);
    assert keys[0] == "name";
    assert "name" + " already exists" == "name already exists";
  }

  /** `createTeam`. The route's validators have passed, so the schema's
      checks pass too; the only failure left in `Team.create` is a taken name. */
  method CreateTeam(db: Store, me: Id, b: CreateBody, id: Id, code: string, now: Time) returns (r: Reply)
    requires me in db.users && id !in db.teams && code != ""
    requires forall k :: k in db.teams ==> db.teams[k].inviteCode != code
    requires RouteAcceptsCreate(b)
    requires UniqueCodes(db.teams)
    modifies db`teams, db`users
    ensures UniqueCodes(db.teams)
    ensures old(Linked(db.teams, db.users)) ==> Linked(db.teams, db.users)
    ensures old(db.users[me].team).Some? ==>
              r == Reply(400, "You are already in a team. Leave your current team first.")
    ensures old(db.users[me].team).None? && b.category !in db.categories ==> r == Reply(404, "Category not found")
    ensures old(db.users[me].team).None? && b.category in db.categories && NameTaken(old(db.teams), b.name, None) ==>
              r == Reply(400, "name already exists")
    ensures r.status == 201 <==>
              old(db.users[me].team).None? && b.category in db.categories && !NameTaken(old(db.teams), b.name, None)
    ensures r.status != 201 ==> db.teams == old(db.teams) && db.users == old(db.users)
    ensures r.status == 201 ==>
              && db.teams == old(db.teams)[id := NewTeam(b, me, code, now)]
              && db.users == SetTeam(old(db.users), me, Some(id))
              && T.Valid(db.teams[id]) && T.IsMember(db.teams[id], me)
  {
    if db.users[me].team.Some? {
      return Reply(400, "You are already in a team. Leave your current team first.");
    }
    if b.category !in db.categories {
      return Reply(404, "Category not found");
    }
    if exists k :: k in db.teams && db.teams[k].name == b.name {
      return DuplicateName();
    }
    TrimmedFixed(b.name);
    var team := NewTeam(b, me, code, now);
    if Linked(db.teams, db.users) {
      CreateKeepsLinked(db.teams, db.users, me, id, team);
    }
    db.teams := db.teams[id := team];
    db.users := SetTeam(db.users, me, Some(id));
    r := Reply(201, "");
  }

  /** `joinTeam`: refused, in order, for a caller already in a team, for a
      code no active team holds, and for a full team; otherwise the caller
      is appended to the team's members. */
  method JoinTeam(db: Store, me: Id, code: string, now: Time) returns (r: Reply)
    requires me in db.users
    requires UniqueCodes(db.teams)
    modifies db`teams, db`users
    ensures UniqueCodes(db.teams)
    ensures old(Linked(db.teams, db.users)) ==> Linked(db.teams, db.users)
    ensures old(db.users[me].team).Some? ==> r == Reply(400, "You are already in a team")
    ensures old(db.users[me].team).None? && Holder(old(db.teams), code).None? ==> r == Reply(404, "Invalid invite code")
    ensures old(db.users[me].team).None? && Holder(old(db.teams), code).Some? && T.IsFull(old(db.teams)[Holder(old(db.teams), code).value]) ==>
              r == Reply(400, "Team is already full")
    ensures r.status != 200 ==> db.teams == old(db.teams) && db.users == old(db.users)
    ensures r.status == 200 ==>
              && r.message == "Successfully joined team"
              && old(db.users[me].team).None? && Holder(old(db.teams), code).Some?
              && var t := Holder(old(db.teams), code).value;
                 && !T.IsFull(old(db.teams)[t])
                 && db.teams == old(db.teams)[t := Joined(old(db.teams)[t], me, now)]
                 && db.users == SetTeam(old(db.users), me, Some(t))
                 && T.MemberCount(db.teams[t]) == T.MemberCount(old(db.teams)[t]) + 1 <= db.teams[t].maxMembers
  {
    if db.users[me].team.Some? {
      return Reply(400, "You are already in a team");
    }
    if !exists k :: k in db.teams && db.teams[k].inviteCode == code && db.teams[k].isActive {
      return Reply(404, "Invalid invite code");
    }
    var t :| t in db.teams && db.teams[t].inviteCode == code && db.teams[t].isActive;
    assert t == Holder(db.teams, code).value;
    if T.IsFull(db.teams[t]) {
      return Reply(400, "Team is already full");
    }
    T.RoomForOne(db.teams[t], T.Member(me, "member", now));
    if Linked(db.teams, db.users) {
      JoinKeepsLinked(db.teams, db.users, me, t, now);
    }
    db.teams := db.teams[t := Joined(db.teams[t], me, now)];
    db.users := SetTeam(db.users, me, Some(t));
    r := Reply(200, "Successfully joined team");
  }

  /** `leaveTeam` on the route's team `id`. The links stay consistent when
      the caller is a member of that team; the route's member guard does not
      make sure of that (see `LeaveOtherTeamUnlinks`). */
  method LeaveTeam(db: Store, me: Id, id: Id) returns (r: Reply)
    requires UniqueCodes(db.teams)
    modifies db`teams, db`users
    ensures UniqueCodes(db.teams)
    ensures id !in old(db.teams) ==> r == Reply(404, "Team not found")
    ensures id in old(db.teams) && old(db.teams)[id].leader == me ==>
              r == Reply(400, "Team leader cannot leave. Transfer leadership or delete the team.")
    ensures r.status != 200 ==> db.teams == old(db.teams) && db.users == old(db.users)
    ensures r.status == 200 <==> id in old(db.teams) && old(db.teams)[id].leader != me
    ensures r.status == 200 ==>
              && r.message == "Successfully left team"
              && db.teams == Dropped(old(db.teams), id, me)
              && db.users == SetTeam(old(db.users), me, None)
    ensures old(Linked(db.teams, db.users)) && id in old(db.teams) && old(T.IsMember(db.teams[id], me)) ==>
              Linked(db.teams, db.users)
  {
    if id !in db.teams {
      return Reply(404, "Team not found");
    }
    if db.teams[id].leader == me {
      return Reply(400, "Team leader cannot leave. Transfer leadership or delete the team.");
    }
    if Linked(db.teams, db.users) && T.IsMember(db.teams[id], me) {
      DropKeepsLinked(db.teams, db.users, id, me);
    }
    db.teams := Dropped(db.teams, id, me);
    db.users := SetTeam(db.users, me, None);
    r := Reply(200, "Successfully left team");
  }

  /** `removeMember`: the target's entries are filtered out of the team and
      the target's team is cleared, whether or not the target was a member. */
  method RemoveMember(db: Store, id: Id, target: Id) returns (r: Reply)
    requires UniqueCodes(db.teams)
    modifies db`teams, db`users
    ensures UniqueCodes(db.teams)
    ensures id !in old(db.teams) ==> r == Reply(404, "Team not found")
    ensures id in old(db.teams) && old(db.teams)[id].leader == target ==> r == Reply(400, "Cannot remove team leader")
    ensures r.status != 200 ==> db.teams == old(db.teams) && db.users == old(db.users)
    ensures r.status == 200 <==> id in old(db.teams) && old(db.teams)[id].leader != target
    ensures r.status == 200 ==>
              && r.message == "Member removed successfully"
              && db.teams == Dropped(old(db.teams), id, target)
              && db.users == SetTeam(old(db.users), target, None)
    ensures old(Linked(db.teams, db.users)) && target in old(db.users) && old(db.users[target].team).Some?
              && old(db.users[target].team) != Some(id) ==>
              (r.status == 200 <==> !Linked(db.teams, db.users))
    ensures old(Linked(db.teams, db.users)) && (target in old(db.users) ==> old(db.users[target].team) in {None, Some(id)}) ==>
              Linked(db.teams, db.users)
  {
    if id !in db.teams {
      return Reply(404, "Team not found");
    }
    if db.teams[id].leader == target {
      return Reply(400, "Cannot remove team leader");
    }
    if !Linked(db.teams, db.users) {
    } else if target in db.users && db.users[target].team.Some? && db.users[target].team != Some(id) {
      DropStrangerUnlinks(db.teams, db.users, id, target);
    } else if target in db.users && db.users[target].team == Some(id) {
      DropKeepsLinked(db.teams, db.users, id, target);
    } else {
      DropAbsentKeepsLinked(db.teams, db.users, id, target);
    }
    db.teams := Dropped(db.teams, id, target);
    db.users := SetTeam(db.users, target, None);
    r := Reply(200, "Member removed successfully");
  }

  /** `deleteTeam`: every member's team is cleared and the team is removed.
      A user who names the team without being on its member list keeps the
      reference; in a linked store there is none. */
  method DeleteTeam(db: Store, id: Id) returns (r: Reply)
    requires UniqueCodes(db.teams)
    modifies db`teams, db`users
    ensures UniqueCodes(db.teams)
    ensures old(Linked(db.teams, db.users)) ==> Linked(db.teams, db.users)
    ensures id !in old(db.teams) ==> r == Reply(404, "Team not found") && db.teams == old(db.teams) && db.users == old(db.users)
    ensures id in old(db.teams) ==>
              && r == Reply(200, "Team deleted successfully")
              && db.teams == old(db.teams) - {id}
              && db.users == ClearTeams(old(db.users), MemberIds(old(db.teams)[id]))
    ensures id in old(db.teams) && old(Linked(db.teams, db.users)) ==>
              forall u :: u in db.users ==> db.users[u].team != Some(id)
  {
    if id !in db.teams {
      return Reply(404, "Team not found");
    }
    if Linked(db.teams, db.users) {
      DeleteKeepsLinked(db.teams, db.users, id);
    }
    db.users := ClearTeams(db.users, MemberIds(db.teams[id]));
    db.teams := db.teams - {id};
    r := Reply(200, "Team deleted successfully");
  }

  // ---------------------------------------------------------------------------
  // updateTeam

  /** The request body of `updateTeam`; an empty name stands for an absent or
      empty one (both falsy). */
  datatype UpdateBody = UpdateBody(
    name: string,
    description: Option<string>,
    maxMembers: Option<int>,
    requiredSkills: Option<seq<string>>,
    lookingForMembers: Option<bool>)

  /** The `fieldsToUpdate` object: an absent field is not set. */
  datatype TeamUpdate = TeamUpdate(
    name: Option<string>,
    description: Option<string>,
    maxMembers: Option<int>,
    requiredSkills: Option<seq<string>>,
    lookingForMembers: Option<bool>)

  /** Which fields `updateTeam` sets: the name and the maximum only when
      truthy, the description and the flag whenever they are defined, the
      skills whenever present (an array is always truthy). */
  function Fields(b: UpdateBody): (f: TeamUpdate)
    ensures f.name.Some? <==> b.name != ""
    ensures f.maxMembers.Some? <==> b.maxMembers.Some? && b.maxMembers.value != 0
    ensures f.description == b.description && f.lookingForMembers == b.lookingForMembers
    ensures f.requiredSkills == b.requiredSkills
  {
    TeamUpdate(if b.name != "" then Some(b.name) else None, b.description,
               if b.maxMembers.Some? && b.maxMembers.value != 0 then b.maxMembers else None,
               b.requiredSkills, b.lookingForMembers)
  }

  /** The update validators' messages for the fields set, in the update's
      key order (the schema trims the name before it is checked). */
  function UpdateErrors(f: TeamUpdate): (errs: seq<string>)
    ensures errs == [] <==>
              && (f.name.Some? ==> 3 <= |Trim(f.name.value)| <= 50)
              && (f.description.Some? ==> |f.description.value| <= 500)
              && (f.maxMembers.Some? ==> 1 <= f.maxMembers.value <= 6)
    ensures f.name.Some? && Trim(f.name.value) == "" ==> errs[0] == "Please provide team name"
    ensures f.name.Some? && 0 < |Trim(f.name.value)| < 3 ==> errs[0] == "Team name must be at least 3 characters"
  {
    (if f.name.None? then []
     else if Trim(f.name.value) == "" then ["Please provide team name"]
     else if |Trim(f.name.value)| < 3 then ["Team name must be at least 3 characters"]
     else if |Trim(f.name.value)| > 50 then ["Team name cannot exceed 50 characters"]
     else [])
    + (if f.description.Some? && |f.description.value| > 500 then ["Description cannot exceed 500 characters"] else [])
    + (if f.maxMembers.None? then []
       else if f.maxMembers.value < 1 then ["Team must have at least 1 member"]
       else if f.maxMembers.value > 6 then ["Team cannot exceed 6 members"]
       else [])
  }

  /** A name of spaces is truthy, so it is set; the schema trims it to ""
      and the `required` validator refuses it before the length test. */
  lemma BlankNameRequired(b: UpdateBody)
    requires b.name == "   "
    ensures UpdateErrors(Fields(b)) != [] && UpdateErrors(Fields(b))[0] == "Please provide team name"
  {
    TrimFacts(b.name);
    assert AllSpace(b.name) by { assert forall i :: 0 <= i < |b.name| ==> b.name[i] == ' '; }
  }

  /** The team after the `$set`, with the schema's trimming applied. */
  function Applied(t: T.Team, f: TeamUpdate): T.Team {
    t.(name := if f.name.Some? then Trim(f.name.value) else t.name,
       description := f.description.GetOr(t.description),
       maxMembers := f.maxMembers.GetOr(t.maxMembers),
       requiredSkills := if f.requiredSkills.Some? then TrimAll(f.requiredSkills.value) else t.requiredSkills,
       lookingForMembers := f.lookingForMembers.GetOr(t.lookingForMembers))
  }

  /** `updateTeam` on the route's team `id`. The validators run before the
      lookup, so invalid fields are refused even for a missing team; a
      missing team is otherwise answered 200 with no data. */
  method UpdateTeam(db: Store, id: Id, b: UpdateBody) returns (r: Reply)
    requires UniqueCodes(db.teams)
    modifies db`teams
    ensures UniqueCodes(db.teams)
    ensures old(Linked(db.teams, db.users)) ==> Linked(db.teams, db.users)
    ensures UpdateErrors(Fields(b)) != [] ==>
              r == ErrorHandler.Handle(ErrorHandler.ValidationFailure(UpdateErrors(Fields(b)))) && r.status == 400
    ensures UpdateErrors(Fields(b)) == [] ==> Updated(db, id, Fields(b), r)
    ensures r.status != 200 || id !in old(db.teams) ==> db.teams == old(db.teams)
  {
    var f := FieldsToUpdate(b);
    var errs := UpdateErrors(f);
    if errs != [] {
      ErrorHandler.ValidationJoinsMessages(errs);
      return ErrorHandler.Handle(ErrorHandler.ValidationFailure(errs));
    }
    r := UpdateValidated(db, id, f);
  }

  /** `fieldsToUpdate`, built one field at a time. */
  method FieldsToUpdate(b: UpdateBody) returns (f: TeamUpdate)
    ensures f == Fields(b)
  {
    f := TeamUpdate(None, None, None, None, None);
    if b.name != "" { f := f.(name := Some(b.name)); }
    if b.description.Some? { f := f.(description := b.description); }
    if b.maxMembers.Some? && b.maxMembers.value != 0 { f := f.(maxMembers := b.maxMembers); }
    if b.requiredSkills.Some? { f := f.(requiredSkills := b.requiredSkills); }
    if b.lookingForMembers.Some? { f := f.(lookingForMembers := b.lookingForMembers); }
  }

  /** The outcome of an update the validators accept: a missing team is
      answered 200 with no data, a name another team holds is refused by the
      unique index, and otherwise the fields are set. */
  twostate predicate Updated(db: Store, id: Id, f: TeamUpdate, r: Reply)
    reads db
  {
    && (id !in old(db.teams) ==> r == Reply(200, ""))
    && (id in old(db.teams) && f.name.Some? && NameTaken(old(db.teams), Trim(f.name.value), Some(id)) ==>
          r == Reply(400, "name already exists"))
    && (r.status == 200 && id in old(db.teams) ==>
          && db.teams == old(db.teams)[id := Applied(old(db.teams)[id], f)]
          && (T.Valid(old(db.teams)[id]) ==> T.Valid(db.teams[id])))
  }

  method UpdateValidated(db: Store, id: Id, f: TeamUpdate) returns (r: Reply)
    requires UniqueCodes(db.teams)
    requires UpdateErrors(f) == []
    modifies db`teams
    ensures UniqueCodes(db.teams)
    ensures old(Linked(db.teams, db.users)) ==> Linked(db.teams, db.users)
    ensures Updated(db, id, f, r)
    ensures r.status != 200 || id !in old(db.teams) ==> db.teams == old(db.teams)
  {
    if id !in db.teams {
      return Reply(200, "");
    }
    if f.name.Some? && exists k :: k in db.teams && k != id && db.teams[k].name == Trim(f.name.value) {
      return DuplicateName();
    }
    if T.Valid(db.teams[id]) {
      UpdateKeepsValid(db.teams[id], f);
    }
    if Linked(db.teams, db.users) {
      UpdateKeepsLinked(db.teams, db.users, id, f);
    }
    db.teams := db.teams[id := Applied(db.teams[id], f)];
    r := Reply(200, "");
  }

  // ---------------------------------------------------------------------------
  // getTeamMembers

  /** One entry of the member listing. */
  datatype Entry = Entry(user: Id, role: string, joinedAt: Time)

  /** `getTeamMembers`' list: the leader first, with role 'leader' and the
      team's creation time, then the member entries in stored order. */
  function MemberList(t: T.Team): (r: seq<Entry>)
    ensures |r| == T.MemberCount(t)
    ensures r[0] == Entry(t.leader, "leader", t.createdAt)
    ensures forall i :: 0 <= i < |t.members| ==>
              r[i + 1] == Entry(t.members[i].user, t.members[i].role, t.members[i].joinedAt)
  {
    [Entry(t.leader, "leader", t.createdAt)]
    + seq(|t.members|, i requires 0 <= i < |t.members| => Entry(t.members[i].user, t.members[i].role, t.members[i].joinedAt))
  }

  /** The reply of `getTeamMembers`: 404 for a missing team, else the list
      and its length. */
  datatype MembersReply = MembersReply(reply: Reply, count: nat, data: seq<Entry>)

  function GetTeamMembers(teams: map<Id, T.Team>, id: Id): (r: MembersReply)
    ensures id !in teams <==> r.reply == Reply(404, "Team not found")
    ensures id in teams ==> r.count == |r.data| == |teams[id].members| + 1 && r.data == MemberList(teams[id])
  {
    if id !in teams then MembersReply(Reply(404, "Team not found"), 0, [])
    else MembersReply(Reply(200, ""), |MemberList(teams[id])|, MemberList(teams[id]))
  }

  /** The users the listing names are the team's members, one line per
      member id in `deleteTeam`'s order. */
  lemma MemberListUsers(t: T.Team, u: Id)
    ensures var us := seq(|MemberList(t)|, i requires 0 <= i < |MemberList(t)| => MemberList(t)[i].user);
            us == MemberIds(t) && (u in us <==> T.IsMember(t, u))
  {
    var l := MemberList(t);
    var us := seq(|l|, i requires 0 <= i < |l| => l[i].user);
    assert forall i :: 1 <= i < |l| ==> us[i] == MemberIds(t)[i];
    assert us == MemberIds(t);
    MemberIdsMeans(t, u);
  }

  // ---------------------------------------------------------------------------
  // Facts about the state changes.

  /** A new team led by a teamless caller keeps the links. */
  lemma CreateKeepsLinked(teams: map<Id, T.Team>, users: map<Id, U.User>, me: Id, id: Id, team: T.Team)
    requires Linked(teams, users) && me in users && users[me].team.None? && id !in teams
    requires team.leader == me && team.members == []
    ensures Linked(teams[id := team], SetTeam(users, me, Some(id)))
  {
    var ts, us := teams[id := team], SetTeam(users, me, Some(id));
    forall t, u | t in ts && T.IsMember(ts[t], u) ensures u in us && us[u].team == Some(t) {
      if t != id {
        assert u != me;
      }
    }
  }

  /** A teamless caller appended to a team keeps the links. */
  lemma JoinKeepsLinked(teams: map<Id, T.Team>, users: map<Id, U.User>, me: Id, t: Id, now: Time)
    requires Linked(teams, users) && me in users && users[me].team.None? && t in teams
    ensures Linked(teams[t := Joined(teams[t], me, now)], SetTeam(users, me, Some(t)))
  {
    var ts, us := teams[t := Joined(teams[t], me, now)], SetTeam(users, me, Some(t));
    forall x, u | x in ts && T.IsMember(ts[x], u) ensures u in us && us[u].team == Some(x) {
      if x == t {
        ListedAppend(teams[t].members, T.Member(me, "member", now), u);
      }
    }
    forall u | u in us && us[u].team.Some? ensures us[u].team.value in ts && T.IsMember(ts[us[u].team.value], u) {
      if us[u].team == Some(t) {
        ListedAppend(teams[t].members, T.Member(me, "member", now), u);
      }
    }
  }

  /** Dropping a member from their own team, and clearing their team, keeps
      the links (the leave and the remove of an actual member). */
  lemma DropKeepsLinked(teams: map<Id, T.Team>, users: map<Id, U.User>, t: Id, v: Id)
    requires Linked(teams, users) && t in teams && teams[t].leader != v
    requires v in users && users[v].team == Some(t)
    ensures Linked(Dropped(teams, t, v), SetTeam(users, v, None))
  {
    var ts, us := Dropped(teams, t, v), SetTeam(users, v, None);
    forall x, u | x in ts && T.IsMember(ts[x], u) ensures u in us && us[u].team == Some(x) {
      if x == t && u != v {
        T.WithoutKeepsOthers(teams[t].members, v, u);
      }
    }
    forall u | u in us && us[u].team.Some? ensures us[u].team.value in ts && T.IsMember(ts[us[u].team.value], u) {
      if us[u].team == Some(t) {
        T.WithoutKeepsOthers(teams[t].members, v, u);
      }
    }
  }

  /** Removing someone who is in no team keeps the links. */
  lemma DropAbsentKeepsLinked(teams: map<Id, T.Team>, users: map<Id, U.User>, t: Id, v: Id)
    requires Linked(teams, users) && t in teams && teams[t].leader != v
    requires v in users ==> users[v].team.None?
    ensures Linked(Dropped(teams, t, v), SetTeam(users, v, None))
  {
    assert !T.Listed(teams[t].members, v);
    T.WithoutAbsent(teams[t].members, v);
    assert Dropped(teams, t, v) == teams;
  }

  /** Removing a user who belongs to ANOTHER team clears their team while that
      team still lists them: the links break. */
  lemma DropStrangerUnlinks(teams: map<Id, T.Team>, users: map<Id, U.User>, t: Id, v: Id)
    requires Linked(teams, users) && t in teams
    requires v in users && users[v].team.Some? && users[v].team != Some(t)
    ensures !Linked(Dropped(teams, t, v), SetTeam(users, v, None))
  {
    var a := users[v].team.value;
    var ts, us := Dropped(teams, t, v), SetTeam(users, v, None);
    assert ts[a] == teams[a] && T.IsMember(ts[a], v);
    assert us[v].team != Some(a);
  }

  /** Deleting a team and clearing its members' teams keeps the links. */
  lemma DeleteKeepsLinked(teams: map<Id, T.Team>, users: map<Id, U.User>, t: Id)
    requires Linked(teams, users) && t in teams
    ensures Linked(teams - {t}, ClearTeams(users, MemberIds(teams[t])))
    ensures forall u :: u in users ==> ClearTeams(users, MemberIds(teams[t]))[u].team != Some(t)
  {
    var ids := MemberIds(teams[t]);
    var ts, us := teams - {t}, ClearTeams(users, ids);
    forall x, u | x in ts && T.IsMember(ts[x], u) ensures u in us && us[u].team == Some(x) {
      MemberIdsMeans(teams[t], u);
    }
    forall u | u in users ensures us[u].team != Some(t) {
      MemberIdsMeans(teams[t], u);
    }
  }

  /** An update changes no membership, so it keeps the links. */
  lemma UpdateKeepsLinked(teams: map<Id, T.Team>, users: map<Id, U.User>, id: Id, f: TeamUpdate)
    requires Linked(teams, users) && id in teams
    ensures Linked(teams[id := Applied(teams[id], f)], users)
  {
    var ts := teams[id := Applied(teams[id], f)];
    assert forall u :: T.IsMember(ts[id], u) == T.IsMember(teams[id], u);
  }

  /** A valid team stays valid under an update its validators accept. */
  lemma UpdateKeepsValid(t: T.Team, f: TeamUpdate)
    requires T.Valid(t) && UpdateErrors(f) == []
    ensures T.Valid(Applied(t, f))
  {
  }

  /** Which fields an update touches: the set ones, and nothing else; a
      second identical update changes nothing more. */
  lemma UpdateTouchesOnlySet(t: T.Team, f: TeamUpdate)
    ensures var a := Applied(t, f);
            && a.leader == t.leader && a.members == t.members && a.inviteCode == t.inviteCode
            && a.category == t.category && a.project == t.project && a.isActive == t.isActive
            && a.createdAt == t.createdAt
            && (f.name.None? ==> a.name == t.name) && (f.name.Some? ==> a.name == Trim(f.name.value))
            && (f.description.None? ==> a.description == t.description)
            && (f.maxMembers.None? ==> a.maxMembers == t.maxMembers)
            && (f.lookingForMembers.None? ==> a.lookingForMembers == t.lookingForMembers)
    ensures Applied(Applied(t, f), f) == Applied(t, f)
  {
    if f.name.Some? {
      TrimIdempotent(f.name.value);
    }
    if f.requiredSkills.Some? {
      var s := TrimAll(f.requiredSkills.value);
      forall i | 0 <= i < |s| ensures TrimAll(s)[i] == s[i] {
        TrimIdempotent(f.requiredSkills.value[i]);
      }
    }
  }

  // ---------------------------------------------------------------------------
  // The member guard on the leave route.

  /** As written: on `DELETE /:id/leave` the member guard sees no
      `req.params.teamId` and falls back to the caller's own team, so a member
      of team 1 passes it on the route of team 2; `leaveTeam` then clears
      their team while team 1 still lists them. */
  lemma LeaveOtherTeamUnlinks(me: Id, other: Id, u: U.User)
    requires me != other
    ensures var teams := map[1 := T.Team("Alpha", other, [T.Member(me, "member", 0)], "AAAAAA", 4, 0, "", true, [], None, true, 0),
                             2 := T.Team("Beta", other + me + 1, [], "BBBBBB", 4, 0, "", true, [], None, true, 0)];
            var users := map[me := u.(team := Some(1)), other := u.(team := Some(1)), other + me + 1 := u.(team := Some(2))];
            && Linked(teams, users)
            && RoleMiddleware.IsTeamMember(teams, me, users[me].team, None, None) == RoleMiddleware.Next(1)
            && teams[2].leader != me
            && !Linked(Dropped(teams, 2, me), SetTeam(users, me, None))
  {
    var teams := map[1 := T.Team("Alpha", other, [T.Member(me, "member", 0)], "AAAAAA", 4, 0, "", true, [], None, true, 0),
                     2 := T.Team("Beta", other + me + 1, [], "BBBBBB", 4, 0, "", true, [], None, true, 0)];
    var users := map[me := u.(team := Some(1)), other := u.(team := Some(1)), other + me + 1 := u.(team := Some(2))];
    assert teams[1].members[0].user == me;
    forall t: Id, v: Id | t in teams && T.IsMember(teams[t], v) ensures v in users && users[v].team == Some(t) {
      if t == 1 && v != other {
        var i :| 0 <= i < |teams[1].members| && teams[1].members[i].user == v;
      }
    }
    DropStrangerUnlinks(teams, users, 2, me);
  }

  /** With the route's team in `req.params.teamId`, the member guard lets the
      caller through only on a team they belong to, and a non-leader leaving
      it keeps the links. */
  lemma RouteGuardedLeaveKeepsLinked(teams: map<Id, T.Team>, users: map<Id, U.User>, me: Id, id: Id)
    requires Linked(teams, users) && me in users
    requires RoleMiddleware.RouteMemberGuard(teams, me, users[me].team, id, None).Next?
    requires teams[id].leader != me
    ensures users[me].team == Some(id)
    ensures Linked(Dropped(teams, id, me), SetTeam(users, me, None))
  {
    DropKeepsLinked(teams, users, id, me);
  }
}
