/** The user handlers (backend/controllers/userController.js): the caller's
    statistics with their profile completeness, the user search and the
    deletion of the caller's account. The caller `me` is the user `protect`
    found. */
module UserController {
  import opened Common
  import opened Text
  import opened Database
  import U = UserModel
  import T = TeamModel
  import TeamController

  // ---------------------------------------------------------------------------
  // Profile completeness.

  /** The seven profile fields `getUserStats` requires, named after their keys. */
  datatype Field = FirstName | LastName | Email | Phone | Organization | Bio | Skills

  const Required: seq<Field> := [FirstName, LastName, Email, Phone, Organization, Bio, Skills]

  /** `user[field] && user[field].length > 0`: an absent field is stored as
      the empty string (or the empty skill list), so both tests reduce to a
      non-zero length. */
  predicate Filled(u: U.User, f: Field) {
    match f
    case FirstName => |u.firstName| > 0
    case LastName => |u.lastName| > 0
    case Email => |u.email| > 0
    case Phone => |u.phone| > 0
    case Organization => |u.organization| > 0
    case Bio => |u.bio| > 0
    case Skills => |u.skills| > 0
  }

  /** The fields of `fs` whose filledness is `filled`, in order (the two
      `requiredFields.filter` calls). */
  function Select(fs: seq<Field>, u: U.User, filled: bool): (r: seq<Field>)
    ensures forall f :: f in r <==> f in fs && Filled(u, f) == filled
    ensures |r| <= |fs|
  {
    if fs == [] then []
    else if Filled(u, fs[0]) == filled then [fs[0]] + Select(fs[1..], u, filled)
    else Select(fs[1..], u, filled)
  }

  function Completed(u: U.User): seq<Field> { Select(Required, u, true) }

  function Missing(u: U.User): seq<Field> { Select(Required, u, false) }

  /** Splitting `fs` by filledness loses nothing, keeps each part in the
      order of `fs`, and sends every field to exactly one part. */
  lemma {:induction false} SelectPartition(fs: seq<Field>, u: U.User)
    ensures |Select(fs, u, true)| + |Select(fs, u, false)| == |fs|
    ensures Subsequence(Select(fs, u, true), fs) && Subsequence(Select(fs, u, false), fs)
    ensures forall f :: f in fs ==> (f in Select(fs, u, true) <==> f !in Select(fs, u, false))
  {
    if fs != [] {
      SelectPartition(fs[1..], u);
    }
  }

  /** `Math.round(num / den)` for a non-negative quotient: halves round up. */
  function Round(num: nat, den: nat): (r: nat)
    requires den > 0
    ensures 2 * num < (2 * r + 1) * den && (2 * r - 1) * den <= 2 * num
  {
    (2 * num + den) / (2 * den)
  }

  /** `completeness`: the rounded percentage of required fields filled. */
  function Completeness(u: U.User): (c: nat)
    ensures c <= 100
    ensures c == 100 <==> Missing(u) == []
    ensures c == 0 <==> Completed(u) == []
  {
    SelectPartition(Required, u);
    CompletenessBounds(|Completed(u)|);
    Round(100 * |Completed(u)|, |Required|)
  }

  /** The percentage of `k` fields out of seven reaches 100 only for all seven
      and 0 only for none. */
  lemma CompletenessBounds(k: nat)
    requires k <= 7
    ensures Round(100 * k, 7) <= 100
    ensures Round(100 * k, 7) == 100 <==> k == 7
    ensures Round(100 * k, 7) == 0 <==> k == 0
  {
    var r := Round(100 * k, 7);
    assert 200 * k < (2 * r + 1) * 7 && (2 * r - 1) * 7 <= 200 * k;
  }

  // ---------------------------------------------------------------------------
  // getUserStats

  datatype TeamSummary = TeamSummary(id: Id, name: string, memberCount: nat, isLeader: bool)

  datatype Profile = Profile(completeness: nat, missing: seq<Field>)

  datatype Stats = Stats(profile: Profile, team: Option<TeamSummary>, submissions: nat, evaluations: nat)

  /** `Project.countDocuments({team})`. */
  function ProjectCount(db: Store, team: Id): nat
    reads db`projects, db.projects.Values
  {
    |set k | k in db.projects && db.projects[k].team == team|
  }

  /** `getUserStats`. The team is the populated `user.team`: a reference to a
      team that no longer exists populates to null and gives no summary. */
  function UserStats(db: Store, me: Id): (s: Stats)
    reads db`users, db`teams, db`projects, db.projects.Values
    requires me in db.users
    ensures s.profile.completeness <= 100
    ensures s.profile.completeness == 100 <==> s.profile.missing == []
    ensures s.profile.missing == Missing(db.users[me])
    ensures s.team.Some? <==> db.users[me].team.Some? && db.users[me].team.value in db.teams
    ensures s.team.Some? ==>
              && s.team.value.id == db.users[me].team.value
              && s.team.value.name == db.teams[s.team.value.id].name
              && s.team.value.memberCount == T.MemberCount(db.teams[s.team.value.id])
              && (s.team.value.isLeader <==> db.teams[s.team.value.id].leader == me)
    ensures s.submissions == (if s.team.Some? then ProjectCount(db, s.team.value.id) else 0)
    ensures s.evaluations == 0
  {
    var u := db.users[me];
    var profile := Profile(Completeness(u), Missing(u));
    if u.team.Some? && u.team.value in db.teams then
      var t := db.teams[u.team.value];
      Stats(profile, Some(TeamSummary(u.team.value, t.name, T.MemberCount(t), t.leader == me)),
            ProjectCount(db, u.team.value), 0)
    else
      Stats(profile, None, 0, 0)
  }

  // ---------------------------------------------------------------------------
  // searchUsers

  /** The case-insensitive pattern test on one field, with the pattern taken
      literally. */
  predicate FieldMatches(field: string, q: string) {
    Contains(Lower(field), Lower(q))
  }

  /** The `$or` of the three pattern tests. */
  predicate Matches(u: U.User, q: string) {
    FieldMatches(u.firstName, q) || FieldMatches(u.lastName, q) || FieldMatches(u.email, q)
  }

  /** The active users matching `q`, in the collection's order `order`. */
  function Matching(users: map<Id, U.User>, order: seq<Id>, q: string): (r: seq<Id>)
    ensures forall k :: k in r <==> k in order && k in users && users[k].isActive && Matches(users[k], q)
    ensures forall k :: k in users && users[k].isActive && Matches(users[k], q) ==>
              multiset(r)[k] == multiset(order)[k]
  {
    if order == [] then []
    else
      assert order == [order[0]] + order[1..];
      if order[0] in users && users[order[0]].isActive && Matches(users[order[0]], q) then
      [order[0]] + Matching(users, order[1..], q)
    else Matching(users, order[1..], q)
  }

  lemma {:induction false} MatchingInOrder(users: map<Id, U.User>, order: seq<Id>, q: string)
    ensures Subsequence(Matching(users, order, q), order)
  {
    if order != [] {
      MatchingInOrder(users, order[1..], q);
    }
  }

  /** A cursor's `limit(n)`: 0 means no limit and a negative `n` the same as
      its absolute value. */
  function Cap(limit: int): (c: Option<nat>)
    ensures c.None? <==> limit == 0
    ensures c.Some? ==> c.value > 0 && (c.value == limit || c.value == -limit)
  {
    if limit == 0 then None else if limit > 0 then Some(limit) else Some(-limit)
  }

  datatype SearchReply = Refused(reply: Reply) | Found(users: seq<Id>)

  /** `searchUsers`: the query `q` is required; the limit defaults to 10.
      `order` is the order in which the collection yields its users. */
  function SearchUsers(users: map<Id, U.User>, order: seq<Id>, q: Option<string>, limit: Option<int>): (r: SearchReply)
    ensures q.None? || q == Some("") <==> r == Refused(Reply(400, "Search query is required"))
    ensures r.Found? ==>
              && Subsequence(r.users, order)
              && (forall k :: k in r.users ==> k in users && users[k].isActive && Matches(users[k], q.value))
              && (Cap(limit.GetOr(10)).Some? ==> |r.users| <= Cap(limit.GetOr(10)).value)
              && |r.users| <= |Matching(users, order, q.value)|
              && r.users == Matching(users, order, q.value)[..|r.users|]
    ensures r.Found? && (Cap(limit.GetOr(10)).None? || |r.users| < Cap(limit.GetOr(10)).value) ==>
              forall k :: k in order && k in users && users[k].isActive && Matches(users[k], q.value) ==> k in r.users
  {
    if q.None? || q.value == "" then Refused(Reply(400, "Search query is required"))
    else
      var all := Matching(users, order, q.value);
      MatchingInOrder(users, order, q.value);
      match Cap(limit.GetOr(10))
      case None => Found(all)
      case Some(n) =>
        if |all| <= n then Found(all)
        else PrefixInOrder(all, order, n); Found(all[..n])
  }

  /** A prefix of a subsequence is a subsequence. */
  lemma {:induction false} PrefixInOrder(xs: seq<Id>, ys: seq<Id>, n: nat)
    requires Subsequence(xs, ys) && n <= |xs|
    ensures Subsequence(xs[..n], ys)
    decreases |ys|
  {
    if n > 0 {
      if xs[0] == ys[0] && Subsequence(xs[1..], ys[1..]) {
        PrefixInOrder(xs[1..], ys[1..], n - 1);
        assert xs[..n][1..] == xs[1..][..n - 1];
      } else {
        PrefixInOrder(xs, ys[1..], n);
      }
    }
  }

  // ---------------------------------------------------------------------------
  // deleteAccount

  /** `Team.findOne({leader: me})` finds a team. */
  predicate LeadsTeam(teams: map<Id, T.Team>, me: Id) {
    exists t :: t in teams && teams[t].leader == me
  }

  /** `Team.findByIdAndUpdate(team, {$pull: {members: {user: me}}})`: a
      missing team (or none at all) is left alone. */
  function Pulled(teams: map<Id, T.Team>, team: Option<Id>, me: Id): (r: map<Id, T.Team>)
    ensures r.Keys == teams.Keys
    ensures team.Some? && team.value in teams ==> !T.Listed(r[team.value].members, me)
    ensures forall t :: t in teams && Some(t) != team ==> r[t] == teams[t]
  {
    if team.Some? && team.value in teams then TeamController.Dropped(teams, team.value, me) else teams
  }

  /** `deleteAccount`: refused for a team leader; otherwise the caller leaves
      the team their account names and the account is removed. */
  method DeleteAccount(db: Store, me: Id) returns (r: Reply)
    requires me in db.users
    modifies db`teams, db`users
    ensures old(LeadsTeam(db.teams, me)) ==>
              && r == Reply(400, "Cannot delete account while being a team leader. Please transfer leadership first.")
              && db.teams == old(db.teams) && db.users == old(db.users)
    ensures !old(LeadsTeam(db.teams, me)) ==>
              && r == Reply(200, "Account deleted successfully")
              && db.teams == Pulled(old(db.teams), old(db.users[me].team), me)
              && db.users == old(db.users) - {me}
  {
    if LeadsTeam(db.teams, me) {
      return Reply(400, "Cannot delete account while being a team leader. Please transfer leadership first.");
    }
    db.teams := Pulled(db.teams, db.users[me].team, me);
    db.users := db.users - {me};
    r := Reply(200, "Account deleted successfully");
  }

  /** When users and teams agree, deleting a non-leader's account keeps them
      in agreement: the only team listing the user is their own, and the
      pull removes them from it. */
  lemma DeleteAccountKeepsLinked(teams: map<Id, T.Team>, users: map<Id, U.User>, me: Id)
    requires TeamController.Linked(teams, users) && me in users && !LeadsTeam(teams, me)
    ensures TeamController.Linked(Pulled(teams, users[me].team, me), users - {me})
  {
    var mine := users[me].team;
    if mine.Some? {
      var x := mine.value;
      assert teams[x].leader != me;
      TeamController.DropKeepsLinked(teams, users, x, me);
      assert Pulled(teams, mine, me) == TeamController.Dropped(teams, x, me);
      var us := TeamController.SetTeam(users, me, None);
      DropUnteamedKeepsLinked(TeamController.Dropped(teams, x, me), us, me);
      assert us - {me} == users - {me};
    } else {
      assert Pulled(teams, mine, me) == teams;
      DropUnteamedKeepsLinked(teams, users, me);
    }
  }

  /** Removing a user who is in no team keeps the links: no team lists them. */
  lemma DropUnteamedKeepsLinked(teams: map<Id, T.Team>, users: map<Id, U.User>, me: Id)
    requires TeamController.Linked(teams, users) && me in users && users[me].team.None?
    ensures TeamController.Linked(teams, users - {me})
  {
  }
}
