/** A team (backend/models/Team.js): a leader, the other members, an invite
    code and the limits on its size. The leader is not stored among the
    members. */
module TeamModel {
  import opened Common
  import opened Text

  datatype Member = Member(user: Id, role: string, joinedAt: Time)

  datatype Team = Team(
    name: string,
    leader: Id,
    members: seq<Member>,
    inviteCode: string,
    maxMembers: int,
    category: Id,
    description: string,
    lookingForMembers: bool,
    requiredSkills: seq<string>,
    project: Option<Id>,
    isActive: bool,
    createdAt: Time)

  const DefaultMaxMembers: int := 4

  /** The `memberCount` virtual: the stored members plus the leader. */
  function MemberCount(t: Team): (n: nat)
    ensures n >= 1
  {
    |t.members| + 1
  }

  /** `isFull` */
  predicate IsFull(t: Team) {
    MemberCount(t) >= t.maxMembers
  }

  /** Some stored member entry is for `u`. */
  predicate Listed(members: seq<Member>, u: Id) {
    exists i :: 0 <= i < |members| && members[i].user == u
  }

  /** `isMember`: the leader, or any user with a member entry. */
  predicate IsMember(t: Team, u: Id) {
    if t.leader == u then true else Listed(t.members, u)
  }

  /** The pre-save hook: a missing invite code is replaced by `code` (the
      hook's random draw); a present one is kept. */
  function PreSave(t: Team, code: string): (r: Team)
    ensures t.inviteCode != "" ==> r == t
    ensures t.inviteCode == "" ==> r.inviteCode == code
    ensures r == t.(inviteCode := r.inviteCode)
  {
    if t.inviteCode == "" then t.(inviteCode := code) else t
  }

  /** The schema validators' messages, in path order (the name is trimmed
      before it is checked). */
  function ValidationErrors(t: Team): (errs: seq<string>)
    ensures errs == [] <==> Valid(t)
  {
    (if t.name == "" then ["Please provide team name"]
     else if |t.name| < 3 then ["Team name must be at least 3 characters"]
     else if |t.name| > 50 then ["Team name cannot exceed 50 characters"]
     else [])
    + (if t.inviteCode == "" then ["Path `inviteCode` is required."] else [])
    + (if t.maxMembers < 1 then ["Team must have at least 1 member"]
       else if t.maxMembers > 6 then ["Team cannot exceed 6 members"]
       else [])
    + (if |t.description| > 500 then ["Description cannot exceed 500 characters"] else [])
  }

  /** The schema's bounds. */
  predicate Valid(t: Team) {
    3 <= |t.name| <= 50 && t.inviteCode != "" && 1 <= t.maxMembers <= 6 && |t.description| <= 500
  }

  /** The members with every entry for `u` removed (the `filter` of `leaveTeam`
      and `removeMember`). */
  function Without(members: seq<Member>, u: Id): (r: seq<Member>)
    ensures |r| <= |members|
    ensures !Listed(r, u)
    ensures Subsequence(r, members)
    ensures forall m :: m in members && m.user != u ==> m in r
    ensures forall m: Member {:trigger multiset(r)[m]} :: m.user != u ==> multiset(r)[m] == multiset(members)[m]
  {
    if members == [] then []
    else
      assert members == [members[0]] + members[1..];
      if members[0].user == u then Without(members[1..], u)
      else
        var rest := Without(members[1..], u);
        assert ([members[0]] + rest)[1..] == rest;
        [members[0]] + rest
  }

  // ---------------------------------------------------------------------------
  // Facts about membership.

  /** The leader is always a member, whatever the member list says. */
  lemma LeaderIsMember(t: Team)
    ensures IsMember(t, t.leader)
  {
  }

  /** Anyone else is a member exactly when a stored entry names them. */
  lemma NonLeaderMembership(t: Team, u: Id)
    requires u != t.leader
    ensures IsMember(t, u) <==> Listed(t.members, u)
  {
  }

  /** A team that is not full can take one more member without exceeding its
      maximum. */
  lemma RoomForOne(t: Team, m: Member)
    requires !IsFull(t)
    ensures MemberCount(t.(members := t.members + [m])) == MemberCount(t) + 1
    ensures MemberCount(t.(members := t.members + [m])) <= t.maxMembers
  {
  }

  /** The hook never replaces an existing invite code, and running it a second
      time changes nothing. */
  lemma PreSaveKeepsCode(t: Team, code1: string, code2: string)
    requires code1 != ""
    ensures PreSave(PreSave(t, code1), code2) == PreSave(t, code1)
  {
  }

  /** A non-empty list lists `v` when its head or its tail does. */
  lemma ListedCons(members: seq<Member>, v: Id)
    requires members != []
    ensures Listed(members, v) <==> members[0].user == v || Listed(members[1..], v)
  {
    if Listed(members[1..], v) {
      var i :| 0 <= i < |members[1..]| && members[1..][i].user == v;
      assert members[i + 1].user == v;
    }
    if Listed(members, v) && members[0].user != v {
      var i :| 0 <= i < |members| && members[i].user == v;
      assert members[1..][i - 1].user == v;
    }
  }

  /** Removing `u` keeps every other user's entries. */
  lemma {:induction false} WithoutKeepsOthers(members: seq<Member>, u: Id, v: Id)
    requires v != u
    ensures Listed(Without(members, u), v) <==> Listed(members, v)
  {
    if members != [] {
      WithoutKeepsOthers(members[1..], u, v);
      ListedCons(members, v);
      var rest := Without(members[1..], u);
      if members[0].user != u {
        var r := [members[0]] + rest;
        assert r[1..] == rest;
        ListedCons(r, v);
      }
    }
  }

  /** Removing a user who has no entry changes nothing. */
  lemma {:induction false} WithoutAbsent(members: seq<Member>, u: Id)
    requires !Listed(members, u)
    ensures Without(members, u) == members
  {
    if members != [] {
      ListedCons(members, u);
      WithoutAbsent(members[1..], u);
    }
  }
}
