/** The administrator handlers (backend/controllers/adminController.js) that
    decide something: the paged user list, role and status changes, the
    hackathon configuration, category deletion and the export dispatch. */
module AdminController {
  import opened Common
  import opened Text
  import opened Database
  import U = UserModel
  import T = TeamModel
  import C = CategoryModel
  import H = HackathonModel
  import Helpers
  import UserController

  // ---------------------------------------------------------------------------
  // getAllUsers

  /** The query `getAllUsers` builds: a role, when given, must match exactly;
      a search, when given, must match one of the three name fields. */
  predicate Selected(u: U.User, role: Option<string>, search: Option<string>) {
    (role.None? || role.value == "" || U.RoleName(u.role) == role.value)
    && (search.None? || search.value == "" || UserController.Matches(u, search.value))
  }

  /** The users the query selects, in the order `order` (newest first). */
  function Selection(users: map<Id, U.User>, order: seq<Id>, role: Option<string>, search: Option<string>): (r: seq<Id>)
    ensures forall k :: k in r <==> k in order && k in users && Selected(users[k], role, search)
    ensures Subsequence(r, order)
  {
    if order == [] then []
    else if order[0] in users && Selected(users[order[0]], role, search) then
      [order[0]] + Selection(users, order[1..], role, search)
    else Selection(users, order[1..], role, search)
  }

  /** `skip(skip).limit(n)` on a result list, with the cursor limit `cap`
      (`None` for no limit). */
  function Window(all: seq<Id>, skip: nat, cap: Option<nat>): (r: seq<Id>)
    ensures skip >= |all| ==> r == []
    ensures skip < |all| && cap.None? ==> |r| == |all| - skip
    ensures skip < |all| && cap.Some? ==> |r| == if skip + cap.value <= |all| then cap.value else |all| - skip
    ensures forall i :: 0 <= i < |r| ==> skip + i < |all| && r[i] == all[skip + i]
  {
    if skip >= |all| then []
    else if cap.None? || skip + cap.value >= |all| then all[skip..]
    else all[skip..skip + cap.value]
  }

  /** A negative skip is refused by the database driver; the error handler
      answers it with status 500 and the driver's message. */
  datatype UsersPage =
    | DriverRefused
    | UsersPage(users: seq<Id>, totalPages: Helpers.PageCount, currentPage: int, total: nat)

  /** The number of users `getAllUsers` skips for a page. */
  function Skip(page: int, limit: int): int { (page - 1) * limit }

  /** `getAllUsers` with `page = 1` and `limit = 20` by default. */
  function GetAllUsers(users: map<Id, U.User>, order: seq<Id>, role: Option<string>, search: Option<string>,
                       page: Option<int>, limit: Option<int>): (r: UsersPage)
    ensures r.DriverRefused? <==> Skip(page.GetOr(1), limit.GetOr(20)) < 0
    ensures r.UsersPage? ==> r.total == |Selection(users, order, role, search)| && r.currentPage == page.GetOr(1)
    ensures r.UsersPage? ==> r.totalPages == Helpers.CeilDiv(|Selection(users, order, role, search)|, limit.GetOr(20))
    ensures r.UsersPage? ==>
              forall i :: 0 <= i < |r.users| ==>
                var all := Selection(users, order, role, search);
                var skip := Skip(page.GetOr(1), limit.GetOr(20));
                skip + i < |all| && r.users[i] == all[skip + i]
    ensures r.UsersPage? && UserController.Cap(limit.GetOr(20)).Some? ==>
              |r.users| <= UserController.Cap(limit.GetOr(20)).value
    ensures r.UsersPage? ==>
              var skip := Skip(page.GetOr(1), limit.GetOr(20));
              skip >= 0 && r.users == Window(Selection(users, order, role, search), skip, UserController.Cap(limit.GetOr(20)))
  {
    var pageNum, limitNum := page.GetOr(1), limit.GetOr(20);
    var skip := Skip(pageNum, limitNum);
    if skip < 0 then DriverRefused
    else
      var all := Selection(users, order, role, search);
      UsersPage(Window(all, skip, UserController.Cap(limitNum)), Helpers.CeilDiv(|all|, limitNum), pageNum, |all|)
  }

  /** With a positive limit, the selected user at position `j` is shown on
      page `j / limit + 1`, at position `j % limit`, and that page is within
      the page count. */
  lemma EveryUserOnItsPage(all: seq<Id>, limit: nat, j: nat)
    requires limit > 0 && j < |all|
    ensures var page := j / limit + 1;
            var shown := Window(all, (page - 1) * limit, Some(limit));
            && j % limit < |shown| && shown[j % limit] == all[j]
            && page <= Helpers.CeilDiv(|all|, limit).n
  {
    var page := j / limit + 1;
    assert (page - 1) * limit + j % limit == j;
    Helpers.CeilDivMeans(|all|, limit);
    var c := Helpers.CeilDiv(|all|, limit).n;
    assert c * limit >= |all| > j;
    if page > c {
      assert page - 1 >= c;
      Helpers.MulMonotone(c, page - 1, limit);
      assert false;
    }
  }

  // ---------------------------------------------------------------------------
  // updateUserRole and toggleUserStatus

  /** `updateUserRole`: a role other than the three known names is refused.
      A valid role is written with `findByIdAndUpdate`, which answers 200 with
      no user when the id names none. */
  method UpdateUserRole(db: Store, id: Id, role: Option<string>) returns (r: Reply, user: Option<U.User>)
    modifies db`users
    ensures role.None? || U.ParseRole(role.value).None? ==>
              r == Reply(400, "Invalid role") && user.None? && db.users == old(db.users)
    ensures role.Some? && U.ParseRole(role.value).Some? ==>
              && r == Reply(200, "")
              && (id !in old(db.users) ==> user.None? && db.users == old(db.users))
              && (id in old(db.users) ==>
                    && db.users == old(db.users)[id := old(db.users)[id].(role := U.ParseRole(role.value).value)]
                    && user == Some(db.users[id])
                    && U.RoleName(db.users[id].role) == role.value)
  {
    if role.None? || U.ParseRole(role.value).None? {
      return Reply(400, "Invalid role"), None;
    }
    var newRole := U.ParseRole(role.value).value;
    if id in db.users {
      db.users := db.users[id := db.users[id].(role := newRole)];
      user := Some(db.users[id]);
    } else {
      user := None;
    }
    r := Reply(200, "");
  }

  /** The user with `isActive` negated and every other field kept. */
  function Toggled(u: U.User): (v: U.User)
    ensures v.isActive == !u.isActive
    ensures v.(isActive := u.isActive) == u
  {
    u.(isActive := !u.isActive)
  }

  /** Toggling twice restores the stored users. */
  lemma ToggleTwice(users: map<Id, U.User>, id: Id)
    requires id in users
    ensures var once := users[id := Toggled(users[id])];
            once[id := Toggled(once[id])] == users
  {
    var once := users[id := Toggled(users[id])];
    assert Toggled(once[id]) == users[id];
  }

  /** `toggleUserStatus`. */
  method ToggleUserStatus(db: Store, id: Id) returns (r: Reply)
    modifies db`users
    ensures id !in old(db.users) ==> r == Reply(404, "User not found") && db.users == old(db.users)
    ensures id in old(db.users) ==>
              && db.users == old(db.users)[id := Toggled(old(db.users)[id])]
              && r.status == 200
              && r.message == if db.users[id].isActive then "User activated successfully"
                              else "User deactivated successfully"
  {
    if id !in db.users {
      return Reply(404, "User not found");
    }
    db.users := db.users[id := Toggled(db.users[id])];
    r := Reply(200, if db.users[id].isActive then "User activated successfully" else "User deactivated successfully");
  }

  // ---------------------------------------------------------------------------
  // getHackathonConfig

  /** Some stored hackathon is active. */
  predicate HasActive(hackathons: map<Id, H.Hackathon>)
    reads hackathons.Values
  {
    exists k :: k in hackathons && hackathons[k].isActive
  }

  /** `getHackathonConfig`: an active hackathon when there is one; otherwise a
      new one with every default, stored under the fresh id `id`. */
  method GetHackathonConfig(db: Store, id: Id) returns (h: H.Hackathon)
    requires id !in db.hackathons
    modifies db`hackathons
    ensures h.isActive && h in db.hackathons.Values
    ensures old(HasActive(db.hackathons)) ==> db.hackathons == old(db.hackathons)
    ensures !old(HasActive(db.hackathons)) ==>
              && fresh(h) && db.hackathons == old(db.hackathons)[id := h]
              && h.id == id && h.calendar == H.DefaultCalendar && h.status == H.Upcoming
              && h.maxTeamSize == H.DefaultMaxTeamSize
  {
    if HasActive(db.hackathons) {
      var k :| k in db.hackathons && db.hackathons[k].isActive;
      h := db.hackathons[k];
      assert h in db.hackathons.Values;
    } else {
      h := new H.Hackathon.Default(id);
      db.hackathons := db.hackathons[id := h];
      assert db.hackathons[id] == h;
    }
  }

  // ---------------------------------------------------------------------------
  // deleteCategory

  /** `Team.countDocuments({category})`. */
  function TeamsUsing(teams: map<Id, T.Team>, category: Id): (n: nat)
    ensures n == 0 <==> forall k :: k in teams ==> teams[k].category != category
  {
    var using := set k | k in teams && teams[k].category == category;
    assert forall k :: k in teams && teams[k].category == category ==> k in using;
    |using|
  }

  /** Every team's category is a stored category. */
  predicate TeamsCategorized(teams: map<Id, T.Team>, categories: map<Id, C.Category>) {
    forall k :: k in teams ==> teams[k].category in categories
  }

  /** `deleteCategory`: refused while any team uses the category. Projects
      are not counted, so a project may be left naming a deleted category. */
  method DeleteCategory(db: Store, id: Id) returns (r: Reply)
    modifies db`categories
    ensures id !in old(db.categories) ==> r == Reply(404, "Category not found") && db.categories == old(db.categories)
    ensures id in old(db.categories) && TeamsUsing(db.teams, id) > 0 ==>
              && r == Reply(400, "Cannot delete category. " + NatToString(TeamsUsing(db.teams, id)) + " teams are using it.")
              && db.categories == old(db.categories)
    ensures id in old(db.categories) && TeamsUsing(db.teams, id) == 0 ==>
              r == Reply(200, "Category deleted successfully") && db.categories == old(db.categories) - {id}
    ensures old(TeamsCategorized(db.teams, db.categories)) ==> TeamsCategorized(db.teams, db.categories)
  {
    if id !in db.categories {
      return Reply(404, "Category not found");
    }
    var n := TeamsUsing(db.teams, id);
    if n > 0 {
      return Reply(400, "Cannot delete category. " + NatToString(n) + " teams are using it.");
    }
    db.categories := db.categories - {id};
    r := Reply(200, "Category deleted successfully");
  }

  // ---------------------------------------------------------------------------
  // exportData

  /** The file name `exportData` attaches for an export type, if the type is
      one it knows. */
  function ExportFilename(kind: string): (f: Option<string>)
    ensures f.Some? <==> kind in ["users", "teams", "projects", "submissions"]
    ensures f.Some? ==> f.value == kind + ".json"
  {
    match kind
    case "users" => Some("users.json")
    case "teams" => Some("teams.json")
    case "projects" => Some("projects.json")
    case "submissions" => Some("submissions.json")
    case _ => None
  }

  /** The reply of `exportData`: the data itself is not modelled. */
  function ExportReply(kind: string): (r: Reply)
    ensures r.status == 400 <==> ExportFilename(kind).None?
    ensures r.status == 400 ==> r.message == "Invalid export type"
    ensures r.status != 400 ==> r == Reply(200, "")
  {
    if ExportFilename(kind).None? then Reply(400, "Invalid export type") else Reply(200, "")
  }
}
