/** A registered account, as far as the modelled handlers read and write it.
    The user schema itself (backend/models/User.js) is not part of this model;
    the fields below are the ones the controllers use. */
module UserModel {
  import opened Common

  datatype Role = Participant | Judge | Admin

  /** The role names the application accepts. */
  function ParseRole(s: string): (r: Option<Role>)
    ensures r.Some? <==> s in ["participant", "judge", "admin"]
  {
    if s == "participant" then Some(Participant)
    else if s == "judge" then Some(Judge)
    else if s == "admin" then Some(Admin)
    else None
  }

  function RoleName(r: Role): (s: string)
    ensures ParseRole(s) == Some(r)
  {
    match r
    case Participant => "participant"
    case Judge => "judge"
    case Admin => "admin"
  }

  datatype User = User(
    firstName: string,
    lastName: string,
    email: string,
    phone: string,
    organization: string,
    bio: string,
    skills: seq<string>,
    role: Role,
    isActive: bool,
    team: Option<Id>)
}
