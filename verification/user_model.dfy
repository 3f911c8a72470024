/** The `User` document: identity, certificate and per-module roles. */
module UserModel {
  import opened Wrappers

  /** The role levels the schema's enum allows. */
  datatype Level = USER | ADMIN

  /** `roles`: one optional level for each of the modules job, stock and user. */
  datatype Roles = Roles(job: Option<Level>, stock: Option<Level>, user: Option<Level>)

  /** A user with no `roles` at all reads like one with every level absent. */
  const NoRoles := Roles(None, None, None)

  datatype User = User(
    userid: string,
    name: string,
    shortname: string,
    roles: Roles,
    cert: string,
    deleted: bool,
    createdBy: string,
    modifiedBy: string)

  function LevelName(l: Level): string
  {
    match l
    case USER => "USER"
    case ADMIN => "ADMIN"
  }

  /** The enum check on a role string: only "USER" and "ADMIN" are accepted. */
  function ParseLevel(s: string): (l: Option<Level>)
    ensures l.Some? ==> LevelName(l.value) == s
    ensures l.None? ==> s != "USER" && s != "ADMIN"
  {
    if s == "USER" then Some(USER) else if s == "ADMIN" then Some(ADMIN) else None
  }

  /** `roles[module]` for a module name given as a string; any other name has no role. */
  function RoleOf(roles: Roles, mod: string): (l: Option<Level>)
    ensures mod != "job" && mod != "stock" && mod != "user" ==> l.None?
  {
    if mod == "job" then roles.job
    else if mod == "stock" then roles.stock
    else if mod == "user" then roles.user
    else None
  }

  /** What the schema's validators accept: every required string is non-empty. */
  predicate Valid(u: User)
  {
    u.userid != "" && u.name != "" && u.shortname != "" && u.cert != "" && u.createdBy != "" && u.modifiedBy != ""
  }

  /** A new document with the schema defaults: not deleted, no roles unless given. */
  function NewUser(userid: string, name: string, shortname: string, cert: string, createdBy: string, modifiedBy: string,
                   roles: Roles := NoRoles): (u: User)
    ensures !u.deleted && u.roles == roles && u.userid == userid && u.cert == cert
    ensures Valid(u) <==> userid != "" && name != "" && shortname != "" && cert != "" && createdBy != "" && modifiedBy != ""
  {
    User(userid, name, shortname, roles, cert, false, createdBy, modifiedBy)
  }
}
