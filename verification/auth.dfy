/**
 * Access decisions: the certificate-header middleware `auth`, the
 * module-admin gate `requireAdmin` and the role test `isAdmin`.
 */
module Auth {
  import opened Wrappers
  import opened UserModel
  import opened UserController

  const UserHeader := "x-tevor-cn"
  const NoAuthError := "Fail to authenticate user"

  /** `res.locals` as the middlewares leave it for the handlers after them. */
  datatype Locals = Locals(user: Option<User>, isAuthenticated: bool)

  /** `res.locals` before `auth` has run. */
  const Anonymous := Locals(None, false)

  /** A middleware either calls `next` once with the locals, or replies with an error status. */
  datatype Outcome = Next(locals: Locals) | Reply(status: int, error: string)

  /** `req.header(userHeader) || ''`: a missing header reads as the empty string. */
  function CertOf(header: Option<string>): (cn: string)
    ensures header.None? ==> cn == ""
    ensures header.Some? ==> cn == header.value
  {
    if header.Some? && header.value != "" then header.value else ""
  }

  /**
   * `auth`: look the certificate name up; without a user the reply is 401,
   * with one the locals carry it, marked authenticated, and `next` runs.
   */
  method Authenticate(dir: UserDirectory, header: Option<string>, locals: Locals) returns (o: Outcome)
    requires dir.Valid()
    modifies dir`cache
    ensures dir.Valid()
    ensures dir.cache == CacheAfterLookup(old(dir.cache), dir.store, CertField, CertOf(header))
    ensures LookupResult(old(dir.cache), dir.store, CertField, CertOf(header)).None? ==> o == Reply(401, NoAuthError)
    ensures LookupResult(old(dir.cache), dir.store, CertField, CertOf(header)).Some? ==>
      o == Next(locals.(user := LookupResult(old(dir.cache), dir.store, CertField, CertOf(header)), isAuthenticated := true))
    ensures o.Next? ==> o.locals.user.Some? && o.locals.user.value.cert == CertOf(header) && !o.locals.user.value.deleted
    // every stored user has a certificate name, so a missing header never authenticates
    ensures header.None? ==> o.Reply?
  {
    var userCn := CertOf(header);
    var user := dir.FindUserByCert(userCn);
    if user.None? {
      return Reply(401, NoAuthError);
    }
    o := Next(locals.(user := user, isAuthenticated := true));
  }

  /**
   * `isAdmin(user, module)`: the user's role for the module is ADMIN. No
   * user, no role for the module, a USER role or an unknown module all fail.
   */
  function IsAdmin(user: Option<User>, mod: string := ""): (b: bool)
    ensures b <==> user.Some? && mod in {"job", "stock", "user"} && RoleOf(user.value.roles, mod) == Some(ADMIN)
    ensures user.Some? && RoleOf(user.value.roles, mod) == Some(USER) ==> !b
    ensures user.Some? && user.value.roles == NoRoles ==> !b
    ensures mod == "" ==> !b
  {
    user.Some? && RoleOf(user.value.roles, mod) == Some(ADMIN)
  }

  function DeniedMessage(shortname: string): string
  {
    shortname + " do not have permission to access this endpoint"
  }

  /**
   * `requireAdmin(module)` applied to the locals: `next` with the locals
   * unchanged exactly when authenticated and `isAdmin` holds, otherwise 403
   * naming the user's short name.
   */
  function RequireAdmin(mod: string, locals: Locals): (o: Outcome)
    ensures o.Next? <==> locals.isAuthenticated && IsAdmin(locals.user, mod)
    ensures o.Next? ==> o.locals == locals
    ensures o.Reply? ==>
      o == Reply(403, DeniedMessage(if locals.user.Some? then locals.user.value.shortname else ""))
  {
    var shortname := if locals.user.Some? then locals.user.value.shortname else "";
    var roles := if locals.user.Some? then locals.user.value.roles else NoRoles;
    if locals.isAuthenticated && RoleOf(roles, mod) == Some(ADMIN) then Next(locals)
    else Reply(403, DeniedMessage(shortname))
  }

  /** Before `auth` has run every module is refused. */
  lemma AnonymousIsRefused(mod: string)
    ensures RequireAdmin(mod, Anonymous) == Reply(403, DeniedMessage(""))
  {
  }

  /**
   * Behind `auth`, `requireAdmin(module)` comes down to the role of the user
   * the certificate lookup yields: none gives 401, a non-admin 403, an admin
   * proceeds with that user authenticated.
   */
  method AuthThenRequireAdmin(dir: UserDirectory, header: Option<string>, mod: string) returns (o: Outcome)
    requires dir.Valid()
    modifies dir`cache
    ensures dir.Valid()
    ensures dir.cache == CacheAfterLookup(old(dir.cache), dir.store, CertField, CertOf(header))
    ensures var u := LookupResult(old(dir.cache), dir.store, CertField, CertOf(header));
      && (u.None? <==> o == Reply(401, NoAuthError))
      && (u.Some? && IsAdmin(u, mod) <==> o == Next(Locals(u, true)))
      && (u.Some? && !IsAdmin(u, mod) ==> o == Reply(403, DeniedMessage(u.value.shortname)))
  {
    o := Authenticate(dir, header, Anonymous);
    if o.Next? {
      o := RequireAdmin(mod, o.locals);
    }
  }
}
