/** Role normalisation and the authorisation predicates built on it. The
    session user is read from the store through a JSON parser supplied by
    the caller. */
module Auth {
  import opened Wrappers
  import opened Text
  import opened Js
  import opened Storage

  const ESTUDIANTE := "Estudiante"
  const ADMIN := "Admin"

  /** The session user as the login page stores it. Identifier, name and
      e-mail keep whatever JSON value the server or the token supplied. */
  datatype User = User(id: Value, name: Value, email: Value, role: string)

  /** Folds any role text into one of the two canonical roles. */
  function NormalizeRole(role: string): (r: string)
    ensures r == ADMIN || r == ESTUDIANTE
    ensures role == "" ==> r == ESTUDIANTE
  {
    if role == "" then ESTUDIANTE
    else
      var normalized := Capitalize(role);
      if normalized == ADMIN || normalized == ESTUDIANTE then normalized else ESTUDIANTE
  }

  /** Capitalising gives "Admin" exactly for the spellings of "admin". */
  lemma CapitalizeIsAdmin(role: string)
    ensures Capitalize(role) == ADMIN <==> ToLower(role) == "admin"
  {
    if |role| == 5 {
      var c := Capitalize(role);
      var l := ToLower(role);
      assert c[1..] == l[1..];
      if c == ADMIN {
        assert l == [l[0]] + c[1..];
        assert c[0] == UpperChar(role[0]) == 'A';
      }
      if l == "admin" {
        assert c == [c[0]] + l[1..];
        assert LowerChar(role[0]) == 'a';
      }
    }
  }

  /** A role normalises to "Admin" exactly when it is "admin" in any case;
      every other role, including the empty one, becomes "Estudiante". */
  lemma NormalizeRoleAdminIff(role: string)
    ensures NormalizeRole(role) == ADMIN <==> ToLower(role) == "admin"
    ensures NormalizeRole(role) == ESTUDIANTE <==> ToLower(role) != "admin"
  {
    CapitalizeIsAdmin(role);
  }

  /** Normalisation ignores letter case. */
  lemma NormalizeRoleCaseInsensitive(a: string, b: string)
    requires ToLower(a) == ToLower(b)
    ensures NormalizeRole(a) == NormalizeRole(b)
  {
    NormalizeRoleAdminIff(a);
    NormalizeRoleAdminIff(b);
  }

  /** Normalising twice is normalising once. */
  lemma NormalizeRoleIdempotent(role: string)
    ensures NormalizeRole(NormalizeRole(role)) == NormalizeRole(role)
  {
    var r := NormalizeRole(role);
    if r == ADMIN {
      assert Capitalize(r) == ADMIN;
    } else {
      assert Capitalize(r) == ESTUDIANTE;
    }
  }

  /** `hasRole(user, role)` */
  predicate HasRole(user: Option<User>, role: string) {
    user.Some? && NormalizeRole(user.value.role) == role
  }

  /** `isAdmin(user)` */
  predicate IsAdmin(user: Option<User>) {
    user.Some? && NormalizeRole(user.value.role) == ADMIN
  }

  /** `isEstudiante(user)` */
  predicate IsEstudiante(user: Option<User>) {
    user.Some? && NormalizeRole(user.value.role) == ESTUDIANTE
  }

  /** No user has no role; a user has exactly one of the two roles, and being
      an administrator is having the role "Admin". */
  lemma RolesExhaustive(user: Option<User>)
    ensures user.None? ==> !IsAdmin(user) && !IsEstudiante(user) && forall role :: !HasRole(user, role)
    ensures user.Some? ==> (IsAdmin(user) <==> !IsEstudiante(user))
    ensures IsAdmin(user) == HasRole(user, ADMIN) && IsEstudiante(user) == HasRole(user, ESTUDIANTE)
  {}

  /** A user is an administrator exactly when the stored role is "admin" in any case. */
  lemma IsAdminIff(user: User)
    ensures IsAdmin(Some(user)) <==> ToLower(user.role) == "admin"
  {
    NormalizeRoleAdminIff(user.role);
  }

  const PUBLIC_ROUTES: seq<string> := ["/dashboard", "/inventario", "/prestamos"]
  const ADMIN_ONLY_ROUTES: seq<string> := []

  /** `canAccessRoute(user, route)` */
  predicate CanAccessRoute(user: Option<User>, route: string) {
    if user.None? then false
    else if route in ADMIN_ONLY_ROUTES && !IsAdmin(user) then false
    else route in PUBLIC_ROUTES || route in ADMIN_ONLY_ROUTES
  }

  /** With no admin-only routes, access depends only on being logged in and
      on the route being one of the three public ones, never on the role. */
  lemma CanAccessRouteIff(user: Option<User>, route: string)
    ensures CanAccessRoute(user, route) <==> user.Some? && (route == "/dashboard" || route == "/inventario" || route == "/prestamos")
  {}

  /** `getToken()`: the stored token, `None` when absent. */
  function GetToken(items: map<string, string>): (r: Option<string>)
  {
    if TOKEN_KEY in items then Some(items[TOKEN_KEY]) else None
  }

  /** `getCurrentUser()`: an empty or missing entry is no user, and so is one
      the parser rejects. */
  function GetCurrentUser(items: map<string, string>, parse: string -> Option<User>): Option<User> {
    if USER_KEY !in items || items[USER_KEY] == "" then None else parse(items[USER_KEY])
  }

  /** `isAuthenticated()` */
  predicate IsAuthenticated(items: map<string, string>, parse: string -> Option<User>) {
    GetToken(items).Some? && GetCurrentUser(items, parse).Some?
  }

  /** Authenticated means: a token entry (even an empty one) and a non-empty
      user entry that parses. */
  lemma IsAuthenticatedIff(items: map<string, string>, parse: string -> Option<User>)
    ensures IsAuthenticated(items, parse) <==>
      TOKEN_KEY in items && USER_KEY in items && items[USER_KEY] != "" && parse(items[USER_KEY]).Some?
  {}

  /** After a logout or an authorisation-failure clear nobody is authenticated. */
  lemma ClearedSessionIsAnonymous(items: map<string, string>, parse: string -> Option<User>)
    ensures !IsAuthenticated(LoggedOut(items), parse)
    ensures !IsAuthenticated(SessionCleared(items), parse)
    ensures GetCurrentUser(LoggedOut(items), parse).None? && GetCurrentUser(SessionCleared(items), parse).None?
  {}
}
