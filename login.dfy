/** The login page's submit handler: it calls the login endpoint, works out
    the user record from the answer (the `usuario` or `user` object, else
    the token's claims, else the form), and saves the session. */
module LoginPage {
  import opened Wrappers
  import opened Text
  import opened Js
  import opened Storage
  import opened Auth
  import Api

  const MS_ROLE_CLAIM := "http://schemas.microsoft.com/ws/2008/06/identity/claims/role"

  const NO_USER_INFO := "No se pudo obtener la información del usuario. Por favor, contacta al administrador."

  const DASHBOARD := "/dashboard"

  /** The role saved for a raw role value: a string has its first letter
      upper-cased and the rest lower-cased, anything else is `Estudiante`. */
  function RoleFrom(rawRole: Value): (r: string)
    ensures rawRole.Str? ==> r == Capitalize(rawRole.s) && |r| == |rawRole.s|
    ensures !rawRole.Str? ==> r == ESTUDIANTE
  {
    if rawRole.Str? then Capitalize(rawRole.s) else ESTUDIANTE
  }

  /** The record built from `response.usuario` or `response.user`, after the
      check that puts the form email back when the record's email is falsy. */
  function UserFromRecord(u: Value, email: string): User {
    var data := User(
      Or(Get(u, "id"), Num(0)),
      Or(Get(u, "nombre"), Str(LocalPart(email))),
      Or(Get(u, "email"), Str(email)),
      RoleFrom(Or(Get(u, "rol"), Str(ESTUDIANTE))));
    if !Truthy(data.email) then data.(email := Str(email)) else data
  }

  /** The record built from decoded token claims, trying the usual claim
      names in turn. */
  function UserFromClaims(claims: Value, email: string): User {
    User(
      FirstTruthy([Get(claims, "id"), Get(claims, "sub"), Get(claims, "userId"), Get(claims, "nameid")], Num(0)),
      FirstTruthy([Get(claims, "nombre"), Get(claims, "name"), Get(claims, "unique_name"), Get(claims, "given_name")], Str(LocalPart(email))),
      FirstTruthy([Get(claims, "email"), Get(claims, "unique_name"), Get(claims, "upn")], Str(email)),
      RoleFrom(FirstTruthy([Get(claims, "rol"), Get(claims, "role"), Get(claims, MS_ROLE_CLAIM)], Str(ESTUDIANTE))))
  }

  /** Claim aliases are tried in order, skipping falsy values: the id is
      `id`, else `sub`, else `userId`, else `nameid`, else 0; the email is
      `email`, else `unique_name`, else `upn`, else the form email. */
  lemma ClaimsPrecedence(claims: Value, email: string)
    ensures var u := UserFromClaims(claims, email);
      (Truthy(Get(claims, "id")) ==> u.id == Get(claims, "id"))
      && (!Truthy(Get(claims, "id")) && Truthy(Get(claims, "sub")) ==> u.id == Get(claims, "sub"))
      && (!Truthy(Get(claims, "id")) && !Truthy(Get(claims, "sub")) && Truthy(Get(claims, "userId")) ==>
            u.id == Get(claims, "userId"))
      && (!Truthy(Get(claims, "id")) && !Truthy(Get(claims, "sub")) && !Truthy(Get(claims, "userId")) ==>
            u.id == Or(Get(claims, "nameid"), Num(0)))
      && (Truthy(Get(claims, "email")) ==> u.email == Get(claims, "email"))
      && (!Truthy(Get(claims, "email")) && Truthy(Get(claims, "unique_name")) ==> u.email == Get(claims, "unique_name"))
      && (!Truthy(Get(claims, "email")) && !Truthy(Get(claims, "unique_name")) ==>
            u.email == Or(Get(claims, "upn"), Str(email)))
  {
    var id, sub, userId, nameid := Get(claims, "id"), Get(claims, "sub"), Get(claims, "userId"), Get(claims, "nameid");
    var ids := [id, sub, userId, nameid];
    assert ids[1..] == [sub, userId, nameid] && ids[1..][1..] == [userId, nameid] && ids[1..][1..][1..] == [nameid];
    assert FirstTruthy(ids[1..][1..][1..], Num(0)) == Or(nameid, Num(0));
    assert FirstTruthy(ids[1..][1..], Num(0)) == Or(userId, Or(nameid, Num(0)));
    assert FirstTruthy(ids[1..], Num(0)) == Or(sub, Or(userId, Or(nameid, Num(0))));
    assert FirstTruthy(ids, Num(0)) == Or(id, Or(sub, Or(userId, Or(nameid, Num(0)))));
    var mail, uniqueName, upn := Get(claims, "email"), Get(claims, "unique_name"), Get(claims, "upn");
    var emails := [mail, uniqueName, upn];
    assert emails[1..] == [uniqueName, upn] && emails[1..][1..] == [upn];
    assert FirstTruthy(emails[1..][1..], Str(email)) == Or(upn, Str(email));
    assert FirstTruthy(emails[1..], Str(email)) == Or(uniqueName, Or(upn, Str(email)));
    assert FirstTruthy(emails, Str(email)) == Or(mail, Or(uniqueName, Or(upn, Str(email))));
  }

  /** The record used when the token cannot be decoded. */
  function FallbackUser(email: string): User {
    User(Num(0), Str(LocalPart(email)), Str(email), ESTUDIANTE)
  }

  /** The base64url-to-base64 step: `-` becomes `+` and `_` becomes `/`. */
  function Base64UrlToBase64(s: string): (r: string)
    ensures |r| == |s|
  {
    ReplaceAll(ReplaceAll(s, '-', '+'), '_', '/')
  }

  /** The conversion maps `-` to `+` and `_` to `/`, character by character,
      and keeps every other character. */
  lemma Base64UrlToBase64At(s: string)
    ensures forall i :: 0 <= i < |s| ==>
      Base64UrlToBase64(s)[i] == (if s[i] == '-' then '+' else if s[i] == '_' then '/' else s[i])
  {
    ReplaceAllAt(s, '-', '+');
    ReplaceAllAt(ReplaceAll(s, '-', '+'), '_', '/');
  }

  /** The converted payload holds neither `-` nor `_`, and converting it
      again changes nothing. */
  lemma Base64UrlToBase64Clean(s: string)
    ensures '-' !in Base64UrlToBase64(s) && '_' !in Base64UrlToBase64(s)
    ensures Base64UrlToBase64(Base64UrlToBase64(s)) == Base64UrlToBase64(s)
  {
    var r := Base64UrlToBase64(s);
    Base64UrlToBase64At(s);
    Base64UrlToBase64At(r);
    forall i | 0 <= i < |r| ensures r[i] != '-' && r[i] != '_' {}
  }

  /** `decodeJWT(token)`: the second dot-separated segment, converted to
      base64 and decoded; anything that throws gives `None`. The decoding
      proper (`atob`, percent-decoding, `JSON.parse`) is a parameter. */
  function DecodeJwt(token: Value, decodePayload: string -> Option<Value>): Option<Value> {
    if !token.Str? then None
    else
      var segments := Split(token.s, '.');
      if |segments| < 2 then None else decodePayload(Base64UrlToBase64(segments[1]))
  }

  /** The user record the handler settles on for a login answer. */
  function ResolveUser(response: Value, email: string, decodePayload: string -> Option<Value>): User {
    if Truthy(Get(response, "usuario")) then UserFromRecord(Get(response, "usuario"), email)
    else if Truthy(Get(response, "user")) then UserFromRecord(Get(response, "user"), email)
    else
      var decoded := DecodeJwt(Get(response, "token"), decodePayload);
      if decoded.Some? && Truthy(decoded.value) then UserFromClaims(decoded.value, email)
      else FallbackUser(email)
  }

  /** A present `usuario` object is the only source of the record: the
      token is not decoded, whatever the decoder would say. */
  lemma UsuarioTakesPrecedence(response: Value, email: string, d1: string -> Option<Value>, d2: string -> Option<Value>)
    requires Truthy(Get(response, "usuario"))
    ensures ResolveUser(response, email, d1) == ResolveUser(response, email, d2) == UserFromRecord(Get(response, "usuario"), email)
  {}

  /** With no `usuario` but a `user` object, the record comes from `user`
      with the same mapping. */
  lemma UserObjectUsedSecond(response: Value, email: string, d: string -> Option<Value>)
    requires !Truthy(Get(response, "usuario")) && Truthy(Get(response, "user"))
    ensures ResolveUser(response, email, d) == UserFromRecord(Get(response, "user"), email)
  {}

  /** When neither object is present and the token does not decode to a
      truthy value, the record is built from the form alone. */
  lemma FallbackWhenUndecodable(response: Value, email: string, d: string -> Option<Value>)
    requires !Truthy(Get(response, "usuario")) && !Truthy(Get(response, "user"))
    requires DecodeJwt(Get(response, "token"), d).None? || !Truthy(DecodeJwt(Get(response, "token"), d).value)
    ensures ResolveUser(response, email, d) == User(Num(0), Str(Split(email, '@')[0]), Str(email), "Estudiante")
  {}

  /** A token without a dot is never handed to the decoder. */
  lemma TokenWithoutDot(token: string, d: string -> Option<Value>)
    requires '.' !in token
    ensures DecodeJwt(Str(token), d) == None
  {
    SplitJoin([token], '.');
  }

  /** A missing role becomes `Estudiante`; a role string is re-cased. */
  lemma RoleDefaults(raw: Value)
    ensures !Truthy(raw) ==> RoleFrom(Or(raw, Str(ESTUDIANTE))) == ESTUDIANTE
    ensures raw.Str? && raw.s != "" ==> RoleFrom(Or(raw, Str(ESTUDIANTE))) == Capitalize(raw.s)
  {
    if !Truthy(raw) {
      assert Capitalize(ESTUDIANTE) == [UpperChar('E')] + ToLower(ESTUDIANTE[1..]);
      assert ToLower(ESTUDIANTE[1..]) == ESTUDIANTE[1..];
    }
  }

  /** Roles are not restricted to the two known ones: `profesor` is saved as
      `Profesor`. */
  lemma UnknownRoleKept()
    ensures RoleFrom(Str("profesor")) == "Profesor"
  {
    assert ToLower("rofesor") == "rofesor";
  }

  /** The re-cased role means the same to the role checks as the raw one. */
  lemma RoleFromNormalizes(r: string)
    ensures NormalizeRole(RoleFrom(Str(r))) == NormalizeRole(r)
  {
    LowerOfCapitalize(r);
    NormalizeRoleCaseInsensitive(Capitalize(r), r);
  }

  lemma {:induction false} LowerOfCapitalize(s: string)
    ensures ToLower(Capitalize(s)) == ToLower(s)
  {
    if s != [] {
      var c := Capitalize(s);
      assert c[0] == UpperChar(s[0]);
      assert LowerChar(UpperChar(s[0])) == LowerChar(s[0]);
      forall i | 1 <= i < |s| ensures ToLower(c)[i] == ToLower(s)[i] {
        assert c[i] == LowerChar(s[i]);
        LowerCharIdempotent(s[i]);
      }
    }
  }

  /** The email check after the record is built can never change it: the
      record's email already falls back to the form email. */
  lemma EmailPatchIsNoOp(u: Value, email: string)
    ensures var data := User(Or(Get(u, "id"), Num(0)), Or(Get(u, "nombre"), Str(LocalPart(email))),
                             Or(Get(u, "email"), Str(email)), RoleFrom(Or(Get(u, "rol"), Str(ESTUDIANTE))));
      UserFromRecord(u, email) == data
  {}

  /** A non-empty form email always yields a record with a truthy email, so
      the final check only rejects an empty form email. */
  lemma EmailAlwaysTruthy(response: Value, email: string, d: string -> Option<Value>)
    requires email != ""
    ensures Truthy(ResolveUser(response, email, d).email)
  {
    var decoded := DecodeJwt(Get(response, "token"), d);
    if !Truthy(Get(response, "usuario")) && !Truthy(Get(response, "user")) && decoded.Some? && Truthy(decoded.value) {
      var c := decoded.value;
      var alternatives := [Get(c, "email"), Get(c, "unique_name"), Get(c, "upn")];
      FirstTruthyTruthy(alternatives, Str(email));
    }
  }

  lemma {:induction false} FirstTruthyTruthy(alternatives: seq<Value>, fallback: Value)
    requires Truthy(fallback)
    ensures Truthy(FirstTruthy(alternatives, fallback))
  {
    if alternatives != [] {
      FirstTruthyTruthy(alternatives[1..], fallback);
    }
  }

  /** The store after a successful login: the token and the serialised user
      are written, and the flag only when "remember me" is ticked. */
  function SavedSession(items: map<string, string>, token: string, user: string, rememberMe: bool): map<string, string> {
    var written := items[TOKEN_KEY := token][USER_KEY := user];
    if rememberMe then written[REMEMBER_KEY := "true"] else written
  }

  /** A successful login sets exactly the token and the user (and the flag
      when asked); an unticked box leaves an earlier flag in place. */
  lemma SavedSessionSpec(items: map<string, string>, token: string, user: string, rememberMe: bool)
    ensures var after := SavedSession(items, token, user, rememberMe);
      && after[TOKEN_KEY] == token && after[USER_KEY] == user
      && (rememberMe ==> after[REMEMBER_KEY] == "true")
      && (!rememberMe ==>
            (REMEMBER_KEY in after <==> REMEMBER_KEY in items)
            && (REMEMBER_KEY in items ==> after[REMEMBER_KEY] == items[REMEMBER_KEY]))
      && forall k :: k != TOKEN_KEY && k != USER_KEY && k != REMEMBER_KEY ==>
            (k in after <==> k in items) && (k in after ==> after[k] == items[k])
  {}

  /** `handleSubmit`: returns the error shown, or `None` after saving the
      session and moving to the dashboard. `login` is the outcome of the
      login call; `serialize` stands for `JSON.stringify`. */
  method HandleSubmit(store: LocalStorage, email: string, rememberMe: bool,
                      login: Result<Value, string>, decodePayload: string -> Option<Value>, serialize: User -> string)
    returns (error: Option<string>, redirectTo: Option<string>)
    modifies store
    ensures login.Failure? ==> error == Some(login.error) && redirectTo == None && store.items == old(store.items)
    ensures login.Success? && (!Truthy(login.value) || !Truthy(Get(login.value, "token"))) ==>
      error == Some(Api.INVALID_RESPONSE) && redirectTo == None && store.items == old(store.items)
    ensures login.Success? && Truthy(login.value) && Truthy(Get(login.value, "token")) ==>
      var user := ResolveUser(login.value, email, decodePayload);
      if !Truthy(user.email) then
        error == Some(NO_USER_INFO) && redirectTo == None && store.items == old(store.items)
      else
        error == None && redirectTo == Some(DASHBOARD)
        && store.items == SavedSession(old(store.items), ToText(Get(login.value, "token")), serialize(user), rememberMe)
  {
    if login.Failure? {
      return Some(login.error), None;
    }
    var response := login.value;
    if !Truthy(response) || !Truthy(Get(response, "token")) {
      return Some(Api.INVALID_RESPONSE), None;
    }
    var usuarioData: User;
    if Truthy(Get(response, "usuario")) {
      var u := Get(response, "usuario");
      usuarioData := User(Or(Get(u, "id"), Num(0)), Or(Get(u, "nombre"), Str(LocalPart(email))),
                          Or(Get(u, "email"), Str(email)), RoleFrom(Or(Get(u, "rol"), Str(ESTUDIANTE))));
      if !Truthy(usuarioData.email) {
        usuarioData := usuarioData.(email := Str(email));
      }
    } else if Truthy(Get(response, "user")) {
      var u := Get(response, "user");
      usuarioData := User(Or(Get(u, "id"), Num(0)), Or(Get(u, "nombre"), Str(LocalPart(email))),
                          Or(Get(u, "email"), Str(email)), RoleFrom(Or(Get(u, "rol"), Str(ESTUDIANTE))));
      if !Truthy(usuarioData.email) {
        usuarioData := usuarioData.(email := Str(email));
      }
    } else {
      var decoded := DecodeJwt(Get(response, "token"), decodePayload);
      if decoded.Some? && Truthy(decoded.value) {
        usuarioData := UserFromClaims(decoded.value, email);
      } else {
        usuarioData := FallbackUser(email);
      }
    }
    if !Truthy(usuarioData.email) {
      return Some(NO_USER_INFO), None;
    }
    store.SetItem(TOKEN_KEY, ToText(Get(response, "token")));
    store.SetItem(USER_KEY, serialize(usuarioData));
    if rememberMe {
      store.SetItem(REMEMBER_KEY, "true");
    }
    error, redirectTo := None, Some(DASHBOARD);
  }
}
