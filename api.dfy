/** The client of the remote REST API: request headers, the authenticated
    fetch that clears the session on 401, the login and registration calls
    with their error messages, the authenticated endpoints and the user
    search. The network itself is a function from request to response. */
module Api {
  import opened Wrappers
  import opened Text
  import opened Seqs
  import opened Js
  import opened Domain
  import opened Storage
  import Auth

  const API_BASE_URL := "https://unistock-api.azurewebsites.net"

  const AUTHORIZATION := "Authorization"
  const CONTENT_TYPE := "Content-Type"
  const APPLICATION_JSON := "application/json"

  const SESSION_EXPIRED := "Sesión expirada. Por favor, inicia sesión nuevamente."

  /** Stand-ins for the messages of errors the JavaScript engine raises
      itself: a rejected `response.json()` and a second read of a consumed
      body (or a property read on `null`). */
  const SYNTAX_ERROR := "SyntaxError"
  const TYPE_ERROR := "TypeError"

  /** A value appended to a `FormData`. */
  datatype FormValue = Text(text: string) | File(fileName: string)

  /** A request body: none, a value sent as `JSON.stringify(value)`, or a
      `FormData` with its fields in append order. */
  datatype Body = NoBody | Json(value: Value) | Form(fields: seq<(string, FormValue)>)

  datatype Request = Request(url: string, httpMethod: string, headers: map<string, string>, body: Body)

  /** What the server answers: the status, the `content-type` header when
      present, and the body text. */
  datatype Response = Response(status: int, contentType: Option<string>, body: string)

  /** `response.ok` */
  predicate Ok(response: Response) {
    200 <= response.status <= 299
  }

  /** `contentType && contentType.includes('application/json')` */
  predicate IsJson(response: Response) {
    response.contentType.Some? && Contains(response.contentType.value, APPLICATION_JSON)
  }

  // ---------------------------------------------------------------------
  // fetchWithAuth

  /** The headers `fetchWithAuth` sends: the caller's, then the bearer token
      when one is stored and non-empty, then the JSON content type unless the
      body is a `FormData`. */
  function Headers(callerHeaders: map<string, string>, token: Option<string>, body: Body): map<string, string> {
    var withToken := if token.Some? && token.value != "" then callerHeaders[AUTHORIZATION := "Bearer " + token.value] else callerHeaders;
    if body.Form? then withToken else withToken[CONTENT_TYPE := APPLICATION_JSON]
  }

  /** `Authorization` is `Bearer <token>` exactly when a non-empty token is
      stored, otherwise the caller's own; `Content-Type` is JSON exactly when
      the body is not a `FormData`, otherwise the caller's own; every other
      header is the caller's. */
  lemma HeadersSpec(callerHeaders: map<string, string>, token: Option<string>, body: Body)
    ensures var h := Headers(callerHeaders, token, body);
      && (token.Some? && token.value != "" ==> AUTHORIZATION in h && h[AUTHORIZATION] == "Bearer " + token.value)
      && (!(token.Some? && token.value != "") ==>
            (AUTHORIZATION in h <==> AUTHORIZATION in callerHeaders)
            && (AUTHORIZATION in h ==> h[AUTHORIZATION] == callerHeaders[AUTHORIZATION]))
      && (!body.Form? ==> CONTENT_TYPE in h && h[CONTENT_TYPE] == APPLICATION_JSON)
      && (body.Form? ==>
            (CONTENT_TYPE in h <==> CONTENT_TYPE in callerHeaders)
            && (CONTENT_TYPE in h ==> h[CONTENT_TYPE] == callerHeaders[CONTENT_TYPE]))
      && (forall k :: k != AUTHORIZATION && k != CONTENT_TYPE ==>
            (k in h <==> k in callerHeaders) && (k in h ==> h[k] == callerHeaders[k]))
  {}

  /** The header dictionary, built by successive assignments. */
  method BuildHeaders(callerHeaders: map<string, string>, token: Option<string>, body: Body) returns (headers: map<string, string>)
    ensures headers == Headers(callerHeaders, token, body)
  {
    headers := callerHeaders;
    if token.Some? && token.value != "" {
      headers := headers[AUTHORIZATION := "Bearer " + token.value];
    }
    if !body.Form? {
      headers := headers[CONTENT_TYPE := APPLICATION_JSON];
    }
  }

  /** `fetchWithAuth(url, options)`: sends the request to the API with the
      stored token. A 401 answer removes the token and the user, asks for
      the login page and fails with the session-expired message; any other
      answer is returned unchanged and the store is untouched. */
  method FetchWithAuth(store: LocalStorage, url: string, httpMethod: string, callerHeaders: map<string, string>,
                       body: Body, server: Request -> Response)
    returns (request: Request, redirectToLogin: bool, result: Result<Response, string>)
    modifies store
    ensures request == Request(API_BASE_URL + url, httpMethod, Headers(callerHeaders, old(store.GetItem(TOKEN_KEY)), body), body)
    ensures server(request).status == 401 ==>
      store.items == SessionCleared(old(store.items)) && redirectToLogin && result == Failure(SESSION_EXPIRED)
    ensures server(request).status != 401 ==>
      store.items == old(store.items) && !redirectToLogin && result == Success(server(request))
  {
    var token := store.GetItem(TOKEN_KEY);
    var headers := BuildHeaders(callerHeaders, token, body);
    request := Request(API_BASE_URL + url, httpMethod, headers, body);
    var response := server(request);
    if response.status == 401 {
      store.RemoveItem(TOKEN_KEY);
      store.RemoveItem(USER_KEY);
      redirectToLogin := true;
      result := Failure(SESSION_EXPIRED);
    } else {
      redirectToLogin := false;
      result := Success(response);
    }
  }

  // ---------------------------------------------------------------------
  // authAPI.login

  const LOGIN_ERROR := "Error al iniciar sesión"
  const INVALID_RESPONSE := "Respuesta inválida del servidor"
  const NO_TOKEN := "La respuesta del servidor no contiene un token válido"

  /** The message of the error `login` throws for a failed response: the
      JSON body's `message || title || default`, or the text body, or the
      default. */
  function LoginErrorMessage(response: Response, parseJson: string -> Option<Value>): string {
    if IsJson(response) then
      match parseJson(response.body)
      case None => TYPE_ERROR
      case Some(data) =>
        if data.Null? || data.Undefined? then TYPE_ERROR
        else ToText(FirstTruthy([Get(data, "message"), Get(data, "title")], Str(LOGIN_ERROR)))
    else if response.body != "" then response.body
    else LOGIN_ERROR
  }

  /** `authAPI.login`: the parsed body when the answer is successful and
      carries a truthy `token`, otherwise the error it throws. */
  function Login(response: Response, parseJson: string -> Option<Value>): (r: Result<Value, string>) {
    if !Ok(response) then Failure(LoginErrorMessage(response, parseJson))
    else match parseJson(response.body)
      case None => Failure(if IsJson(response) then SYNTAX_ERROR else INVALID_RESPONSE)
      case Some(data) =>
        if !Truthy(data) || !Truthy(Get(data, "token")) then Failure(NO_TOKEN)
        else Success(data)
  }

  /** A login succeeds exactly when the answer is successful and its body
      parses to a value with a truthy token, and then yields that value. */
  lemma LoginSucceedsIff(response: Response, parseJson: string -> Option<Value>)
    ensures Login(response, parseJson).Success? <==>
      Ok(response) && parseJson(response.body).Some? && Truthy(Get(parseJson(response.body).value, "token"))
    ensures Login(response, parseJson).Success? ==> Login(response, parseJson).value == parseJson(response.body).value
    ensures Ok(response) && parseJson(response.body).Some? && !Truthy(Get(parseJson(response.body).value, "token")) ==>
      Login(response, parseJson) == Failure(NO_TOKEN)
    ensures Ok(response) && !IsJson(response) && parseJson(response.body).None? ==>
      Login(response, parseJson) == Failure(INVALID_RESPONSE)
  {}

  /** For a JSON error body that is an object, the message is its `message`,
      else its `title`, else the default, skipping falsy values; a failed
      text answer reports its text, or the default when it is empty. */
  lemma LoginErrorPrecedence(response: Response, parseJson: string -> Option<Value>)
    requires !Ok(response)
    ensures IsJson(response) && parseJson(response.body).Some? && parseJson(response.body).value.Obj? ==>
      var data := parseJson(response.body).value;
      Login(response, parseJson) == Failure(
        if Truthy(Get(data, "message")) then ToText(Get(data, "message"))
        else if Truthy(Get(data, "title")) then ToText(Get(data, "title"))
        else LOGIN_ERROR)
    ensures !IsJson(response) ==>
      Login(response, parseJson) == Failure(if response.body != "" then response.body else LOGIN_ERROR)
  {
    if IsJson(response) && parseJson(response.body).Some? && parseJson(response.body).value.Obj? {
      var data := parseJson(response.body).value;
      var alternatives := [Get(data, "message"), Get(data, "title")];
      assert alternatives[1..] == [Get(data, "title")];
      assert alternatives[1..][1..] == [];
      assert FirstTruthy(alternatives[1..][1..], Str(LOGIN_ERROR)) == Str(LOGIN_ERROR);
      assert FirstTruthy(alternatives[1..], Str(LOGIN_ERROR)) == Or(Get(data, "title"), Str(LOGIN_ERROR));
    }
  }

  // ---------------------------------------------------------------------
  // authAPI.registro

  const REGISTRO_ERROR := "Error al registrar usuario"
  const REGISTRO_OK := "Usuario registrado exitosamente"

  /** The body of the registration request; the role defaults to
      `Estudiante` when the caller gives none. */
  function RegistroBody(nombre: string, email: string, password: string, rol: Option<string>): Value {
    Obj([("nombre", Str(nombre)), ("email", Str(email)), ("PasswordHash", Str(password)),
         ("rol", Str(if rol.Some? then rol.value else Auth.ESTUDIANTE))])
  }

  /** The registration body sends the password under `PasswordHash` and
      never under `password`, and the role is `Estudiante` unless the caller
      names one. */
  lemma RegistroBodyFields(nombre: string, email: string, password: string, rol: Option<string>)
    ensures var v := RegistroBody(nombre, email, password, rol);
      && Get(v, "PasswordHash") == Str(password) && Get(v, "password") == Undefined
      && Get(v, "rol") == Str(if rol.Some? then rol.value else Auth.ESTUDIANTE)
      && Get(v, "nombre") == Str(nombre) && Get(v, "email") == Str(email)
  {
    var es := RegistroBody(nombre, email, password, rol).entries;
    assert es[0].0[0] == 'n' && es[1].0[0] == 'e' && es[2].0[0] == 'P' && es[3].0[0] == 'r';
    LookupFirst(es, "nombre", 0);
    LookupFirst(es, "email", 1);
    LookupFirst(es, "PasswordHash", 2);
    LookupFirst(es, "rol", 3);
    assert "password"[0] == 'p';
    LookupMissing(es, "password");
  }

  /** `msgArray.join(', ')` where a non-array value is wrapped in an array. */
  function MessagesText(messages: Value): string {
    if messages.Arr? then Join(seq(|messages.items|, i requires 0 <= i < |messages.items| => ElementText(messages.items[i])), ", ")
    else ElementText(messages)
  }

  /** `${field}: ${msgArray.join(', ')}` */
  function ErrorLine(entry: (string, Value)): string {
    entry.0 + ": " + MessagesText(entry.1)
  }

  /** The validation-error lines joined by newlines. */
  function ErrorDetails(errors: Value): string {
    var entries := Entries(errors);
    Join(seq(|entries|, i requires 0 <= i < |entries| => ErrorLine(entries[i])), "\n")
  }

  /** The message of the error `registro` throws for a failed response. */
  function RegistroErrorMessage(response: Response, parseJson: string -> Option<Value>): string {
    if IsJson(response) then
      match parseJson(response.body)
      case None => TYPE_ERROR
      case Some(data) =>
        if data.Null? || data.Undefined? then TYPE_ERROR
        else if Truthy(Get(data, "errors")) then
          ToText(FirstTruthy([Str(ErrorDetails(Get(data, "errors"))), Get(data, "title")], Str(REGISTRO_ERROR)))
        else if Truthy(Get(data, "message")) then ToText(Get(data, "message"))
        else if data.Str? then data.s
        else REGISTRO_ERROR
    else if response.body != "" then response.body
    else REGISTRO_ERROR
  }

  /** `authAPI.registro`: the parsed JSON answer, or `{message: text}` for a
      text answer, or the error it throws. */
  function Registro(response: Response, parseJson: string -> Option<Value>): (r: Result<Value, string>)
    ensures r.Success? <==> Ok(response) && (IsJson(response) ==> parseJson(response.body).Some?)
    ensures r.Success? && !IsJson(response) ==>
      Get(r.value, "message") == Str(if response.body != "" then response.body else REGISTRO_OK)
  {
    if !Ok(response) then Failure(RegistroErrorMessage(response, parseJson))
    else if IsJson(response) then
      match parseJson(response.body)
      case None => Failure(SYNTAX_ERROR)
      case Some(data) => Success(data)
    else Success(Obj([("message", Str(if response.body != "" then response.body else REGISTRO_OK))]))
  }

  /** An object of validation errors whose fields and messages hold no line
      break is reported one line per field, in order, each line being the
      field, a colon and its messages joined by commas. */
  lemma {:induction false} ErrorDetailsLines(errors: Value)
    requires errors.Obj? && errors.entries != []
    requires forall i :: 0 <= i < |errors.entries| ==>
      '\n' !in errors.entries[i].0 && '\n' !in MessagesText(errors.entries[i].1)
    ensures var lines := Split(ErrorDetails(errors), '\n');
      && |lines| == |errors.entries|
      && forall i :: 0 <= i < |lines| ==> lines[i] == errors.entries[i].0 + ": " + MessagesText(errors.entries[i].1)
  {
    var entries := errors.entries;
    var lines := seq(|entries|, i requires 0 <= i < |entries| => ErrorLine(entries[i]));
    forall p | p in lines ensures '\n' !in p {
      var i :| 0 <= i < |lines| && lines[i] == p;
      assert p == entries[i].0 + ": " + MessagesText(entries[i].1);
    }
    SplitJoin(lines, '\n');
  }

  /** A single message that is not an array is shown as it is. */
  lemma SingleMessage(field: string, message: Value)
    requires !message.Arr?
    ensures ErrorLine((field, message)) == field + ": " + ElementText(message)
  {}

  // ---------------------------------------------------------------------
  // Authenticated endpoints

  /** The calls made through `fetchWithAuth`. */
  datatype Call =
    | GetImplementos
    | CreateImplemento(form: seq<(string, FormValue)>)
    | UpdateImplemento(id: nat, form: seq<(string, FormValue)>)
    | DeleteImplemento(id: nat)
    | GetUsuarios
    | GetUsuario(id: nat)
    | UpdateUsuario(id: nat, usuario: Value)
    | DeleteUsuario(id: nat)
    | RegistrarPrestamo(request: Value)
    | Devolucion(id: nat)
    | GetMisPrestamos
    | GetTodos

  /** The path, the HTTP method and the body of each call. */
  function Endpoint(call: Call): (string, string, Body) {
    match call
    case GetImplementos => ("/api/Implementos", "GET", NoBody)
    case CreateImplemento(form) => ("/api/Implementos", "POST", Form(form))
    case UpdateImplemento(id, form) => ("/api/Implementos/" + IntToString(id), "PUT", Form(form))
    case DeleteImplemento(id) => ("/api/Implementos/" + IntToString(id), "DELETE", NoBody)
    case GetUsuarios => ("/api/Auth/usuarios", "GET", NoBody)
    case GetUsuario(id) => ("/api/Auth/usuarios/" + IntToString(id), "GET", NoBody)
    case UpdateUsuario(id, usuario) => ("/api/Auth/usuarios/" + IntToString(id), "PUT", Json(usuario))
    case DeleteUsuario(id) => ("/api/Auth/usuarios/" + IntToString(id), "DELETE", NoBody)
    case RegistrarPrestamo(request) => ("/api/Prestamos/registrar", "POST", Json(request))
    case Devolucion(id) => ("/api/Prestamos/devolucion/" + IntToString(id), "PUT", NoBody)
    case GetMisPrestamos => ("/api/Prestamos/mis-prestamos", "GET", NoBody)
    case GetTodos => ("/api/Prestamos/todos", "GET", NoBody)
  }

  /** The message thrown for an answer that is not `ok`: a fixed one for the
      reads, the answer's text or a default for the writes. */
  function FailureMessage(call: Call, response: Response): string {
    match call
    case GetImplementos => "Error al obtener implementos"
    case GetUsuarios => "Error al obtener usuarios"
    case GetUsuario(_) => "Error al obtener usuario"
    case GetMisPrestamos => "Error al obtener préstamos"
    case GetTodos => "Error al obtener préstamos"
    case _ =>
      if response.body != "" then response.body
      else match call
        case CreateImplemento(_) => "Error al crear implemento"
        case UpdateImplemento(_, _) => "Error al actualizar implemento"
        case DeleteImplemento(_) => "Error al eliminar implemento"
        case UpdateUsuario(_, _) => "Error al actualizar usuario"
        case DeleteUsuario(_) => "Error al eliminar usuario"
        case RegistrarPrestamo(_) => "Error al registrar préstamo"
        case _ => "Error al registrar devolución"
  }

  /** The calls that end with `return response.json()`. */
  predicate ReturnsJson(call: Call) {
    call.GetImplementos? || call.CreateImplemento? || call.UpdateImplemento?
      || call.GetUsuarios? || call.GetUsuario? || call.GetMisPrestamos? || call.GetTodos?
  }

  /** The outcome of a call given what `fetchWithAuth` produced: its own
      failure, the failure message of a non-`ok` answer, or else what the
      call returns — the parsed JSON body (a body that does not parse
      rejects), nothing for the item deletion, the body text for the other
      writes. */
  function CallOutcome(call: Call, fetched: Result<Response, string>, parseJson: string -> Option<Value>): Result<Value, string> {
    match fetched
    case Failure(e) => Failure(e)
    case Success(response) =>
      if !Ok(response) then Failure(FailureMessage(call, response))
      else if ReturnsJson(call) then
        match parseJson(response.body)
        case None => Failure(SYNTAX_ERROR)
        case Some(data) => Success(data)
      else if call.DeleteImplemento? then Success(Undefined)
      else Success(Str(response.body))
  }

  /** Every call fails with a non-empty message; a call succeeds exactly
      when the fetch went through with an `ok` answer whose body, for a JSON
      call, parses; it then yields the parsed body, or the body text for the
      writes that return text. An `ok` answer that does not parse rejects
      with a syntax error. */
  lemma CallOutcomeSpec(call: Call, fetched: Result<Response, string>, parseJson: string -> Option<Value>)
    requires fetched.Failure? ==> fetched.error != ""
    ensures CallOutcome(call, fetched, parseJson).Failure? ==> CallOutcome(call, fetched, parseJson).error != ""
    ensures CallOutcome(call, fetched, parseJson).Success? <==>
      fetched.Success? && Ok(fetched.value) && (ReturnsJson(call) ==> parseJson(fetched.value.body).Some?)
    ensures CallOutcome(call, fetched, parseJson).Success? && ReturnsJson(call) ==>
      CallOutcome(call, fetched, parseJson).value == parseJson(fetched.value.body).value
    ensures CallOutcome(call, fetched, parseJson).Success? && !ReturnsJson(call) && !call.DeleteImplemento? ==>
      CallOutcome(call, fetched, parseJson).value == Str(fetched.value.body)
    ensures fetched.Success? && Ok(fetched.value) && ReturnsJson(call) && parseJson(fetched.value.body).None? ==>
      CallOutcome(call, fetched, parseJson) == Failure(SYNTAX_ERROR)
  {}

  /** The item path is the four segments joined by slashes. */
  lemma ItemPathJoin(digits: string)
    ensures Join(["", "api", "Implementos", digits], "/") == "/api/Implementos/" + digits
  {
    var parts := ["", "api", "Implementos", digits];
    assert parts[1..] == ["api", "Implementos", digits];
    assert parts[1..][1..] == ["Implementos", digits];
    assert parts[1..][1..][1..] == [digits];
    assert Join([digits], "/") == digits;
    var tail := Join(parts[1..][1..], "/");
    assert tail == "Implementos" + "/" + Join([digits], "/");
    assert Join(parts[1..], "/") == "api" + "/" + tail;
    assert Join(parts, "/") == "" + "/" + ("api" + "/" + tail);
    assert "/api/Implementos/" == "" + "/" + ("api" + "/" + ("Implementos" + "/"));
  }

  /** The id in an item path reads back as the item's id. */
  lemma {:induction false} EndpointIdRoundTrip(id: nat)
    ensures var path := Endpoint(DeleteImplemento(id)).0;
      Split(path, '/') == ["", "api", "Implementos", IntToString(id)]
      && ParseInt(Split(path, '/')[3]) == Some(id)
  {
    var path := Endpoint(DeleteImplemento(id)).0;
    var digits := IntToString(id);
    assert forall i :: 0 <= i < |digits| ==> IsDigit(digits[i]);
    var parts := ["", "api", "Implementos", digits];
    ItemPathJoin(digits);
    assert Join(parts, "/") == path;
    SplitJoin(parts, '/');
    IntToStringRoundTrip(id);
  }

  /** Different items are addressed by different paths: the delete (and
      update) request for one id never reaches another item. */
  lemma {:induction false} ItemPathsDistinct(id1: nat, id2: nat)
    ensures Endpoint(DeleteImplemento(id1)).0 == Endpoint(DeleteImplemento(id2)).0 <==> id1 == id2
  {
    EndpointIdRoundTrip(id1);
    EndpointIdRoundTrip(id2);
  }

  // ---------------------------------------------------------------------
  // usuariosAPI.buscar

  /** The user's id contains the term, or the lower-cased name or email
      contains the lower-cased term. */
  predicate Coincide(u: Usuario, termino: string) {
    Contains(IntToString(u.id), termino)
      || Contains(ToLower(u.nombre), ToLower(termino))
      || Contains(ToLower(u.email), ToLower(termino))
  }

  /** `usuariosAPI.buscar(termino)` given the outcome of `getAll`: the matching
      users in their order, none when `getAll` failed. */
  function Buscar(todos: Result<seq<Usuario>, string>, termino: string): (r: seq<Usuario>) {
    if todos.Failure? then [] else Filter(todos.value, (u: Usuario) => Coincide(u, termino))
  }

  /** The search returns exactly the matching users, in their order; a failed
      listing gives no user. */
  lemma BuscarSpec(todos: Result<seq<Usuario>, string>, termino: string)
    ensures todos.Failure? ==> Buscar(todos, termino) == []
    ensures todos.Success? ==> |Buscar(todos, termino)| <= |todos.value|
    ensures todos.Success? ==> forall u :: u in Buscar(todos, termino) <==> u in todos.value && Coincide(u, termino)
  {
    if todos.Success? {
      forall u ensures u in Buscar(todos, termino) <==> u in todos.value && Coincide(u, termino) {
        FilterMembership(todos.value, (u: Usuario) => Coincide(u, termino), u);
      }
    }
  }

  /** The empty term matches every user. */
  lemma BuscarEmptyTerm(usuarios: seq<Usuario>)
    ensures Buscar(Success(usuarios), "") == usuarios
  {
    forall i | 0 <= i < |usuarios| ensures Coincide(usuarios[i], "") {
      assert IsPrefix("", IntToString(usuarios[i].id));
    }
    FilterKeepsAll(usuarios, (u: Usuario) => Coincide(u, ""));
  }

  /** The search keeps the order of the listing: searching a concatenation
      is searching each part, and one user is returned exactly when it
      matches. */
  lemma BuscarConcat(a: seq<Usuario>, b: seq<Usuario>, termino: string)
    ensures Buscar(Success(a + b), termino) == Buscar(Success(a), termino) + Buscar(Success(b), termino)
  {
    FilterConcat(a, b, (u: Usuario) => Coincide(u, termino));
  }

  lemma BuscarSingle(u: Usuario, termino: string)
    ensures Buscar(Success([u]), termino) == if Coincide(u, termino) then [u] else []
  {}

  /** Terms equal up to the case of letters match the same users: names and
      emails are compared lower-cased, and a term found in an id is all
      digits, so it is the only term with its lower-case form. */
  lemma CoincideCaseInsensitive(u: Usuario, a: string, b: string)
    requires ToLower(a) == ToLower(b)
    ensures Coincide(u, a) == Coincide(u, b)
  {
    var digits := IntToString(u.id);
    assert digits == NatToString(u.id);
    if Contains(digits, a) {
      ContainsDigits(digits, a);
      ToLowerDigits(a, b);
    }
    if Contains(digits, b) {
      ContainsDigits(digits, b);
      ToLowerDigits(b, a);
    }
  }

  /** The search ignores the case of letters in the term. */
  lemma BuscarCaseInsensitive(usuarios: seq<Usuario>, a: string, b: string)
    requires ToLower(a) == ToLower(b)
    ensures Buscar(Success(usuarios), a) == Buscar(Success(usuarios), b)
  {
    forall i | 0 <= i < |usuarios| ensures Coincide(usuarios[i], a) == Coincide(usuarios[i], b) {
      CoincideCaseInsensitive(usuarios[i], a, b);
    }
    FilterSameTest(usuarios, (u: Usuario) => Coincide(u, a), (u: Usuario) => Coincide(u, b));
  }
}
