/** The dashboard page: the entry check on the stored user, the counters
    computed from the items and the loans, and the two role tests on the
    page (the title and the quick actions). */
module DashboardPage {
  import opened Wrappers
  import opened Text
  import opened Seqs
  import opened Domain
  import opened Storage
  import opened Auth

  // ---------------------------------------------------------------------
  // Entering the page

  /** What `JSON.parse` makes of the stored text: it throws (`Failure`),
      or yields `null` (`Success(None)`), or yields a user record. */
  type UserParser = string -> Result<Option<User>, string>

  /** The same parser seen through `getCurrentUser`, which turns a throw
      into `null`. */
  function Leido(parse: UserParser): string -> Option<User> {
    (s: string) => if parse(s).Success? then parse(s).value else None
  }

  /** What the page does when it mounts: go to the login page, or set the
      parsed user (possibly `null`) and load the counters. A stored value
      on which `JSON.parse` throws stops the page before the counters are
      loaded. */
  datatype Entrada = RedirigirLogin | Cargar(user: Option<User>) | SinCargar

  function EntradaOf(items: map<string, string>, parse: UserParser): Entrada {
    if USER_KEY !in items || items[USER_KEY] == "" then RedirigirLogin
    else match parse(items[USER_KEY])
      case Success(u) => Cargar(u)
      case Failure(_) => SinCargar
  }

  /** The page sends the visitor to the login page exactly when no
      non-empty user is stored; it loads the counters exactly when the
      stored text parses, even to `null`, and then shows the user
      `getCurrentUser` reads from the same storage. Whenever
      `getCurrentUser` finds a user, the counters are loaded. */
  lemma EntradaSpec(items: map<string, string>, parse: UserParser)
    ensures EntradaOf(items, parse) == RedirigirLogin <==> USER_KEY !in items || items[USER_KEY] == ""
    ensures EntradaOf(items, parse).Cargar? <==>
      USER_KEY in items && items[USER_KEY] != "" && parse(items[USER_KEY]).Success?
    ensures EntradaOf(items, parse).Cargar? ==> GetCurrentUser(items, Leido(parse)) == EntradaOf(items, parse).user
    ensures GetCurrentUser(items, Leido(parse)).Some? ==> EntradaOf(items, parse).Cargar?
  {}

  /** After a logout the page always sends the visitor to the login page. */
  lemma LoggedOutRedirects(items: map<string, string>, parse: UserParser)
    ensures EntradaOf(LoggedOut(items), parse) == RedirigirLogin
  {}

  // ---------------------------------------------------------------------
  // The counters

  datatype Stats = Stats(totalImplementos: nat, enPrestamo: nat, disponibles: nat, prestamosActivos: nat)

  function Prestado(imp: Implemento): bool { imp.estado == PRESTADO }
  function Disponible(imp: Implemento): bool { imp.estado == DISPONIBLE }
  function Activo(p: Prestamo): bool { p.estado == ACTIVO }

  /** The counters `loadStats` computes. */
  function StatsOf(implementos: seq<Implemento>, prestamos: seq<Prestamo>): Stats {
    Stats(|implementos|, Count(implementos, Prestado), Count(implementos, Disponible), Count(prestamos, Activo))
  }

  /** Lent and available items together never exceed the items listed, and
      the active-loans counter never exceeds the loans listed. */
  lemma StatsBounds(implementos: seq<Implemento>, prestamos: seq<Prestamo>)
    ensures var st := StatsOf(implementos, prestamos);
      st.enPrestamo + st.disponibles <= st.totalImplementos
      && st.enPrestamo <= st.totalImplementos && st.disponibles <= st.totalImplementos
      && st.prestamosActivos <= |prestamos|
  {
    CountDisjoint(implementos, Prestado, Disponible);
  }

  /** The states of the loans, in order. */
  function Estados(prestamos: seq<Prestamo>): (r: seq<string>)
    ensures |r| == |prestamos|
    ensures forall i :: 0 <= i < |r| ==> r[i] == prestamos[i].estado
  {
    if prestamos == [] then [] else [prestamos[0].estado] + Estados(prestamos[1..])
  }

  /** The active-loans counter is the number of times `Activo` occurs among
      the loans' states. */
  lemma {:induction false} ActivosCount(prestamos: seq<Prestamo>)
    ensures StatsOf([], prestamos).prestamosActivos == multiset(Estados(prestamos))[ACTIVO]
  {
    if prestamos != [] {
      ActivosCount(prestamos[1..]);
      assert Estados(prestamos) == [prestamos[0].estado] + Estados(prestamos[1..]);
      assert Filter(prestamos, Activo) == (if Activo(prestamos[0]) then [prestamos[0]] else []) + Filter(prestamos[1..], Activo);
    }
  }

  /** The page's state: the counters and the loading flag. */
  class Dashboard {
    var stats: Stats
    var loading: bool

    constructor ()
      ensures stats == Stats(0, 0, 0, 0) && loading
    {
      stats := Stats(0, 0, 0, 0);
      loading := true;
    }

    /** `loadStats`, given what the two list calls returned: on success the
        counters are replaced by those of the lists, on failure they are
        kept (the error is only logged); either way loading ends. */
    method LoadStats(fetched: Result<(seq<Implemento>, seq<Prestamo>), string>)
      modifies this
      ensures fetched.Success? ==> stats == StatsOf(fetched.value.0, fetched.value.1)
      ensures fetched.Failure? ==> stats == old(stats)
      ensures !loading
    {
      loading := true;
      if fetched.Success? {
        var implementos := fetched.value.0;
        var prestamos := fetched.value.1;
        var totalImplementos := |implementos|;
        var enPrestamo := Count(implementos, Prestado);
        var disponibles := Count(implementos, Disponible);
        var prestamosActivos := Count(prestamos, Activo);
        stats := Stats(totalImplementos, enPrestamo, disponibles, prestamosActivos);
      }
      loading := false;
    }
  }

  // ---------------------------------------------------------------------
  // The two role tests

  /** The title uses the normalising `isAdmin`. */
  function Titulo(user: User): string {
    if IsAdmin(Some(user)) then "Dashboard de Administración" else "Mi Dashboard"
  }

  /** The quick actions compare the stored role with `Admin` as it is. */
  function AccionesRapidas(user: User): (r: seq<string>)
    ensures |r| == 2 || |r| == 4
  {
    ["/inventario", "/prestamos"] + (if user.role == ADMIN then ["/reportes", "/configuracion"] else [])
  }

  /** Whoever gets the administrator's quick actions also gets the
      administrator's title, but not the other way round: a role stored as,
      say, `admin` gives the administrator's title and only the two common
      actions. */
  lemma RoleTestsDisagree(user: User)
    ensures |AccionesRapidas(user)| == 4 ==> Titulo(user) == "Dashboard de Administración"
    ensures |AccionesRapidas(user)| == 4 <==> user.role == ADMIN
    ensures Titulo(user) == "Dashboard de Administración" && user.role != ADMIN ==> |AccionesRapidas(user)| == 2
    ensures Titulo(user.(role := "admin")) == "Dashboard de Administración" && |AccionesRapidas(user.(role := "admin"))| == 2
  {
    IsAdminIff(user);
    IsAdminIff(user.(role := "admin"));
    assert ToLower("Admin") == "admin";
    assert ToLower("admin") == "admin";
  }
}
