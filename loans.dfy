/** The loans page: the list filter by state, its colours, which endpoint
    loads the loans, the days-remaining indicator, and the create-loan
    dialog with its searches, selections and submit validation. */
module LoansPage {
  import opened Wrappers
  import opened Text
  import opened Seqs
  import opened Domain
  import opened Auth
  import Api

  // ---------------------------------------------------------------------
  // The list

  function HasEstado(estado: string): Prestamo -> bool {
    (p: Prestamo) => p.estado == estado
  }

  /** `filteredPrestamos` */
  function FilteredPrestamos(prestamos: seq<Prestamo>, filterEstado: string): seq<Prestamo> {
    if filterEstado == TODOS then prestamos else Filter(prestamos, HasEstado(filterEstado))
  }

  /** `Todos` shows every loan; any other filter shows exactly the loans in
      that state, in their order. */
  lemma FilteredPrestamosSpec(prestamos: seq<Prestamo>, filterEstado: string)
    ensures filterEstado == TODOS ==> FilteredPrestamos(prestamos, filterEstado) == prestamos
    ensures filterEstado != TODOS ==>
      FilteredPrestamos(prestamos, filterEstado) == Filter(prestamos, HasEstado(filterEstado))
      && forall p :: p in FilteredPrestamos(prestamos, filterEstado) <==> p in prestamos && p.estado == filterEstado
  {
    if filterEstado != TODOS {
      forall p ensures p in FilteredPrestamos(prestamos, filterEstado) <==> p in prestamos && p.estado == filterEstado {
        FilterMembership(prestamos, HasEstado(filterEstado), p);
      }
    }
  }

  const GREEN := "bg-green-100 text-green-800"
  const GRAY := "bg-gray-100 text-gray-800"
  const RED := "bg-red-100 text-red-800"

  /** `getEstadoColor` */
  function EstadoColor(estado: string): string {
    if estado == ACTIVO then GREEN
    else if estado == DEVUELTO then GRAY
    else if estado == RETRASADO then RED
    else GRAY
  }

  /** Active loans are green, late ones red, and every other state,
      returned or unknown, gray. */
  lemma EstadoColorSpec(estado: string)
    ensures EstadoColor(estado) == GREEN <==> estado == ACTIVO
    ensures EstadoColor(estado) == RED <==> estado == RETRASADO
    ensures EstadoColor(estado) == GRAY <==> estado != ACTIVO && estado != RETRASADO
  {}

  /** `loadPrestamos`: an administrator loads every loan, anyone else only
      their own. */
  function LoanSource(user: Option<User>): Api.Call {
    if IsAdmin(user) then Api.GetTodos else Api.GetMisPrestamos
  }

  lemma LoanSourceSpec(user: Option<User>)
    ensures LoanSource(user) == Api.GetTodos <==> user.Some? && ToLower(user.value.role) == "admin"
    ensures user.None? ==> LoanSource(user) == Api.GetMisPrestamos
  {
    if user.Some? {
      IsAdminIff(user.value);
    }
  }

  // ---------------------------------------------------------------------
  // Days remaining

  const MS_PER_DAY := 1000 * 60 * 60 * 24

  /** `Math.ceil((due - now) / (1000 * 60 * 60 * 24))` on millisecond
      timestamps. */
  function DiasRestantes(due: int, now: int): (r: int)
    ensures (r - 1) * MS_PER_DAY < due - now <= r * MS_PER_DAY
  {
    -((now - due) / MS_PER_DAY)
  }

  /** The indicator of an active or late loan: late by some days, due within
      three days, or comfortably ahead. A due date that does not parse
      compares as `NaN`, fails both tests and lands in the last case. */
  datatype Plazo = Vencido(atraso: nat) | PorVencer(restan: int) | AlDia(faltan: Option<int>)

  function PlazoOf(due: Option<int>, now: int): Plazo {
    match due
    case None => AlDia(None)
    case Some(d) =>
      var dias := DiasRestantes(d, now);
      if dias < 0 then Vencido(-dias)
      else if dias <= 3 then PorVencer(dias)
      else AlDia(Some(dias))
  }

  /** A loan is late exactly when at least one whole day has passed since its
      due time, and then by the number of whole days passed; it is about to
      fall due when the due time is less than a day past or at most three
      days ahead; otherwise it is more than three days ahead. */
  lemma PlazoSpec(due: int, now: int)
    ensures PlazoOf(Some(due), now).Vencido? <==> now - due >= MS_PER_DAY
    ensures PlazoOf(Some(due), now).Vencido? ==> PlazoOf(Some(due), now).atraso == (now - due) / MS_PER_DAY
    ensures PlazoOf(Some(due), now).PorVencer? <==> -MS_PER_DAY < due - now <= 3 * MS_PER_DAY
    ensures PlazoOf(Some(due), now).AlDia? <==> due - now > 3 * MS_PER_DAY
  {
    var r := DiasRestantes(due, now);
    if r < 0 {
      assert r * MS_PER_DAY <= -MS_PER_DAY;
    }
  }

  /** The indicator is shown only for active and late loans. */
  function Indicador(p: Prestamo, now: int): Option<Plazo> {
    if p.estado == ACTIVO || p.estado == RETRASADO then Some(PlazoOf(p.fechaDevolucionProgramada, now)) else None
  }

  /** The indicator's text. */
  function PlazoTexto(plazo: Plazo): string {
    match plazo
    case Vencido(n) => AVISO + "Retrasado por " + IntToString(n) + " día(s)"
    case PorVencer(n) => AVISO + "Vence en " + IntToString(n) + " día(s)"
    case AlDia(Some(n)) => CORRECTO + "Vence en " + IntToString(n) + " día(s)"
    case AlDia(None) => CORRECTO + "Vence en NaN día(s)"
  }

  /** The indicator is present exactly for active and late loans, and then
      classifies the raw due time against now. */
  lemma IndicadorSpec(p: Prestamo, now: int)
    ensures Indicador(p, now).Some? <==> p.estado == ACTIVO || p.estado == RETRASADO
    ensures Indicador(p, now).Some? ==> Indicador(p, now).value == PlazoOf(p.fechaDevolucionProgramada, now)
    ensures Indicador(p, now).Some? && p.fechaDevolucionProgramada.Some? ==>
      (Indicador(p, now).value.Vencido? <==> now - p.fechaDevolucionProgramada.value >= MS_PER_DAY)
    ensures Indicador(p, now).Some? && p.fechaDevolucionProgramada.None? ==> Indicador(p, now).value == AlDia(None)
  {
    if p.fechaDevolucionProgramada.Some? {
      PlazoSpec(p.fechaDevolucionProgramada.value, now);
    }
  }

  const AVISO := "\U{26A0}\U{FE0F} "
  const CORRECTO := "\U{2713} "

  /** The text for a due time, in terms of the rounded-up day count: a late
      loan shows how many days it is late (`Math.abs`), a loan due within
      three days is flagged with the warning sign, any other is marked on
      time, and an unparseable date reads `NaN`. The warning sign is shown
      exactly when the due time is at most three days ahead. */
  lemma PlazoTextoSpec(due: Option<int>, now: int)
    ensures due.None? ==> PlazoTexto(PlazoOf(due, now)) == CORRECTO + "Vence en NaN día(s)"
    ensures due.Some? && DiasRestantes(due.value, now) < 0 ==>
      PlazoTexto(PlazoOf(due, now)) == AVISO + "Retrasado por " + IntToString(-DiasRestantes(due.value, now)) + " día(s)"
    ensures due.Some? && 0 <= DiasRestantes(due.value, now) <= 3 ==>
      PlazoTexto(PlazoOf(due, now)) == AVISO + "Vence en " + IntToString(DiasRestantes(due.value, now)) + " día(s)"
    ensures due.Some? && DiasRestantes(due.value, now) > 3 ==>
      PlazoTexto(PlazoOf(due, now)) == CORRECTO + "Vence en " + IntToString(DiasRestantes(due.value, now)) + " día(s)"
    ensures PlazoTexto(PlazoOf(due, now))[0] == AVISO[0] <==> due.Some? && due.value - now <= 3 * MS_PER_DAY
  {
    if due.Some? {
      PlazoSpec(due.value, now);
    }
  }

  // ---------------------------------------------------------------------
  // The create-loan dialog

  const SELECT_USER := "Por favor, selecciona un usuario de la lista"
  const SELECT_ITEM := "Por favor, selecciona un implemento de la lista"

  /** `loadImplementos` keeps only the available items. */
  function Disponibles(implementos: seq<Implemento>): (r: seq<Implemento>)
    ensures forall i :: 0 <= i < |r| ==> r[i].estado == DISPONIBLE
  {
    Filter(implementos, (imp: Implemento) => imp.estado == DISPONIBLE)
  }

  /** The user search runs from two non-blank characters on. */
  predicate ShouldSearchUsers(busqueda: string) {
    |Trim(busqueda)| >= 2
  }

  /** The item search runs from one non-blank character on. */
  predicate ShouldFilterImplementos(busqueda: string) {
    |Trim(busqueda)| >= 1
  }

  /** The user search of the dialog applies the same match as
      `usuariosAPI.buscar` to the outcome of `usuariosAPI.getAll`; the
      result list opens when it is non-empty. */
  function BuscarUsuarios(todos: Result<seq<Usuario>, string>, termino: string): (seq<Usuario>, bool) {
    var resultados := Api.Buscar(todos, termino);
    (resultados, |resultados| > 0)
  }

  /** The effect run when the user box changes: search from two non-blank
      characters on, otherwise clear and close the results. */
  function UserSearch(todos: Result<seq<Usuario>, string>, busqueda: string): (seq<Usuario>, bool) {
    if ShouldSearchUsers(busqueda) then BuscarUsuarios(todos, busqueda) else ([], false)
  }

  /** The result list is open exactly when the term is long enough and some
      listed user matches it; it then holds exactly the matching users, and a
      failed listing closes it. */
  lemma UserSearchSpec(todos: Result<seq<Usuario>, string>, busqueda: string)
    ensures UserSearch(todos, busqueda).1 <==> UserSearch(todos, busqueda).0 != []
    ensures !ShouldSearchUsers(busqueda) || todos.Failure? ==> UserSearch(todos, busqueda) == ([], false)
    ensures ShouldSearchUsers(busqueda) && todos.Success? ==>
      forall u :: u in UserSearch(todos, busqueda).0 <==> u in todos.value && Api.Coincide(u, busqueda)
  {
    Api.BuscarSpec(todos, busqueda);
  }

  predicate ImplementoCoincide(imp: Implemento, terminoLower: string) {
    Contains(ToLower(imp.nombre), terminoLower)
      || Contains(ToLower(imp.codigo), terminoLower)
      || Contains(ToLower(imp.categoria), terminoLower)
  }

  /** `getImplementosFiltrados`: nothing for a blank term, else the items
      whose lower-cased name, code or category contains the lower-cased
      (untrimmed) term. */
  function ImplementosFiltrados(implementos: seq<Implemento>, busqueda: string): seq<Implemento> {
    if |Trim(busqueda)| == 0 then []
    else Filter(implementos, (imp: Implemento) => ImplementoCoincide(imp, ToLower(busqueda)))
  }

  /** The effect run when the item box changes (`filtrarImplementos`):
      whether the item list opens. */
  function ImplementoSearchOpen(implementos: seq<Implemento>, busqueda: string): bool {
    if ShouldFilterImplementos(busqueda) then
      |Filter(implementos, (imp: Implemento) => ImplementoCoincide(imp, ToLower(busqueda)))| > 0
    else false
  }

  /** The item list opens exactly when `getImplementosFiltrados` has
      something to show. */
  lemma ImplementoSearchOpenIff(implementos: seq<Implemento>, busqueda: string)
    ensures ImplementoSearchOpen(implementos, busqueda) <==> ImplementosFiltrados(implementos, busqueda) != []
  {}

  /** A blank term gives no items, and otherwise exactly the matching
      available items are offered, all of them available. */
  lemma ImplementosFiltradosSpec(implementos: seq<Implemento>, busqueda: string)
    ensures (forall i :: 0 <= i < |busqueda| ==> IsSpace(busqueda[i])) ==>
      ImplementosFiltrados(Disponibles(implementos), busqueda) == []
    ensures forall imp :: imp in ImplementosFiltrados(Disponibles(implementos), busqueda) <==>
      imp in implementos && imp.estado == DISPONIBLE && |Trim(busqueda)| > 0 && ImplementoCoincide(imp, ToLower(busqueda))
  {
    TrimEmptyIff(busqueda);
    var disponibles := Disponibles(implementos);
    forall imp ensures imp in ImplementosFiltrados(disponibles, busqueda) <==>
      imp in implementos && imp.estado == DISPONIBLE && |Trim(busqueda)| > 0 && ImplementoCoincide(imp, ToLower(busqueda))
    {
      FilterMembership(implementos, (imp: Implemento) => imp.estado == DISPONIBLE, imp);
      FilterMembership(disponibles, (imp: Implemento) => ImplementoCoincide(imp, ToLower(busqueda)), imp);
    }
  }

  /** The request `prestamosAPI.registrar` receives; an id that does not
      parse is `None`. The two dates come from the clock and the date input
      and are given as text. */
  datatype RegistroPrestamo = RegistroPrestamo(
    usuarioId: Option<int>,
    implementoId: Option<int>,
    fechaDevolucionProgramada: string,
    fechaPrestamo: string)

  /** The dialog's form state. */
  class CreatePrestamoForm {
    var usuarioId: string
    var usuarioSeleccionado: Option<Usuario>
    var implementoId: string
    var implementoSeleccionado: Option<Implemento>
    var fechaDevolucionProgramada: string
    var busquedaUsuario: string
    var busquedaImplemento: string
    var mostrarResultadosUsuario: bool
    var mostrarResultadosImplemento: bool
    var error: string

    /** An id is filled in exactly when a record is selected, and it is that
        record's id as text. */
    ghost predicate Valid()
      reads this
    {
      && (usuarioSeleccionado.Some? <==> usuarioId != "")
      && (usuarioSeleccionado.Some? ==> usuarioId == IntToString(usuarioSeleccionado.value.id))
      && (implementoSeleccionado.Some? <==> implementoId != "")
      && (implementoSeleccionado.Some? ==> implementoId == IntToString(implementoSeleccionado.value.id))
    }

    constructor ()
      ensures Valid()
      ensures usuarioId == "" && usuarioSeleccionado == None && implementoId == "" && implementoSeleccionado == None
      ensures fechaDevolucionProgramada == "" && busquedaUsuario == "" && busquedaImplemento == ""
      ensures !mostrarResultadosUsuario && !mostrarResultadosImplemento && error == ""
    {
      usuarioId, usuarioSeleccionado := "", None;
      implementoId, implementoSeleccionado := "", None;
      fechaDevolucionProgramada := "";
      busquedaUsuario, busquedaImplemento := "", "";
      mostrarResultadosUsuario, mostrarResultadosImplemento := false, false;
      error := "";
    }

    /** `seleccionarUsuario`: records the user and its id, shows it in the
      search box and closes the results; nothing else changes. */
    method SeleccionarUsuario(u: Usuario)
      requires Valid()
      modifies this
      ensures Valid()
      ensures usuarioId == IntToString(u.id) && usuarioSeleccionado == Some(u)
      ensures busquedaUsuario == u.nombre + " (" + u.email + ")" && !mostrarResultadosUsuario
      ensures implementoId == old(implementoId) && implementoSeleccionado == old(implementoSeleccionado)
      ensures fechaDevolucionProgramada == old(fechaDevolucionProgramada)
      ensures busquedaImplemento == old(busquedaImplemento) && mostrarResultadosImplemento == old(mostrarResultadosImplemento)
      ensures error == old(error)
    {
      usuarioId := IntToString(u.id);
      usuarioSeleccionado := Some(u);
      busquedaUsuario := u.nombre + " (" + u.email + ")";
      mostrarResultadosUsuario := false;
    }

    /** `seleccionarImplemento`, the same for the item. */
    method SeleccionarImplemento(imp: Implemento)
      requires Valid()
      modifies this
      ensures Valid()
      ensures implementoId == IntToString(imp.id) && implementoSeleccionado == Some(imp)
      ensures busquedaImplemento == imp.nombre + " - " + imp.codigo && !mostrarResultadosImplemento
      ensures usuarioId == old(usuarioId) && usuarioSeleccionado == old(usuarioSeleccionado)
      ensures fechaDevolucionProgramada == old(fechaDevolucionProgramada)
      ensures busquedaUsuario == old(busquedaUsuario) && mostrarResultadosUsuario == old(mostrarResultadosUsuario)
      ensures error == old(error)
    {
      implementoId := IntToString(imp.id);
      implementoSeleccionado := Some(imp);
      busquedaImplemento := imp.nombre + " - " + imp.codigo;
      mostrarResultadosImplemento := false;
    }

    /** Typing in the user box; emptying it drops the selected user. */
    method CambiarBusquedaUsuario(value: string)
      requires Valid()
      modifies this
      ensures Valid()
      ensures busquedaUsuario == value
      ensures value == "" ==> usuarioId == "" && usuarioSeleccionado == None
      ensures value != "" ==> usuarioId == old(usuarioId) && usuarioSeleccionado == old(usuarioSeleccionado)
      ensures implementoId == old(implementoId) && implementoSeleccionado == old(implementoSeleccionado)
      ensures busquedaImplemento == old(busquedaImplemento) && error == old(error)
      ensures fechaDevolucionProgramada == old(fechaDevolucionProgramada)
      ensures mostrarResultadosUsuario == old(mostrarResultadosUsuario)
      ensures mostrarResultadosImplemento == old(mostrarResultadosImplemento)
    {
      busquedaUsuario := value;
      if value == "" {
        usuarioId, usuarioSeleccionado := "", None;
      }
    }

    /** Typing in the item box; emptying it drops the selected item. */
    method CambiarBusquedaImplemento(value: string)
      requires Valid()
      modifies this
      ensures Valid()
      ensures busquedaImplemento == value
      ensures value == "" ==> implementoId == "" && implementoSeleccionado == None
      ensures value != "" ==> implementoId == old(implementoId) && implementoSeleccionado == old(implementoSeleccionado)
      ensures usuarioId == old(usuarioId) && usuarioSeleccionado == old(usuarioSeleccionado)
      ensures busquedaUsuario == old(busquedaUsuario) && error == old(error)
      ensures fechaDevolucionProgramada == old(fechaDevolucionProgramada)
      ensures mostrarResultadosUsuario == old(mostrarResultadosUsuario)
      ensures mostrarResultadosImplemento == old(mostrarResultadosImplemento)
    {
      busquedaImplemento := value;
      if value == "" {
        implementoId, implementoSeleccionado := "", None;
      }
    }

    /** `handleSubmit`: without a selected user, or else without a selected
      item, it sets that error and sends nothing; otherwise it clears the
      error and sends the selected ids, read back from their text. */
    method HandleSubmit(fechaISO: string, fechaPrestamoUTC: string) returns (request: Option<RegistroPrestamo>)
      requires Valid()
      modifies this
      ensures Valid()
      ensures usuarioSeleccionado.None? ==> error == SELECT_USER && request == None
      ensures usuarioSeleccionado.Some? && implementoSeleccionado.None? ==> error == SELECT_ITEM && request == None
      ensures usuarioSeleccionado.Some? && implementoSeleccionado.Some? ==>
        error == "" && request == Some(RegistroPrestamo(
          Some(usuarioSeleccionado.value.id), Some(implementoSeleccionado.value.id), fechaISO, fechaPrestamoUTC))
      ensures usuarioId == old(usuarioId) && usuarioSeleccionado == old(usuarioSeleccionado)
      ensures implementoId == old(implementoId) && implementoSeleccionado == old(implementoSeleccionado)
      ensures fechaDevolucionProgramada == old(fechaDevolucionProgramada)
      ensures busquedaUsuario == old(busquedaUsuario) && busquedaImplemento == old(busquedaImplemento)
      ensures mostrarResultadosUsuario == old(mostrarResultadosUsuario)
      ensures mostrarResultadosImplemento == old(mostrarResultadosImplemento)
    {
      error := "";
      if usuarioId == "" || usuarioSeleccionado.None? {
        error := SELECT_USER;
        return None;
      }
      if implementoId == "" || implementoSeleccionado.None? {
        error := SELECT_ITEM;
        return None;
      }
      IntToStringRoundTrip(usuarioSeleccionado.value.id);
      IntToStringRoundTrip(implementoSeleccionado.value.id);
      request := Some(RegistroPrestamo(ParseInt(usuarioId), ParseInt(implementoId), fechaISO, fechaPrestamoUTC));
    }
  }
}
