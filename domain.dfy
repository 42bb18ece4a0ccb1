/** The records the remote API returns (equipment items, loans, users) and
    the status strings the console compares them against. */
module Domain {
  import opened Wrappers

  const DISPONIBLE := "Disponible"
  const PRESTADO := "Prestado"
  const MANTENIMIENTO := "Mantenimiento"

  const ACTIVO := "Activo"
  const DEVUELTO := "Devuelto"
  const RETRASADO := "Retrasado"

  /** The filter value that shows every record. */
  const TODOS := "Todos"

  /** The three equipment states the API declares. */
  predicate IsImplementoEstado(estado: string) {
    estado == DISPONIBLE || estado == PRESTADO || estado == MANTENIMIENTO
  }

  /** The three loan states the API declares. */
  predicate IsPrestamoEstado(estado: string) {
    estado == ACTIVO || estado == DEVUELTO || estado == RETRASADO
  }

  /** A registered user as the user endpoints return it. */
  datatype Usuario = Usuario(id: nat, nombre: string, email: string, rol: string)

  /** An equipment item. `estado` is kept as the string the API sent. */
  datatype Implemento = Implemento(
    id: nat,
    codigo: string,
    nombre: string,
    categoria: string,
    descripcion: string,
    imagenUrl: string,
    estado: string)

  type MonthIndex = m: int | 0 <= m < 12

  /** A loan date as the browser's `Date` reads it in local time: its year and
      its month (0 for January), or an unparsable date. */
  datatype Fecha = Fecha(year: int, monthIndex: MonthIndex) | InvalidDate

  /** A loan. The scheduled return date is kept as its timestamp in
      milliseconds, `None` when the date string does not parse. */
  datatype Prestamo = Prestamo(
    id: nat,
    usuarioId: nat,
    implementoId: nat,
    fechaPrestamo: Fecha,
    fechaDevolucionProgramada: Option<int>,
    estado: string,
    implemento: Implemento)
}
