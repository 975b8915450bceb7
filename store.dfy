/**
 * The relational store the three models share: the tables `Instrumento`,
 * `Asignacion_Instrumento` and `Movimiento_Inventario`, each keyed by its
 * AUTO_INCREMENT surrogate id.
 *
 * `DbState` is the value of the store at one moment; `Database` is the one
 * shared, mutable connection every model function writes through.
 */
module Store {
  import opened Wrappers

  /** A surrogate key (`id_instrumento`, `id_asignacion`, `id_movimiento`, `id_alumno`). */
  type Id = nat

  /** A SQL DATE, as a day number: DATE values compare chronologically. */
  type Date = int

  /** The lifecycle state column `Instrumento.estado`. */
  datatype Estado = Disponible | Asignado | Mantenimiento | DeBaja

  /** A row of `Instrumento`; the last three columns are NULL when the request leaves them out. */
  datatype Instrument = Instrument(
    nombre: string,
    categoria: string,
    numeroSerie: string,
    estado: Estado,
    fechaAdquisicion: Option<Date>,
    fotoUrl: Option<string>,
    ubicacion: Option<string>)

  /** A row of `Asignacion_Instrumento`; a NULL `fechaDevolucion` means the loan is still open. */
  datatype Assignment = Assignment(
    idInstrumento: Id,
    idAlumno: Id,
    fechaAsignacion: Date,
    fechaDevolucion: Option<Date>)

  /** A row of `Movimiento_Inventario`; `descripcion` and `responsable` may be NULL. */
  datatype Movement = Movement(
    idInstrumento: Id,
    tipoMovimiento: string,
    fechaMovimiento: Date,
    descripcion: Option<string>,
    responsable: Option<string>)

  /** The three tables and the next value of each AUTO_INCREMENT counter. */
  datatype DbState = DbState(
    instruments: map<Id, Instrument>,
    assignments: map<Id, Assignment>,
    movements: map<Id, Movement>,
    nextInstrumentId: Id,
    nextAssignmentId: Id,
    nextMovementId: Id)

  /** What one model operation does: the store afterwards and what its callback receives. */
  datatype Step<R> = Step(state: DbState, result: R)

  /** Every stored id was handed out by its table's counter, so the counter's value is unused. */
  ghost predicate WellFormed(s: DbState) {
    && (forall k :: k in s.instruments ==> k < s.nextInstrumentId)
    && (forall k :: k in s.assignments ==> k < s.nextAssignmentId)
    && (forall k :: k in s.movements ==> k < s.nextMovementId)
  }

  /** The store before any request: empty tables, every AUTO_INCREMENT counter at 1. */
  function Empty(): (s: DbState)
    ensures WellFormed(s)
    ensures s.instruments == map[] && s.assignments == map[] && s.movements == map[]
  {
    DbState(map[], map[], map[], 1, 1, 1)
  }

  /** An assignment whose return date is NULL. */
  predicate IsOpen(a: Assignment) {
    a.fechaDevolucion.None?
  }

  /**
   * `SELECT COUNT(*) FROM Asignacion_Instrumento WHERE id_instrumento = ? AND
   * fecha_devolucion IS NULL` is not zero.
   */
  predicate HasOpenAssignment(assignments: map<Id, Assignment>, idInstrumento: Id) {
    exists k | k in assignments :: assignments[k].idInstrumento == idInstrumento && IsOpen(assignments[k])
  }

  /** `m'` holds the same keys and rows as `m`, except possibly at key `k`. */
  ghost predicate AgreeExcept<V>(m: map<Id, V>, m': map<Id, V>, k: Id) {
    && (forall j :: j in m && j != k ==> j in m' && m'[j] == m[j])
    && (forall j :: j in m' && j != k ==> j in m)
  }

  /** The whole store written through one connection, as the models see it. */
  class Database {
    var instruments: map<Id, Instrument>
    var assignments: map<Id, Assignment>
    var movements: map<Id, Movement>
    var nextInstrumentId: Id
    var nextAssignmentId: Id
    var nextMovementId: Id

    /** The store as a value. */
    function State(): DbState
      reads this
    {
      DbState(instruments, assignments, movements, nextInstrumentId, nextAssignmentId, nextMovementId)
    }

    ghost predicate Valid()
      reads this
    {
      WellFormed(State())
    }

    /** Empty tables; AUTO_INCREMENT starts at 1. */
    constructor ()
      ensures Valid()
      ensures State() == Empty()
    {
      instruments, assignments, movements := map[], map[], map[];
      nextInstrumentId, nextAssignmentId, nextMovementId := 1, 1, 1;
    }
  }
}
