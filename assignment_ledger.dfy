/**
 * The assignment ledger: loans of an instrument to a student in
 * `Asignacion_Instrumento`, and the writes to `Instrumento.estado` each
 * ledger operation makes as a side effect.
 */
module AssignmentLedger {
  import opened Wrappers
  import opened Store

  /** The callback of `create`: the new row's id, or the "not available" error. */
  datatype CheckoutResult = Assigned(insertId: Id) | NotAvailable

  /** The instrument can be checked out: its row exists and its `estado` is exactly `Disponible`. */
  predicate Available(s: DbState, idInstrumento: Id) {
    idInstrumento in s.instruments && s.instruments[idInstrumento].estado == Disponible
  }

  /**
   * `create`: fails, with nothing written, unless the instrument is
   * available; otherwise inserts exactly one assignment row (even one whose
   * return date is already set) and marks the instrument `Asignado`.
   */
  function CreateEffect(s: DbState, idInstrumento: Id, idAlumno: Id, fechaAsignacion: Date,
                        fechaDevolucion: Option<Date>): (r: Step<CheckoutResult>)
    requires WellFormed(s)
    ensures WellFormed(r.state)
    ensures r.result.NotAvailable? <==> !Available(s, idInstrumento)
    ensures r.result.NotAvailable? ==> r.state == s
    ensures r.result.Assigned? ==>
      && r.result.insertId !in s.assignments
      && r.state.assignments == s.assignments[r.result.insertId := Assignment(idInstrumento, idAlumno, fechaAsignacion, fechaDevolucion)]
      && idInstrumento in r.state.instruments
      && r.state.instruments[idInstrumento] == s.instruments[idInstrumento].(estado := Asignado)
      && r.state.instruments.Keys == s.instruments.Keys
      && AgreeExcept(s.instruments, r.state.instruments, idInstrumento)
    ensures r.state.(instruments := s.instruments, assignments := s.assignments, nextAssignmentId := s.nextAssignmentId) == s
  {
    if !Available(s, idInstrumento) then
      Step(s, NotAvailable)
    else
      var id := s.nextAssignmentId;
      var row := s.instruments[idInstrumento];
      Step(s.(assignments := s.assignments[id := Assignment(idInstrumento, idAlumno, fechaAsignacion, fechaDevolucion)],
              nextAssignmentId := id + 1,
              instruments := s.instruments[idInstrumento := row.(estado := Asignado)]),
           Assigned(id))
  }

  /**
   * `update`: replaces the four columns of the named row (0 affected rows and
   * no change for a missing id) and leaves every instrument's `estado` alone,
   * even when the instrument or the return date changes.
   */
  function UpdateEffect(s: DbState, id: Id, idInstrumento: Id, idAlumno: Id, fechaAsignacion: Date,
                        fechaDevolucion: Option<Date>): (r: Step<nat>)
    ensures r.result <= 1
    ensures r.result == 0 <==> id !in s.assignments
    ensures r.result == 0 ==> r.state == s
    ensures r.result == 1 ==>
      id in r.state.assignments && r.state.assignments[id] == Assignment(idInstrumento, idAlumno, fechaAsignacion, fechaDevolucion)
    ensures r.state.assignments.Keys == s.assignments.Keys
    ensures AgreeExcept(s.assignments, r.state.assignments, id)
    ensures r.state.instruments == s.instruments && r.state.movements == s.movements
    ensures r.state.(assignments := s.assignments) == s
  {
    if id in s.assignments then
      Step(s.(assignments := s.assignments[id := Assignment(idInstrumento, idAlumno, fechaAsignacion, fechaDevolucion)]), 1)
    else
      Step(s, 0)
  }

  /**
   * `delete`: 0 affected rows and no change for a missing id. Otherwise the
   * row goes, and its instrument becomes `Disponible` exactly when no
   * remaining row for it is open; with an open row left, its `estado` stays.
   * The row deleted need not have been open.
   */
  function DeleteEffect(s: DbState, id: Id): (r: Step<nat>)
    ensures r.result <= 1
    ensures r.result == 0 <==> id !in s.assignments
    ensures r.result == 0 ==> r.state == s
    ensures r.state.assignments == s.assignments - {id}
    ensures r.state.movements == s.movements
    ensures r.state.instruments.Keys == s.instruments.Keys
    ensures id in s.assignments ==>
      var i := s.assignments[id].idInstrumento;
      && AgreeExcept(s.instruments, r.state.instruments, i)
      && (i in s.instruments ==>
            r.state.instruments[i] ==
              if HasOpenAssignment(r.state.assignments, i) then s.instruments[i]
              else s.instruments[i].(estado := Disponible))
    ensures r.state.(instruments := s.instruments, assignments := s.assignments) == s
  {
    if id !in s.assignments then
      Step(s, 0)
    else
      var i := s.assignments[id].idInstrumento;
      var rest := s.assignments - {id};
      if !HasOpenAssignment(rest, i) && i in s.instruments then
        Step(s.(assignments := rest, instruments := s.instruments[i := s.instruments[i].(estado := Disponible)]), 1)
      else
        Step(s.(assignments := rest), 1)
  }

  /**
   * `returnInstrument`: 0 affected rows and no change for a missing id.
   * Otherwise the return date is written and the instrument is set
   * `Disponible` unconditionally: whether or not the row was open, whatever
   * other open rows exist, and even out of `Mantenimiento` or `De Baja`.
   */
  function ReturnEffect(s: DbState, id: Id, fechaDevolucion: Date): (r: Step<nat>)
    ensures r.result <= 1
    ensures r.result == 0 <==> id !in s.assignments
    ensures r.result == 0 ==> r.state == s
    ensures r.state.assignments.Keys == s.assignments.Keys
    ensures AgreeExcept(s.assignments, r.state.assignments, id)
    ensures r.state.instruments.Keys == s.instruments.Keys
    ensures r.state.movements == s.movements
    ensures id in s.assignments ==>
      var i := s.assignments[id].idInstrumento;
      && r.state.assignments[id] == s.assignments[id].(fechaDevolucion := Some(fechaDevolucion))
      && AgreeExcept(s.instruments, r.state.instruments, i)
      && (i in s.instruments ==> r.state.instruments[i] == s.instruments[i].(estado := Disponible))
    ensures r.state.(instruments := s.instruments, assignments := s.assignments) == s
  {
    if id !in s.assignments then
      Step(s, 0)
    else
      var a := s.assignments[id];
      var i := a.idInstrumento;
      var assignments' := s.assignments[id := a.(fechaDevolucion := Some(fechaDevolucion))];
      if i in s.instruments then
        Step(s.(assignments := assignments', instruments := s.instruments[i := s.instruments[i].(estado := Disponible)]), 1)
      else
        Step(s.(assignments := assignments'), 1)
  }

  /**
   * `getById`: the query joins `Instrumento`, so a row whose instrument was
   * deleted is not found.
   */
  method GetById(db: Database, id: Id) returns (r: Option<Assignment>)
    ensures r.Some? <==> id in db.assignments && db.assignments[id].idInstrumento in db.instruments
    ensures r.Some? ==> r.value == db.assignments[id]
  {
    if id in db.assignments && db.assignments[id].idInstrumento in db.instruments {
      r := Some(db.assignments[id]);
    } else {
      r := None;
    }
  }

  method Create(db: Database, idInstrumento: Id, idAlumno: Id, fechaAsignacion: Date,
                fechaDevolucion: Option<Date>) returns (r: CheckoutResult)
    requires db.Valid()
    modifies db
    ensures db.Valid()
    ensures Step(db.State(), r) == CreateEffect(old(db.State()), idInstrumento, idAlumno, fechaAsignacion, fechaDevolucion)
  {
    // SELECT estado FROM Instrumento WHERE id_instrumento = ?
    if idInstrumento !in db.instruments || db.instruments[idInstrumento].estado != Disponible {
      return NotAvailable;
    }
    // INSERT INTO Asignacion_Instrumento
    var id := db.nextAssignmentId;
    db.assignments := db.assignments[id := Assignment(idInstrumento, idAlumno, fechaAsignacion, fechaDevolucion)];
    db.nextAssignmentId := id + 1;
    // UPDATE Instrumento SET estado = "Asignado"
    db.instruments := db.instruments[idInstrumento := db.instruments[idInstrumento].(estado := Asignado)];
    r := Assigned(id);
  }

  method Update(db: Database, id: Id, idInstrumento: Id, idAlumno: Id, fechaAsignacion: Date,
                fechaDevolucion: Option<Date>) returns (affectedRows: nat)
    requires db.Valid()
    modifies db
    ensures db.Valid()
    ensures Step(db.State(), affectedRows) == UpdateEffect(old(db.State()), id, idInstrumento, idAlumno, fechaAsignacion, fechaDevolucion)
  {
    if id in db.assignments {
      db.assignments := db.assignments[id := Assignment(idInstrumento, idAlumno, fechaAsignacion, fechaDevolucion)];
      affectedRows := 1;
    } else {
      affectedRows := 0;
    }
  }

  method Delete(db: Database, id: Id) returns (affectedRows: nat)
    requires db.Valid()
    modifies db
    ensures db.Valid()
    ensures Step(db.State(), affectedRows) == DeleteEffect(old(db.State()), id)
  {
    // SELECT id_instrumento FROM Asignacion_Instrumento WHERE id_asignacion = ?
    if id !in db.assignments {
      return 0;
    }
    var i := db.assignments[id].idInstrumento;
    // DELETE FROM Asignacion_Instrumento WHERE id_asignacion = ?
    db.assignments := db.assignments - {id};
    affectedRows := 1;
    // SELECT COUNT(*) ... WHERE id_instrumento = ? AND fecha_devolucion IS NULL
    if !HasOpenAssignment(db.assignments, i) && i in db.instruments {
      // UPDATE Instrumento SET estado = "Disponible"
      db.instruments := db.instruments[i := db.instruments[i].(estado := Disponible)];
    }
  }

  method ReturnInstrument(db: Database, id: Id, fechaDevolucion: Date) returns (affectedRows: nat)
    requires db.Valid()
    modifies db
    ensures db.Valid()
    ensures Step(db.State(), affectedRows) == ReturnEffect(old(db.State()), id, fechaDevolucion)
  {
    // UPDATE Asignacion_Instrumento SET fecha_devolucion = ? WHERE id_asignacion = ?
    if id !in db.assignments {
      return 0;
    }
    db.assignments := db.assignments[id := db.assignments[id].(fechaDevolucion := Some(fechaDevolucion))];
    affectedRows := 1;
    // SELECT id_instrumento ...; UPDATE Instrumento SET estado = "Disponible"
    var i := db.assignments[id].idInstrumento;
    if i in db.instruments {
      db.instruments := db.instruments[i := db.instruments[i].(estado := Disponible)];
    }
  }
}
