/**
 * The movement ledger: inventory events in `Movimiento_Inventario`. Recording
 * a movement re-derives the instrument's `estado` from the movement's type
 * alone; editing or deleting a movement never touches `estado`.
 */
module MovementLedger {
  import opened Wrappers
  import opened Store

  /** The movement types that carry a state change. */
  const KnownTypes: set<string> := {"Entrada", "Mantenimiento", "Baja", "Reingreso"}

  /**
   * The `switch` on `tipo_movimiento`: the `estado` a movement of this type
   * leads to, or None ("no change") for any other type. No movement type
   * leads to `Asignado`; that state belongs to the assignment ledger.
   */
  function EstadoFor(tipoMovimiento: string): (e: Option<Estado>)
    ensures e.Some? <==> tipoMovimiento in KnownTypes
    ensures tipoMovimiento == "Entrada" ==> e == Some(Disponible)
    ensures tipoMovimiento == "Mantenimiento" ==> e == Some(Mantenimiento)
    ensures tipoMovimiento == "Baja" ==> e == Some(DeBaja)
    ensures tipoMovimiento == "Reingreso" ==> e == Some(Disponible)
    ensures e != Some(Asignado)
  {
    if tipoMovimiento == "Entrada" then Some(Disponible)
    else if tipoMovimiento == "Mantenimiento" then Some(Mantenimiento)
    else if tipoMovimiento == "Baja" then Some(DeBaja)
    else if tipoMovimiento == "Reingreso" then Some(Disponible)
    else None
  }

  /**
   * `create`: inserts exactly one movement row under a fresh id; then, when
   * the type is a known one, the instrument's `estado` becomes the type's
   * state, whatever it was and whatever assignments are open. Any other
   * type, or a missing instrument, leaves every instrument as it was.
   */
  function CreateEffect(s: DbState, m: Movement): (r: Step<Id>)
    requires WellFormed(s)
    ensures WellFormed(r.state)
    ensures r.result !in s.movements
    ensures r.state.movements == s.movements[r.result := m]
    ensures r.state.(movements := s.movements, nextMovementId := s.nextMovementId, instruments := s.instruments) == s
    ensures r.state.instruments.Keys == s.instruments.Keys
    ensures AgreeExcept(s.instruments, r.state.instruments, m.idInstrumento)
    ensures EstadoFor(m.tipoMovimiento).None? ==> r.state.instruments == s.instruments
    ensures EstadoFor(m.tipoMovimiento).Some? && m.idInstrumento in s.instruments ==>
      r.state.instruments[m.idInstrumento] == s.instruments[m.idInstrumento].(estado := EstadoFor(m.tipoMovimiento).value)
  {
    var id := s.nextMovementId;
    var inserted := s.(movements := s.movements[id := m], nextMovementId := id + 1);
    var i := m.idInstrumento;
    match EstadoFor(m.tipoMovimiento)
    case Some(e) =>
      if i in s.instruments then
        Step(inserted.(instruments := s.instruments[i := s.instruments[i].(estado := e)]), id)
      else
        Step(inserted, id)
    case None =>
      Step(inserted, id)
  }

  /**
   * `update`: replaces the five columns of the named movement (0 affected
   * rows and no change for a missing id); no instrument's `estado` moves.
   */
  function UpdateEffect(s: DbState, id: Id, m: Movement): (r: Step<nat>)
    ensures r.result <= 1
    ensures r.result == 0 <==> id !in s.movements
    ensures r.result == 0 ==> r.state == s
    ensures r.result == 1 ==> id in r.state.movements && r.state.movements[id] == m
    ensures r.state.movements.Keys == s.movements.Keys
    ensures AgreeExcept(s.movements, r.state.movements, id)
    ensures r.state.instruments == s.instruments && r.state.assignments == s.assignments
    ensures r.state.(movements := s.movements) == s
  {
    if id in s.movements then
      Step(s.(movements := s.movements[id := m]), 1)
    else
      Step(s, 0)
  }

  /**
   * `delete`: removes only the named movement and does not revert the
   * `estado` that recording it set.
   */
  function DeleteEffect(s: DbState, id: Id): (r: Step<nat>)
    ensures r.result <= 1
    ensures r.result == 0 <==> id !in s.movements
    ensures r.state.movements.Keys == s.movements.Keys - {id}
    ensures AgreeExcept(s.movements, r.state.movements, id)
    ensures r.state.instruments == s.instruments && r.state.assignments == s.assignments
    ensures r.state.(movements := s.movements) == s
  {
    if id in s.movements then
      Step(s.(movements := s.movements - {id}), 1)
    else
      Step(s, 0)
  }

  /** A row of `getAll`. */
  datatype MovementRow = MovementRow(id: Id, movement: Movement)

  /** `ORDER BY fecha_movimiento DESC`; rows with equal dates may come in any order. */
  predicate NewestFirst(rows: seq<MovementRow>) {
    forall i, j :: 0 <= i < j < |rows| ==> rows[i].movement.fechaMovimiento >= rows[j].movement.fechaMovimiento
  }

  /** No movement is listed twice. */
  predicate DistinctIds(rows: seq<MovementRow>) {
    forall i, j :: 0 <= i < j < |rows| ==> rows[i].id != rows[j].id
  }

  function RowIds(rows: seq<MovementRow>): set<Id> {
    set i | 0 <= i < |rows| :: rows[i].id
  }

  /** Every listed row is a stored movement, as stored, whose instrument still exists. */
  ghost predicate Joined(db: DbState, rows: seq<MovementRow>) {
    forall row :: row in rows ==>
      row.id in db.movements && db.movements[row.id] == row.movement && row.movement.idInstrumento in db.instruments
  }

  function InsertAt(rows: seq<MovementRow>, p: nat, row: MovementRow): (r: seq<MovementRow>)
    requires p <= |rows|
    ensures |r| == |rows| + 1 && r[p] == row
    ensures forall i :: 0 <= i < p ==> r[i] == rows[i]
    ensures forall i :: p < i < |r| ==> r[i] == rows[i - 1]
  {
    rows[..p] + [row] + rows[p..]
  }

  lemma InsertAtNewestFirst(rows: seq<MovementRow>, p: nat, row: MovementRow)
    requires p <= |rows| && NewestFirst(rows)
    requires forall i :: 0 <= i < p ==> rows[i].movement.fechaMovimiento >= row.movement.fechaMovimiento
    requires forall i :: p <= i < |rows| ==> rows[i].movement.fechaMovimiento < row.movement.fechaMovimiento
    ensures NewestFirst(InsertAt(rows, p, row))
  {
    var r := InsertAt(rows, p, row);
    forall i, j | 0 <= i < j < |r| ensures r[i].movement.fechaMovimiento >= r[j].movement.fechaMovimiento {
      if j < p {
      } else if j == p {
      } else if i == p {
      } else if i < p {
        assert rows[i].movement.fechaMovimiento >= rows[j - 1].movement.fechaMovimiento;
      } else {
        assert rows[i - 1].movement.fechaMovimiento >= rows[j - 1].movement.fechaMovimiento;
      }
    }
  }

  lemma InsertAtMembers(rows: seq<MovementRow>, p: nat, row: MovementRow)
    requires p <= |rows|
    ensures forall x :: x in InsertAt(rows, p, row) <==> x in rows || x == row
    ensures RowIds(InsertAt(rows, p, row)) == RowIds(rows) + {row.id}
    ensures DistinctIds(rows) && row.id !in RowIds(rows) ==> DistinctIds(InsertAt(rows, p, row))
  {
    var r := InsertAt(rows, p, row);
    assert rows == rows[..p] + rows[p..];
    forall x | x in RowIds(rows) ensures x in RowIds(r) {
      var i :| 0 <= i < |rows| && rows[i].id == x;
      if i < p { assert r[i].id == x; } else { assert r[i + 1].id == x; }
    }
    forall x | x in RowIds(r) ensures x in RowIds(rows) + {row.id} {
      var i :| 0 <= i < |r| && r[i].id == x;
      if i < p { assert rows[i].id == x; } else if i > p { assert rows[i - 1].id == x; }
    }
    if DistinctIds(rows) && row.id !in RowIds(rows) {
      forall i, j | 0 <= i < j < |r| ensures r[i].id != r[j].id {
        if i == p {
          assert rows[j - 1].id in RowIds(rows);
        } else if j == p {
          assert rows[i].id in RowIds(rows);
        } else {
          var i' := if i < p then i else i - 1;
          var j' := if j < p then j else j - 1;
          assert r[i] == rows[i'] && r[j] == rows[j'] && i' < j';
        }
      }
    }
  }

  /**
   * Places `row` after every row dated no earlier and before the first one
   * dated earlier, keeping a newest-first listing newest first.
   */
  method PlaceNewestFirst(rows: seq<MovementRow>, row: MovementRow) returns (r: seq<MovementRow>)
    requires NewestFirst(rows)
    ensures NewestFirst(r)
    ensures |r| == |rows| + 1
    ensures forall x :: x in r <==> x in rows || x == row
    ensures RowIds(r) == RowIds(rows) + {row.id}
    ensures DistinctIds(rows) && row.id !in RowIds(rows) ==> DistinctIds(r)
  {
    var p := 0;
    while p < |rows| && rows[p].movement.fechaMovimiento >= row.movement.fechaMovimiento
      invariant 0 <= p <= |rows|
      invariant forall i :: 0 <= i < p ==> rows[i].movement.fechaMovimiento >= row.movement.fechaMovimiento
    {
      p := p + 1;
    }
    forall i | p <= i < |rows| ensures rows[i].movement.fechaMovimiento < row.movement.fechaMovimiento {
      assert rows[p].movement.fechaMovimiento >= rows[i].movement.fechaMovimiento;
    }
    InsertAtNewestFirst(rows, p, row);
    InsertAtMembers(rows, p, row);
    r := InsertAt(rows, p, row);
  }

  /**
   * `getAll`: every stored movement whose instrument still exists (the query
   * joins `Instrumento`), each exactly once, newest first. The table is
   * scanned in no particular order and each joined row is placed among the
   * rows listed so far.
   */
  method GetAll(db: Database) returns (rows: seq<MovementRow>)
    ensures NewestFirst(rows)
    ensures DistinctIds(rows)
    ensures Joined(db.State(), rows)
    ensures forall k :: k in db.movements && db.movements[k].idInstrumento in db.instruments ==> k in RowIds(rows)
  {
    rows := [];
    var pending := db.movements.Keys;
    while pending != {}
      invariant pending <= db.movements.Keys
      invariant NewestFirst(rows) && DistinctIds(rows) && Joined(db.State(), rows)
      invariant RowIds(rows) !! pending
      invariant forall k :: k in db.movements && k !in pending && db.movements[k].idInstrumento in db.instruments ==> k in RowIds(rows)
      decreases pending
    {
      var k :| k in pending;
      pending := pending - {k};
      var m := db.movements[k];
      if m.idInstrumento in db.instruments {
        rows := PlaceNewestFirst(rows, MovementRow(k, m));
      }
    }
  }

  /** `getById`: joins `Instrumento`, so a movement of a deleted instrument is not found. */
  method GetById(db: Database, id: Id) returns (r: Option<Movement>)
    ensures r.Some? <==> id in db.movements && db.movements[id].idInstrumento in db.instruments
    ensures r.Some? ==> r.value == db.movements[id]
  {
    if id in db.movements && db.movements[id].idInstrumento in db.instruments {
      r := Some(db.movements[id]);
    } else {
      r := None;
    }
  }

  method Create(db: Database, idInstrumento: Id, tipoMovimiento: string, fechaMovimiento: Date,
                descripcion: Option<string>, responsable: Option<string>) returns (insertId: Id)
    requires db.Valid()
    modifies db
    ensures db.Valid()
    ensures Step(db.State(), insertId)
         == CreateEffect(old(db.State()), Movement(idInstrumento, tipoMovimiento, fechaMovimiento, descripcion, responsable))
  {
    // INSERT INTO Movimiento_Inventario
    insertId := db.nextMovementId;
    db.movements := db.movements[insertId := Movement(idInstrumento, tipoMovimiento, fechaMovimiento, descripcion, responsable)];
    db.nextMovementId := insertId + 1;
    // UPDATE Instrumento SET estado = ? when the type carries a state
    var nuevoEstado := EstadoFor(tipoMovimiento);
    if nuevoEstado.Some? && idInstrumento in db.instruments {
      db.instruments := db.instruments[idInstrumento := db.instruments[idInstrumento].(estado := nuevoEstado.value)];
    }
  }

  method Update(db: Database, id: Id, idInstrumento: Id, tipoMovimiento: string, fechaMovimiento: Date,
                descripcion: Option<string>, responsable: Option<string>) returns (affectedRows: nat)
    requires db.Valid()
    modifies db
    ensures db.Valid()
    ensures Step(db.State(), affectedRows)
         == UpdateEffect(old(db.State()), id, Movement(idInstrumento, tipoMovimiento, fechaMovimiento, descripcion, responsable))
  {
    if id in db.movements {
      db.movements := db.movements[id := Movement(idInstrumento, tipoMovimiento, fechaMovimiento, descripcion, responsable)];
      affectedRows := 1;
    } else {
      affectedRows := 0;
    }
  }

  method Delete(db: Database, id: Id) returns (affectedRows: nat)
    requires db.Valid()
    modifies db
    ensures db.Valid()
    ensures Step(db.State(), affectedRows) == DeleteEffect(old(db.State()), id)
  {
    if id in db.movements {
      db.movements := db.movements - {id};
      affectedRows := 1;
    } else {
      affectedRows := 0;
    }
  }
}
