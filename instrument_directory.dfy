/**
 * The instrument directory: plain create / read / update / delete on the
 * `Instrumento` table. Its generic update writes `estado` like any other
 * column, outside every lifecycle rule.
 */
module InstrumentDirectory {
  import opened Wrappers
  import opened Store

  /** `INSERT INTO Instrumento`: a new row under a fresh id, `estado` exactly as given. */
  function CreateEffect(s: DbState, row: Instrument): (r: Step<Id>)
    requires WellFormed(s)
    ensures WellFormed(r.state)
    ensures r.result !in s.instruments
    ensures s.nextInstrumentId <= r.result < r.state.nextInstrumentId
    ensures r.result in r.state.instruments && r.state.instruments[r.result] == row
    ensures r.state.instruments.Keys == s.instruments.Keys + {r.result}
    ensures AgreeExcept(s.instruments, r.state.instruments, r.result)
    ensures r.state.(instruments := s.instruments, nextInstrumentId := s.nextInstrumentId) == s
  {
    var id := s.nextInstrumentId;
    Step(s.(instruments := s.instruments[id := row], nextInstrumentId := id + 1), id)
  }

  /**
   * `UPDATE Instrumento SET <all seven columns> WHERE id_instrumento = ?`:
   * reports 0 affected rows and changes nothing for a missing id; otherwise
   * the row becomes `row`, `estado` included, whatever the ledgers say.
   */
  function UpdateEffect(s: DbState, id: Id, row: Instrument): (r: Step<nat>)
    ensures r.result <= 1
    ensures r.result == 0 <==> id !in s.instruments
    ensures r.result == 0 ==> r.state == s
    ensures r.result == 1 ==> id in r.state.instruments && r.state.instruments[id] == row
    ensures r.state.instruments.Keys == s.instruments.Keys
    ensures AgreeExcept(s.instruments, r.state.instruments, id)
    ensures r.state.(instruments := s.instruments) == s
  {
    if id in s.instruments then
      Step(s.(instruments := s.instruments[id := row]), 1)
    else
      Step(s, 0)
  }

  /**
   * `DELETE FROM Instrumento WHERE id_instrumento = ?`: removes the row even
   * while assignments or movements still name it; 0 affected rows and no
   * change for a missing id.
   */
  function DeleteEffect(s: DbState, id: Id): (r: Step<nat>)
    ensures r.result <= 1
    ensures r.result == 0 <==> id !in s.instruments
    ensures r.state.instruments.Keys == s.instruments.Keys - {id}
    ensures AgreeExcept(s.instruments, r.state.instruments, id)
    ensures r.state.assignments == s.assignments && r.state.movements == s.movements
    ensures r.state.(instruments := s.instruments) == s
  {
    if id in s.instruments then
      Step(s.(instruments := s.instruments - {id}), 1)
    else
      Step(s, 0)
  }

  /** `SELECT * FROM Instrumento WHERE id_instrumento = ?`, first row. */
  method GetById(db: Database, id: Id) returns (r: Option<Instrument>)
    ensures r.Some? <==> id in db.instruments
    ensures r.Some? ==> r.value == db.instruments[id]
  {
    if id in db.instruments {
      r := Some(db.instruments[id]);
    } else {
      r := None;
    }
  }

  method Create(db: Database, nombre: string, categoria: string, numeroSerie: string, estado: Estado,
                fechaAdquisicion: Option<Date>, fotoUrl: Option<string>, ubicacion: Option<string>) returns (insertId: Id)
    requires db.Valid()
    modifies db
    ensures db.Valid()
    ensures Step(db.State(), insertId)
         == CreateEffect(old(db.State()), Instrument(nombre, categoria, numeroSerie, estado, fechaAdquisicion, fotoUrl, ubicacion))
  {
    insertId := db.nextInstrumentId;
    db.instruments := db.instruments[insertId := Instrument(nombre, categoria, numeroSerie, estado, fechaAdquisicion, fotoUrl, ubicacion)];
    db.nextInstrumentId := insertId + 1;
  }

  method Update(db: Database, id: Id, nombre: string, categoria: string, numeroSerie: string, estado: Estado,
                fechaAdquisicion: Option<Date>, fotoUrl: Option<string>, ubicacion: Option<string>) returns (affectedRows: nat)
    requires db.Valid()
    modifies db
    ensures db.Valid()
    ensures Step(db.State(), affectedRows)
         == UpdateEffect(old(db.State()), id, Instrument(nombre, categoria, numeroSerie, estado, fechaAdquisicion, fotoUrl, ubicacion))
  {
    if id in db.instruments {
      db.instruments := db.instruments[id := Instrument(nombre, categoria, numeroSerie, estado, fechaAdquisicion, fotoUrl, ubicacion)];
      affectedRows := 1;
    } else {
      affectedRows := 0;
    }
  }

  method Delete(db: Database, id: Id) returns (affectedRows: nat)
    requires db.Valid()
    modifies db
    ensures db.Valid()
    ensures Step(db.State(), affectedRows) == DeleteEffect(old(db.State()), id)
  {
    if id in db.instruments {
      db.instruments := db.instruments - {id};
      affectedRows := 1;
    } else {
      affectedRows := 0;
    }
  }
}
