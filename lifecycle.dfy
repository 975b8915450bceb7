/**
 * The rules the two ledgers are meant to keep between them: `estado` caches
 * "is this instrument on loan". Which operations keep that cache honest, and
 * which of them, as written, can break it.
 */
module Lifecycle {
  import opened Wrappers
  import opened Store
  import InstrumentDirectory
  import AssignmentLedger
  import MovementLedger

  /** An instrument with an open assignment is never `Disponible`. */
  ghost predicate OpenNotDisponible(s: DbState) {
    forall i :: i in s.instruments && HasOpenAssignment(s.assignments, i) ==> s.instruments[i].estado != Disponible
  }

  /** At most one open assignment per instrument. */
  ghost predicate AtMostOneOpen(assignments: map<Id, Assignment>) {
    forall j, k ::
      (j in assignments && k in assignments && IsOpen(assignments[j]) && IsOpen(assignments[k])
       && assignments[j].idInstrumento == assignments[k].idInstrumento) ==> j == k
  }

  /**
   * Every assignment names an instrument id the counter has already handed
   * out, so a newly created instrument has no loans.
   */
  ghost predicate LoansNameIssuedIds(s: DbState) {
    forall k :: k in s.assignments ==> s.assignments[k].idInstrumento < s.nextInstrumentId
  }

  /** The two rules, with the id bookkeeping instrument creation relies on; "both rules" below means all of it. */
  ghost predicate Consistent(s: DbState) {
    OpenNotDisponible(s) && AtMostOneOpen(s.assignments) && LoansNameIssuedIds(s)
  }

  /** The empty store keeps every rule. */
  lemma EmptyIsConsistent()
    ensures Consistent(Empty())
  {
  }

  // ---------------------------------------------------------------------------
  // Operations that keep the invariant
  // ---------------------------------------------------------------------------

  /** Checkout keeps both rules: it only ever lends a `Disponible` instrument, which has no open loan. */
  lemma CheckoutKeepsConsistent(s: DbState, idInstrumento: Id, idAlumno: Id, fechaAsignacion: Date,
                                fechaDevolucion: Option<Date>)
    requires WellFormed(s) && Consistent(s)
    ensures Consistent(AssignmentLedger.CreateEffect(s, idInstrumento, idAlumno, fechaAsignacion, fechaDevolucion).state)
  {
    var r := AssignmentLedger.CreateEffect(s, idInstrumento, idAlumno, fechaAsignacion, fechaDevolucion);
    if r.result.Assigned? {
      var n := r.result.insertId;
      var t := r.state;
      assert !HasOpenAssignment(s.assignments, idInstrumento);
      forall i | i in t.instruments && HasOpenAssignment(t.assignments, i)
        ensures t.instruments[i].estado != Disponible
      {
        if i != idInstrumento {
          var k :| k in t.assignments && t.assignments[k].idInstrumento == i && IsOpen(t.assignments[k]);
          assert k != n && k in s.assignments;
          assert HasOpenAssignment(s.assignments, i);
        }
      }
      forall j, k | j in t.assignments && k in t.assignments && IsOpen(t.assignments[j]) && IsOpen(t.assignments[k])
          && t.assignments[j].idInstrumento == t.assignments[k].idInstrumento
        ensures j == k
      {
        assert j != n ==> j in s.assignments && t.assignments[j] == s.assignments[j];
        assert k != n ==> k in s.assignments && t.assignments[k] == s.assignments[k];
      }
    }
  }

  /** Returning an OPEN assignment keeps both rules: it was the instrument's only open loan. */
  lemma ReturnOfOpenKeepsConsistent(s: DbState, id: Id, fechaDevolucion: Date)
    requires Consistent(s)
    requires id in s.assignments && IsOpen(s.assignments[id])
    ensures Consistent(AssignmentLedger.ReturnEffect(s, id, fechaDevolucion).state)
  {
    var t := AssignmentLedger.ReturnEffect(s, id, fechaDevolucion).state;
    var returned := s.assignments[id].idInstrumento;
    forall i | i in t.instruments && HasOpenAssignment(t.assignments, i)
      ensures t.instruments[i].estado != Disponible
    {
      var k :| k in t.assignments && t.assignments[k].idInstrumento == i && IsOpen(t.assignments[k]);
      assert k != id && t.assignments[k] == s.assignments[k];
      if i == returned {
        assert false;
      } else {
        assert HasOpenAssignment(s.assignments, i);
      }
    }
    forall j, k | j in t.assignments && k in t.assignments && IsOpen(t.assignments[j]) && IsOpen(t.assignments[k])
        && t.assignments[j].idInstrumento == t.assignments[k].idInstrumento
      ensures j == k
    {
      assert j != id && k != id;
      assert t.assignments[j] == s.assignments[j] && t.assignments[k] == s.assignments[k];
    }
  }

  /**
   * Deleting an assignment keeps both rules: the instrument becomes
   * `Disponible` only when no open loan of it remains.
   */
  lemma DeleteKeepsConsistent(s: DbState, id: Id)
    requires Consistent(s)
    ensures Consistent(AssignmentLedger.DeleteEffect(s, id).state)
  {
    var t := AssignmentLedger.DeleteEffect(s, id).state;
    if id in s.assignments {
      var deleted := s.assignments[id].idInstrumento;
      forall i | i in t.instruments && HasOpenAssignment(t.assignments, i)
        ensures t.instruments[i].estado != Disponible
      {
        var k :| k in t.assignments && t.assignments[k].idInstrumento == i && IsOpen(t.assignments[k]);
        assert k in s.assignments && s.assignments[k] == t.assignments[k];
        assert HasOpenAssignment(s.assignments, i);
      }
    }
  }

  /** A movement whose type does not lead to `Disponible` keeps both rules. */
  lemma MovementKeepsConsistent(s: DbState, m: Movement)
    requires WellFormed(s) && Consistent(s)
    requires MovementLedger.EstadoFor(m.tipoMovimiento) != Some(Disponible)
    ensures Consistent(MovementLedger.CreateEffect(s, m).state)
  {
    var t := MovementLedger.CreateEffect(s, m).state;
    forall i | i in t.instruments && HasOpenAssignment(t.assignments, i)
      ensures t.instruments[i].estado != Disponible
    {
      if i != m.idInstrumento {
        assert t.instruments[i] == s.instruments[i];
      }
    }
  }

  /**
   * Any movement keeps both rules when its instrument has no open loan: no
   * cross-check against open assignments is needed then.
   */
  lemma MovementOfIdleKeepsConsistent(s: DbState, m: Movement)
    requires WellFormed(s) && Consistent(s)
    requires !HasOpenAssignment(s.assignments, m.idInstrumento)
    ensures Consistent(MovementLedger.CreateEffect(s, m).state)
  {
    var t := MovementLedger.CreateEffect(s, m).state;
    forall i | i in t.instruments && HasOpenAssignment(t.assignments, i)
      ensures t.instruments[i].estado != Disponible
    {
      assert i != m.idInstrumento;
      assert t.instruments[i] == s.instruments[i];
    }
  }

  /**
   * Creating an instrument keeps both rules, whatever `estado` it is given:
   * its id is fresh, so no loan names it yet.
   */
  lemma InstrumentCreateKeepsConsistent(s: DbState, row: Instrument)
    requires WellFormed(s) && Consistent(s)
    ensures Consistent(InstrumentDirectory.CreateEffect(s, row).state)
  {
    var r := InstrumentDirectory.CreateEffect(s, row);
    var t := r.state;
    forall i | i in t.instruments && HasOpenAssignment(t.assignments, i)
      ensures t.instruments[i].estado != Disponible
    {
      var k :| k in t.assignments && t.assignments[k].idInstrumento == i && IsOpen(t.assignments[k]);
      assert k in s.assignments && i < s.nextInstrumentId <= r.result;
      assert HasOpenAssignment(s.assignments, i);
    }
  }

  /**
   * Without the issued-ids rule, creation can break the first rule: here a
   * loan names id 5 before any instrument has it (the assignment update
   * writes any id, no foreign key being checked), and the new instrument 5
   * is `Disponible` while that loan is open.
   */
  lemma InstrumentCreateNeedsIssuedIds()
    ensures var s := DbState(map[], map[1 := Assignment(5, 41, 10, None)], map[], 5, 2, 1);
            && WellFormed(s) && OpenNotDisponible(s) && AtMostOneOpen(s.assignments) && !LoansNameIssuedIds(s)
            && !OpenNotDisponible(InstrumentDirectory.CreateEffect(s,
                 Instrument("Violin", "Cuerda", "VLN-005", Disponible, None, None, None)).state)
  {
    var s := DbState(map[], map[1 := Assignment(5, 41, 10, None)], map[], 5, 2, 1);
    var t := InstrumentDirectory.CreateEffect(s, Instrument("Violin", "Cuerda", "VLN-005", Disponible, None, None, None)).state;
    assert t.instruments[5].estado == Disponible;
    assert HasOpenAssignment(t.assignments, 5) by {
      assert t.assignments[1] == Assignment(5, 41, 10, None);
    }
  }

  /** Deleting an instrument keeps both rules: its orphaned loans name no instrument any more. */
  lemma InstrumentDeleteKeepsConsistent(s: DbState, id: Id)
    requires Consistent(s)
    ensures Consistent(InstrumentDirectory.DeleteEffect(s, id).state)
  {
    var t := InstrumentDirectory.DeleteEffect(s, id).state;
    forall i | i in t.instruments && HasOpenAssignment(t.assignments, i)
      ensures t.instruments[i].estado != Disponible
    {
      assert i != id && t.instruments[i] == s.instruments[i];
    }
  }

  // ---------------------------------------------------------------------------
  // Operations that, as written, break it
  // ---------------------------------------------------------------------------

  /** A violin on loan under assignment 2; assignment 1 is an old, closed loan of the same violin. */
  function OnLoan(): (s: DbState)
    ensures WellFormed(s)
  {
    DbState(
      map[1 := Instrument("Violin", "Cuerda", "VLN-001", Asignado, None, None, None)],
      map[1 := Assignment(1, 41, 10, Some(20)), 2 := Assignment(1, 42, 30, None)],
      map[], 2, 3, 1)
  }

  lemma OnLoanIsConsistent()
    ensures Consistent(OnLoan())
  {
    var s := OnLoan();
    forall j, k | j in s.assignments && k in s.assignments && IsOpen(s.assignments[j]) && IsOpen(s.assignments[k])
        && s.assignments[j].idInstrumento == s.assignments[k].idInstrumento
      ensures j == k
    {
      assert j == 2 && k == 2;
    }
  }

  /** Returning the already-closed assignment 1 makes the violin `Disponible` while assignment 2 is open. */
  lemma ReturnOfClosedBreaksConsistent()
    ensures Consistent(OnLoan())
    ensures !OpenNotDisponible(AssignmentLedger.ReturnEffect(OnLoan(), 1, 50).state)
  {
    OnLoanIsConsistent();
    var t := AssignmentLedger.ReturnEffect(OnLoan(), 1, 50).state;
    assert t.assignments[2] == Assignment(1, 42, 30, None);
    assert HasOpenAssignment(t.assignments, 1);
  }

  /** An `Entrada` recorded for the lent violin makes it `Disponible` while still on loan. */
  lemma EntradaWhileLentBreaksConsistent()
    ensures Consistent(OnLoan())
    ensures !OpenNotDisponible(MovementLedger.CreateEffect(OnLoan(), Movement(1, "Entrada", 40, None, Some("Luis"))).state)
  {
    OnLoanIsConsistent();
    var t := MovementLedger.CreateEffect(OnLoan(), Movement(1, "Entrada", 40, None, Some("Luis"))).state;
    assert t.assignments[2] == Assignment(1, 42, 30, None);
    assert HasOpenAssignment(t.assignments, 1);
  }

  /** The generic instrument update can write `Disponible` over a lent violin. */
  lemma InstrumentUpdateBreaksConsistent()
    ensures Consistent(OnLoan())
    ensures !OpenNotDisponible(InstrumentDirectory.UpdateEffect(OnLoan(), 1,
              Instrument("Violin", "Cuerda", "VLN-001", Disponible, None, None, None)).state)
  {
    OnLoanIsConsistent();
    var t := InstrumentDirectory.UpdateEffect(OnLoan(), 1, Instrument("Violin", "Cuerda", "VLN-001", Disponible, None, None, None)).state;
    assert t.assignments[2] == Assignment(1, 42, 30, None);
    assert HasOpenAssignment(t.assignments, 1);
  }

  /** Editing assignment 1 to clear its return date opens a second loan of the same violin. */
  lemma AssignmentUpdateBreaksConsistent()
    ensures Consistent(OnLoan())
    ensures !AtMostOneOpen(AssignmentLedger.UpdateEffect(OnLoan(), 1, 1, 41, 10, None).state.assignments)
  {
    OnLoanIsConsistent();
    var t := AssignmentLedger.UpdateEffect(OnLoan(), 1, 1, 41, 10, None).state;
    assert IsOpen(t.assignments[1]) && IsOpen(t.assignments[2]);
  }

  /**
   * Deleting a CLOSED assignment resets the instrument to `Disponible` when no
   * loan of it is open, even out of `De Baja`: a retired instrument returns
   * to circulation when an old loan record is removed.
   */
  lemma DeleteOfClosedRevivesRetired()
    ensures var s := DbState(map[1 := Instrument("Viola", "Cuerda", "VLA-007", DeBaja, None, None, None)],
                             map[1 := Assignment(1, 41, 10, Some(20))], map[], 2, 2, 1);
            AssignmentLedger.DeleteEffect(s, 1).state.instruments[1].estado == Disponible
  {
    var s := DbState(map[1 := Instrument("Viola", "Cuerda", "VLA-007", DeBaja, None, None, None)],
                     map[1 := Assignment(1, 41, 10, Some(20))], map[], 2, 2, 1);
    assert AssignmentLedger.DeleteEffect(s, 1).state.assignments == map[];
  }

  // ---------------------------------------------------------------------------
  // Scenarios
  // ---------------------------------------------------------------------------

  /**
   * Checkout then return of that loan: the instrument is `Disponible` again
   * and the loan carries the return date.
   */
  lemma CheckoutThenReturn(s: DbState, idInstrumento: Id, idAlumno: Id, fechaAsignacion: Date, fechaDevolucion: Date)
    requires WellFormed(s) && AssignmentLedger.Available(s, idInstrumento)
    ensures var c := AssignmentLedger.CreateEffect(s, idInstrumento, idAlumno, fechaAsignacion, None);
            && c.result.Assigned?
            && c.state.instruments[idInstrumento].estado == Asignado
            && var r := AssignmentLedger.ReturnEffect(c.state, c.result.insertId, fechaDevolucion);
               && r.result == 1
               && r.state.instruments[idInstrumento].estado == Disponible
               && r.state.assignments[c.result.insertId] == Assignment(idInstrumento, idAlumno, fechaAsignacion, Some(fechaDevolucion))
  {
  }

  /** An instrument sent to maintenance cannot be checked out. */
  lemma MaintenanceBlocksCheckout(s: DbState, m: Movement, idAlumno: Id, fechaAsignacion: Date,
                                  fechaDevolucion: Option<Date>)
    requires WellFormed(s) && m.tipoMovimiento == "Mantenimiento"
    ensures var t := MovementLedger.CreateEffect(s, m).state;
            AssignmentLedger.CreateEffect(t, m.idInstrumento, idAlumno, fechaAsignacion, fechaDevolucion) == Step(t, AssignmentLedger.NotAvailable)
  {
  }

  /** `Baja` retires the instrument whatever its prior state, on loan included. */
  lemma BajaAlwaysRetires(s: DbState, m: Movement)
    requires WellFormed(s) && m.tipoMovimiento == "Baja" && m.idInstrumento in s.instruments
    ensures MovementLedger.CreateEffect(s, m).state.instruments[m.idInstrumento].estado == DeBaja
  {
  }

  /** The `estado` a movement sets depends on its type alone, not on the store it is recorded in. */
  lemma MovementEstadoIgnoresHistory(s1: DbState, s2: DbState, m: Movement)
    requires WellFormed(s1) && WellFormed(s2)
    requires m.idInstrumento in s1.instruments && m.idInstrumento in s2.instruments
    requires m.tipoMovimiento in MovementLedger.KnownTypes
    ensures MovementLedger.CreateEffect(s1, m).state.instruments[m.idInstrumento].estado
         == MovementLedger.CreateEffect(s2, m).state.instruments[m.idInstrumento].estado
  {
  }

  /** Recording the same movement twice leaves the instrument table as recording it once did. */
  lemma MovementTwiceSameInstruments(s: DbState, m: Movement)
    requires WellFormed(s)
    ensures var once := MovementLedger.CreateEffect(s, m).state;
            MovementLedger.CreateEffect(once, m).state.instruments == once.instruments
  {
  }

  // ---------------------------------------------------------------------------
  // Sequences of operations
  // ---------------------------------------------------------------------------

  /** The ledger and directory operations that can keep the invariant. */
  datatype Op =
    | AddInstrument(row: Instrument)
    | Checkout(idInstrumento: Id, idAlumno: Id, fechaAsignacion: Date, fechaDevolucion: Option<Date>)
    | Return(idAsignacion: Id, fechaRetorno: Date)
    | Cancel(idAsignacion: Id)
    | Record(movement: Movement)
    | EditMovement(idMovimiento: Id, movement: Movement)
    | RemoveMovement(idMovimiento: Id)
    | RemoveInstrument(idInstrumento: Id)

  function Apply(s: DbState, op: Op): (t: DbState)
    requires WellFormed(s)
    ensures WellFormed(t)
  {
    match op
    case AddInstrument(row) => InstrumentDirectory.CreateEffect(s, row).state
    case Checkout(i, a, fa, fd) => AssignmentLedger.CreateEffect(s, i, a, fa, fd).state
    case Return(id, fd) => AssignmentLedger.ReturnEffect(s, id, fd).state
    case Cancel(id) => AssignmentLedger.DeleteEffect(s, id).state
    case Record(m) => MovementLedger.CreateEffect(s, m).state
    case EditMovement(id, m) => MovementLedger.UpdateEffect(s, id, m).state
    case RemoveMovement(id) => MovementLedger.DeleteEffect(s, id).state
    case RemoveInstrument(id) => InstrumentDirectory.DeleteEffect(s, id).state
  }

  function Run(s: DbState, ops: seq<Op>): (t: DbState)
    requires WellFormed(s)
    ensures WellFormed(t)
    decreases |ops|
  {
    if ops == [] then s else Run(Apply(s, ops[0]), ops[1..])
  }

  /**
   * The guard the source leaves out: a return names an open loan, and a
   * movement leading to `Disponible` names an instrument with no open loan.
   */
  predicate Guarded(s: DbState, op: Op) {
    match op
    case Return(id, _) => id in s.assignments && IsOpen(s.assignments[id])
    case Record(m) =>
      MovementLedger.EstadoFor(m.tipoMovimiento) != Some(Disponible) || !HasOpenAssignment(s.assignments, m.idInstrumento)
    case _ => true
  }

  predicate GuardedRun(s: DbState, ops: seq<Op>)
    requires WellFormed(s)
    decreases |ops|
  {
    ops == [] || (Guarded(s, ops[0]) && GuardedRun(Apply(s, ops[0]), ops[1..]))
  }

  lemma ApplyKeepsConsistent(s: DbState, op: Op)
    requires WellFormed(s) && Consistent(s) && Guarded(s, op)
    ensures Consistent(Apply(s, op))
  {
    match op
    case AddInstrument(row) => InstrumentCreateKeepsConsistent(s, row);
    case Checkout(i, a, fa, fd) => CheckoutKeepsConsistent(s, i, a, fa, fd);
    case Return(id, fd) => ReturnOfOpenKeepsConsistent(s, id, fd);
    case Cancel(id) => DeleteKeepsConsistent(s, id);
    case Record(m) =>
      if MovementLedger.EstadoFor(m.tipoMovimiento) != Some(Disponible) {
        MovementKeepsConsistent(s, m);
      } else {
        MovementOfIdleKeepsConsistent(s, m);
      }
    case EditMovement(id, m) =>
    case RemoveMovement(id) =>
    case RemoveInstrument(id) => InstrumentDeleteKeepsConsistent(s, id);
  }

  /**
   * From a consistent store, every guarded run of these operations ends in a
   * consistent store: no loaned instrument reads `Disponible`, and no
   * instrument is lent twice at once.
   */
  lemma {:induction false} GuardedRunKeepsConsistent(s: DbState, ops: seq<Op>)
    requires WellFormed(s) && Consistent(s) && GuardedRun(s, ops)
    ensures Consistent(Run(s, ops))
    decreases |ops|
  {
    if ops != [] {
      ApplyKeepsConsistent(s, ops[0]);
      GuardedRunKeepsConsistent(Apply(s, ops[0]), ops[1..]);
    }
  }

  /**
   * Every store a guarded run reaches from the empty store, instruments
   * created along the way included, keeps every rule.
   */
  lemma FromEmptyStoreConsistent(ops: seq<Op>)
    requires GuardedRun(Empty(), ops)
    ensures Consistent(Run(Empty(), ops))
  {
    EmptyIsConsistent();
    GuardedRunKeepsConsistent(Empty(), ops);
  }
}
