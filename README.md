# Instrument lifecycle of the orchestra administration backend

This project models the one part of the orchestra backend with real business
logic: how an instrument's `estado` (`Disponible`, `Asignado`,
`Mantenimiento`, `De Baja`) moves as a side effect of two ledgers.

- The **assignment ledger** (`asignacionInstrumentoModel.js`) lends
  instruments to students. A checkout needs a `Disponible` instrument and makes
  it `Asignado`. A return, or deleting the last open loan, makes it
  `Disponible` again.
- The **movement ledger** (`movimientoInventarioModel.js`) records inventory
  events. Recording one maps its type to a new `estado` through a closed
  table. Editing or deleting a movement leaves `estado` alone.
- The **instrument directory** (`instrumentoModel.js`) is the table both ledgers
  write. Its generic update overwrites `estado` directly.
- The **bearer-token gate** (`authMiddleware.js`) takes the token from the
  `authorization` header and checks the caller's role.

The MySQL database is an in-memory store. `Store.Database` is a class with one
map per table (`Instrumento`, `Asignacion_Instrumento`,
`Movimiento_Inventario`), keyed by surrogate id, plus one AUTO_INCREMENT
counter per table. Each model function is a method over that shared handle.
Each method is proved equal to a pure `*Effect` function on the store's value
`Store.DbState`. Those functions' contracts state what the source promises:

- the error and not-found paths (`affectedRows` 0, nothing written);
- which columns change;
- that every other row stays as it was.

The `Lifecycle` module proves which operations keep two rules:

- an instrument with an open loan is never `Disponible`;
- no instrument has two open loans.

Alongside them it keeps one bookkeeping fact: every loan names an instrument
id the AUTO_INCREMENT counter has already handed out, so a new instrument has
no loans. It exhibits concrete stores on which the other operations, as
written, break these rules. It also proves that any sequence of these
operations, instrument creation included, that respects the guards the source
leaves out keeps them, starting from the empty store.

A few modelling choices:

- Dates are day numbers, because SQL DATE values compare chronologically.
- A NULL value is `Wrappers.Option.None`. That covers an open loan's return
  date, the optional instrument columns (`fecha_adquisicion`, `foto_url`,
  `ubicacion`, which the routes do not require) and a movement's
  `descripcion` and `responsable`.
- `jwt.verify` is a function parameter: a payload for a good token, None for
  a bad one.
- `affectedRows` of an UPDATE counts matched rows, because `mysql2` connects
  with the FOUND_ROWS flag by default. So it is 0 exactly when the id is
  missing.

## Model

| member | source | states |
|---|---|---|
| InstrumentDirectory.CreateEffect | backend/models/instrumentoModel.js:19-27 | adds exactly one row under an id no row had, at or past the counter, which moves past it; the row, `estado` included, is exactly the one passed in; other rows and the other tables unchanged |
| InstrumentDirectory.UpdateEffect | backend/models/instrumentoModel.js:30-39 | 0 affected rows and no change iff the id is missing; otherwise all seven columns, `estado` included, become the given ones with no lifecycle check; every other row and table unchanged |
| InstrumentDirectory.DeleteEffect | backend/models/instrumentoModel.js:42-46 | 0 affected rows iff the id is missing; removes only that row, and leaves assignments and movements that still name it in place |
| InstrumentDirectory.GetById | backend/models/instrumentoModel.js:12-16 | returns the stored row for an existing id and nothing for a missing one |
| InstrumentDirectory.Create | backend/models/instrumentoModel.js:19-27 | the INSERT on the store: new store and returned id are those of CreateEffect; keeps the counters ahead of every id |
| InstrumentDirectory.Update | backend/models/instrumentoModel.js:30-39 | the UPDATE on the store: new store and affected rows are those of UpdateEffect |
| InstrumentDirectory.Delete | backend/models/instrumentoModel.js:42-46 | the DELETE on the store: new store and affected rows are those of DeleteEffect |
| AssignmentLedger.CreateEffect | backend/models/asignacionInstrumentoModel.js:48-71 | fails with "not available" and writes nothing iff the instrument is missing or its `estado` is not exactly `Disponible`; otherwise adds exactly one row with the given instrument, student and dates under a fresh id (even with a return date already set) and sets that instrument `Asignado`, nothing else changing |
| AssignmentLedger.UpdateEffect | backend/models/asignacionInstrumentoModel.js:74-87 | 0 affected rows and no change iff the id is missing; otherwise the four columns become the given ones; no instrument changes, whatever the new instrument or return date |
| AssignmentLedger.DeleteEffect | backend/models/asignacionInstrumentoModel.js:90-116 | 0 affected rows and no change for a missing id; otherwise removes the row, and the instrument becomes `Disponible` iff no remaining row for it is open, keeping its `estado` otherwise; no other instrument changes |
| AssignmentLedger.ReturnEffect | backend/models/asignacionInstrumentoModel.js:120-143 | 0 affected rows and no change for a missing id; otherwise writes the return date and sets the instrument `Disponible` unconditionally (closed row, other open rows, maintenance or retirement notwithstanding); nothing else changes |
| AssignmentLedger.GetById | backend/models/asignacionInstrumentoModel.js:26-45 | returns the row iff it exists and its instrument still exists (the query joins `Instrumento`) |
| AssignmentLedger.Create | backend/models/asignacionInstrumentoModel.js:48-71 | the check, INSERT and UPDATE on the store: new store and result are those of CreateEffect |
| AssignmentLedger.Update | backend/models/asignacionInstrumentoModel.js:74-87 | the UPDATE on the store: new store and affected rows are those of UpdateEffect |
| AssignmentLedger.Delete | backend/models/asignacionInstrumentoModel.js:90-116 | the lookup, DELETE, open-loan count and conditional UPDATE on the store: new store and affected rows are those of DeleteEffect |
| AssignmentLedger.ReturnInstrument | backend/models/asignacionInstrumentoModel.js:120-143 | the two UPDATEs on the store: new store and affected rows are those of ReturnEffect |
| MovementLedger.EstadoFor | backend/models/movimientoInventarioModel.js:57-73 | a state change exactly for the four known types: Entrada and Reingreso give `Disponible`, Mantenimiento gives `Mantenimiento`, Baja gives `De Baja`; any other type gives no change, and no type gives `Asignado` |
| MovementLedger.CreateEffect | backend/models/movimientoInventarioModel.js:47-84 | always inserts exactly one row with the given fields under a fresh id; a known type sets the instrument's `estado` to the table's value, with every other column kept; any other type leaves every instrument unchanged; assignments untouched |
| MovementLedger.UpdateEffect | backend/models/movimientoInventarioModel.js:87-96 | 0 affected rows and no change iff the id is missing; otherwise replaces the movement's fields; no instrument or assignment changes |
| MovementLedger.DeleteEffect | backend/models/movimientoInventarioModel.js:99-103 | removes only the named movement (0 affected rows iff missing) and does not revert any instrument's `estado` |
| MovementLedger.GetAll | backend/models/movimientoInventarioModel.js:5-23 | lists every stored movement whose instrument exists, each exactly once and as stored, ordered by `fecha_movimiento` descending |
| MovementLedger.PlaceNewestFirst | backend/models/movimientoInventarioModel.js:18 | inserting a row into a newest-first listing keeps it newest first, adds exactly that row and keeps ids distinct |
| MovementLedger.GetById | backend/models/movimientoInventarioModel.js:26-44 | returns the movement iff it exists and its instrument still exists |
| MovementLedger.Create | backend/models/movimientoInventarioModel.js:47-84 | the INSERT and conditional UPDATE on the store: new store and id are those of CreateEffect |
| MovementLedger.Update | backend/models/movimientoInventarioModel.js:87-96 | the UPDATE on the store: new store and affected rows are those of UpdateEffect |
| MovementLedger.Delete | backend/models/movimientoInventarioModel.js:99-103 | the DELETE on the store: new store and affected rows are those of DeleteEffect |
| Lifecycle.CheckoutKeepsConsistent | backend/models/asignacionInstrumentoModel.js:48-71 | checkout keeps both rules: no lent instrument reads `Disponible`, and no instrument has two open loans |
| Lifecycle.ReturnOfOpenKeepsConsistent | backend/models/asignacionInstrumentoModel.js:120-143 | returning an open loan keeps both rules |
| Lifecycle.DeleteKeepsConsistent | backend/models/asignacionInstrumentoModel.js:99-112 | deleting any assignment keeps both rules |
| Lifecycle.MovementKeepsConsistent | backend/models/movimientoInventarioModel.js:56-79 | a movement whose type does not lead to `Disponible` keeps both rules |
| Lifecycle.MovementOfIdleKeepsConsistent | backend/models/movimientoInventarioModel.js:56-79 | any movement on an instrument with no open loan keeps both rules |
| Lifecycle.InstrumentCreateKeepsConsistent | backend/models/instrumentoModel.js:19-27 | creating an instrument, in any `estado`, keeps both rules and the issued-ids fact |
| Lifecycle.InstrumentCreateNeedsIssuedIds | backend/models/instrumentoModel.js:19-27 | on a store where a loan names an id not yet issued, creating the instrument with that id `Disponible` breaks the first rule |
| Lifecycle.InstrumentDeleteKeepsConsistent | backend/models/instrumentoModel.js:42-46 | deleting an instrument keeps both rules |
| Lifecycle.ReturnOfClosedBreaksConsistent | backend/models/asignacionInstrumentoModel.js:121-137 | returning an already-closed loan makes an instrument `Disponible` while another loan of it is open |
| Lifecycle.EntradaWhileLentBreaksConsistent | backend/models/movimientoInventarioModel.js:57-79 | an `Entrada` on a lent instrument makes it `Disponible` while the loan is open |
| Lifecycle.InstrumentUpdateBreaksConsistent | backend/models/instrumentoModel.js:30-39 | the generic update can write `Disponible` over a lent instrument |
| Lifecycle.AssignmentUpdateBreaksConsistent | backend/models/asignacionInstrumentoModel.js:74-87 | editing a closed loan back to open gives an instrument two open loans |
| Lifecycle.DeleteOfClosedRevivesRetired | backend/models/asignacionInstrumentoModel.js:104-111 | deleting a closed loan of a `De Baja` instrument with no open loan sets it `Disponible` |
| Lifecycle.CheckoutThenReturn | backend/models/asignacionInstrumentoModel.js:48-143 | checkout makes the instrument `Asignado`; returning that loan makes it `Disponible` and stores the return date |
| Lifecycle.MaintenanceBlocksCheckout | backend/models/movimientoInventarioModel.js:61-63 | after a `Mantenimiento` movement, checkout of that instrument fails and writes nothing |
| Lifecycle.BajaAlwaysRetires | backend/models/movimientoInventarioModel.js:64-66 | `Baja` yields `De Baja` whatever the prior state, `Asignado` included |
| Lifecycle.MovementEstadoIgnoresHistory | backend/models/movimientoInventarioModel.js:56-79 | the state a known movement type sets does not depend on the store it is recorded in |
| Lifecycle.MovementTwiceSameInstruments | backend/models/movimientoInventarioModel.js:57-76 | recording the same movement twice leaves the instrument table as recording it once did |
| Lifecycle.GuardedRunKeepsConsistent | backend/models/asignacionInstrumentoModel.js:48-143 | any sequence of instrument creations, checkouts, returns of open loans, assignment deletions, movement operations (a `Disponible`-making one only on an instrument with no open loan) and instrument deletions keeps both rules |
| Lifecycle.FromEmptyStoreConsistent | backend/models/instrumentoModel.js:19-27 | every store such a sequence reaches from the empty store keeps both rules |
| Auth.Split | backend/middleware/authMiddleware.js:14 | `split(' ')` yields at least one piece, no piece holds the separator, and there are two or more pieces iff the separator occurs |
| Auth.JoinSplit | backend/middleware/authMiddleware.js:14 | joining the pieces of a split gives the header back |
| Auth.SplitJoin | backend/middleware/authMiddleware.js:14 | splitting the join of separator-free pieces gives the pieces back |
| Auth.ExtractToken | backend/middleware/authMiddleware.js:13-14 | no token iff the header is absent or is non-empty without a space; an empty header is itself the (empty) token; a token holds no space |
| Auth.TokenIsSecondField | backend/middleware/authMiddleware.js:14 | the token of a non-empty header is the text after its first space, up to the next space or the end |
| Auth.HeaderForms | backend/middleware/authMiddleware.js:13-18 | `Bearer abc` gives `abc`, `Bearer ` gives the empty token, `Bearer` gives none, an empty header gives the empty token |
| Auth.Authenticate | backend/middleware/authMiddleware.js:11-29 | 401 iff there is no token; 403 iff there is one and verification rejects it; otherwise proceeds with the verified payload |
| Auth.AuthenticateToken | backend/middleware/authMiddleware.js:11-29 | answers as Authenticate does; sets `req.user` to the payload and proceeds only on success, leaving `req.user` alone otherwise |
| Auth.AuthorizeRoles | backend/middleware/authMiddleware.js:32-43 | 401 iff there is no user; proceeds iff the user's `rol` is in the list; 403 otherwise |
| Auth.EmptyRoleListRejectsAll | backend/middleware/authMiddleware.js:32-41 | with no roles listed every authenticated user gets 403 |
| Auth.GatesInSequence | backend/middleware/authMiddleware.js:11-43 | through both gates a request proceeds iff it carries a token, verification accepts it, and the decoded role is listed |

## Left out

- Concurrency: the model is sequential, so the check-then-insert race in
  assignment `create` (two checkouts of one instrument) is not represented.
- Failing SQL calls and their callbacks are not modelled. In-memory map writes
  cannot fail. So the logged-and-ignored failures of the secondary `estado`
  updates are not modelled either, nor the crash when the open-loan count
  query fails.
- The branch of `returnInstrument` where the re-read of the assignment finds no
  row cannot be reached in a sequential store, because the row was just
  updated. It is not modelled.
- The schema is not part of this model. No foreign key or UNIQUE constraint is
  enforced, and no column default or ENUM check on `estado` either. A
  movement for a missing instrument is therefore stored, and its `estado`
  UPDATE matches no row. `estado` is a closed four-value type, so values
  outside that set, and the NULL or default an instrument request without
  `estado` leaves, are not represented.
- The callback that `delete` of an assignment fires before its `estado`
  UPDATE has finished is modelled as finishing after it.
- `getAll` of instruments and of assignments (unordered full scans) and the
  joined name columns of every query are not modelled. Lookups are by id only.
- Express routing, body validation, HTTP status mapping, the default return
  date taken from the clock, and the database connection are not modelled,
  and neither are the student, program and user models (plain CRUD and
  password hashing).
- `jwt.verify` is an oracle parameter. The secret, signatures and expiry are
  not modelled, and neither is the process exit when the secret is missing.
- The payload's `rol` is always a string here. A token without a `rol` claim
  is not represented.
