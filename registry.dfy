/**
  The `plates` table: one row per plate string, each with a free-form
  status. The handlers `add_plate`, `delete_plate`, `update_plate` and
  `list_plates` and the SELECT and INSERT used by the recognition handlers
  all act on it. The table is modelled as a map from plate to status, held
  by an object whose methods change it in place as the SQL statements do.
*/
module Registry {
  import opened Wrappers

  /** One row of the `/ListPlates` answer. */
  datatype PlateRow = PlateRow(plateNumber: string, status: string)

  /** The `{"message": ...}` answers of the registry handlers. */
  datatype RegistryReply =
    | AlreadyExists   // "Registreringsnumret finns redan i databasen."
    | Added           // "Registreringsnumret har lagts till."
    | Deleted         // "Registreringsnumret har tagits bort."
    | StatusUpdated(plateNumber: string, status: string)   // "Status för <plate> har uppdaterats till <status>."

  /** The HTTP outcome of `/UpdatePlate`: a message, or an error status with its body. */
  datatype UpdateOutcome = UpdateOk(reply: RegistryReply) | HttpError(code: int, detail: string)

  /**
    `/UpdatePlate` as written: a missing plate reaches `raise HTTPException(...)`,
    but `HTTPException` is never imported, so a `NameError` is raised; the
    `except` handler raises the same `NameError` again and the server
    answers with a bare 500.
  */
  function UpdateOutcomeAsWritten(rowCount: nat, plate: string, status: string): (o: UpdateOutcome)
    ensures o.UpdateOk? <==> rowCount > 0
    ensures o.HttpError? ==> o.code == 500
    ensures o.UpdateOk? ==> o.reply == StatusUpdated(plate, status)
  {
    if rowCount == 0 then HttpError(500, "Internal Server Error")
    else UpdateOk(StatusUpdated(plate, status))
  }

  /** `/UpdatePlate` as the 404 branch evidently intends: a missing plate is "not found". */
  function UpdateOutcomeIntended(rowCount: nat, plate: string, status: string): (o: UpdateOutcome)
    ensures o.UpdateOk? <==> rowCount > 0
    ensures o.UpdateOk? ==> o.reply == StatusUpdated(plate, status)
    ensures o.HttpError? ==> o.code == 404 && o.detail == "Registreringsnumret hittades inte i databasen."
  {
    if rowCount == 0 then HttpError(404, "Registreringsnumret hittades inte i databasen.")
    else UpdateOk(StatusUpdated(plate, status))
  }

  /** Updating a plate that is not in the table: the code answers 500 where 404 was meant. */
  lemma UpdateMissingPlateFinding(plate: string, status: string)
    ensures UpdateOutcomeAsWritten(0, plate, status).HttpError?
    ensures UpdateOutcomeAsWritten(0, plate, status).code == 500
    ensures UpdateOutcomeIntended(0, plate, status).code == 404
    ensures UpdateOutcomeAsWritten(1, plate, status) == UpdateOutcomeIntended(1, plate, status)
  {
  }

  /** The plate's status when it has a row (the recognition handlers' SELECT). */
  function StatusOf(plates: map<string, string>, plate: string): Option<string> {
    if plate in plates then Some(plates[plate]) else None
  }

  class PlateRegistry {
    /** plate_number -> status */
    var plates: map<string, string>

    constructor (initial: map<string, string>)
      ensures plates == initial
    {
      plates := initial;
    }

    /** `SELECT status FROM plates WHERE plate_number = :plate`. */
    method Lookup(plate: string) returns (status: Option<string>)
      ensures status.Some? <==> plate in plates
      ensures status.Some? ==> status.value == plates[plate]
    {
      if plate in plates {
        status := Some(plates[plate]);
      } else {
        status := None;
      }
    }

    /** `/AddPlate`: insert-if-absent. */
    method AddPlate(plate: string, status: string) returns (reply: RegistryReply)
      modifies this
      ensures old(plate in plates) ==> reply == AlreadyExists && plates == old(plates)
      ensures old(plate !in plates) ==> reply == Added && plates == old(plates)[plate := status]
    {
      if plate in plates {
        return AlreadyExists;
      }
      plates := plates[plate := status];
      reply := Added;
    }

    /** The camera handler's bare INSERT of a plate its SELECT has just missed. */
    method Insert(plate: string, status: string)
      requires plate !in plates
      modifies this
      ensures plates == old(plates)[plate := status]
    {
      plates := plates[plate := status];
    }

    /** `/DeletePlate/{plate_number}`: removes that row if there is one; always reports success. */
    method DeletePlate(plate: string) returns (reply: RegistryReply)
      modifies this
      ensures reply == Deleted
      ensures plates == old(plates) - {plate}
    {
      plates := plates - {plate};
      reply := Deleted;
    }

    /** `/UpdatePlate`: `UPDATE ... WHERE plate_number = :plate`, then the row-count test. */
    method UpdatePlate(plate: string, status: string) returns (outcome: UpdateOutcome)
      modifies this
      ensures old(plate in plates) ==> plates == old(plates)[plate := status]
      ensures old(plate !in plates) ==> plates == old(plates)
      ensures outcome == UpdateOutcomeIntended(if old(plate in plates) then 1 else 0, plate, status)
    {
      var rowCount := 0;
      if plate in plates {
        plates := plates[plate := status];
        rowCount := 1;
      }
      outcome := UpdateOutcomeIntended(rowCount, plate, status);
    }

    /** `/ListPlates`: every row once, in no particular order. */
    method ListPlates() returns (rows: seq<PlateRow>)
      ensures |rows| == |plates.Keys|
      ensures forall r :: r in rows ==> r.plateNumber in plates && plates[r.plateNumber] == r.status
      ensures forall p :: p in plates ==> PlateRow(p, plates[p]) in rows
      ensures forall a, b :: 0 <= a < b < |rows| ==> rows[a].plateNumber != rows[b].plateNumber
    {
      rows := [];
      var remaining := plates.Keys;
      while remaining != {}
        invariant remaining <= plates.Keys
        invariant |rows| + |remaining| == |plates.Keys|
        invariant forall r :: r in rows ==> r.plateNumber in plates && r.plateNumber !in remaining && plates[r.plateNumber] == r.status
        invariant forall p :: p in plates && p !in remaining ==> PlateRow(p, plates[p]) in rows
        invariant forall a, b :: 0 <= a < b < |rows| ==> rows[a].plateNumber != rows[b].plateNumber
        decreases remaining
      {
        var p :| p in remaining;
        rows := rows + [PlateRow(p, plates[p])];
        remaining := remaining - {p};
      }
    }
  }
}
