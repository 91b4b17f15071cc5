/** The `functions` table and the statements that change it. */
module FunctionStore {
  import opened Outcomes

  type Id = nat
  type Obj = nat // the name of an object in a bucket; every upload and every build draws a fresh uuid

  datatype Status = Quarantined | Extracted | Scanning | Detected | Verified | PreparingEnvironment | Ready | Failed

  datatype Row = Row(status: Status, archive: Obj, drive: Option<Obj>)

  type Rows = map<Id, Row>

  function Insert(rows: Rows, id: Id, archive: Obj): Rows {
    rows[id := Row(Quarantined, archive, None)]
  }

  function SetStatus(rows: Rows, id: Id, status: Status): Rows {
    if id in rows then rows[id := rows[id].(status := status)] else rows
  }

  predicate Matches(rows: Rows, id: Id, from: Status) {
    id in rows && rows[id].status == from
  }

  function SetStatusIf(rows: Rows, id: Id, from: Status, to: Status): Rows {
    if Matches(rows, id, from) then rows[id := rows[id].(status := to)] else rows
  }

  function SetDrive(rows: Rows, id: Id, status: Status, drive: Obj): Rows {
    if id in rows then rows[id := rows[id].(status := status, drive := Some(drive))] else rows
  }

  class Store {
    var rows: Rows

    constructor ()
      ensures rows == map[]
    {
      rows := map[];
    }

    method CreateFunction(id: Id, archive: Obj, w: Write) returns (err: bool)
      requires id !in rows // a fresh uuid
      modifies this
      ensures rows == Land(w, old(rows), Insert(old(rows), id, archive)) && err == w.Errs()
      ensures rows == if w.Lands() then old(rows)[id := Row(Quarantined, archive, None)] else old(rows)
    {
      if w.Lands() {
        rows := rows[id := Row(Quarantined, archive, None)];
      }
      err := w.Errs();
    }

    method UpdateFunctionStatus(id: Id, status: Status, w: Write) returns (err: bool)
      modifies this
      ensures rows == Land(w, old(rows), SetStatus(old(rows), id, status)) && err == w.Errs()
      ensures rows ==
        if w.Lands() && id in old(rows) then old(rows)[id := old(rows)[id].(status := status)]
        else old(rows)
    {
      if w.Lands() && id in rows {
        rows := rows[id := rows[id].(status := status)];
      }
      err := w.Errs();
    }

    method UpdateFunctionStatusIf(id: Id, from: Status, to: Status, w: Write) returns (claimed: bool, err: bool)
      modifies this
      ensures rows == Land(w, old(rows), SetStatusIf(old(rows), id, from, to))
      ensures err == w.Errs()
      ensures claimed == (!err && id in old(rows) && old(rows)[id].status == from)
      ensures rows ==
        if w.Lands() && id in old(rows) && old(rows)[id].status == from
        then old(rows)[id := old(rows)[id].(status := to)]
        else old(rows)
    {
      var affected := 0;
      if w.Lands() && id in rows && rows[id].status == from {
        rows := rows[id := rows[id].(status := to)];
        affected := 1;
      }
      err := w.Errs();
      claimed := !err && affected == 1;
    }

    method UpdateFunctionStatusAndDrivePath(id: Id, status: Status, drive: Obj, w: Write) returns (err: bool)
      modifies this
      ensures rows == Land(w, old(rows), SetDrive(old(rows), id, status, drive)) && err == w.Errs()
      ensures rows ==
        if w.Lands() && id in old(rows) then old(rows)[id := Row(status, old(rows)[id].archive, Some(drive))]
        else old(rows)
    {
      if w.Lands() && id in rows {
        rows := rows[id := rows[id].(status := status, drive := Some(drive))];
      }
      err := w.Errs();
    }
  }
}
