/** The `invocations` table and the statements that change it. */
module InvocationStore {
  import opened Outcomes

  type Id = nat

  datatype Status = Pending | Executing | Done | Failed

  datatype Row = Row(functionId: nat, status: Status, logPath: Option<string>, endTime: Option<int>)

  type Rows = map<Id, Row>

  /** INSERT of a fresh invocation. */
  function Insert(rows: Rows, id: Id, functionId: nat): Rows {
    rows[id := Row(functionId, Pending, None, None)]
  }

  /** UPDATE ... SET status WHERE id: a missing row is no error and no change. */
  function SetStatus(rows: Rows, id: Id, status: Status): Rows {
    if id in rows then rows[id := rows[id].(status := status)] else rows
  }

  /** Does UPDATE ... WHERE id AND status = from affect a row? */
  predicate Matches(rows: Rows, id: Id, from: Status) {
    id in rows && rows[id].status == from
  }

  function SetStatusIf(rows: Rows, id: Id, from: Status, to: Status): Rows {
    if Matches(rows, id, from) then rows[id := rows[id].(status := to)] else rows
  }

  function SetFinished(rows: Rows, id: Id, status: Status, logPath: string, endTime: int): Rows {
    if id in rows
    then rows[id := rows[id].(status := status, logPath := Some(logPath), endTime := Some(endTime))]
    else rows
  }

  class Store {
    var rows: Rows

    constructor ()
      ensures rows == map[]
    {
      rows := map[];
    }

    method CreateInvocation(id: Id, functionId: nat, w: Write) returns (err: bool)
      requires id !in rows // a fresh uuid
      modifies this
      ensures rows == Land(w, old(rows), Insert(old(rows), id, functionId)) && err == w.Errs()
      ensures rows == if w.Lands() then old(rows)[id := Row(functionId, Pending, None, None)] else old(rows)
    {
      if w.Lands() {
        rows := rows[id := Row(functionId, Pending, None, None)];
      }
      err := w.Errs();
    }

    method UpdateInvocationStatus(id: Id, status: Status, w: Write) returns (err: bool)
      modifies this
      ensures rows == Land(w, old(rows), SetStatus(old(rows), id, status)) && err == w.Errs()
      ensures rows ==
        if w.Lands() && id in old(rows) then old(rows)[id := old(rows)[id].(status := status)]
        else old(rows)
    {
      if w.Lands() && id in rows {
        rows := rows[id := rows[id].(status := status)];
      }
      err := w.Errs();
    }

    method UpdateInvocationStatusIf(id: Id, from: Status, to: Status, w: Write)
      returns (claimed: bool, err: bool)
      modifies this
      ensures rows == Land(w, old(rows), SetStatusIf(old(rows), id, from, to))
      ensures err == w.Errs()
      ensures claimed == (!err && id in old(rows) && old(rows)[id].status == from)
      ensures rows ==
        if w.Lands() && id in old(rows) && old(rows)[id].status == from
        then old(rows)[id := old(rows)[id].(status := to)]
        else old(rows)
    {
      var affected := 0;
      if w.Lands() && id in rows && rows[id].status == from {
        rows := rows[id := rows[id].(status := to)];
        affected := 1;
      }
      err := w.Errs();
      claimed := !err && affected == 1;
    }

    method UpdateInvocationStatusAndLogPathAndEndTime(
        id: Id, status: Status, logPath: string, endTime: int, w: Write)
      returns (err: bool)
      modifies this
      ensures rows == Land(w, old(rows), SetFinished(old(rows), id, status, logPath, endTime))
      ensures rows ==
        if w.Lands() && id in old(rows)
        then old(rows)[id := Row(old(rows)[id].functionId, status, Some(logPath), Some(endTime))]
        else old(rows)
      ensures err == w.Errs()
    {
      if w.Lands() && id in rows {
        rows := rows[id := rows[id].(status := status, logPath := Some(logPath), endTime := Some(endTime))];
      }
      err := w.Errs();
    }
  }
}
