/** The Go writer of task status. */
module ApiServer {
  import opened TaskStatus

  const NO_REASON := "no reason provided"

  /** What goes wrong in a transaction: a refused statement, or a commit whose answer is lost. */
  datatype Fault = NoFault | QueryFails | UpdateFails | InsertFails | CommitFails | AnswerLost

  class ApiStore {
    var db: Db

    /** `updateTaskStatus`: a refused statement rolls the transaction back. */
    method UpdateTaskStatus(tid: Tid, to: int, reason: string, fault: Fault) returns (ok: bool)
      modifies this
      ensures var given := if reason == "" then NO_REASON else reason;
              var (after, outcome) := Update(old(db), tid, to, given);
              && ok == (fault.NoFault? && outcome == Applied)
              && db == if (fault.NoFault? || fault.AnswerLost?) && outcome == Applied then after else old(db)
    {
      var given := reason;
      if given == "" { given := NO_REASON; }
      if fault.QueryFails? || tid !in db.rows { return false; }
      var row := db.rows[tid];
      if !GoAllowed(row.status, to) { return false; }
      if fault.UpdateFails? { return false; }
      var rows := db.rows[tid := row.(status := to, info := given)];
      if fault.InsertFails? { return false; }
      var history := db.history + [HistoryRow(tid, row.status, to, given)];
      if fault.CommitFails? { return false; }
      db := Db(rows, history);
      ok := !fault.AnswerLost?;
    }
  }
}
