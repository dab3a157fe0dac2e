/**
 The task state machine and its audit table.

 `CppAllowed` is the transition table of the C++ writer and `GoAllowed` the one of the Go
 writer.  A task's audit trail is the list of its `task_status_history` rows in insertion
 order; `Chain` says when such a list is a legal life of one task.
 */
module TaskStatus {

  type Tid = string

  const PENDING := 0
  const RUNNING := 1
  const UPLOADING := 2
  const DONE := 3
  const FAILED := 4

  /** `old_status` of the row written when a task is created. */
  const NOT_CREATED := -1

  /** A `hotmethod_task` row, reduced to the columns the protocol reads or writes. */
  datatype TaskRow = TaskRow(status: int, info: string, targetIp: string, cosKey: string, analysis: int)

  /** A `task_status_history` row. */
  datatype HistoryRow = HistoryRow(tid: Tid, from: int, to: int, reason: string)

  /** What one status update did to the database. */
  datatype Outcome = Applied | Rejected | NotFound

  /** The two tables a status update touches. */
  datatype Db = Db(rows: map<Tid, TaskRow>, history: seq<HistoryRow>)

  /** The C++ table, branch by branch. */
  predicate CppAllowed(from: int, to: int) {
    if from == to then false
    else if from == PENDING && (to == RUNNING || to == FAILED) then true
    else if from == RUNNING && (to == UPLOADING || to == FAILED) then true
    else if from == UPLOADING && (to == DONE || to == FAILED) then true
    else if from == FAILED && to == PENDING then true
    else false
  }

  /** The Go table, a switch on the old status. */
  predicate GoAllowed(from: int, to: int)
    ensures GoAllowed(from, to) == CppAllowed(from, to)
  {
    if from == to then false
    else if from == PENDING then to == RUNNING || to == FAILED
    else if from == RUNNING then to == UPLOADING || to == FAILED
    else if from == UPLOADING then to == DONE || to == FAILED
    else if from == FAILED then to == PENDING
    else false
  }

  /** A status update as one atomic step: check the transition, then write row and history. */
  function Update(db: Db, tid: Tid, to: int, reason: string): (r: (Db, Outcome)) {
    if tid !in db.rows then (db, NotFound)
    else if !CppAllowed(db.rows[tid].status, to) then (db, Rejected)
    else
      var row := db.rows[tid];
      (Db(db.rows[tid := row.(status := to, info := reason)],
          db.history + [HistoryRow(tid, row.status, to, reason)]), Applied)
  }

  /** The rows of one task, in insertion order. */
  function TrailOf(history: seq<HistoryRow>, tid: Tid): seq<HistoryRow> {
    if history == [] then []
    else
      var last := history[|history| - 1];
      TrailOf(history[..|history| - 1], tid) + if last.tid == tid then [last] else []
  }

  /** A legal life of one task. */
  predicate Chain(trail: seq<HistoryRow>) {
    && trail != []
    && trail[0].from == NOT_CREATED && trail[0].to == PENDING
    && forall i :: 0 < i < |trail| ==> trail[i].from == trail[i - 1].to && CppAllowed(trail[i].from, trail[i].to)
  }

  predicate TrailEndsAt(trail: seq<HistoryRow>, status: int) {
    Chain(trail) && trail[|trail| - 1].to == status
  }

  /** The audit table tells the truth about task `t`: its life so far, or nothing if there is no such task. */
  predicate TaskAudited(db: Db, t: Tid) {
    if t in db.rows then TrailEndsAt(TrailOf(db.history, t), db.rows[t].status) else TrailOf(db.history, t) == []
  }

  ghost predicate AuditOk(db: Db) {
    forall t :: TaskAudited(db, t)
  }

  lemma TrailOfAppend(history: seq<HistoryRow>, row: HistoryRow, tid: Tid)
    ensures row.tid == tid ==> TrailOf(history + [row], tid) == TrailOf(history, tid) + [row]
    ensures row.tid != tid ==> TrailOf(history + [row], tid) == TrailOf(history, tid)
  {
  }

  lemma UpdateKeepsTask(db: Db, tid: Tid, to: int, reason: string, t: Tid)
    requires TaskAudited(db, t)
    ensures TaskAudited(Update(db, tid, to, reason).0, t)
  {
  }

  /** Every atomic status update, whatever its arguments, keeps the audit table truthful. */
  lemma UpdateKeepsAudit(db: Db, tid: Tid, to: int, reason: string)
    requires AuditOk(db)
    ensures AuditOk(Update(db, tid, to, reason).0)
  {
    forall t ensures TaskAudited(Update(db, tid, to, reason).0, t) {
      UpdateKeepsTask(db, tid, to, reason, t);
    }
  }

  // ----- What a legal life implies -----

  /** DONE is absorbing: a row that enters DONE is the last row. */
  lemma DoneIsAbsorbing(trail: seq<HistoryRow>, i: nat)
    requires Chain(trail) && i < |trail| && trail[i].to == DONE
    ensures i == |trail| - 1
  {
    forall k | 0 <= k < |trail| - 1 ensures trail[k].to != DONE {
      assert trail[k + 1].from == trail[k].to;
    }
  }

  /** The rows of a trail as the list of statuses they enter. */
  function Entered(trail: seq<HistoryRow>): (r: seq<int>)
    ensures |r| == |trail| && forall i :: 0 <= i < |trail| ==> r[i] == trail[i].to
  {
    seq(|trail|, i requires 0 <= i < |trail| => trail[i].to)
  }

  /** A finished task went PENDING, RUNNING, UPLOADING, DONE in its last four rows. */
  lemma DoneTrailSuffix(trail: seq<HistoryRow>)
    requires TrailEndsAt(trail, DONE)
    ensures |trail| >= 4
    ensures Entered(trail)[|trail| - 4..] == [PENDING, RUNNING, UPLOADING, DONE]
  {
    var n := |trail|;
    assert trail[n - 1].from == UPLOADING && n >= 2;
    assert trail[n - 2].from == RUNNING && n >= 3;
    assert trail[n - 3].from == PENDING && n >= 4;
    assert trail[n - 4].to == PENDING;
  }

  /** How often the task was retried. */
  function Retries(trail: seq<HistoryRow>): nat {
    if trail == [] then 0
    else
      var last := trail[|trail| - 1];
      Retries(trail[..|trail| - 1]) + if last.from == FAILED && last.to == PENDING then 1 else 0
  }

  /** How many rows one attempt can have used when it stands at `status`. */
  function AttemptRows(status: int): nat {
    if status == PENDING then 1 else if status == RUNNING then 2 else if status == UPLOADING then 3 else 4
  }

  lemma {:induction false} TrailLengthByStatus(trail: seq<HistoryRow>)
    requires Chain(trail)
    ensures |trail| <= 4 * Retries(trail) + AttemptRows(trail[|trail| - 1].to)
    ensures PENDING <= trail[|trail| - 1].to <= FAILED
  {
    var n := |trail|;
    if n > 1 {
      var prefix := trail[..n - 1];
      assert Chain(prefix);
      TrailLengthByStatus(prefix);
      assert trail[n - 1].from == prefix[n - 2].to;
    } else {
      assert Retries(trail) >= 0;
    }
  }

  /** An audit trail has at most four rows per attempt. */
  lemma TrailLengthBound(trail: seq<HistoryRow>)
    requires Chain(trail)
    ensures |trail| <= 4 * (Retries(trail) + 1)
  {
    TrailLengthByStatus(trail);
  }

  /** How many rows of the audit table take task `tid` into `status`. */
  function EnterCount(history: seq<HistoryRow>, tid: Tid, status: int): nat {
    if history == [] then 0
    else
      var last := history[|history| - 1];
      EnterCount(history[..|history| - 1], tid, status) + if last.tid == tid && last.to == status then 1 else 0
  }
}
